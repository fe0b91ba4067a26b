/** The Room entities: the rows of the four tables the app stores. The
    `Long` fields and `Settings.id` are unbounded integers here; the nullable
    `Int` country code of a prefix rule is an `Int32`. */
module Entities {
  import opened Wrappers
  import opened Text

  /** A Kotlin `Int`. */
  type Int32 = x: int | IntMin <= x <= IntMax

  /** The single settings row; its primary key is `id`, always 0 in the app. */
  datatype Settings = Settings(
    id: int,
    blockUnknownEnabled: bool,
    skipCallLogOnBlock: bool,
    skipNotificationOnBlock: bool)

  /** `Settings()`: the constructor's default arguments. */
  const DefaultSettings: Settings := Settings(0, true, false, true)

  /** A blocked number, keyed by its E.164 text. */
  datatype BlockedNumber = BlockedNumber(e164: string, createdAt: int)

  datatype PrefixScope = ByCountry | National

  /** A prefix rule; `id` is auto-generated when it is 0. */
  datatype BlockedPrefixRule = BlockedPrefixRule(
    id: int,
    scope: PrefixScope,
    countryCode: Option<Int32>,
    prefixDigits: string,
    createdAt: int)

  /** A blocked call, with the raw number when there was one; `id` is
      auto-generated when it is 0. */
  datatype BlockedEvent = BlockedEvent(id: int, e164: Option<string>, ts: int)
}
