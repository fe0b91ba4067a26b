/** The parts of libphonenumber's `PhoneNumberUtil` that the app calls, as an
    oracle: the numbering-plan metadata behind them is not modelled, so every
    property of the app is proved for any behaviour of these functions. */
module PhoneLib {
  import opened Wrappers

  /** A parsed number: its country calling code and its national significant
      number (`getNationalSignificantNumber`). */
  datatype PhoneNumber = PhoneNumber(countryCode: int, nationalSignificantNumber: string)

  /** What `parse(text, region)` does: return a number or throw a
      `NumberParseException`, whose message may be null. */
  datatype ParseOutcome = Parsed(number: PhoneNumber) | ParseError(message: Option<string>)

  /** `PhoneNumberUtil.MatchType`. */
  datatype MatchType = NotANumber | NoMatch | ShortNsnMatch | NsnMatch | ExactMatch

  /** What `isNumberMatch(a, b)` does: return a match type or throw. */
  datatype MatchOutcome = Returned(matchType: MatchType) | Threw

  /** One instance of the library: `parse`, `isValidNumber`, `format(_, E164)`
      and `isNumberMatch` on two strings. */
  datatype PhoneUtil = PhoneUtil(
    parse: (string, string) -> ParseOutcome,
    isValidNumber: PhoneNumber -> bool,
    formatE164: PhoneNumber -> string,
    isNumberMatch: (string, string) -> MatchOutcome)

  /** The region code libphonenumber reserves for "unknown region"; with it,
      only numbers written with a leading `+` can be parsed. */
  const UnknownRegion: string := "ZZ"
}
