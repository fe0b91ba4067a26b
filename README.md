# iOG26 call filter — a Dafny model

iOG26 is an Android call-screening app. The system hands it every incoming
call. The app decides, in a fixed order of checks, whether to let the call
ring or to reject it:

1. an emergency number is always allowed;
2. an anonymous call is blocked when "block unknown" is on;
3. a number matching a stored number is blocked;
4. a number matching a stored prefix rule is blocked;
5. anything else is allowed.

Blocked calls are logged as events. The screens manage the stored numbers,
the prefix rules (by country, or on the national significant number only)
and the settings. A history screen summarises the events per caller, and a
daily digest worker posts a notification listing today's blocked callers.

The model covers the following parts:

- **Number helpers** (`Matching`, `NumberMatch`, `PrefixMatcher`). They run on
  an oracle for libphonenumber (`PhoneLib.PhoneUtil`): its parser, validity
  test, E.164 formatter and match heuristic are parameters of the model.
- **The call decision and the platform response** (`CallPolicy`).
- **The rule store**: the `BlockRepository` interface and its in-memory and
  Room-backed implementations.
- **The Room tables** (`Daos`).
- **The four view models**: prefix rules, numbers, events and settings.
- **The daily digest**: when it notifies, what it shows, and when it runs next.
- **The logic of the three list and history screens**: input filtering,
  cursor remapping, search, chips, axis labels, counts and badges.

Design notes:

- **Modelling choices**
  - The Room tables are classes whose rows are a sequence in the order
    `SELECT *` returns them. `OnConflictStrategy.REPLACE` deletes the old row
    and appends the new one, and AUTOINCREMENT keys are tracked by the
    largest id handed out.
  - Kotlin `Int` values are the `Int32` subset type; Kotlin `Long` values
    are unbounded integers.
  - Each `viewModelScope.launch` block is modelled as running to completion
    before the call returns.
  - The current time is a parameter (`now`), and so is the start instant of
    a query (`since`).
- **How the call decision reaches the rules**
  - The call policy tests prefix rules through `Matching.matchesPrefix`,
    with the country code as text. It does not go through `PrefixMatcher`.
  - `RoomPrefixHitIsPrefixMatcher` proves that the two agree for every rule
    whose scope matches its country code.
  - The "allow" decision carries the empty reason `""`.
- **Behaviour of the code as written** (proved, not corrected)
  - `NumbersViewModel.add` stores whatever parses, with no validity check
    (`InvalidNumberAccepted`).
  - In `PrefixRulesViewModel.add`, a country code that is typed as "+ 56",
    or does not fit an `Int`, silently gives a NATIONAL rule
    (`WhitespaceAfterPlusGivesNoCode`, `OverflowingCountryCodeIsNational`).
  - A country code "056" is stored as 56 (`SavedFieldsDecideScope`).
    The stored code is later compared as text, so a rule created some other
    way with the text "056" never matches
    (`LeadingZeroCountryCodeNeverMatches`).
  - The digest's "… y N más" counts repeated entries, not distinct callers
    (`MoreCountsRepeats`).
- **Dead code**
  - `g.number ?: unknownCaller` in the history screen can never take its
    right-hand side, because a group's number is never null.

## Model

All paths are under `app/src/main/java/com/humanjuan/iog26/`, written in full below.

| member | source | states |
|---|---|---|
| Matching.RegionOrUnknown | app/src/main/java/com/humanjuan/iog26/domain/Matching.kt:22 | the given region, or "ZZ", libphonenumber's unknown region, when there is none |
| Matching.ToE164 | app/src/main/java/com/humanjuan/iog26/domain/Matching.kt:21-27 | null when parsing throws; otherwise a value exactly when the parsed number is valid, and that value is its E.164 text |
| Matching.ToNsn | app/src/main/java/com/humanjuan/iog26/domain/Matching.kt:30-34 | a value exactly when the number parses, and it is the parsed number's national significant number |
| Matching.CountryCodeOf | app/src/main/java/com/humanjuan/iog26/domain/Matching.kt:37-41 | a value exactly when the number parses, and it is the parsed country code |
| Matching.CleanCountryCode | app/src/main/java/com/humanjuan/iog26/domain/Matching.kt:57 | null for null or for text that is blank once one `+` is removed; otherwise the trimmed remainder, which is non-empty with non-blank ends |
| Matching.MatchesPrefix | app/src/main/java/com/humanjuan/iog26/domain/Matching.kt:48-63 | false when parsing throws; otherwise true iff the NSN starts with the prefix and, when a cleaned country code is present, the decimal text of the parsed country code equals it |
| Matching.LeadingZeroCountryCodeNeverMatches | app/src/main/java/com/humanjuan/iog26/domain/Matching.kt:57-61 | a cleaned country code of two or more characters starting with `0` matches no number at all |
| Matching.DecimalCountryCodeMatches | app/src/main/java/com/humanjuan/iog26/domain/Matching.kt:57-61 | a country code written as the decimal text of n (with or without `+`) matches iff the number parses, its country code is n and its NSN starts with the prefix |
| Matching.CleanDecimalCountryCode | app/src/main/java/com/humanjuan/iog26/domain/Matching.kt:57 | cleaning the decimal text of a number, with or without one leading `+`, gives that decimal text |
| Matching.CleanTrimmedCountryCode | app/src/main/java/com/humanjuan/iog26/domain/Matching.kt:57 | cleaning text that does not start with `+` and has non-blank ends, with or without one leading `+`, gives that text |
| Matching.NormalizeToE164 | app/src/main/java/com/humanjuan/iog26/domain/Matching.kt:69-72 | a value exactly when the input parses (no validity check), and it is the E.164 text of the parsed number |
| Matching.NormalizeExtendsToE164 | app/src/main/java/com/humanjuan/iog26/domain/Matching.kt:69-72 | where `toE164` gives a value, `normalizeToE164` gives the same one; the two differ exactly on numbers that parse but are not valid |
| Matching.IsAcceptedMatch | app/src/main/java/com/humanjuan/iog26/domain/Matching.kt:76-78 | a match type is accepted exactly when it is neither NOT_A_NUMBER nor NO_MATCH |
| Matching.NumberMatches | app/src/main/java/com/humanjuan/iog26/domain/Matching.kt:74-79 | unknown exactly when `isNumberMatch` throws; true iff the match type is EXACT_MATCH, NSN_MATCH or SHORT_NSN_MATCH; NO_MATCH and NOT_A_NUMBER give false |
| Matching.RuleMatches | app/src/main/java/com/humanjuan/iog26/domain/Matching.kt:97-101 | a matching rule's digits start the NSN, and a matching BY_COUNTRY rule carries the number's country code; a BY_COUNTRY rule with a null code never matches; digits that start the NSN match for a NATIONAL rule, and for a BY_COUNTRY rule with that code |
| Matching.RuleOrderIrrelevant | app/src/main/java/com/humanjuan/iog26/domain/Matching.kt:97-102 | whether some rule matches does not depend on the order of the rules (any permutation gives the same answer) |
| Matching.PrefixMatcher.constructor | app/src/main/java/com/humanjuan/iog26/domain/Matching.kt:86-89 | the matcher holds the oracle, the rules and the region it was given |
| Matching.PrefixMatcher.IsBlocked | app/src/main/java/com/humanjuan/iog26/domain/Matching.kt:92-104 | false when parsing throws; otherwise true iff some rule matches (BY_COUNTRY rules need an equal country code and a prefix of the NSN; NATIONAL rules need only the prefix) |
| BlockRepository.SetAdd | app/src/main/java/com/humanjuan/iog26/data/BlockRepository.kt:58 | `numbers += e164` on an insertion-ordered set: members are the old ones plus e164, no duplicates appear, an already present number changes nothing, a new one goes last |
| BlockRepository.SetRemove | app/src/main/java/com/humanjuan/iog26/data/BlockRepository.kt:59 | `numbers -= e164`: members are the old ones except e164, no duplicates appear, the order of the rest is kept |
| BlockRepository.BlankToNull | app/src/main/java/com/humanjuan/iog26/data/BlockRepository.kt:62 | `ifBlank { null }`: null or blank text becomes null, other text is kept, and the result is never blank |
| BlockRepository.AppendFreshId | app/src/main/java/com/humanjuan/iog26/data/BlockRepository.kt:61-64 | appending a rule whose id exceeds every stored id keeps the ids strictly increasing |
| BlockRepository.InMemoryBlockRepository.constructor | app/src/main/java/com/humanjuan/iog26/data/BlockRepository.kt:69-75 | the seeded state: the rule (1, "800", null), the number "+56987654321", the toggle off, region "CL", the next id 2, and the invariant holds |
| BlockRepository.InMemoryBlockRepository.Snapshot | app/src/main/java/com/humanjuan/iog26/data/BlockRepository.kt:45-51 | the four getters return the stored region, toggle, numbers and rules; in a valid state the numbers have no repeats and the rule ids strictly increase |
| BlockRepository.InMemoryBlockRepository.SetDefaultRegion | app/src/main/java/com/humanjuan/iog26/data/BlockRepository.kt:55 | only the region changes, to the given value |
| BlockRepository.InMemoryBlockRepository.SetBlockUnknown | app/src/main/java/com/humanjuan/iog26/data/BlockRepository.kt:56 | only the toggle changes, to the given value |
| BlockRepository.InMemoryBlockRepository.AddBlockedNumber | app/src/main/java/com/humanjuan/iog26/data/BlockRepository.kt:58 | the number set becomes `SetAdd` of the old one; nothing else changes |
| BlockRepository.InMemoryBlockRepository.RemoveBlockedNumber | app/src/main/java/com/humanjuan/iog26/data/BlockRepository.kt:59 | the number set becomes `SetRemove` of the old one; nothing else changes |
| BlockRepository.InMemoryBlockRepository.AddPrefix | app/src/main/java/com/humanjuan/iog26/data/BlockRepository.kt:61-65 | the returned rule has the counter's old value as id, the digits, and the blank-to-null country code; it is appended, the counter advances by one, ids stay unique and increasing |
| BlockRepository.InMemoryBlockRepository.RemovePrefix | app/src/main/java/com/humanjuan/iog26/data/BlockRepository.kt:66 | exactly the rules with that id are removed, the others keep their order, and the invariant holds |
| BlockRepository.RoomBlockUnknownEnabled | app/src/main/java/com/humanjuan/iog26/data/BlockRepository.kt:84-87 | the stored flag, or true when there is no settings row |
| BlockRepository.RoomIsBlockedNumber | app/src/main/java/com/humanjuan/iog26/data/BlockRepository.kt:89-92 | true iff some row has exactly that `e164` key |
| BlockRepository.RoomGetBlockedNumbers | app/src/main/java/com/humanjuan/iog26/data/BlockRepository.kt:94-96 | the keys of all rows, one per row, in table order |
| BlockRepository.RoomBlockedIffListed | app/src/main/java/com/humanjuan/iog26/data/BlockRepository.kt:89-96 | `isBlockedNumber(x)` holds exactly when x is among `getBlockedNumbers()` |
| BlockRepository.CountryCodeText | app/src/main/java/com/humanjuan/iog26/data/BlockRepository.kt:104 | `Int?.toString()`: null stays null, and the text of a code reads back as that code with `toIntOrNull` |
| BlockRepository.ToPrefixRule | app/src/main/java/com/humanjuan/iog26/data/BlockRepository.kt:100-106 | a row maps to a rule with the same id and digits and the decimal text of its country code; the scope is dropped |
| BlockRepository.RoomGetPrefixes | app/src/main/java/com/humanjuan/iog26/data/BlockRepository.kt:98-107 | one mapped rule per row, in table order |
| BlockRepository.RoomRuleAgreesWithPrefixMatcher | app/src/main/java/com/humanjuan/iog26/data/BlockRepository.kt:100-106 | for a rule whose scope agrees with its country code, `matchesPrefix` on its Room mapping holds iff the number parses and `PrefixMatcher`'s scoped test for that rule holds |
| Daos.SettingsDao.constructor | app/src/main/java/com/humanjuan/iog26/data/Daos.kt:6-12 | the settings table starts empty |
| Daos.SettingsDao.Get | app/src/main/java/com/humanjuan/iog26/data/Daos.kt:7-8 | a row exactly when row 0 exists, and it is that row, with id 0 |
| Daos.SettingsDao.Upsert | app/src/main/java/com/humanjuan/iog26/data/Daos.kt:10-11 | the row with the item's id is replaced or inserted; after upserting a row with id 0, `get` returns it |
| Daos.ReplaceByE164 | app/src/main/java/com/humanjuan/iog26/data/Daos.kt:19-20 | REPLACE on `e164`: the item is last, the rows are the item plus the old rows with other keys, and keys that were unique stay unique |
| Daos.RemoveByE164 | app/src/main/java/com/humanjuan/iog26/data/Daos.kt:22-23 | the rows are the old rows with a different key, and keys that were unique stay unique |
| Daos.ReplaceKeepsOtherKeys | app/src/main/java/com/humanjuan/iog26/data/Daos.kt:19-20 | a REPLACE leaves the rows of every other key exactly as they were |
| Daos.RemoveKeepsOtherKeys | app/src/main/java/com/humanjuan/iog26/data/Daos.kt:22-23 | a delete leaves the rows of every other key exactly as they were |
| Daos.ReplaceIdempotent | app/src/main/java/com/humanjuan/iog26/data/Daos.kt:19-20 | adding the same row twice gives the same table as adding it once |
| Daos.BlockedNumberDao.constructor | app/src/main/java/com/humanjuan/iog26/data/Daos.kt:15-24 | the number table starts empty and keyed |
| Daos.BlockedNumberDao.Add | app/src/main/java/com/humanjuan/iog26/data/Daos.kt:19-20 | the table becomes `ReplaceByE164` of the old one; keys stay unique |
| Daos.BlockedNumberDao.Remove | app/src/main/java/com/humanjuan/iog26/data/Daos.kt:22-23 | the table becomes `RemoveByE164` of the old one; keys stay unique |
| Daos.BlockedPrefixDao.constructor | app/src/main/java/com/humanjuan/iog26/data/Daos.kt:27-36 | the rule table starts empty with no id handed out |
| Daos.BlockedPrefixDao.Add | app/src/main/java/com/humanjuan/iog26/data/Daos.kt:31-32 | id 0 gets the next id and is appended; an explicit id is inserted iff it is new, otherwise nothing changes; ids stay unique and at most the largest handed out |
| Daos.BlockedPrefixDao.Remove | app/src/main/java/com/humanjuan/iog26/data/Daos.kt:34-35 | exactly the row with that id goes; the others keep their order and the id counter is unchanged |
| Daos.EventsSince | app/src/main/java/com/humanjuan/iog26/data/Daos.kt:43-44 | a permutation of the events with `ts >= since` (the members are exactly those), sorted newest first |
| Daos.EventsSinceKeepsTies | app/src/main/java/com/humanjuan/iog26/data/Daos.kt:43-44 | events with the same `ts` come out in the order they were stored |
| Daos.BlockedEventDao.constructor | app/src/main/java/com/humanjuan/iog26/data/Daos.kt:39-45 | the event table starts empty with no id handed out |
| Daos.BlockedEventDao.Since | app/src/main/java/com/humanjuan/iog26/data/Daos.kt:43-44 | exactly the stored events with `ts >= since`, no more of them than there are rows, newest first |
| Daos.BlockedEventDao.Add | app/src/main/java/com/humanjuan/iog26/data/Daos.kt:40-41 | the same insert rules as the prefix table: a new id for id 0, a duplicate explicit id reported as `false` with nothing changed, unique ids |
| CallPolicy.IsEmergency | app/src/main/java/com/humanjuan/iog26/phone/CallPolicy.kt:34-37 | a null number is never an emergency; otherwise the platform registry decides |
| CallPolicy.LooksAnonymous | app/src/main/java/com/humanjuan/iog26/phone/CallPolicy.kt:42-46 | a null or blank number is anonymous; with an unreadable presentation nothing else is; a call is not anonymous exactly when its number is readable and its presentation is unreadable or none of RESTRICTED, UNKNOWN and PAYPHONE |
| CallPolicy.StoredNumberMatches | app/src/main/java/com/humanjuan/iog26/phone/CallPolicy.kt:56 | a matcher that throws counts as no match; otherwise a match exactly when `isNumberMatch` returns EXACT_MATCH, NSN_MATCH or SHORT_NSN_MATCH |
| CallPolicy.HitNumber | app/src/main/java/com/humanjuan/iog26/phone/CallPolicy.kt:53-58 | true iff the number is non-blank and matches some stored number, where a match that throws counts as no match |
| CallPolicy.HitPrefix | app/src/main/java/com/humanjuan/iog26/phone/CallPolicy.kt:64-71 | true iff the number is non-null and some rule passes `matchesPrefix` with the repository's region |
| CallPolicy.Decide | app/src/main/java/com/humanjuan/iog26/phone/CallPolicy.kt:22-76 | the skip flags are the settings' on every branch; the call is blocked iff the reason is "unknown", "blocked-number" or "blocked-prefix", and the reason is one of the five |
| CallPolicy.FirstFiring | app/src/main/java/com/humanjuan/iog26/phone/CallPolicy.kt:22-76 | the first check of a list that fires: none iff no check fires; otherwise a check that fires and no earlier check fires |
| CallPolicy.DecideFollowsPrecedence | app/src/main/java/com/humanjuan/iog26/phone/CallPolicy.kt:33-75 | `decide` gives the decision of the first check to fire in the order emergency, unknown, number, prefix, or allow when none fires |
| CallPolicy.EmergencyNeverBlocked | app/src/main/java/com/humanjuan/iog26/phone/CallPolicy.kt:34-38 | an emergency number is allowed with reason "emergency", whatever the settings and the rules |
| CallPolicy.AnonymousBlockedAsUnknown | app/src/main/java/com/humanjuan/iog26/phone/CallPolicy.kt:42-50 | with "block unknown" on, an anonymous non-emergency call is blocked as "unknown", even when its number also matches a rule |
| CallPolicy.NullNumberAllowed | app/src/main/java/com/humanjuan/iog26/phone/CallPolicy.kt:53-75 | a call without a number, with "block unknown" off, is allowed with the empty reason |
| CallPolicy.ReasonCharacterisation | app/src/main/java/com/humanjuan/iog26/phone/CallPolicy.kt:33-75 | each of the five reasons is given exactly when its check fires and no earlier check does |
| CallPolicy.RoomPrefixHitIsPrefixMatcher | app/src/main/java/com/humanjuan/iog26/phone/CallPolicy.kt:64-71 | with the Room repository and scope-consistent rules, the prefix check of `decide` holds iff the number parses with region "CL" and some rule matches in `PrefixMatcher`'s sense |
| CallPolicy.ToResponse | app/src/main/java/com/humanjuan/iog26/phone/CallPolicy.kt:78-94 | disallow and reject follow `block`, the skip flags are copied, and the call is silenced iff it is blocked on API level 29 or later |
| CallPolicy.EmergencyCallRings | app/src/main/java/com/humanjuan/iog26/phone/CallPolicy.kt:78-94 | the response to an emergency call neither disallows, rejects nor silences it, and carries the settings' skip flags |
| PrefixRulesViewModel.NullableText | app/src/main/java/com/humanjuan/iog26/ui/PrefixRulesViewModel.kt:33 | the text of a nullable `Int` in a template is non-empty, does not start with `+` and has no space |
| PrefixRulesViewModel.Label | app/src/main/java/com/humanjuan/iog26/ui/PrefixRulesViewModel.kt:32-35 | a NATIONAL label starts with the digits and ends with ")"; a BY_COUNTRY label starts with "+" and ends with "*" |
| PrefixRulesViewModel.LabelIdentifiesRule | app/src/main/java/com/humanjuan/iog26/ui/PrefixRulesViewModel.kt:32-35 | for rules with digit-only prefixes and a scope that agrees with the country code, two labels are equal iff the rules agree on scope, country code and digits |
| PrefixRulesViewModel.NationalLabelStart | app/src/main/java/com/humanjuan/iog26/ui/PrefixRulesViewModel.kt:34 | a NATIONAL label never starts with `+`, while every BY_COUNTRY label does |
| PrefixRulesViewModel.NullableTextInjective | app/src/main/java/com/humanjuan/iog26/ui/PrefixRulesViewModel.kt:33 | different nullable country codes print differently |
| PrefixRulesViewModel.RefreshItems | app/src/main/java/com/humanjuan/iog26/ui/PrefixRulesViewModel.kt:30-39 | a permutation of the labelled rows, one per row, sorted by label |
| PrefixRulesViewModel.ToUi | app/src/main/java/com/humanjuan/iog26/ui/PrefixRulesViewModel.kt:36 | the list row carries the rule's label and its fields, from which the rule reads back unchanged |
| PrefixRulesViewModel.CountryCodeChoice | app/src/main/java/com/humanjuan/iog26/ui/PrefixRulesViewModel.kt:45-46 | null input gives null; otherwise the input is trimmed, one `+` removed, and the rest gives null when blank or else its `toIntOrNull` |
| PrefixRulesViewModel.CountryCodeRoundTrip | app/src/main/java/com/humanjuan/iog26/ui/PrefixRulesViewModel.kt:45-46 | the decimal text of any `Int`, with or without a leading `+`, is read back as that `Int` |
| PrefixRulesViewModel.TrimmedCountryText | app/src/main/java/com/humanjuan/iog26/ui/PrefixRulesViewModel.kt:45 | text with non-blank ends that does not start with `+`, with or without a `+` before it, survives trimming and `+` removal unchanged |
| PrefixRulesViewModel.WhitespaceAfterPlusGivesNoCode | app/src/main/java/com/humanjuan/iog26/ui/PrefixRulesViewModel.kt:45-46 | whitespace right after the `+` is not trimmed away and gives no country code, so "+ 56" yields a NATIONAL rule |
| PrefixRulesViewModel.ValidateAdd | app/src/main/java/com/humanjuan/iog26/ui/PrefixRulesViewModel.kt:41-75 | an error iff the input has no digits, with the message "Prefijo vacío o inválido"; otherwise its non-empty digits, the chosen country code, and BY_COUNTRY iff there is a code |
| PrefixRulesViewModel.DigitsCountryCode | app/src/main/java/com/humanjuan/iog26/ui/PrefixRulesViewModel.kt:45-46 | digit-only country text gives null when empty, the value its digits spell when that fits an `Int`, and null otherwise |
| PrefixRulesViewModel.CountryCodeGivesByCountry | app/src/main/java/com/humanjuan/iog26/ui/PrefixRulesViewModel.kt:63-74 | a country code typed as the decimal text of an `Int` (with or without `+`) gives a BY_COUNTRY rule with that code |
| PrefixRulesViewModel.OverflowingCountryCodeIsNational | app/src/main/java/com/humanjuan/iog26/ui/PrefixRulesViewModel.kt:47-60 | a country code above the `Int` range gives a NATIONAL rule without a code, and no error |
| PrefixRulesViewModel.AppendWellFormed | app/src/main/java/com/humanjuan/iog26/ui/PrefixRulesViewModel.kt:50-57 | appending a rule whose scope agrees with its code and whose prefix is non-empty digits keeps every row that way |
| PrefixRulesViewModel.PrefixRulesViewModel.constructor | app/src/main/java/com/humanjuan/iog26/ui/PrefixRulesViewModel.kt:28 | the list is the refreshed table |
| PrefixRulesViewModel.PrefixRulesViewModel.Refresh | app/src/main/java/com/humanjuan/iog26/ui/PrefixRulesViewModel.kt:30-39 | the list becomes the labelled, sorted table |
| PrefixRulesViewModel.PrefixRulesViewModel.Add | app/src/main/java/com/humanjuan/iog26/ui/PrefixRulesViewModel.kt:41-75 | returns exactly the validation error; on error nothing changes; otherwise the validated rule is appended with the next id and the time `now`, the list is refreshed, and well-formed tables stay well-formed |
| PrefixRulesViewModel.PrefixRulesViewModel.Insert | app/src/main/java/com/humanjuan/iog26/ui/PrefixRulesViewModel.kt:63-73 | the launched block: the rule is appended with the next id and the time `now`, the list is refreshed, and a well-formed table stays well-formed |
| PrefixRulesViewModel.PrefixRulesViewModel.Remove | app/src/main/java/com/humanjuan/iog26/ui/PrefixRulesViewModel.kt:77-80 | exactly the rule with that id goes, the list is refreshed, and well-formed tables stay well-formed |
| NumbersViewModel.Normalize | app/src/main/java/com/humanjuan/iog26/ui/NumbersViewModel.kt:34-45 | an error exactly when parsing throws, with the exception's message or "Número inválido"; otherwise the E.164 text |
| NumbersViewModel.NormalizeAgreesWithNumberMatch | app/src/main/java/com/humanjuan/iog26/ui/NumbersViewModel.kt:35-37 | `add` accepts exactly what `normalizeToE164` accepts, and stores the same text |
| NumbersViewModel.InvalidNumberAccepted | app/src/main/java/com/humanjuan/iog26/ui/NumbersViewModel.kt:35-37 | a number that parses but is not valid is accepted, although `toE164` gives null for it |
| NumbersViewModel.ToUi | app/src/main/java/com/humanjuan/iog26/ui/NumbersViewModel.kt:30 | the stored row reads back unchanged from the list row |
| NumbersViewModel.RefreshItems | app/src/main/java/com/humanjuan/iog26/ui/NumbersViewModel.kt:28-32 | a permutation of the mapped rows, one per row, sorted by `e164` |
| NumbersViewModel.NumbersViewModel.constructor | app/src/main/java/com/humanjuan/iog26/ui/NumbersViewModel.kt:24-26 | the region starts as "CL" and the list is the refreshed table |
| NumbersViewModel.NumbersViewModel.Refresh | app/src/main/java/com/humanjuan/iog26/ui/NumbersViewModel.kt:28-32 | the list becomes the sorted table, and the region is unchanged |
| NumbersViewModel.NumbersViewModel.Add | app/src/main/java/com/humanjuan/iog26/ui/NumbersViewModel.kt:34-45 | returns exactly the normalisation error; on error nothing changes; otherwise the E.164 row stamped `now` replaces any row with that key, and the list is refreshed |
| NumbersViewModel.NumbersViewModel.Remove | app/src/main/java/com/humanjuan/iog26/ui/NumbersViewModel.kt:47-50 | that key is deleted and the list is refreshed |
| EventsViewModel.GroupKey | app/src/main/java/com/humanjuan/iog26/ui/EventsViewModel.kt:48 | the number itself when there is one; the key is "Unknown" exactly for a null number or the literal number "Unknown" |
| EventsViewModel.NullMergesWithUnknownText | app/src/main/java/com/humanjuan/iog26/ui/EventsViewModel.kt:48 | an event without a number and one whose number is the text "Unknown" fall in the same group |
| EventsViewModel.MaxTs | app/src/main/java/com/humanjuan/iog26/ui/EventsViewModel.kt:50 | the largest time of a non-empty list, attained by one of its events |
| EventsViewModel.MakeGroup | app/src/main/java/com/humanjuan/iog26/ui/EventsViewModel.kt:49-52 | the group of a key that occurs carries that key and a count of at least one |
| EventsViewModel.BuildGroups | app/src/main/java/com/humanjuan/iog26/ui/EventsViewModel.kt:48-52 | one group per key, in the order of the keys |
| EventsViewModel.Keys | app/src/main/java/com/humanjuan/iog26/ui/EventsViewModel.kt:48 | the `groupBy` keys: each key of an event exactly once, and no other, in the order of their first occurrence among the events |
| EventsViewModel.Groups | app/src/main/java/com/humanjuan/iog26/ui/EventsViewModel.kt:48-52 | one group per key, and of two groups the one whose number first occurs earlier among the events comes first |
| EventsViewModel.GroupsUnique | app/src/main/java/com/humanjuan/iog26/ui/EventsViewModel.kt:48-52 | no two groups share a number |
| EventsViewModel.GroupsSum | app/src/main/java/com/humanjuan/iog26/ui/EventsViewModel.kt:48-52 | the counts of the groups add up to the number of events |
| EventsViewModel.GroupsNumbers | app/src/main/java/com/humanjuan/iog26/ui/EventsViewModel.kt:48-52 | the group numbers are exactly the keys of the events |
| EventsViewModel.GroupsDescribed | app/src/main/java/com/humanjuan/iog26/ui/EventsViewModel.kt:49-52 | every group counts the events of its key and carries their latest time |
| EventsViewModel.GroupFacts | app/src/main/java/com/humanjuan/iog26/ui/EventsViewModel.kt:49-52 | the group of one key counts exactly the events of that key, and an event of that key has its time, which no other event of the key exceeds |
| EventsViewModel.GroupedItems | app/src/main/java/com/humanjuan/iog26/ui/EventsViewModel.kt:47-53 | sorted newest first; one group per distinct key and no other; counts add up to the number of events; each group gives the number of its key's events and their latest time |
| EventsViewModel.EventsViewModel.constructor | app/src/main/java/com/humanjuan/iog26/ui/EventsViewModel.kt:24-28 | both lists start empty |
| EventsViewModel.EventsViewModel.Load | app/src/main/java/com/humanjuan/iog26/ui/EventsViewModel.kt:45-53 | the raw list is exactly the query's result for the start time, and the grouped list is built from it |
| SettingsViewModel.UiOf | app/src/main/java/com/humanjuan/iog26/ui/SettingsViewModel.kt:40-50 | the three block fields come from the Room row and the three digest fields from the preferences |
| SettingsViewModel.DefaultUiIsCombinedDefaults | app/src/main/java/com/humanjuan/iog26/ui/SettingsViewModel.kt:21-28 | the initial `SettingsUi()` is what the default row and the default digest preferences combine to |
| SettingsViewModel.ToggleMessage | app/src/main/java/com/humanjuan/iog26/ui/SettingsViewModel.kt:68 | a toggle message starts with its subject |
| SettingsViewModel.ToggleMessageNamesValue | app/src/main/java/com/humanjuan/iog26/ui/SettingsViewModel.kt:68 | removing the subject leaves ACTIVADO or DESACTIVADO as the value was set, and the messages for the two values differ |
| SettingsViewModel.DigestTimeMessage | app/src/main/java/com/humanjuan/iog26/ui/SettingsViewModel.kt:102 | the message starts with "Hora del resumen: ", followed by at least five characters |
| SettingsViewModel.DigestTimeMessageReadsBack | app/src/main/java/com/humanjuan/iog26/ui/SettingsViewModel.kt:102 | for a time of day the message has 23 characters, and the hour and the minute read back from its two-digit fields |
| SettingsViewModel.SettingsViewModel.Ui | app/src/main/java/com/humanjuan/iog26/ui/SettingsViewModel.kt:40-50 | the three blocking flags come from the in-memory row and the three digest fields from the preferences |
| SettingsViewModel.SettingsViewModel.constructor | app/src/main/java/com/humanjuan/iog26/ui/SettingsViewModel.kt:52-63 | with no row 0, `Settings()` is written and adopted; otherwise the stored row is adopted unchanged; the table and the state agree afterwards |
| SettingsViewModel.SettingsViewModel.SetBlockUnknown | app/src/main/java/com/humanjuan/iog26/ui/SettingsViewModel.kt:65-69 | only that flag changes, in the row and in the table, which still agree; the message names the new value; nothing is scheduled |
| SettingsViewModel.SettingsViewModel.SetSkipCallLog | app/src/main/java/com/humanjuan/iog26/ui/SettingsViewModel.kt:71-75 | only that flag changes, in the row and in the table, which still agree; the message names the new value; nothing is scheduled |
| SettingsViewModel.SettingsViewModel.SetSkipNotif | app/src/main/java/com/humanjuan/iog26/ui/SettingsViewModel.kt:77-81 | only that flag changes, in the row and in the table, which still agree; the message names the new value; nothing is scheduled |
| SettingsViewModel.SettingsViewModel.SetDigestEnabled | app/src/main/java/com/humanjuan/iog26/ui/SettingsViewModel.kt:83-94 | stores the flag; schedules at the digest time iff enabling on Android 8.0 or later; says it cannot be scheduled iff enabling on an older version, and otherwise names the value |
| SettingsViewModel.SettingsViewModel.SetDigestTime | app/src/main/java/com/humanjuan/iog26/ui/SettingsViewModel.kt:96-103 | stores the time; reschedules at that time iff the digest is on and the version is 8.0 or later; always reports the time |
| DailyDigestWorker.TopEntries | app/src/main/java/com/humanjuan/iog26/digest/DailyDigestWorker.kt:48 | the first five distinct entries (fewer when there are fewer), without repeats, in first-seen order; an entry left out comes after all five listed ones |
| DailyDigestWorker.More | app/src/main/java/com/humanjuan/iog26/digest/DailyDigestWorker.kt:49 | the suffix is empty exactly when there are at most five entries |
| DailyDigestWorker.Show | app/src/main/java/com/humanjuan/iog26/digest/DailyDigestWorker.kt:40-56 | the title counts every entry; the text is the top entries, one per line, then the suffix |
| DailyDigestWorker.TitleCountsEveryEntry | app/src/main/java/com/humanjuan/iog26/digest/DailyDigestWorker.kt:52 | the number after the title's prefix reads back as the number of entries, repeats included |
| DailyDigestWorker.MoreCountsBeyondTop | app/src/main/java/com/humanjuan/iog26/digest/DailyDigestWorker.kt:49 | beyond five entries the suffix is "\n… y " + N + " más", and N reads back as the number of entries beyond the first five |
| DailyDigestWorker.MoreCountsRepeats | app/src/main/java/com/humanjuan/iog26/digest/DailyDigestWorker.kt:48-53 | six calls from one number list that number once and say "… y 1 más" |
| DailyDigestWorker.DigestLabel | app/src/main/java/com/humanjuan/iog26/digest/DailyDigestWorker.kt:34 | the number itself when there is one; "Desconocido" exactly for a null number or that literal number |
| DailyDigestWorker.DoWork | app/src/main/java/com/humanjuan/iog26/digest/DailyDigestWorker.kt:28-37 | a notification exactly when there is an event today, listing a null number as "Desconocido" |
| DailyDigestWorker.TimeOfDay | app/src/main/java/com/humanjuan/iog26/digest/DailyDigestWorker.kt:62 | the time of day of an instant lies within one day |
| DailyDigestWorker.TimeOfDayInDay | app/src/main/java/com/humanjuan/iog26/digest/DailyDigestWorker.kt:62 | within day k, the time of day is the offset from that day's midnight |
| DailyDigestWorker.Schedule | app/src/main/java/com/humanjuan/iog26/digest/DailyDigestWorker.kt:60-64 | the delay is positive and at most a day; it lands on `hour:minute:00.000`; no earlier instant after now does |
| BlockedHistoryScreen.CoerceIn | app/src/main/java/com/humanjuan/iog26/ui/screens/BlockedHistoryScreen.kt:79 | the result lies in the range, and a value already in it is kept |
| BlockedHistoryScreen.DigitsBeforeCursor | app/src/main/java/com/humanjuan/iog26/ui/screens/BlockedHistoryScreen.kt:81-85 | the characters before the cursor are its digits plus the characters removed, and no more digits than the cleaned text has |
| BlockedHistoryScreen.OnDaysInputChange | app/src/main/java/com/humanjuan/iog26/ui/screens/BlockedHistoryScreen.kt:77-87 | the text keeps exactly its digits; the new cursor is the number of digits before the clamped old cursor, so it stays after the same digit, and it lies within the text |
| BlockedHistoryScreen.CleanedKeepsInputOrder | app/src/main/java/com/humanjuan/iog26/ui/screens/BlockedHistoryScreen.kt:80 | the cleaned text is all digits and a selection of the input's characters, in order |
| BlockedHistoryScreen.ApplyDays | app/src/main/java/com/humanjuan/iog26/ui/screens/BlockedHistoryScreen.kt:121-124 | the text's `toLongOrNull`, or 0 when that is null |
| BlockedHistoryScreen.ApplyOfCleanedText | app/src/main/java/com/humanjuan/iog26/ui/screens/BlockedHistoryScreen.kt:121-124 | on cleaned text, Apply loads the value the digits spell, or 0 when they are empty or too large for a `Long` |
| BlockedHistoryScreen.ChipSelected | app/src/main/java/com/humanjuan/iog26/ui/screens/BlockedHistoryScreen.kt:105 | a chip is never selected for a value beyond `Long`, and is selected whenever the text spells its value |
| BlockedHistoryScreen.OnChipClick | app/src/main/java/com/humanjuan/iog26/ui/screens/BlockedHistoryScreen.kt:107-110 | the chip loads its own value, and the text it sets reads back as that value |
| BlockedHistoryScreen.ClickedChipAloneSelected | app/src/main/java/com/humanjuan/iog26/ui/screens/BlockedHistoryScreen.kt:103-110 | after a preset chip is clicked it is the only highlighted chip; the initial text "7" highlights the chip of the 7 days first loaded |
| BlockedHistoryScreen.XLabelStride | app/src/main/java/com/humanjuan/iog26/ui/screens/BlockedHistoryScreen.kt:369-370 | the smallest positive step that labels at most six regular positions |
| BlockedHistoryScreen.IsLabelled | app/src/main/java/com/humanjuan/iog26/ui/screens/BlockedHistoryScreen.kt:373 | index 0 and the last index are labelled; any other labelled index is a multiple of the stride, and below the stride only 0 is labelled |
| BlockedHistoryScreen.LabelledIndices | app/src/main/java/com/humanjuan/iog26/ui/screens/BlockedHistoryScreen.kt:373 | exactly the indices that are multiples of the step or the last one, increasing, from the first day to the last |
| BlockedHistoryScreen.CallerTypes | app/src/main/java/com/humanjuan/iog26/ui/screens/BlockedHistoryScreen.kt:391-393 | known is the count of events with a number, unknown the rest, they add up to all events, and the denominator is never zero |
| BlockedHistoryScreen.ShowBadge | app/src/main/java/com/humanjuan/iog26/ui/screens/BlockedHistoryScreen.kt:509 | the badge shows exactly for a count of two or more |
| BlockedHistoryScreen.BadgeMeansRepeatedCaller | app/src/main/java/com/humanjuan/iog26/ui/screens/BlockedHistoryScreen.kt:509 | a history card shows the badge iff its caller was blocked at least twice in the period |
| ListScreens.Search | app/src/main/java/com/humanjuan/iog26/ui/screens/NumberListScreen.kt:58-61 | a blank trimmed query gives every item; otherwise exactly the items whose lower-cased key contains the lower-cased trimmed query |
| ListScreens.SearchKeepsOrder | app/src/main/java/com/humanjuan/iog26/ui/screens/PrefixListScreen.kt:55-58 | a blank query shows everything, and any query keeps the items in their order |
| ListScreens.AfterSave | app/src/main/java/com/humanjuan/iog26/ui/screens/PrefixListScreen.kt:114-120 | the dialog closes exactly when `add` returned null, and otherwise shows the returned error |
| PrefixListScreen.SanitizePrefixField | app/src/main/java/com/humanjuan/iog26/ui/screens/PrefixListScreen.kt:262-267 | the field keeps its digits, and the cursor is at the end |
| PrefixListScreen.SanitizeCountryField | app/src/main/java/com/humanjuan/iog26/ui/screens/PrefixListScreen.kt:284-289 | the field is digits only, and the cursor is at the end |
| PrefixListScreen.CountryFieldKeepsDigits | app/src/main/java/com/humanjuan/iog26/ui/screens/PrefixListScreen.kt:285 | removing a `+` first changes nothing, since a `+` is not a digit; cleaning a cleaned field changes nothing |
| PrefixListScreen.SaveArguments | app/src/main/java/com/humanjuan/iog26/ui/screens/PrefixListScreen.kt:308-311 | the prefix text is passed as it is, and the country text is passed unless it is blank, when null is passed |
| PrefixListScreen.SavedFieldsDecideScope | app/src/main/java/com/humanjuan/iog26/ui/screens/PrefixListScreen.kt:308-311 | from the dialog: an error iff the prefix has no digits; an empty country gives a NATIONAL rule; a country that fits an `Int` gives BY_COUNTRY with the value its digits spell |
| PrefixListScreen.BlankDigits | app/src/main/java/com/humanjuan/iog26/ui/screens/PrefixListScreen.kt:310 | digit-only text is blank only when empty |
| PrefixListScreen.SearchRules | app/src/main/java/com/humanjuan/iog26/ui/screens/PrefixListScreen.kt:55-58 | a blank query gives every rule; otherwise exactly the rules whose lower-cased label contains the query |
| PrefixListScreen.DialogClosesOnSuccess | app/src/main/java/com/humanjuan/iog26/ui/screens/PrefixListScreen.kt:114-120 | the dialog closes iff the prefix has a digit; otherwise it shows "Prefijo vacío o inválido" |
| NumberListScreen.SearchNumbers | app/src/main/java/com/humanjuan/iog26/ui/screens/NumberListScreen.kt:58-61 | a blank query gives every number; otherwise exactly those whose lower-cased text contains the query |
| NumberListScreen.TotalShown | app/src/main/java/com/humanjuan/iog26/ui/screens/NumberListScreen.kt:85 | the total counts the numbers shown: at most all, and all for a blank query |
| NumberListScreen.ManualSaveArgument | app/src/main/java/com/humanjuan/iog26/ui/screens/NumberListScreen.kt:343 | the typed text, trimmed: the slice of the text between a blank run at its start and a blank run at its end, with non-blank ends, and empty exactly for blank text |
| NumberListScreen.ContactSaveArgument | app/src/main/java/com/humanjuan/iog26/ui/screens/NumberListScreen.kt:291-292 | a contact's number is saved, unchanged, exactly when it is non-null and non-blank |
| NumberListScreen.ManualSaveIdempotent | app/src/main/java/com/humanjuan/iog26/ui/screens/NumberListScreen.kt:343 | trimming the saved text again changes nothing |
| NumberListScreen.DialogClosesOnSuccess | app/src/main/java/com/humanjuan/iog26/ui/screens/NumberListScreen.kt:116-120 | the dialog closes exactly when the number parses |
| Sorting.SortByKeyStable | app/src/main/java/com/humanjuan/iog26/ui/NumbersViewModel.kt:31 | `sortedBy` is stable: for every key, the elements with that key come out in the order they went in |
| Sorting.SortDescStable | app/src/main/java/com/humanjuan/iog26/ui/EventsViewModel.kt:53 | `sortedByDescending` is stable: for every key, the elements with that key come out in the order they went in |

## Left out

- libphonenumber (parsing, validity, E.164 formatting, `isNumberMatch`) and the platform emergency-number registry are not modelled. They are parameters of the model (`PhoneLib.PhoneUtil` and `isEmergencyNumber`), as they are foreign code.
- `PhoneLib.PhoneUtil` models the parser's failure as a value. `matchesPrefix` catches only `NumberParseException`, which is the only exception libphonenumber's `parse` throws, so the two agree.
- Matching.NumberMatches: the oracle returns a match type or throws. The source lets the exception escape from `NumberMatch.matches`, and the model records it as a missing result rather than as an exception. `CallPolicy` turns that missing result into "no match", as the source's `catch` does.
- The country-code and digit tests (`isDigit`, `lowercase`) are modelled on ASCII; Unicode digits and case mappings are left out. `isWhitespace` is Java's set of whitespace and space characters.
- The list orderings take `String.compareTo` as a comparison of characters, one at a time. UTF-16 surrogate pairs are not treated specially.
- Coroutines: each `viewModelScope.launch` is taken to finish before the next operation. Interleavings of concurrent launches, and the case where `refresh` runs before an insert lands, are left out.
- SettingsViewModel.SettingsViewModel.SetDigestEnabled: reads the digest time from the freshly stored preferences. The source reads `ui.value`, a `stateIn` flow that may still hold an older value.
- SettingsViewModel.SettingsViewModel.SetDigestTime: decides whether to reschedule from the freshly stored enabled flag. The source reads `ui.value.digestEnabled` (SettingsViewModel.kt:98), a `stateIn` flow that may still hold an older value.
- Daos.BlockedPrefixDao.Add: a duplicate explicit id makes Room's plain `@Insert` throw `SQLiteConstraintException`. The model has no exceptions, so it returns `inserted == false` with the table unchanged. The app itself only ever inserts id 0.
- Daos.BlockedEventDao.Add: the same as `BlockedPrefixDao.Add`. A duplicate explicit id throws in the source and returns `false` with nothing changed in the model. The app only inserts id 0.
- SettingsViewModel: the `events` flow is modelled as keeping every message. The source uses `tryEmit` with a buffer of one, which can drop messages nobody collects.
- The DataStore behind `DigestSettingsRepo` is a field of the view model, not a separate store.
- The SQL engine: `SELECT *` returns rows in insertion order, and ties in `ORDER BY ts DESC` keep insertion order (`EventsSinceKeepsTies`). Room guarantees neither.
- `System.currentTimeMillis()` and `ZonedDateTime.now()` are parameters (`now`). The start-of-day and days-back arithmetic of `EventsViewModel.load` and `DailyDigestWorker.doWork` is left out, and `Load` takes its result `since` as a parameter, as it needs time zones and calendars.
- DailyDigestWorker.Schedule: works on a uniform 24-hour day in local milliseconds. Daylight-saving transitions and time zones are not modelled. The source throws for an hour or minute out of range, so the model requires them in range.
- Compose rendering, the donut and bar charts' geometry and percentages (floating point), the date formats of the history screen, and the `totalTemplate` of the resource strings are not modelled.
- Posting a notification, creating its channel, and enqueueing WorkManager jobs are I/O. `Show` and `DoWork` return the notification's text instead, and `Schedule` returns the delay; the enqueue itself is left out.
- CallPolicy.ToResponse: `setSilenceCall` is called by reflection and any failure is ignored. The model assumes the call succeeds on API level 29 and later.
- The deprecated `PhoneNumberUtils.isEmergencyNumber(String)` is the `isEmergencyNumber` parameter; how the platform decides is not modelled.
- The `Long` arithmetic in the event and rule timestamps has no overflow in the model. Values are unbounded integers.
- `MyScreeningService` (the caller of `decide`, logging an event per blocked call), `AppDb` (database construction), `AppPrefsRepo`, the boot receiver and the settings screen are not part of this model.
- The in-memory repository's `getBlockedNumbers`/`getPrefixes` return copies (`toList()`). Dafny sequences are values, so the snapshot needs no copying.
