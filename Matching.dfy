/** The number helpers of the decision engine: `Matching` (E.164, NSN and
    country code of a raw number, and the prefix test used by the call
    policy), `NumberMatch` (normalisation and the libphonenumber match
    heuristic) and `PrefixMatcher` (the scoped prefix test over stored rules). */
module Matching {
  import opened Wrappers
  import opened Text
  import opened PhoneLib
  import opened Entities

  /** `defaultRegion ?: "ZZ"`. */
  function RegionOrUnknown(defaultRegion: Option<string>): (r: string)
    ensures defaultRegion.Some? ==> r == defaultRegion.value
    ensures defaultRegion.None? ==> r == "ZZ"
  {
    defaultRegion.GetOr(UnknownRegion)
  }

  /** `Matching.toE164`: the E.164 text of a number that parses and is valid;
      null when parsing throws or the number is not valid. */
  function ToE164(lib: PhoneUtil, raw: string, defaultRegion: Option<string>): (r: Option<string>)
    ensures lib.parse(raw, RegionOrUnknown(defaultRegion)).ParseError? ==> r == None
    ensures lib.parse(raw, RegionOrUnknown(defaultRegion)).Parsed? ==>
      var p := lib.parse(raw, RegionOrUnknown(defaultRegion)).number;
      (r.Some? <==> lib.isValidNumber(p)) && (r.Some? ==> r.value == lib.formatE164(p))
  {
    match lib.parse(raw, RegionOrUnknown(defaultRegion))
    case Parsed(p) => if lib.isValidNumber(p) then Some(lib.formatE164(p)) else None
    case ParseError(_) => None
  }

  /** `Matching.toNSN`: the national significant number, or null when parsing throws. */
  function ToNsn(lib: PhoneUtil, raw: string, defaultRegion: Option<string>): (r: Option<string>)
    ensures r.Some? <==> lib.parse(raw, RegionOrUnknown(defaultRegion)).Parsed?
    ensures r.Some? ==> r.value == lib.parse(raw, RegionOrUnknown(defaultRegion)).number.nationalSignificantNumber
  {
    match lib.parse(raw, RegionOrUnknown(defaultRegion))
    case Parsed(p) => Some(p.nationalSignificantNumber)
    case ParseError(_) => None
  }

  /** `Matching.countryCode`: the country calling code, or null when parsing throws. */
  function CountryCodeOf(lib: PhoneUtil, raw: string, defaultRegion: Option<string>): (r: Option<int>)
    ensures r.Some? <==> lib.parse(raw, RegionOrUnknown(defaultRegion)).Parsed?
    ensures r.Some? ==> r.value == lib.parse(raw, RegionOrUnknown(defaultRegion)).number.countryCode
  {
    match lib.parse(raw, RegionOrUnknown(defaultRegion))
    case Parsed(p) => Some(p.countryCode)
    case ParseError(_) => None
  }

  /** `countryCode?.removePrefix("+")?.trim()?.takeIf { it.isNotEmpty() }`. */
  function CleanCountryCode(countryCode: Option<string>): (r: Option<string>)
    ensures countryCode.None? ==> r.None?
    ensures countryCode.Some? && IsBlank(RemovePrefix(countryCode.value, "+")) ==> r.None?
    ensures countryCode.Some? && !IsBlank(RemovePrefix(countryCode.value, "+")) ==>
      r == Some(Trim(RemovePrefix(countryCode.value, "+")))
    ensures r.Some? ==> r.value != [] && !IsWhitespace(r.value[0]) && !IsWhitespace(r.value[|r.value| - 1])
  {
    match countryCode
    case None => None
    case Some(c) =>
      var t := Trim(RemovePrefix(c, "+"));
      CleanedText(RemovePrefix(c, "+"));
      if t == [] then None else Some(t)
  }

  /** Trimming leaves nothing exactly for blank text, and otherwise text
      with non-blank ends. */
  lemma CleanedText(u: string)
    ensures IsBlank(u) <==> Trim(u) == []
    ensures Trim(u) != [] ==> !IsWhitespace(Trim(u)[0]) && !IsWhitespace(Trim(u)[|Trim(u)| - 1])
  {
    BlankIffTrimEmpty(u);
  }

  /** `Matching.matchesPrefix`: false when parsing throws; otherwise the NSN
      must start with the prefix digits and, when a country code is given
      (and is not empty once cleaned), the decimal text of the parsed
      country code must equal it exactly. */
  function MatchesPrefix(lib: PhoneUtil, rawNumber: string, prefixDigits: string,
                         countryCode: Option<string>, defaultRegion: Option<string>): (r: bool)
    ensures lib.parse(rawNumber, RegionOrUnknown(defaultRegion)).ParseError? ==> !r
    ensures lib.parse(rawNumber, RegionOrUnknown(defaultRegion)).Parsed? ==>
      var p := lib.parse(rawNumber, RegionOrUnknown(defaultRegion)).number;
      var cc := CleanCountryCode(countryCode);
      (r <==> StartsWith(p.nationalSignificantNumber, prefixDigits)
              && (cc.Some? ==> DecimalString(p.countryCode) == cc.value))
  {
    match lib.parse(rawNumber, RegionOrUnknown(defaultRegion))
    case ParseError(_) => false
    case Parsed(p) =>
      var nsn := p.nationalSignificantNumber;
      match CleanCountryCode(countryCode)
      case None => StartsWith(nsn, prefixDigits)
      case Some(cc) => DecimalString(p.countryCode) == cc && StartsWith(nsn, prefixDigits)
  }

  /** A country code given with a leading zero, such as "056", never matches:
      no country code prints that way. */
  lemma LeadingZeroCountryCodeNeverMatches(lib: PhoneUtil, rawNumber: string, prefixDigits: string,
                                           countryCode: string, defaultRegion: Option<string>)
    requires CleanCountryCode(Some(countryCode)).Some?
    requires |CleanCountryCode(Some(countryCode)).value| >= 2 && CleanCountryCode(Some(countryCode)).value[0] == '0'
    ensures !MatchesPrefix(lib, rawNumber, prefixDigits, Some(countryCode), defaultRegion)
  {
    var parsed := lib.parse(rawNumber, RegionOrUnknown(defaultRegion));
    if parsed.Parsed? && |DecimalString(parsed.number.countryCode)| >= 2 {
      DecimalStringNoLeadingZero(parsed.number.countryCode);
    }
  }

  /** A country code written as the decimal text of `n` (with or without one
      leading `+`) matches exactly the numbers of country `n` whose NSN starts
      with the prefix. */
  lemma DecimalCountryCodeMatches(lib: PhoneUtil, rawNumber: string, prefixDigits: string,
                                  n: int, withPlus: bool, defaultRegion: Option<string>)
    ensures var text := if withPlus then "+" + DecimalString(n) else DecimalString(n);
      var parsed := lib.parse(rawNumber, RegionOrUnknown(defaultRegion));
      MatchesPrefix(lib, rawNumber, prefixDigits, Some(text), defaultRegion) <==>
        parsed.Parsed? && parsed.number.countryCode == n
        && StartsWith(parsed.number.nationalSignificantNumber, prefixDigits)
  {
    CleanDecimalCountryCode(n, withPlus);
    var parsed := lib.parse(rawNumber, RegionOrUnknown(defaultRegion));
    if parsed.Parsed? {
      DecimalStringInjective(parsed.number.countryCode, n);
    }
  }

  /** Cleaning leaves the decimal text of a number as it is, and removes one leading `+`. */
  lemma {:induction false} CleanDecimalCountryCode(n: int, withPlus: bool)
    ensures CleanCountryCode(Some(if withPlus then "+" + DecimalString(n) else DecimalString(n))) == Some(DecimalString(n))
  {
    var s := DecimalString(n);
    DecimalStringEdges(n);
    CleanTrimmedCountryCode(s, withPlus);
  }

  lemma {:induction false} CleanTrimmedCountryCode(s: string, withPlus: bool)
    requires |s| > 0 && !IsWhitespace(s[0]) && !IsWhitespace(s[|s| - 1]) && s[0] != '+'
    ensures CleanCountryCode(Some(if withPlus then "+" + s else s)) == Some(s)
  {
    var text := if withPlus then "+" + s else s;
    assert RemovePrefix(text, "+") == s by {
      if withPlus {
        assert text[..1] == "+" && text[1..] == s;
      } else {
        assert text[..1] != "+" by { assert text[..1][0] == s[0]; }
      }
    }
    TrimNoop(s);
    assert !IsBlank(s) by { assert !IsWhitespace(s[0]); }
  }

  /** `NumberMatch.normalizeToE164`: the E.164 text of whatever parses, with
      no validity check; null when parsing throws. */
  function NormalizeToE164(lib: PhoneUtil, input: string, defaultRegion: string): (r: Option<string>)
    ensures r.Some? <==> lib.parse(input, defaultRegion).Parsed?
    ensures r.Some? ==> r.value == lib.formatE164(lib.parse(input, defaultRegion).number)
  {
    match lib.parse(input, defaultRegion)
    case Parsed(p) => Some(lib.formatE164(p))
    case ParseError(_) => None
  }

  /** Where `toE164` gives a value, `normalizeToE164` gives the same one; it
      also accepts the parsed numbers `toE164` rejects as invalid. */
  lemma NormalizeExtendsToE164(lib: PhoneUtil, raw: string, region: string)
    ensures ToE164(lib, raw, Some(region)).Some? ==> NormalizeToE164(lib, raw, region) == ToE164(lib, raw, Some(region))
    ensures NormalizeToE164(lib, raw, region).Some? && ToE164(lib, raw, Some(region)).None? <==>
      lib.parse(raw, region).Parsed? && !lib.isValidNumber(lib.parse(raw, region).number)
  {
    assert RegionOrUnknown(Some(region)) == region;
  }

  /** The three match types `NumberMatch.matches` accepts. */
  function IsAcceptedMatch(m: MatchType): (b: bool)
    ensures b <==> m !in {NotANumber, NoMatch}
  {
    m == ExactMatch || m == NsnMatch || m == ShortNsnMatch
  }

  /** `NumberMatch.matches`: `None` when `isNumberMatch` throws; otherwise
      whether the match type is EXACT_MATCH, NSN_MATCH or SHORT_NSN_MATCH. */
  function NumberMatches(lib: PhoneUtil, incomingRaw: string, blockedE164: string): (r: Option<bool>)
    ensures r.None? <==> lib.isNumberMatch(incomingRaw, blockedE164).Threw?
    ensures r == Some(true) <==>
      lib.isNumberMatch(incomingRaw, blockedE164).Returned? && IsAcceptedMatch(lib.isNumberMatch(incomingRaw, blockedE164).matchType)
    ensures lib.isNumberMatch(incomingRaw, blockedE164) in {Returned(NoMatch), Returned(NotANumber)} ==> r == Some(false)
  {
    match lib.isNumberMatch(incomingRaw, blockedE164)
    case Threw => None
    case Returned(mt) => Some(mt == ExactMatch || mt == NsnMatch || mt == ShortNsnMatch)
  }

  /** The `when (r.scope)` test of `PrefixMatcher` for one rule. */
  function RuleMatches(rule: BlockedPrefixRule, p: PhoneNumber): (b: bool)
    ensures b ==> StartsWith(p.nationalSignificantNumber, rule.prefixDigits)
    ensures b && rule.scope == ByCountry ==> rule.countryCode == Some(p.countryCode)
    ensures rule.scope == ByCountry && rule.countryCode == None ==> !b
    ensures (StartsWith(p.nationalSignificantNumber, rule.prefixDigits)
             && (rule.scope == National || rule.countryCode == Some(p.countryCode))) ==> b
  {
    match rule.scope
    case ByCountry => rule.countryCode == Some(p.countryCode) && StartsWith(p.nationalSignificantNumber, rule.prefixDigits)
    case National => StartsWith(p.nationalSignificantNumber, rule.prefixDigits)
  }

  ghost predicate SomeRuleMatches(rules: seq<BlockedPrefixRule>, p: PhoneNumber) {
    exists i :: 0 <= i < |rules| && RuleMatches(rules[i], p)
  }

  /** Whether some rule matches does not depend on the order of the rules. */
  lemma RuleOrderIrrelevant(rules1: seq<BlockedPrefixRule>, rules2: seq<BlockedPrefixRule>, p: PhoneNumber)
    requires multiset(rules1) == multiset(rules2)
    ensures SomeRuleMatches(rules1, p) <==> SomeRuleMatches(rules2, p)
  {
    if SomeRuleMatches(rules1, p) {
      var i :| 0 <= i < |rules1| && RuleMatches(rules1[i], p);
      assert rules1[i] in multiset(rules2);
      var j :| 0 <= j < |rules2| && rules2[j] == rules1[i];
    }
    if SomeRuleMatches(rules2, p) {
      var i :| 0 <= i < |rules2| && RuleMatches(rules2[i], p);
      assert rules2[i] in multiset(rules1);
      var j :| 0 <= j < |rules1| && rules1[j] == rules2[i];
    }
  }

  /** `PrefixMatcher`: a fixed list of rules and the region incoming numbers
      are parsed with. */
  class PrefixMatcher {
    const lib: PhoneUtil
    const rules: seq<BlockedPrefixRule>
    const defaultRegion: string

    constructor(lib: PhoneUtil, rules: seq<BlockedPrefixRule>, defaultRegion: string)
      ensures this.lib == lib && this.rules == rules && this.defaultRegion == defaultRegion
    {
      this.lib := lib;
      this.rules := rules;
      this.defaultRegion := defaultRegion;
    }

    /** `isBlocked`: false when parsing throws; otherwise whether some rule
        matches the parsed number. */
    method IsBlocked(incomingRaw: string) returns (blocked: bool)
      ensures lib.parse(incomingRaw, defaultRegion).ParseError? ==> !blocked
      ensures lib.parse(incomingRaw, defaultRegion).Parsed? ==>
        (blocked <==> SomeRuleMatches(rules, lib.parse(incomingRaw, defaultRegion).number))
    {
      var proto := lib.parse(incomingRaw, defaultRegion);
      if proto.ParseError? {
        return false;
      }
      var cc := proto.number.countryCode;
      var nsn := proto.number.nationalSignificantNumber;
      for i := 0 to |rules|
        invariant forall j :: 0 <= j < i ==> !RuleMatches(rules[j], proto.number)
      {
        var r := rules[i];
        match r.scope {
          case ByCountry =>
            if r.countryCode == Some(cc) && StartsWith(nsn, r.prefixDigits) {
              return true;
            }
          case National =>
            if StartsWith(nsn, r.prefixDigits) {
              return true;
            }
        }
      }
      return false;
    }
  }
}
