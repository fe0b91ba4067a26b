/** The rule store the call policy reads: the `BlockRepository` interface
    as a snapshot of what its five functions return, the in-memory
    implementation as a class, and the Room-backed implementation as
    functions of the table contents. */
module BlockRepository {
  import opened Wrappers
  import opened Seqs
  import opened Text
  import opened PhoneLib
  import opened Entities
  import opened Matching

  /** A prefix rule as the call policy sees it; a null country code means a
      rule on the national significant number only. */
  datatype PrefixRule = PrefixRule(id: int, digits: string, countryCode: Option<string>)

  /** What `defaultRegion()`, `blockUnknownEnabled()`, `getBlockedNumbers()`
      and `getPrefixes()` return at one moment; `isBlockedNumber(e164)` is
      membership in `blockedNumbers` for both implementations. */
  datatype RepoSnapshot = RepoSnapshot(
    defaultRegion: Option<string>,
    blockUnknownEnabled: bool,
    blockedNumbers: seq<string>,
    prefixes: seq<PrefixRule>)

  /** `numbers += e164` on an insertion-ordered set. */
  function SetAdd(numbers: seq<string>, e164: string): (r: seq<string>)
    ensures forall x :: x in r <==> x in numbers || x == e164
    ensures NoDuplicates(numbers) ==> NoDuplicates(r)
    ensures e164 in numbers ==> r == numbers
    ensures e164 !in numbers ==> r == numbers + [e164]
  {
    if e164 in numbers then numbers else numbers + [e164]
  }

  /** `numbers -= e164`. */
  function SetRemove(numbers: seq<string>, e164: string): (r: seq<string>)
    ensures forall x :: x in r <==> x in numbers && x != e164
    ensures NoDuplicates(numbers) ==> NoDuplicates(r)
    ensures IsSubsequence(r, numbers)
  {
    assert NoDuplicates(numbers) ==> NoDuplicates(Filter(numbers, x => x != e164)) by {
      if NoDuplicates(numbers) {
        FilterNoDuplicates(numbers, x => x != e164);
      }
    }
    FilterIsSubsequence(numbers, x => x != e164);
    Filter(numbers, x => x != e164)
  }

  /** `countryCode?.ifBlank { null }`. */
  function BlankToNull(countryCode: Option<string>): (r: Option<string>)
    ensures r.Some? ==> !IsBlank(r.value)
    ensures countryCode.Some? && !IsBlank(countryCode.value) ==> r == countryCode
    ensures countryCode.None? || IsBlank(countryCode.value) ==> r.None?
  {
    match countryCode
    case None => None
    case Some(c) => if IsBlank(c) then None else Some(c)
  }

  ghost predicate IdsIncreasing(rules: seq<PrefixRule>) {
    StrictlyIncreasingBy(rules, (r: PrefixRule) => r.id)
  }

  /** Appending a rule whose id exceeds every stored one keeps the ids increasing. */
  lemma AppendFreshId(rules: seq<PrefixRule>, rule: PrefixRule)
    requires IdsIncreasing(rules)
    requires forall i :: 0 <= i < |rules| ==> rules[i].id < rule.id
    ensures IdsIncreasing(rules + [rule])
  {
    var r := rules + [rule];
    forall i, j | 0 <= i < j < |r| ensures r[i].id < r[j].id {
      assert r[i] == rules[i];
      if j < |rules| { assert r[j] == rules[j]; }
    }
  }

  /** `InMemoryBlockRepository`: the numbers as an insertion-ordered set, the
      prefix rules as a list, the id counter, the region and the toggle. */
  class InMemoryBlockRepository {
    var region: Option<string>
    var numbers: seq<string>
    var prefixes: seq<PrefixRule>
    var idGen: int
    var blockUnknown: bool

    /** Numbers are a set; rule ids are below the counter, at least 1, and
        strictly increasing in list order. */
    ghost predicate Valid()
      reads this
    {
      NoDuplicates(numbers) && IdsIncreasing(prefixes) && 1 <= idGen
      && forall i :: 0 <= i < |prefixes| ==> 1 <= prefixes[i].id < idGen
    }

    /** What the interface functions return: the stored region, toggle,
        numbers and rules; in a valid state the numbers have no repeats and
        the rule ids increase. */
    function Snapshot(): (r: RepoSnapshot)
      reads this
      ensures r.defaultRegion == region && r.blockUnknownEnabled == blockUnknown
      ensures r.blockedNumbers == numbers && r.prefixes == prefixes
      ensures Valid() ==> NoDuplicates(r.blockedNumbers) && IdsIncreasing(r.prefixes)
    {
      RepoSnapshot(region, blockUnknown, numbers, prefixes)
    }

    /** The `init` block: one national rule "800", one number, the toggle off, region "CL". */
    constructor()
      ensures Valid()
      ensures prefixes == [PrefixRule(1, "800", None)]
      ensures numbers == ["+56987654321"]
      ensures !blockUnknown && region == Some("CL") && idGen == 2
    {
      region := None;
      numbers := [];
      prefixes := [];
      idGen := 1;
      blockUnknown := false;
      new;
      var rule := AddPrefix("800", None);
      assert rule == PrefixRule(1, "800", None) && prefixes == [rule];
      AddBlockedNumber("+56987654321");
      assert numbers == [] + ["+56987654321"];
      SetBlockUnknown(false);
      SetDefaultRegion(Some("CL"));
    }

    method SetDefaultRegion(value: Option<string>)
      requires Valid()
      modifies this
      ensures Valid()
      ensures region == value
      ensures numbers == old(numbers) && prefixes == old(prefixes) && idGen == old(idGen) && blockUnknown == old(blockUnknown)
    {
      region := value;
    }

    method SetBlockUnknown(enabled: bool)
      requires Valid()
      modifies this
      ensures Valid()
      ensures blockUnknown == enabled
      ensures numbers == old(numbers) && prefixes == old(prefixes) && idGen == old(idGen) && region == old(region)
    {
      blockUnknown := enabled;
    }

    method AddBlockedNumber(e164: string)
      requires Valid()
      modifies this
      ensures Valid()
      ensures numbers == SetAdd(old(numbers), e164)
      ensures prefixes == old(prefixes) && idGen == old(idGen) && region == old(region) && blockUnknown == old(blockUnknown)
    {
      numbers := SetAdd(numbers, e164);
    }

    method RemoveBlockedNumber(e164: string)
      requires Valid()
      modifies this
      ensures Valid()
      ensures numbers == SetRemove(old(numbers), e164)
      ensures prefixes == old(prefixes) && idGen == old(idGen) && region == old(region) && blockUnknown == old(blockUnknown)
    {
      numbers := SetRemove(numbers, e164);
    }

    /** `addPrefix`: the rule takes the counter's value as its id, the counter
        advances, a blank country code is stored as null. */
    method AddPrefix(digits: string, countryCode: Option<string>) returns (rule: PrefixRule)
      requires Valid()
      modifies this
      ensures Valid()
      ensures rule == PrefixRule(old(idGen), digits, BlankToNull(countryCode))
      ensures prefixes == old(prefixes) + [rule] && idGen == old(idGen) + 1
      ensures numbers == old(numbers) && region == old(region) && blockUnknown == old(blockUnknown)
    {
      rule := PrefixRule(idGen, digits, BlankToNull(countryCode));
      AppendFreshId(prefixes, rule);
      prefixes := prefixes + [rule];
      idGen := idGen + 1;
    }

    /** `removePrefix(id)`: every rule with that id goes, the others keep their order. */
    method RemovePrefix(id: int)
      requires Valid()
      modifies this
      ensures Valid()
      ensures prefixes == Filter(old(prefixes), (r: PrefixRule) => r.id != id)
      ensures numbers == old(numbers) && idGen == old(idGen) && region == old(region) && blockUnknown == old(blockUnknown)
    {
      FilterStrictlyIncreasing(prefixes, (r: PrefixRule) => r.id != id, (r: PrefixRule) => r.id);
      prefixes := Filter(prefixes, (r: PrefixRule) => r.id != id);
    }
  }

  /** `RoomBackedBlockRepository.defaultRegion()`. */
  const RoomDefaultRegion: Option<string> := Some("CL")

  /** `blockUnknownEnabled()`: the stored flag, or true when there is no settings row. */
  function RoomBlockUnknownEnabled(settingsRow: Option<Settings>): (r: bool)
    ensures settingsRow.None? ==> r
    ensures settingsRow.Some? ==> r == settingsRow.value.blockUnknownEnabled
  {
    match settingsRow
    case None => true
    case Some(s) => s.blockUnknownEnabled
  }

  /** `isBlockedNumber(e164)`: some row has exactly that key. */
  function RoomIsBlockedNumber(rows: seq<BlockedNumber>, e164: string): (r: bool)
    ensures r <==> exists i :: 0 <= i < |rows| && rows[i].e164 == e164
  {
    Any(rows, (row: BlockedNumber) => row.e164 == e164)
  }

  /** `getBlockedNumbers()`: the keys, in table order. */
  function RoomGetBlockedNumbers(rows: seq<BlockedNumber>): (r: seq<string>)
    ensures |r| == |rows| && forall i :: 0 <= i < |rows| ==> r[i] == rows[i].e164
  {
    Map(rows, (row: BlockedNumber) => row.e164)
  }

  /** The two Room queries agree: a number is blocked exactly when it is listed. */
  lemma RoomBlockedIffListed(rows: seq<BlockedNumber>, e164: string)
    ensures RoomIsBlockedNumber(rows, e164) <==> e164 in RoomGetBlockedNumbers(rows)
  {
    var listed := RoomGetBlockedNumbers(rows);
    if e164 in listed {
      var i :| 0 <= i < |listed| && listed[i] == e164;
      assert rows[i].e164 == e164;
    }
  }

  /** `Int?.toString()`. */
  function CountryCodeText(countryCode: Option<Int32>): (r: Option<string>)
    ensures r.None? <==> countryCode.None?
    ensures r.Some? ==> ToIntOrNull(r.value) == Some(countryCode.value as int)
  {
    match countryCode
    case None => None
    case Some(n) =>
      ParseDecimalString(n, IntMin, IntMax);
      Some(DecimalString(n))
  }

  /** One row of `getPrefixes()`: the scope is dropped. */
  function ToPrefixRule(row: BlockedPrefixRule): (r: PrefixRule)
    ensures r.id == row.id && r.digits == row.prefixDigits
    ensures r.countryCode == CountryCodeText(row.countryCode)
  {
    PrefixRule(row.id, row.prefixDigits, CountryCodeText(row.countryCode))
  }

  /** `getPrefixes()`: every row mapped, in table order. */
  function RoomGetPrefixes(rows: seq<BlockedPrefixRule>): (r: seq<PrefixRule>)
    ensures |r| == |rows| && forall i :: 0 <= i < |rows| ==> r[i] == ToPrefixRule(rows[i])
  {
    Map(rows, ToPrefixRule)
  }

  /** What the Room-backed repository answers, given its three tables' contents. */
  function RoomSnapshot(settingsRow: Option<Settings>, numberRows: seq<BlockedNumber>,
                        prefixRows: seq<BlockedPrefixRule>): RepoSnapshot
  {
    RepoSnapshot(RoomDefaultRegion, RoomBlockUnknownEnabled(settingsRow),
                 RoomGetBlockedNumbers(numberRows), RoomGetPrefixes(prefixRows))
  }

  /** A rule whose scope agrees with its country code: BY_COUNTRY rules have
      one, NATIONAL rules do not (every rule the app creates is like this). */
  predicate ScopeConsistent(row: BlockedPrefixRule) {
    row.scope == ByCountry <==> row.countryCode.Some?
  }

  /** For such a rule, testing its Room mapping with `matchesPrefix`, as the
      call policy does, agrees with `PrefixMatcher`'s scoped test. */
  lemma RoomRuleAgreesWithPrefixMatcher(lib: PhoneUtil, rawNumber: string, region: string, row: BlockedPrefixRule)
    requires ScopeConsistent(row)
    ensures var rule := ToPrefixRule(row);
      var parsed := lib.parse(rawNumber, region);
      MatchesPrefix(lib, rawNumber, rule.digits, rule.countryCode, Some(region)) <==>
        parsed.Parsed? && RuleMatches(row, parsed.number)
  {
    assert RegionOrUnknown(Some(region)) == region;
    match row.countryCode
    case None =>
    case Some(n) =>
      DecimalCountryCodeMatches(lib, rawNumber, row.prefixDigits, n, false, Some(region));
  }
}
