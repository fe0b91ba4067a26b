/** `PrefixRulesViewModel`: entry validation of a new prefix rule (its digits,
    its scope and its country code), the labelled list the screen shows, and
    the rule table it changes. */
module PrefixRulesViewModel {
  import opened Wrappers
  import opened Seqs
  import opened Text
  import opened Sorting
  import opened Entities
  import opened Daos

  /** `UiPrefixRule`. */
  datatype UiPrefixRule = UiPrefixRule(
    id: int,
    labelText: string,
    scope: PrefixScope,
    countryCode: Option<Int32>,
    prefixDigits: string,
    createdAt: int)

  /** A nullable `Int` in a string template: "null" for null. */
  function NullableText(n: Option<Int32>): (r: string)
    ensures |r| >= 1 && r[0] != '+' && forall i :: 0 <= i < |r| ==> r[i] != ' '
  {
    match n
    case None => "null"
    case Some(v) =>
      DecimalStringEdges(v);
      DecimalStringNoSpace(v);
      DecimalString(v)
  }

  lemma {:induction false} DecimalStringNoSpace(n: int)
    ensures forall i :: 0 <= i < |DecimalString(n)| ==> DecimalString(n)[i] != ' '
  {
    var s := DecimalString(n);
    if n < 0 {
      assert s == "-" + NatString(-n);
      forall i | 0 <= i < |s| ensures s[i] != ' ' {
        if i > 0 { assert s[i] == NatString(-n)[i - 1]; }
      }
    }
  }

  /** The label of a rule: "+cc digits*" for BY_COUNTRY, "digits* (NSN)" for NATIONAL. */
  function Label(rule: BlockedPrefixRule): (r: string)
    ensures rule.scope == National ==> |r| > |rule.prefixDigits| && StartsWith(r, rule.prefixDigits) && r[|r| - 1] == ')'
    ensures rule.scope == ByCountry ==> |r| >= 4 && r[0] == '+' && r[|r| - 1] == '*'
  {
    match rule.scope
    case ByCountry => "+" + NullableText(rule.countryCode) + " " + rule.prefixDigits + "*"
    case National => rule.prefixDigits + "* (NSN)"
  }

  lemma {:induction false} SplitAtFirstSpace(a1: string, d1: string, a2: string, d2: string)
    requires forall i :: 0 <= i < |a1| ==> a1[i] != ' '
    requires forall i :: 0 <= i < |a2| ==> a2[i] != ' '
    requires a1 + " " + d1 == a2 + " " + d2
    ensures a1 == a2 && d1 == d2
  {
    var s := a1 + " " + d1;
    FirstSpace(a1, d1);
    FirstSpace(a2, d2);
    assert |a1| == |a2|;
    assert a1 == s[..|a1|] && a2 == (a2 + " " + d2)[..|a2|];
    assert d1 == s[|a1| + 1..] && d2 == (a2 + " " + d2)[|a2| + 1..];
  }

  lemma FirstSpace(a: string, d: string)
    requires forall i :: 0 <= i < |a| ==> a[i] != ' '
    ensures (a + " " + d)[|a|] == ' '
    ensures forall i :: 0 <= i < |a| ==> (a + " " + d)[i] != ' '
  {
  }

  lemma SuffixCancel(a: string, b: string, suffix: string)
    requires a + suffix == b + suffix
    ensures a == b
  {
    assert a == (a + suffix)[..|a|] && b == (b + suffix)[..|b|];
  }

  lemma WrapCancel(x1: string, x2: string, opening: string, closing: string)
    requires opening + x1 + closing == opening + x2 + closing
    ensures x1 == x2
  {
    SuffixCancel(opening + x1, opening + x2, closing);
    assert x1 == (opening + x1)[|opening|..] && x2 == (opening + x2)[|opening|..];
  }

  /** Two rules with digit-only prefixes have the same label exactly when
      they agree on scope, country code and digits: the label identifies the rule. */
  lemma LabelIdentifiesRule(r1: BlockedPrefixRule, r2: BlockedPrefixRule)
    requires AllDigits(r1.prefixDigits) && AllDigits(r2.prefixDigits)
    requires r1.scope == ByCountry <==> r1.countryCode.Some?
    requires r2.scope == ByCountry <==> r2.countryCode.Some?
    ensures Label(r1) == Label(r2) <==>
      r1.scope == r2.scope && r1.countryCode == r2.countryCode && r1.prefixDigits == r2.prefixDigits
  {
    if r1.scope != r2.scope {
      if r1.scope == National {
        NationalLabelStart(r1);
        ByCountryLabelStart(r2);
      } else {
        NationalLabelStart(r2);
        ByCountryLabelStart(r1);
      }
    } else if r1.scope == National {
      NationalLabelsEqual(r1, r2);
    } else {
      ByCountryLabelsEqual(r1, r2);
    }
  }

  lemma NationalLabelsEqual(r1: BlockedPrefixRule, r2: BlockedPrefixRule)
    requires r1.scope == National && r2.scope == National
    ensures Label(r1) == Label(r2) ==> r1.prefixDigits == r2.prefixDigits
  {
    if Label(r1) == Label(r2) {
      SuffixCancel(r1.prefixDigits, r2.prefixDigits, "* (NSN)");
    }
  }

  lemma ByCountryLabelsEqual(r1: BlockedPrefixRule, r2: BlockedPrefixRule)
    requires r1.scope == ByCountry && r2.scope == ByCountry
    ensures Label(r1) == Label(r2) ==> r1.countryCode == r2.countryCode && r1.prefixDigits == r2.prefixDigits
  {
    var l1, l2 := Label(r1), Label(r2);
    if l1 == l2 {
      var a1, a2 := NullableText(r1.countryCode), NullableText(r2.countryCode);
      assert l1 == "+" + (a1 + " " + r1.prefixDigits) + "*";
      assert l2 == "+" + (a2 + " " + r2.prefixDigits) + "*";
      WrapCancel(a1 + " " + r1.prefixDigits, a2 + " " + r2.prefixDigits, "+", "*");
      SplitAtFirstSpace(a1, r1.prefixDigits, a2, r2.prefixDigits);
      NullableTextInjective(r1.countryCode, r2.countryCode);
    }
  }

  lemma ByCountryLabelStart(r: BlockedPrefixRule)
    requires r.scope == ByCountry
    ensures Label(r)[0] == '+'
  {
  }

  /** A NATIONAL label never starts with `+`, which every BY_COUNTRY label does. */
  lemma NationalLabelStart(r: BlockedPrefixRule)
    requires r.scope == National && AllDigits(r.prefixDigits)
    ensures Label(r)[0] != '+'
  {
    if |r.prefixDigits| > 0 { assert Label(r)[0] == r.prefixDigits[0]; }
  }

  lemma NullableTextInjective(a: Option<Int32>, b: Option<Int32>)
    ensures NullableText(a) == NullableText(b) ==> a == b
  {
    match a {
      case None =>
        if b.Some? {
          DecimalStringEdges(b.value);
          assert NullableText(b)[0] != 'n';
        }
      case Some(x) =>
        match b {
          case None =>
            DecimalStringEdges(x);
            assert NullableText(a)[0] != 'n';
          case Some(y) =>
            DecimalStringInjective(x, y);
        }
    }
  }

  /** The row as the list shows it: the rule's own fields, which read back
      as the rule, and its label. */
  function ToUi(rule: BlockedPrefixRule): (r: UiPrefixRule)
    ensures BlockedPrefixRule(r.id, r.scope, r.countryCode, r.prefixDigits, r.createdAt) == rule
    ensures r.labelText == Label(rule)
  {
    UiPrefixRule(rule.id, Label(rule), rule.scope, rule.countryCode, rule.prefixDigits, rule.createdAt)
  }

  /** The list `refresh` publishes: every row, labelled, sorted by label. */
  function RefreshItems(rows: seq<BlockedPrefixRule>): (r: seq<UiPrefixRule>)
    ensures multiset(r) == multiset(Map(rows, ToUi)) && |r| == |rows|
    ensures SortedByKey(r, (u: UiPrefixRule) => u.labelText)
  {
    SortByKey(Map(rows, ToUi), (u: UiPrefixRule) => u.labelText)
  }

  /** The country code `add` settles on: the input trimmed, then one leading
      `+` removed; blank gives null, otherwise `toIntOrNull()` (null when it
      does not parse). */
  function CountryCodeChoice(countryCodeInput: Option<string>): (r: Option<Int32>)
    ensures countryCodeInput.None? ==> r.None?
    ensures countryCodeInput.Some? ==>
      var t := RemovePrefix(Trim(countryCodeInput.value), "+");
      r == (if IsBlank(t) then None else ToIntOrNull(t))
  {
    var t := RemovePrefix(match countryCodeInput case None => "" case Some(c) => Trim(c), "+");
    if IsBlank(t) then None
    else match ToIntOrNull(t)
      case None => None
      case Some(v) => Some(v)
  }

  /** The decimal text of an `Int`, with or without a leading `+`, is read back as that `Int`. */
  lemma {:induction false} CountryCodeRoundTrip(n: Int32, withPlus: bool)
    ensures CountryCodeChoice(Some(if withPlus then "+" + DecimalString(n) else DecimalString(n))) == Some(n)
  {
    var s := DecimalString(n);
    var text := if withPlus then "+" + s else s;
    DecimalStringEdges(n);
    ParseDecimalString(n, IntMin, IntMax);
    TrimmedCountryText(s, withPlus);
    assert ToIntOrNull(s) == Some(n as int);
    assert CountryCodeChoice(Some(text)) == (if IsBlank(s) then None else ToIntOrNull(s));
  }

  lemma {:induction false} TrimmedCountryText(s: string, withPlus: bool)
    requires |s| > 0 && !IsWhitespace(s[0]) && !IsWhitespace(s[|s| - 1]) && s[0] != '+'
    ensures RemovePrefix(Trim(if withPlus then "+" + s else s), "+") == s && !IsBlank(s)
  {
    if withPlus {
      var text := "+" + s;
      assert text[|text| - 1] == s[|s| - 1];
      TrimThenRemovePrefix(text, "+");
      assert text[..1] == "+" && text[1..] == s;
    } else {
      TrimThenRemovePrefix(s, "+");
      assert s[..1] != "+" by { assert s[..1][0] == s[0]; }
    }
  }

  /** Whitespace after the `+` is not trimmed away, and the text left does
      not parse: "+ 56" gives no country code, hence a NATIONAL rule. */
  lemma {:induction false} WhitespaceAfterPlusGivesNoCode(rest: string)
    requires |rest| > 0 && IsWhitespace(rest[0]) && !IsWhitespace(rest[|rest| - 1])
    ensures CountryCodeChoice(Some("+" + rest)) == None
  {
    var t := "+" + rest;
    assert t[|t| - 1] == rest[|rest| - 1];
    TrimThenRemovePrefix(t, "+");
    assert t[..1] == "+" && t[1..] == rest;
    assert !IsDigit(rest[0]) && rest[0] != '-' && rest[0] != '+';
    assert ToIntOrNull(rest) == None;
  }

  /** What `add` will insert. */
  datatype RuleDraft = RuleDraft(scope: PrefixScope, countryCode: Option<Int32>, prefixDigits: string)

  const EmptyPrefixError: string := "Prefijo vacío o inválido"

  /** The decisions of `add`: no digits is an error; otherwise a BY_COUNTRY
      rule when a country code was read and a NATIONAL rule without one
      (blank or unreadable input alike). */
  function ValidateAdd(prefixDigitsRaw: string, countryCodeInput: Option<string>): (r: Result<RuleDraft, string>)
    ensures r.Failure? <==> FilterDigits(prefixDigitsRaw) == []
    ensures r.Failure? ==> r.error == EmptyPrefixError
    ensures r.Success? ==>
      (r.value.prefixDigits == FilterDigits(prefixDigitsRaw)
       && |r.value.prefixDigits| > 0 && AllDigits(r.value.prefixDigits))
    ensures r.Success? ==>
      (r.value.countryCode == CountryCodeChoice(countryCodeInput)
       && (r.value.scope == ByCountry <==> r.value.countryCode.Some?))
  {
    var digits := FilterDigits(prefixDigitsRaw);
    if digits == [] then Failure(EmptyPrefixError)
    else match CountryCodeChoice(countryCodeInput)
      case None => Success(RuleDraft(National, None, digits))
      case Some(cc) => Success(RuleDraft(ByCountry, Some(cc), digits))
  }

  /** Digit-only country text is read as the value its digits spell, when it fits an `Int`. */
  lemma {:induction false} DigitsCountryCode(cc: string)
    requires AllDigits(cc)
    ensures CountryCodeChoice(Some(cc)) ==
      if cc == [] then None else if DigitsValue(cc) <= IntMax then Some(DigitsValue(cc)) else None
  {
    if cc != [] {
      assert IsDigit(cc[0]) && IsDigit(cc[|cc| - 1]);
      TrimThenRemovePrefix(cc, "+");
      assert !StartsWith(cc, "+") by { assert cc[..1][0] == cc[0]; }
      assert !IsBlank(cc) by { assert !IsWhitespace(cc[0]); }
    }
  }

  /** A country code typed as the decimal text of an `Int` (with or without
      `+`) gives a BY_COUNTRY rule with that code. */
  lemma CountryCodeGivesByCountry(prefixDigitsRaw: string, n: Int32, withPlus: bool)
    requires FilterDigits(prefixDigitsRaw) != []
    ensures ValidateAdd(prefixDigitsRaw, Some(if withPlus then "+" + DecimalString(n) else DecimalString(n)))
      == Success(RuleDraft(ByCountry, Some(n), FilterDigits(prefixDigitsRaw)))
  {
    CountryCodeRoundTrip(n, withPlus);
  }

  /** A country code too large for an `Int` does not parse, and the rule is
      silently stored as NATIONAL. */
  lemma {:induction false} OverflowingCountryCodeIsNational(prefixDigitsRaw: string, n: int)
    requires FilterDigits(prefixDigitsRaw) != []
    requires n > IntMax
    ensures ValidateAdd(prefixDigitsRaw, Some(DecimalString(n)))
      == Success(RuleDraft(National, None, FilterDigits(prefixDigitsRaw)))
  {
    var s := DecimalString(n);
    DecimalStringEdges(n);
    ParseDecimalString(n, IntMin, IntMax);
    TrimmedCountryText(s, false);
  }

  /** The rows `add` can produce: a scope that agrees with the country code, and
      non-empty digit-only prefixes. */
  ghost predicate WellFormedRows(rows: seq<BlockedPrefixRule>) {
    forall i :: 0 <= i < |rows| ==>
      (rows[i].scope == ByCountry <==> rows[i].countryCode.Some?)
      && |rows[i].prefixDigits| > 0 && AllDigits(rows[i].prefixDigits)
  }

  lemma AppendWellFormed(rows: seq<BlockedPrefixRule>, row: BlockedPrefixRule)
    requires (row.scope == ByCountry <==> row.countryCode.Some?) && |row.prefixDigits| > 0 && AllDigits(row.prefixDigits)
    ensures WellFormedRows(rows) ==> WellFormedRows(rows + [row])
  {
  }

  class PrefixRulesViewModel {
    const db: BlockedPrefixDao
    var items: seq<UiPrefixRule>

    /** `init { refresh() }`. */
    constructor(db: BlockedPrefixDao)
      ensures this.db == db && items == RefreshItems(db.rows)
    {
      this.db := db;
      items := RefreshItems(db.rows);
    }

    method Refresh()
      modifies this
      ensures items == RefreshItems(db.rows)
    {
      items := RefreshItems(db.rows);
    }

    /** `add`: returns the error, or null after inserting the rule (with an
        auto-generated id and the time `now`) and refreshing. */
    method Add(prefixDigitsRaw: string, countryCodeInput: Option<string>, now: int) returns (error: Option<string>)
      requires db.Valid()
      modifies this, db
      ensures db.Valid()
      ensures error == ValidateAdd(prefixDigitsRaw, countryCodeInput).ErrorOrNone()
      ensures error.Some? ==> db.rows == old(db.rows) && db.lastId == old(db.lastId) && items == old(items)
      ensures error.None? ==>
        var d := ValidateAdd(prefixDigitsRaw, countryCodeInput).value;
        db.rows == old(db.rows) + [BlockedPrefixRule(old(db.lastId) + 1, d.scope, d.countryCode, d.prefixDigits, now)]
        && items == RefreshItems(db.rows)
      ensures WellFormedRows(old(db.rows)) ==> WellFormedRows(db.rows)
    {
      var v := ValidateAdd(prefixDigitsRaw, countryCodeInput);
      if v.Failure? {
        return Some(v.error);
      }
      Insert(v.value, now);
      return None;
    }

    /** The launched block of `add`: insert the validated rule with an
        auto-generated id and refresh. */
    method Insert(d: RuleDraft, now: int)
      requires db.Valid()
      requires (d.scope == ByCountry <==> d.countryCode.Some?) && |d.prefixDigits| > 0 && AllDigits(d.prefixDigits)
      modifies this, db
      ensures db.Valid()
      ensures db.rows == old(db.rows) + [BlockedPrefixRule(old(db.lastId) + 1, d.scope, d.countryCode, d.prefixDigits, now)]
      ensures items == RefreshItems(db.rows)
      ensures WellFormedRows(old(db.rows)) ==> WellFormedRows(db.rows)
    {
      ghost var before := db.rows;
      var row := BlockedPrefixRule(0, d.scope, d.countryCode, d.prefixDigits, now);
      var stored := row.(id := db.lastId + 1);
      AppendWellFormed(before, stored);
      var _ := db.Add(row);
      assert db.rows == before + [stored];
      Refresh();
    }

    /** `remove(id)`: deletes the rule and refreshes. */
    method Remove(id: int)
      requires db.Valid()
      modifies this, db
      ensures db.Valid()
      ensures db.rows == Filter(old(db.rows), (r: BlockedPrefixRule) => r.id != id)
      ensures items == RefreshItems(db.rows)
      ensures WellFormedRows(old(db.rows)) ==> WellFormedRows(db.rows)
    {
      db.Remove(id);
      Refresh();
    }
  }
}
