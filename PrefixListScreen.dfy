/** `PrefixListScreen`: the two input fields of the add dialog, what Save
    passes to `PrefixRulesViewModel.add`, the search over the labels and the
    dialog's reaction to the result. */
module PrefixListScreen {
  import opened Wrappers
  import opened Seqs
  import opened Text
  import opened Entities
  import opened PrefixRulesViewModel
  import opened ListScreens

  /** The prefix field: keep the digits, cursor at the end. */
  function SanitizePrefixField(text: string): (r: (string, int))
    ensures r.0 == FilterDigits(text) && AllDigits(r.0) && r.1 == |r.0|
  {
    var cleaned := FilterDigits(text);
    (cleaned, |cleaned|)
  }

  /** The country-code field: drop one leading `+`, keep the digits, cursor at the end. */
  function SanitizeCountryField(text: string): (r: (string, int))
    ensures AllDigits(r.0) && r.1 == |r.0|
  {
    var cleaned := FilterDigits(RemovePrefix(text, "+"));
    (cleaned, |cleaned|)
  }

  /** Removing the `+` first changes nothing, as it is not a digit; and a
      cleaned field is left alone by the next edit. */
  lemma CountryFieldKeepsDigits(text: string)
    ensures SanitizeCountryField(text).0 == FilterDigits(text)
    ensures SanitizeCountryField(SanitizeCountryField(text).0).0 == SanitizeCountryField(text).0
  {
    if StartsWith(text, "+") {
      assert text == "+" + RemovePrefix(text, "+");
      FilterAppend("+", RemovePrefix(text, "+"), IsDigit);
    }
    FilterDigitsIdempotent(text);
  }

  /** The Save button: the prefix text as it is, and a blank country text as null. */
  function SaveArguments(prefixText: string, countryText: string): (r: (string, Option<string>))
    ensures r.0 == prefixText
    ensures r.1.None? <==> IsBlank(countryText)
    ensures r.1.Some? ==> r.1.value == countryText
  {
    (prefixText, if IsBlank(countryText) then None else Some(countryText))
  }

  /** From the fields to the stored rule: the dialog can only ask for a
      NATIONAL rule by leaving the country empty, and a country that fits an
      `Int` gives a BY_COUNTRY rule with the value its digits spell (leading
      zeros included, so "056" is stored as 56). */
  lemma {:induction false} SavedFieldsDecideScope(prefixText: string, countryText: string)
    ensures var cc := SanitizeCountryField(countryText).0;
      var args := SaveArguments(SanitizePrefixField(prefixText).0, cc);
      var v := ValidateAdd(args.0, args.1);
      (v.Failure? <==> FilterDigits(prefixText) == [])
      && (v.Success? && cc == [] ==> v.value.scope == National && v.value.countryCode == None)
      && (v.Success? && cc != [] && DigitsValue(cc) <= IntMax ==>
            v.value.scope == ByCountry && v.value.countryCode == Some(DigitsValue(cc)))
  {
    var p := SanitizePrefixField(prefixText).0;
    var cc := SanitizeCountryField(countryText).0;
    FilterDigitsIdempotent(prefixText);
    assert FilterDigits(p) == FilterDigits(prefixText);
    BlankDigits(cc);
    var args := SaveArguments(p, cc);
    assert args.0 == p;
    assert args.1 == if cc == [] then None else Some(cc);
    DigitsCountryCode(cc);
    var choice := CountryCodeChoice(args.1);
    assert choice == if cc == [] || DigitsValue(cc) > IntMax then None else Some(DigitsValue(cc));
    var v := ValidateAdd(p, args.1);
    assert v.Success? ==> v.value.countryCode == choice && (v.value.scope == ByCountry <==> choice.Some?);
  }

  lemma BlankDigits(s: string)
    requires AllDigits(s)
    ensures IsBlank(s) <==> s == []
  {
    if s != [] { assert IsDigit(s[0]); }
  }

  /** The search box over the rules' labels. */
  function SearchRules(items: seq<UiPrefixRule>, query: string): (r: seq<UiPrefixRule>)
    ensures Trim(query) == [] ==> r == items
    ensures Trim(query) != [] ==>
      forall u :: u in r <==> u in items && Contains(Lower(u.labelText), Lower(Trim(query)))
  {
    Search(items, (u: UiPrefixRule) => u.labelText, query)
  }

  /** The dialog closes exactly when `add` accepted the rule. */
  lemma DialogClosesOnSuccess(prefixDigitsRaw: string, countryCodeInput: Option<string>)
    ensures AfterSave(ValidateAdd(prefixDigitsRaw, countryCodeInput).ErrorOrNone()) == CloseDialog
      <==> FilterDigits(prefixDigitsRaw) != []
    ensures FilterDigits(prefixDigitsRaw) == [] ==>
      AfterSave(ValidateAdd(prefixDigitsRaw, countryCodeInput).ErrorOrNone()) == ShowError(EmptyPrefixError)
  {
  }
}
