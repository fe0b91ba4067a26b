/** `NumberListScreen`: the search over the stored numbers, what the add
    dialog passes to `NumbersViewModel.add` (typed text or a number picked
    from the contacts), and the dialog's reaction to the result. */
module NumberListScreen {
  import opened Wrappers
  import opened Seqs
  import opened Text
  import opened PhoneLib
  import opened NumbersViewModel
  import opened ListScreens

  /** The search box over the numbers. */
  function SearchNumbers(items: seq<UiBlockedNumber>, query: string): (r: seq<UiBlockedNumber>)
    ensures Trim(query) == [] ==> r == items
    ensures Trim(query) != [] ==>
      forall u :: u in r <==> u in items && Contains(Lower(u.e164), Lower(Trim(query)))
  {
    Search(items, (u: UiBlockedNumber) => u.e164, query)
  }

  /** The total shown above the list counts what the search shows. */
  function TotalShown(items: seq<UiBlockedNumber>, query: string): (n: nat)
    ensures n <= |items|
    ensures Trim(query) == [] ==> n == |items|
  {
    |SearchNumbers(items, query)|
  }

  /** Save in the dialog: the typed text, trimmed. The result is the slice
      of the text between a blank run at its start and a blank run at its end. */
  function ManualSaveArgument(text: string): (r: string)
    ensures r == [] || (!IsWhitespace(r[0]) && !IsWhitespace(r[|r| - 1]))
    ensures IsBlank(text) <==> r == []
    ensures TrimOffset(text) + |r| <= |text|
    ensures r == text[TrimOffset(text)..TrimOffset(text) + |r|]
    ensures IsBlank(text[..TrimOffset(text)]) && IsBlank(text[TrimOffset(text) + |r|..])
  {
    BlankIffTrimEmpty(text);
    Trim(text)
  }

  /** A number picked from the contacts: saved as it is when non-null and
      non-blank, otherwise nothing is saved. */
  function ContactSaveArgument(number: Option<string>): (r: Option<string>)
    ensures r.Some? <==> number.Some? && !IsBlank(number.value)
    ensures r.Some? ==> r.value == number.value
  {
    match number
    case None => None
    case Some(n) => if IsBlank(n) then None else Some(n)
  }

  /** Trimming the typed text is idempotent, so a second Save sends the same text. */
  lemma ManualSaveIdempotent(text: string)
    ensures ManualSaveArgument(ManualSaveArgument(text)) == ManualSaveArgument(text)
  {
    TrimNoop(Trim(text));
  }

  /** The dialog closes exactly when the number parses. */
  lemma DialogClosesOnSuccess(lib: PhoneUtil, raw: string, region: string)
    ensures AfterSave(Normalize(lib, raw, region).ErrorOrNone()) == CloseDialog
      <==> lib.parse(raw, region).Parsed?
  {
  }
}
