/** What the prefix list and the number list screens share: the search box
    filter and what the add dialog does with the result of `add`. */
module ListScreens {
  import opened Wrappers
  import opened Seqs
  import opened Text

  /** The remembered `filtered` list: with an empty trimmed, lower-cased
      query every item, otherwise the items whose lower-cased key contains
      the query. */
  function Search<T(!new)>(items: seq<T>, key: T -> string, query: string): (r: seq<T>)
    ensures Trim(query) == [] ==> r == items
    ensures Trim(query) != [] ==>
      forall x :: x in r <==> x in items && Contains(Lower(key(x)), Lower(Trim(query)))
    ensures |r| <= |items|
  {
    var q := Lower(Trim(query));
    if q == [] then items else Filter(items, (x: T) => Contains(Lower(key(x)), q))
  }

  lemma {:induction false} SubsequenceOfItself<T>(s: seq<T>)
    ensures IsSubsequence(s, s)
  {
    if s != [] {
      SubsequenceOfItself(s[1..]);
    }
  }

  /** A blank query shows everything; any query keeps the items in their order. */
  lemma SearchKeepsOrder<T(!new)>(items: seq<T>, key: T -> string, query: string)
    ensures IsBlank(query) ==> Search(items, key, query) == items
    ensures IsSubsequence(Search(items, key, query), items)
  {
    BlankIffTrimEmpty(query);
    if Lower(Trim(query)) == [] {
      SubsequenceOfItself(items);
    } else {
      FilterIsSubsequence(items, (x: T) => Contains(Lower(key(x)), Lower(Trim(query))));
    }
  }

  /** What the dialog does after `add`. */
  datatype SaveOutcome = CloseDialog | ShowError(message: string)

  /** `if (error == null) showDialog = false else showSnackbar(error)`. */
  function AfterSave(error: Option<string>): (r: SaveOutcome)
    ensures r == CloseDialog <==> error.None?
    ensures r.ShowError? ==> r.message == error.value
  {
    match error
    case None => CloseDialog
    case Some(m) => ShowError(m)
  }
}
