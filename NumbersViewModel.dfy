/** `NumbersViewModel`: adding a blocked number by normalising it to E.164
    (or reporting why it could not be read), the sorted list the screen
    shows, and removal. */
module NumbersViewModel {
  import opened Wrappers
  import opened Seqs
  import opened Sorting
  import opened PhoneLib
  import opened Entities
  import opened Matching
  import opened Daos

  /** `UiBlockedNumber`. */
  datatype UiBlockedNumber = UiBlockedNumber(e164: string, createdAt: int)

  /** The initial value of `defaultRegion`. */
  const DefaultRegion: string := "CL"

  /** The message shown when the parser's exception carries none. */
  const InvalidNumberMessage: string := "Número inválido"

  /** The normalise-or-error step of `add`: the E.164 text of the parsed
      number, or the exception's message. */
  function Normalize(lib: PhoneUtil, raw: string, region: string): (r: Result<string, string>)
    ensures r.Failure? <==> lib.parse(raw, region).ParseError?
    ensures r.Failure? ==> r.error == lib.parse(raw, region).message.GetOr(InvalidNumberMessage)
    ensures r.Success? ==> r.value == lib.formatE164(lib.parse(raw, region).number)
  {
    match lib.parse(raw, region)
    case Parsed(p) => Success(lib.formatE164(p))
    case ParseError(m) => Failure(m.GetOr(InvalidNumberMessage))
  }

  /** `add` accepts exactly what `NumberMatch.normalizeToE164` accepts, and
      stores the same text. */
  lemma NormalizeAgreesWithNumberMatch(lib: PhoneUtil, raw: string, region: string)
    ensures Normalize(lib, raw, region).Success? <==> NormalizeToE164(lib, raw, region).Some?
    ensures Normalize(lib, raw, region).Success? ==>
      Normalize(lib, raw, region).value == NormalizeToE164(lib, raw, region).value
  {
  }

  /** No validity check: a number that parses but is not valid is accepted,
      although `Matching.toE164` would give null for it. */
  lemma InvalidNumberAccepted(lib: PhoneUtil, raw: string, region: string)
    requires lib.parse(raw, region).Parsed? && !lib.isValidNumber(lib.parse(raw, region).number)
    ensures Normalize(lib, raw, region).Success?
    ensures ToE164(lib, raw, Some(region)).None?
  {
  }

  /** The row as the list shows it; the stored row reads back from it. */
  function ToUi(row: BlockedNumber): (r: UiBlockedNumber)
    ensures BlockedNumber(r.e164, r.createdAt) == row
  {
    UiBlockedNumber(row.e164, row.createdAt)
  }

  /** The list `refresh` publishes: every stored row, sorted by `e164`. */
  function RefreshItems(rows: seq<BlockedNumber>): (r: seq<UiBlockedNumber>)
    ensures multiset(r) == multiset(Map(rows, ToUi)) && |r| == |rows|
    ensures SortedByKey(r, (u: UiBlockedNumber) => u.e164)
  {
    SortByKey(Map(rows, ToUi), (u: UiBlockedNumber) => u.e164)
  }

  class NumbersViewModel {
    const db: BlockedNumberDao
    var items: seq<UiBlockedNumber>
    var defaultRegion: string

    /** `init { refresh() }`, with the region "CL". */
    constructor(db: BlockedNumberDao)
      ensures this.db == db && defaultRegion == DefaultRegion && items == RefreshItems(db.rows)
    {
      this.db := db;
      defaultRegion := DefaultRegion;
      items := RefreshItems(db.rows);
    }

    method Refresh()
      modifies this
      ensures items == RefreshItems(db.rows) && defaultRegion == old(defaultRegion)
    {
      items := RefreshItems(db.rows);
    }

    /** `add(raw)`: null after storing the normalised number (replacing any
        row with the same key, stamped with `now`) and refreshing; otherwise
        the error, with nothing stored. */
    method Add(lib: PhoneUtil, raw: string, now: int) returns (error: Option<string>)
      requires db.Valid()
      modifies this, db
      ensures db.Valid() && defaultRegion == old(defaultRegion)
      ensures error == Normalize(lib, raw, defaultRegion).ErrorOrNone()
      ensures error.Some? ==> db.rows == old(db.rows) && items == old(items)
      ensures error.None? ==>
        db.rows == ReplaceByE164(old(db.rows), BlockedNumber(Normalize(lib, raw, defaultRegion).value, now))
        && items == RefreshItems(db.rows)
    {
      var n := Normalize(lib, raw, defaultRegion);
      if n.Failure? {
        return Some(n.error);
      }
      db.Add(BlockedNumber(n.value, now));
      Refresh();
      return None;
    }

    /** `remove(e164)`: deletes that key and refreshes. */
    method Remove(e164: string)
      requires db.Valid()
      modifies this, db
      ensures db.Valid() && defaultRegion == old(defaultRegion)
      ensures db.rows == RemoveByE164(old(db.rows), e164)
      ensures items == RefreshItems(db.rows)
    {
      db.Remove(e164);
      Refresh();
    }
  }
}
