/** The four Room DAOs as tables changed in place. A table is the sequence of
    its rows in the order `SELECT *` returns them; an insert that replaces a
    row deletes the old row and appends the new one. */
module Daos {
  import opened Wrappers
  import opened Seqs
  import opened Sorting
  import opened Entities

  /** `SettingsDao` over the `settings` table, keyed by `id`. */
  class SettingsDao {
    var rows: map<int, Settings>

    ghost predicate Valid()
      reads this
    {
      forall k | k in rows :: rows[k].id == k
    }

    constructor()
      ensures Valid() && rows == map[]
    {
      rows := map[];
    }

    /** `get()`: `SELECT * FROM settings WHERE id=0`, null when there is no such row. */
    function Get(): (r: Option<Settings>)
      requires Valid()
      reads this
      ensures r.Some? <==> 0 in rows
      ensures r.Some? ==> r.value.id == 0 && r.value == rows[0]
    {
      if 0 in rows then Some(rows[0]) else None
    }

    /** `upsert(s)`: insert, replacing the row with the same id. */
    method Upsert(s: Settings)
      requires Valid()
      modifies this
      ensures Valid()
      ensures rows == old(rows)[s.id := s]
      ensures s.id == 0 ==> Get() == Some(s)
    {
      rows := rows[s.id := s];
    }
  }

  /** REPLACE on the primary key `e164`: the row with the item's key (if any)
      is deleted and the item appended. */
  function ReplaceByE164(rows: seq<BlockedNumber>, item: BlockedNumber): (r: seq<BlockedNumber>)
    ensures |r| >= 1 && r[|r| - 1] == item
    ensures forall x :: x in r <==> x == item || (x in rows && x.e164 != item.e164)
    ensures UniqueBy(rows, (n: BlockedNumber) => n.e164) ==> UniqueBy(r, (n: BlockedNumber) => n.e164)
  {
    var kept := Filter(rows, (n: BlockedNumber) => n.e164 != item.e164);
    assert UniqueBy(rows, (n: BlockedNumber) => n.e164) ==> UniqueBy(kept + [item], (n: BlockedNumber) => n.e164) by {
      if UniqueBy(rows, (n: BlockedNumber) => n.e164) {
        FilterUniqueBy(rows, (n: BlockedNumber) => n.e164 != item.e164, (n: BlockedNumber) => n.e164);
        var r := kept + [item];
        forall i, j | 0 <= i < j < |r| ensures r[i].e164 != r[j].e164 {
          assert r[i] == kept[i];
          if j < |kept| { assert r[j] == kept[j]; }
        }
      }
    }
    kept + [item]
  }

  /** `DELETE FROM blocked_numbers WHERE e164 = :e164`. */
  function RemoveByE164(rows: seq<BlockedNumber>, e164: string): (r: seq<BlockedNumber>)
    ensures forall x :: x in r <==> x in rows && x.e164 != e164
    ensures UniqueBy(rows, (n: BlockedNumber) => n.e164) ==> UniqueBy(r, (n: BlockedNumber) => n.e164)
  {
    assert UniqueBy(rows, (n: BlockedNumber) => n.e164) ==>
        UniqueBy(Filter(rows, (n: BlockedNumber) => n.e164 != e164), (n: BlockedNumber) => n.e164) by {
      if UniqueBy(rows, (n: BlockedNumber) => n.e164) {
        FilterUniqueBy(rows, (n: BlockedNumber) => n.e164 != e164, (n: BlockedNumber) => n.e164);
      }
    }
    Filter(rows, (n: BlockedNumber) => n.e164 != e164)
  }

  /** The rows with key `k`. */
  function RowsWithKey(rows: seq<BlockedNumber>, k: string): seq<BlockedNumber> {
    Filter(rows, (n: BlockedNumber) => n.e164 == k)
  }

  /** Replacing a row leaves the rows of every other key exactly as they were. */
  lemma {:induction false} ReplaceKeepsOtherKeys(rows: seq<BlockedNumber>, item: BlockedNumber, k: string)
    requires k != item.e164
    ensures RowsWithKey(ReplaceByE164(rows, item), k) == RowsWithKey(rows, k)
  {
    var kept := Filter(rows, (n: BlockedNumber) => n.e164 != item.e164);
    FilterAppend(kept, [item], (n: BlockedNumber) => n.e164 == k);
    FilterImplied(rows, (n: BlockedNumber) => n.e164 != item.e164, (n: BlockedNumber) => n.e164 == k);
    assert Filter([item], (n: BlockedNumber) => n.e164 == k) == [];
  }

  /** Deleting a key leaves the rows of every other key exactly as they were. */
  lemma {:induction false} RemoveKeepsOtherKeys(rows: seq<BlockedNumber>, e164: string, k: string)
    requires k != e164
    ensures RowsWithKey(RemoveByE164(rows, e164), k) == RowsWithKey(rows, k)
  {
    FilterImplied(rows, (n: BlockedNumber) => n.e164 != e164, (n: BlockedNumber) => n.e164 == k);
  }

  /** Re-adding the same row changes nothing more. */
  lemma {:induction false} ReplaceIdempotent(rows: seq<BlockedNumber>, item: BlockedNumber)
    ensures ReplaceByE164(ReplaceByE164(rows, item), item) == ReplaceByE164(rows, item)
  {
    var p := (n: BlockedNumber) => n.e164 != item.e164;
    var kept := Filter(rows, p);
    assert ReplaceByE164(rows, item) == kept + [item];
    FilterAppend(kept, [item], p);
    FilterAll(kept, p);
    assert Filter([item], p) == [];
    assert Filter(kept + [item], p) == kept;
  }

  /** `BlockedNumberDao` over `blocked_numbers`, keyed by `e164`. */
  class BlockedNumberDao {
    var rows: seq<BlockedNumber>

    ghost predicate Valid()
      reads this
    {
      UniqueBy(rows, (n: BlockedNumber) => n.e164)
    }

    constructor()
      ensures Valid() && rows == []
    {
      rows := [];
    }

    /** `add(item)` with `OnConflictStrategy.REPLACE`. */
    method Add(item: BlockedNumber)
      requires Valid()
      modifies this
      ensures Valid()
      ensures rows == ReplaceByE164(old(rows), item)
    {
      rows := ReplaceByE164(rows, item);
    }

    /** `remove(e164)`. */
    method Remove(e164: string)
      requires Valid()
      modifies this
      ensures Valid()
      ensures rows == RemoveByE164(old(rows), e164)
    {
      rows := RemoveByE164(rows, e164);
    }
  }

  /** `BlockedPrefixDao` over `blocked_prefix_rules`, whose `id` is an
      AUTOINCREMENT key: `lastId` is the largest id the table has handed out. */
  class BlockedPrefixDao {
    var rows: seq<BlockedPrefixRule>
    var lastId: int

    ghost predicate Valid()
      reads this
    {
      UniqueBy(rows, (r: BlockedPrefixRule) => r.id) && 0 <= lastId
      && forall i :: 0 <= i < |rows| ==> rows[i].id <= lastId
    }

    constructor()
      ensures Valid() && rows == [] && lastId == 0
    {
      rows := [];
      lastId := 0;
    }

    /** `add(item)`, a plain insert: an id of 0 is replaced by the next id;
        an explicit id already present is a constraint failure, reported as
        `inserted == false` with nothing changed. */
    method Add(item: BlockedPrefixRule) returns (inserted: bool)
      requires Valid()
      modifies this
      ensures Valid()
      ensures item.id == 0 ==>
        (inserted && lastId == old(lastId) + 1 && rows == old(rows) + [item.(id := old(lastId) + 1)])
      ensures item.id != 0 ==>
        (inserted <==> forall i :: 0 <= i < |old(rows)| ==> old(rows)[i].id != item.id)
      ensures item.id != 0 && inserted ==>
        rows == old(rows) + [item] && lastId == (if item.id > old(lastId) then item.id else old(lastId))
      ensures !inserted ==> rows == old(rows) && lastId == old(lastId)
    {
      var row := item;
      if item.id == 0 {
        row := item.(id := lastId + 1);
      } else if exists i :: 0 <= i < |rows| && rows[i].id == item.id {
        return false;
      }
      var r := rows + [row];
      forall i, j | 0 <= i < j < |r| ensures r[i].id != r[j].id {
        assert r[i] == rows[i];
        if j < |rows| { assert r[j] == rows[j]; }
      }
      rows := r;
      if row.id > lastId {
        lastId := row.id;
      }
      return true;
    }

    /** `remove(id)`: only the row with that id goes. */
    method Remove(id: int)
      requires Valid()
      modifies this
      ensures Valid()
      ensures rows == Filter(old(rows), (r: BlockedPrefixRule) => r.id != id)
      ensures lastId == old(lastId)
    {
      FilterUniqueBy(rows, (r: BlockedPrefixRule) => r.id != id, (r: BlockedPrefixRule) => r.id);
      rows := Filter(rows, (r: BlockedPrefixRule) => r.id != id);
    }
  }

  function EventTs(e: BlockedEvent): int { e.ts }

  function AtOrAfter(since: int): BlockedEvent -> bool {
    (e: BlockedEvent) => e.ts >= since
  }

  /** `SELECT * FROM blocked_events WHERE ts >= :since ORDER BY ts DESC`. */
  function EventsSince(rows: seq<BlockedEvent>, since: int): (r: seq<BlockedEvent>)
    ensures multiset(r) == multiset(Filter(rows, AtOrAfter(since)))
    ensures forall e :: e in r <==> e in rows && e.ts >= since
    ensures SortedDesc(r, EventTs)
  {
    var selected := Filter(rows, AtOrAfter(since));
    var r := SortDesc(selected, EventTs);
    assert forall e :: e in r <==> e in selected by {
      forall e ensures e in r <==> e in selected {
        assert e in r <==> e in multiset(r);
        assert e in selected <==> e in multiset(selected);
      }
    }
    r
  }

  /** Events with a tie in `ts` come out of `since` in the order they were
      stored, which is the order the model gives `ORDER BY ts DESC`. */
  lemma EventsSinceKeepsTies(rows: seq<BlockedEvent>, since: int, t: int)
    requires t >= since
    ensures Filter(EventsSince(rows, since), KeyIs(EventTs, t)) == Filter(rows, KeyIs(EventTs, t))
  {
    var selected := Filter(rows, AtOrAfter(since));
    SortDescStable(selected, EventTs, t);
    FilterImplied(rows, AtOrAfter(since), KeyIs(EventTs, t));
  }

  /** `BlockedEventDao` over `blocked_events`, whose `id` is an AUTOINCREMENT key. */
  class BlockedEventDao {
    var rows: seq<BlockedEvent>
    var lastId: int

    ghost predicate Valid()
      reads this
    {
      UniqueBy(rows, (e: BlockedEvent) => e.id) && 0 <= lastId
      && forall i :: 0 <= i < |rows| ==> rows[i].id <= lastId
    }

    constructor()
      ensures Valid() && rows == [] && lastId == 0
    {
      rows := [];
      lastId := 0;
    }

    /** `add(e)`, a plain insert with the same id rules as the prefix table. */
    method Add(e: BlockedEvent) returns (inserted: bool)
      requires Valid()
      modifies this
      ensures Valid()
      ensures e.id == 0 ==>
        (inserted && lastId == old(lastId) + 1 && rows == old(rows) + [e.(id := old(lastId) + 1)])
      ensures e.id != 0 ==>
        (inserted <==> forall i :: 0 <= i < |old(rows)| ==> old(rows)[i].id != e.id)
      ensures e.id != 0 && inserted ==>
        rows == old(rows) + [e] && lastId == (if e.id > old(lastId) then e.id else old(lastId))
      ensures !inserted ==> rows == old(rows) && lastId == old(lastId)
    {
      var row := e;
      if e.id == 0 {
        row := e.(id := lastId + 1);
      } else if exists i :: 0 <= i < |rows| && rows[i].id == e.id {
        return false;
      }
      var r := rows + [row];
      forall i, j | 0 <= i < j < |r| ensures r[i].id != r[j].id {
        assert r[i] == rows[i];
        if j < |rows| { assert r[j] == rows[j]; }
      }
      rows := r;
      if row.id > lastId {
        lastId := row.id;
      }
      return true;
    }

    /** `since(since)`: exactly the stored events at or after `since`, newest first. */
    function Since(since: int): (r: seq<BlockedEvent>)
      reads this
      ensures forall e :: e in r <==> e in rows && e.ts >= since
      ensures |r| <= |rows|
      ensures SortedDesc(r, EventTs)
    {
      EventsSince(rows, since)
    }
  }
}
