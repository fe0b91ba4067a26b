/** `EventsViewModel.load`: the blocked events since a start time, and their
    summary per caller (`groupBy` on the number, then count, latest time and
    a sort by that time, newest first). */
module EventsViewModel {
  import opened Wrappers
  import opened Seqs
  import opened Sorting
  import opened Entities
  import opened Daos

  /** The group of an event whose number is null. */
  const UnknownKey: string := "Unknown"

  /** `BlockedNumberGroup`. */
  datatype BlockedNumberGroup = BlockedNumberGroup(number: string, count: int, mostRecentTimestamp: int)

  /** The `groupBy` key: `e164 ?: "Unknown"`. */
  function GroupKey(e: BlockedEvent): (k: string)
    ensures e.e164.Some? ==> k == e.e164.value
    ensures k == UnknownKey <==> e.e164 == None || e.e164 == Some(UnknownKey)
  {
    e.e164.GetOr(UnknownKey)
  }

  function HasKey(k: string): BlockedEvent -> bool {
    e => GroupKey(e) == k
  }

  function LacksKey(k: string): BlockedEvent -> bool {
    e => GroupKey(e) != k
  }

  function GroupNumber(g: BlockedNumberGroup): string { g.number }
  function GroupCount(g: BlockedNumberGroup): int { g.count }
  function GroupTs(g: BlockedNumberGroup): int { g.mostRecentTimestamp }

  /** An event without a number and one whose number is literally "Unknown" share a group. */
  lemma NullMergesWithUnknownText(a: BlockedEvent, b: BlockedEvent)
    requires a.e164 == None && b.e164 == Some(UnknownKey)
    ensures GroupKey(a) == GroupKey(b)
  {
  }

  /** `maxByOrNull { it.ts }!!.ts` on a non-empty list. */
  function MaxTs(s: seq<BlockedEvent>): (m: int)
    requires |s| > 0
    ensures exists i :: 0 <= i < |s| && s[i].ts == m
    ensures forall i :: 0 <= i < |s| ==> s[i].ts <= m
  {
    if |s| == 1 then s[0].ts
    else
      var rest := MaxTs(s[1..]);
      assert forall i :: 1 <= i < |s| ==> s[i] == s[1..][i - 1];
      if s[0].ts >= rest then s[0].ts else rest
  }

  /** The group of one key that occurs among the events. */
  function MakeGroup(events: seq<BlockedEvent>, k: string): (g: BlockedNumberGroup)
    requires k in Map(events, GroupKey)
    ensures g.number == k && g.count >= 1
  {
    var members := Filter(events, HasKey(k));
    var i :| 0 <= i < |events| && GroupKey(events[i]) == k;
    assert events[i] in members;
    BlockedNumberGroup(k, |members|, MaxTs(members))
  }

  /** One group per key, in the order of the keys. */
  function BuildGroups(events: seq<BlockedEvent>, keys: seq<string>): (r: seq<BlockedNumberGroup>)
    requires forall k :: k in keys ==> k in Map(events, GroupKey)
    ensures |r| == |keys|
    ensures forall i :: 0 <= i < |keys| ==> r[i] == MakeGroup(events, keys[i])
    ensures forall i :: 0 <= i < |keys| ==> r[i].number == keys[i]
  {
    if keys == [] then []
    else [MakeGroup(events, keys[0])] + BuildGroups(events, keys[1..])
  }

  /** The keys in the order `groupBy` meets them. */
  function Keys(events: seq<BlockedEvent>): (keys: seq<string>)
    ensures NoDuplicates(keys)
    ensures forall k :: k in keys <==> k in Map(events, GroupKey)
    ensures forall i, j :: 0 <= i < j < |keys| ==>
      FirstIndex(Map(events, GroupKey), keys[i]) < FirstIndex(Map(events, GroupKey), keys[j])
  {
    DistinctInFirstOccurrenceOrder(Map(events, GroupKey));
    Distinct(Map(events, GroupKey))
  }

  /** The sum, over the given keys, of the number of events with each key. */
  ghost function SizesSum(events: seq<BlockedEvent>, keys: seq<string>): int {
    if keys == [] then 0 else |Filter(events, HasKey(keys[0]))| + SizesSum(events, keys[1..])
  }

  lemma {:induction false} BuildGroupsSum(events: seq<BlockedEvent>, keys: seq<string>)
    requires forall k :: k in keys ==> k in Map(events, GroupKey)
    ensures Sum(BuildGroups(events, keys), GroupCount) == SizesSum(events, keys)
  {
    if keys != [] {
      BuildGroupsSum(events, keys[1..]);
      assert BuildGroups(events, keys)[1..] == BuildGroups(events, keys[1..]);
    }
  }

  /** Removing the events of one key does not change the sizes of the other keys. */
  lemma {:induction false} SizesSumWithout(events: seq<BlockedEvent>, k: string, keys: seq<string>)
    requires k !in keys
    ensures SizesSum(Filter(events, LacksKey(k)), keys) == SizesSum(events, keys)
  {
    if keys != [] {
      FilterImplied(events, LacksKey(k), HasKey(keys[0]));
      SizesSumWithout(events, k, keys[1..]);
    }
  }

  /** When every event's key is listed once, the sizes add up to the number of events. */
  lemma {:induction false} SizesSumIsTotal(events: seq<BlockedEvent>, keys: seq<string>)
    requires NoDuplicates(keys)
    requires forall e :: e in events ==> GroupKey(e) in keys
    ensures SizesSum(events, keys) == |events|
    decreases |keys|
  {
    if keys != [] {
      var k := keys[0];
      var rest := Filter(events, LacksKey(k));
      assert NoDuplicates(keys[1..]) by {
        forall i, j | 0 <= i < j < |keys[1..]| ensures keys[1..][i] != keys[1..][j] {
          assert keys[1..][i] == keys[i + 1] && keys[1..][j] == keys[j + 1];
        }
      }
      assert k !in keys[1..] by {
        forall j | 0 <= j < |keys[1..]| ensures keys[1..][j] != k {
          assert keys[1..][j] == keys[j + 1];
        }
      }
      forall e | e in rest ensures GroupKey(e) in keys[1..] {
        assert GroupKey(e) in keys && GroupKey(e) != k;
        var j :| 0 <= j < |keys| && keys[j] == GroupKey(e);
        assert keys[1..][j - 1] == keys[j];
      }
      SizesSumIsTotal(rest, keys[1..]);
      SizesSumWithout(events, k, keys[1..]);
      FilterSplit(events, HasKey(k), LacksKey(k));
      assert SizesSum(events, keys) == |Filter(events, HasKey(k))| + SizesSum(events, keys[1..]);
      assert SizesSum(events, keys[1..]) == |rest|;
    } else {
      HeadIn(events);
    }
  }

  /** The groups of `load`, before sorting: one per key, in first-seen order. */
  function Groups(events: seq<BlockedEvent>): (r: seq<BlockedNumberGroup>)
    ensures |r| == |Keys(events)|
    ensures forall i :: 0 <= i < |r| ==> r[i] == MakeGroup(events, Keys(events)[i])
    ensures forall i :: 0 <= i < |r| ==> r[i].number in Map(events, GroupKey)
    ensures forall i, j :: 0 <= i < j < |r| ==>
      FirstIndex(Map(events, GroupKey), r[i].number) < FirstIndex(Map(events, GroupKey), r[j].number)
  {
    var keys := Keys(events);
    var r := BuildGroups(events, keys);
    NumbersFollowKeys(r, keys, Map(events, GroupKey));
    r
  }

  /** Groups numbered by the keys, in order, inherit the keys' order of
      first occurrence. */
  lemma NumbersFollowKeys(r: seq<BlockedNumberGroup>, keys: seq<string>, ks: seq<string>)
    requires |r| == |keys|
    requires forall i :: 0 <= i < |r| ==> r[i].number == keys[i]
    requires forall k :: k in keys ==> k in ks
    requires forall i, j :: 0 <= i < j < |keys| ==> FirstIndex(ks, keys[i]) < FirstIndex(ks, keys[j])
    ensures forall i :: 0 <= i < |r| ==> r[i].number in ks
    ensures forall i, j :: 0 <= i < j < |r| ==> FirstIndex(ks, r[i].number) < FirstIndex(ks, r[j].number)
  {
  }

  lemma GroupsUnique(events: seq<BlockedEvent>)
    ensures UniqueBy(Groups(events), GroupNumber)
  {
    var r, keys := Groups(events), Keys(events);
    forall i, j | 0 <= i < j < |r| ensures r[i].number != r[j].number {
      assert r[i].number == keys[i] && r[j].number == keys[j];
    }
  }

  lemma GroupsSum(events: seq<BlockedEvent>)
    ensures Sum(Groups(events), GroupCount) == |events|
  {
    var keys := Keys(events);
    BuildGroupsSum(events, keys);
    forall e | e in events ensures GroupKey(e) in keys {
      var i :| 0 <= i < |events| && events[i] == e;
      assert Map(events, GroupKey)[i] == GroupKey(e);
    }
    SizesSumIsTotal(events, keys);
  }

  lemma GroupsNumbers(events: seq<BlockedEvent>)
    ensures forall k :: k in Map(Groups(events), GroupNumber) <==> k in Map(events, GroupKey)
  {
    var r, keys := Groups(events), Keys(events);
    var numbers := Map(r, GroupNumber);
    assert |numbers| == |keys|;
    forall i | 0 <= i < |keys| ensures numbers[i] == keys[i] {
      assert r[i] == MakeGroup(events, keys[i]);
    }
    assert numbers == keys;
  }

  /** What a group states about the events of its number: how many there
      are (at least one), and the latest time among them. */
  ghost predicate DescribesGroup(events: seq<BlockedEvent>, g: BlockedNumberGroup) {
    g.count >= 1 && g.count == Count(events, HasKey(g.number))
    && (exists i :: 0 <= i < |events| && GroupKey(events[i]) == g.number && events[i].ts == g.mostRecentTimestamp)
    && (forall i :: 0 <= i < |events| && GroupKey(events[i]) == g.number ==> events[i].ts <= g.mostRecentTimestamp)
  }

  lemma GroupsDescribed(events: seq<BlockedEvent>)
    ensures forall g :: g in Groups(events) ==> DescribesGroup(events, g)
  {
    var groups := Groups(events);
    forall g | g in groups ensures DescribesGroup(events, g) {
      var j :| 0 <= j < |groups| && groups[j] == g;
      GroupFacts(events, Keys(events)[j]);
    }
  }

  /** `_groupedItems`: the groups sorted by latest time, newest first. */
  function GroupedItems(events: seq<BlockedEvent>): (r: seq<BlockedNumberGroup>)
    ensures SortedDesc(r, GroupTs)
    ensures UniqueBy(r, GroupNumber)
    ensures Sum(r, GroupCount) == |events|
    ensures forall g :: g in r ==> DescribesGroup(events, g)
    ensures forall k :: k in Map(r, GroupNumber) <==> k in Map(events, GroupKey)
  {
    var groups := Groups(events);
    var r := SortDesc(groups, GroupTs);
    GroupsUnique(events);
    GroupsSum(events);
    GroupsNumbers(events);
    GroupsDescribed(events);
    SortDescSum(groups, GroupTs, GroupCount);
    SortDescUniqueBy(groups, GroupTs, GroupNumber);
    PermutationSameElements(r, groups);
    MapSameElements(r, groups, GroupNumber);
    r
  }

  /** What one group says about the events of its key. */
  lemma GroupFacts(events: seq<BlockedEvent>, k: string)
    requires k in Map(events, GroupKey)
    ensures DescribesGroup(events, MakeGroup(events, k))
  {
    var members := Filter(events, HasKey(k));
    var g := MakeGroup(events, k);
    var m :| 0 <= m < |members| && members[m].ts == g.mostRecentTimestamp;
    assert members[m] in events;
    var i :| 0 <= i < |events| && events[i] == members[m];
    forall i | 0 <= i < |events| && GroupKey(events[i]) == k ensures events[i].ts <= g.mostRecentTimestamp {
      assert events[i] in members;
    }
  }

  class EventsViewModel {
    const db: BlockedEventDao
    var rawItems: seq<BlockedEvent>
    var groupedItems: seq<BlockedNumberGroup>

    constructor(db: BlockedEventDao)
      ensures this.db == db && rawItems == [] && groupedItems == []
    {
      this.db := db;
      rawItems := [];
      groupedItems := [];
    }

    /** `load`, given the start time it computes from `daysBack`: the raw
        list is exactly what the query returns, and the groups are built from it. */
    method Load(since: int)
      modifies this
      ensures rawItems == EventsSince(db.rows, since)
      ensures groupedItems == GroupedItems(rawItems)
    {
      var events := EventsSince(db.rows, since);
      rawItems := events;
      groupedItems := GroupedItems(events);
    }
  }
}
