/** The two orderings the app applies to lists: Kotlin `sortedBy { key }` on a
    string key (lexicographic `String.compareTo`), and `sortedByDescending { key }`
    / SQL `ORDER BY key DESC` on a numeric key. Both are written as insertion
    sorts that place an element before the first element whose key is not
    smaller. Both are stable, as Kotlin's sorts are: `SortByKeyStable` and
    `SortDescStable` show that the elements with any one key keep their
    input order. */
module Sorting {
  import opened Seqs

  /** `a.compareTo(b) <= 0` for strings: lexicographic order on characters. */
  predicate LexLe(a: string, b: string)
    decreases |a|
  {
    a == [] || (b != [] && (a[0] < b[0] || (a[0] == b[0] && LexLe(a[1..], b[1..]))))
  }

  lemma {:induction false} LexLeTotal(a: string, b: string)
    ensures LexLe(a, b) || LexLe(b, a)
    decreases |a|
  {
    if a != [] && b != [] && a[0] == b[0] {
      LexLeTotal(a[1..], b[1..]);
    }
  }

  lemma {:induction false} LexLeTransitive(a: string, b: string, c: string)
    requires LexLe(a, b) && LexLe(b, c)
    ensures LexLe(a, c)
    decreases |a|
  {
    if a != [] && a[0] == b[0] && b[0] == c[0] {
      LexLeTransitive(a[1..], b[1..], c[1..]);
    }
  }

  ghost predicate SortedByKey<T>(s: seq<T>, key: T -> string) {
    forall i, j :: 0 <= i < j < |s| ==> LexLe(key(s[i]), key(s[j]))
  }

  ghost predicate KeysAtLeast<T>(lo: string, s: seq<T>, key: T -> string) {
    forall i :: 0 <= i < |s| ==> LexLe(lo, key(s[i]))
  }

  function InsertByKey<T>(x: T, s: seq<T>, key: T -> string): (r: seq<T>)
    ensures multiset(r) == multiset(s) + multiset{x} && |r| == |s| + 1
  {
    if s == [] then [x]
    else if LexLe(key(x), key(s[0])) then [x] + s
    else
      assert s == [s[0]] + s[1..];
      [s[0]] + InsertByKey(x, s[1..], key)
  }

  lemma {:induction false} InsertByKeySorted<T>(x: T, s: seq<T>, key: T -> string)
    requires SortedByKey(s, key)
    ensures SortedByKey(InsertByKey(x, s, key), key)
  {
    if s == [] {
    } else if LexLe(key(x), key(s[0])) {
      forall j | 0 <= j < |s| ensures LexLe(key(x), key(s[j])) {
        if j > 0 { LexLeTransitive(key(x), key(s[0]), key(s[j])); }
      }
    } else {
      InsertByKeySorted(x, s[1..], key);
      var rest := InsertByKey(x, s[1..], key);
      LexLeTotal(key(x), key(s[0]));
      forall j | 0 <= j < |rest| ensures LexLe(key(s[0]), key(rest[j])) {
        assert rest[j] in multiset(rest);
        if rest[j] != x {
          assert rest[j] in multiset(s[1..]);
          var k :| 0 <= k < |s[1..]| && s[1..][k] == rest[j];
          assert s[k + 1] == rest[j];
        }
      }
    }
  }

  /** `s.sortedBy(key)` for a string key. */
  function SortByKey<T>(s: seq<T>, key: T -> string): (r: seq<T>)
    ensures multiset(r) == multiset(s) && |r| == |s|
    ensures SortedByKey(r, key)
  {
    if s == [] then []
    else
      var rest := SortByKey(s[1..], key);
      InsertByKeySorted(s[0], rest, key);
      MultisetHeadTail(s);
      InsertByKey(s[0], rest, key)
  }

  /** The elements whose string key is `k`. */
  function KeyIsText<T>(key: T -> string, k: string): T -> bool {
    e => key(e) == k
  }

  lemma {:induction false} LexLeReflexive(a: string)
    ensures LexLe(a, a)
    decreases |a|
  {
    if a != [] {
      LexLeReflexive(a[1..]);
    }
  }

  /** One step of `filter` on a sequence with head `h`. */
  lemma FilterCons<T(!new)>(h: T, t: seq<T>, p: T -> bool)
    ensures p(h) ==> Filter([h] + t, p) == [h] + Filter(t, p)
    ensures !p(h) ==> Filter([h] + t, p) == Filter(t, p)
  {
    assert ([h] + t)[0] == h && ([h] + t)[1..] == t;
  }

  /** Passing `x` over the head of `s`, whose key filter `p` does not share
      with `x`, keeps what the filter selects. */
  lemma FilterPassOver<T(!new)>(x: T, s: seq<T>, rest: seq<T>, p: T -> bool)
    requires s != [] && !(p(x) && p(s[0]))
    requires Filter(rest, p) == Filter([x] + s[1..], p)
    ensures Filter([s[0]] + rest, p) == Filter([x] + s, p)
  {
    assert s == [s[0]] + s[1..];
    FilterCons(s[0], rest, p);
    FilterCons(x, s, p);
    FilterCons(x, s[1..], p);
    FilterCons(s[0], s[1..], p);
  }

  /** `InsertByKey` passes over elements with a larger key only, so the
      elements with any one key keep their order, `x` first among its own. */
  lemma {:induction false} InsertByKeyStable<T(!new)>(x: T, s: seq<T>, key: T -> string, k: string)
    ensures Filter(InsertByKey(x, s, key), KeyIsText(key, k)) == Filter([x] + s, KeyIsText(key, k))
  {
    if s != [] && !LexLe(key(x), key(s[0])) {
      LexLeReflexive(key(x));
      InsertByKeyStable(x, s[1..], key, k);
      assert InsertByKey(x, s, key) == [s[0]] + InsertByKey(x, s[1..], key);
      FilterPassOver(x, s, InsertByKey(x, s[1..], key), KeyIsText(key, k));
    }
  }

  /** `sortedBy` is stable: the elements with any one key come out in the
      order they went in. */
  lemma {:induction false} SortByKeyStable<T(!new)>(s: seq<T>, key: T -> string, k: string)
    ensures Filter(SortByKey(s, key), KeyIsText(key, k)) == Filter(s, KeyIsText(key, k))
  {
    if s != [] {
      var p := KeyIsText(key, k);
      var rest := SortByKey(s[1..], key);
      SortByKeyStable(s[1..], key, k);
      InsertByKeyStable(s[0], rest, key, k);
      FilterCons(s[0], rest, p);
      FilterCons(s[0], s[1..], p);
      assert [s[0]] + s[1..] == s;
    }
  }

  ghost predicate SortedDesc<T>(s: seq<T>, key: T -> int) {
    forall i, j :: 0 <= i < j < |s| ==> key(s[i]) >= key(s[j])
  }

  function InsertDesc<T>(x: T, s: seq<T>, key: T -> int): (r: seq<T>)
    ensures multiset(r) == multiset(s) + multiset{x} && |r| == |s| + 1
  {
    if s == [] then [x]
    else if key(x) >= key(s[0]) then [x] + s
    else
      assert s == [s[0]] + s[1..];
      [s[0]] + InsertDesc(x, s[1..], key)
  }

  lemma {:induction false} InsertDescSorted<T>(x: T, s: seq<T>, key: T -> int)
    requires SortedDesc(s, key)
    ensures SortedDesc(InsertDesc(x, s, key), key)
  {
    if s == [] {
    } else if key(x) >= key(s[0]) {
      ConsSortedDesc(x, s, key);
    } else {
      InsertDescSorted(x, s[1..], key);
      var rest := InsertDesc(x, s[1..], key);
      forall j | 0 <= j < |rest| ensures key(s[0]) >= key(rest[j]) {
        assert rest[j] in multiset(rest);
        if rest[j] != x {
          assert rest[j] in multiset(s[1..]);
          var k :| 0 <= k < |s[1..]| && s[1..][k] == rest[j];
          assert s[k + 1] == rest[j];
        }
      }
      assert InsertDesc(x, s, key) == [s[0]] + rest;
      ConsSortedDesc(s[0], rest, key);
    }
  }

  lemma ConsSortedDesc<T>(h: T, rest: seq<T>, key: T -> int)
    requires SortedDesc(rest, key)
    requires forall j :: 0 <= j < |rest| ==> key(h) >= key(rest[j])
    ensures SortedDesc([h] + rest, key)
  {
    var r := [h] + rest;
    assert forall j :: 1 <= j < |r| ==> r[j] == rest[j - 1];
  }

  /** `s.sortedByDescending(key)` / `ORDER BY key DESC` for a numeric key. */
  function SortDesc<T>(s: seq<T>, key: T -> int): (r: seq<T>)
    ensures multiset(r) == multiset(s) && |r| == |s|
    ensures SortedDesc(r, key)
  {
    if s == [] then []
    else
      var rest := SortDesc(s[1..], key);
      InsertDescSorted(s[0], rest, key);
      MultisetHeadTail(s);
      InsertDesc(s[0], rest, key)
  }

  /** The elements whose numeric key is `k`. */
  function KeyIs<T>(key: T -> int, k: int): T -> bool {
    e => key(e) == k
  }

  /** `InsertDesc` passes over elements with a larger key only, so the
      elements with any one key keep their order, `x` first among its own. */
  lemma {:induction false} InsertDescStable<T(!new)>(x: T, s: seq<T>, key: T -> int, k: int)
    ensures Filter(InsertDesc(x, s, key), KeyIs(key, k)) == Filter([x] + s, KeyIs(key, k))
  {
    if s != [] && key(x) < key(s[0]) {
      InsertDescStable(x, s[1..], key, k);
      assert InsertDesc(x, s, key) == [s[0]] + InsertDesc(x, s[1..], key);
      FilterPassOver(x, s, InsertDesc(x, s[1..], key), KeyIs(key, k));
    }
  }

  /** `sortedByDescending` and `ORDER BY ... DESC` as modelled are stable:
      the elements with any one key come out in the order they went in. */
  lemma {:induction false} SortDescStable<T(!new)>(s: seq<T>, key: T -> int, k: int)
    ensures Filter(SortDesc(s, key), KeyIs(key, k)) == Filter(s, KeyIs(key, k))
  {
    if s != [] {
      var p := KeyIs(key, k);
      var rest := SortDesc(s[1..], key);
      SortDescStable(s[1..], key, k);
      InsertDescStable(s[0], rest, key, k);
      FilterCons(s[0], rest, p);
      FilterCons(s[0], s[1..], p);
      assert [s[0]] + s[1..] == s;
    }
  }

  /** Reordering keeps a sum. */
  lemma {:induction false} SortDescSum<T>(s: seq<T>, key: T -> int, f: T -> int)
    ensures Sum(SortDesc(s, key), f) == Sum(s, f)
  {
    if s != [] {
      SortDescSum(s[1..], key, f);
      InsertDescSum(s[0], SortDesc(s[1..], key), key, f);
    }
  }

  lemma {:induction false} InsertDescSum<T>(x: T, s: seq<T>, key: T -> int, f: T -> int)
    ensures Sum(InsertDesc(x, s, key), f) == f(x) + Sum(s, f)
  {
    if s != [] && key(x) < key(s[0]) {
      InsertDescSum(x, s[1..], key, f);
    }
  }

  /** Reordering keeps keys that were unique unique. */
  lemma {:induction false} SortDescUniqueBy<T, K>(s: seq<T>, key: T -> int, id: T -> K)
    requires UniqueBy(s, id)
    ensures UniqueBy(SortDesc(s, key), id)
  {
    if s != [] {
      SortDescUniqueBy(s[1..], key, id);
      var rest := SortDesc(s[1..], key);
      forall y | y in rest ensures id(y) != id(s[0]) {
        assert y in multiset(rest);
        var k :| 0 <= k < |s[1..]| && s[1..][k] == y;
        assert s[k + 1] == y;
      }
      InsertDescUniqueBy(s[0], rest, key, id);
    }
  }

  lemma UniqueByCons<T, K>(x: T, s: seq<T>, id: T -> K)
    requires UniqueBy(s, id)
    requires forall y :: y in s ==> id(y) != id(x)
    ensures UniqueBy([x] + s, id)
  {
    var r := [x] + s;
    forall i, j | 0 <= i < j < |r| ensures id(r[i]) != id(r[j]) {
      assert r[j] == s[j - 1];
      if i > 0 { assert r[i] == s[i - 1]; }
    }
  }

  lemma {:induction false} InsertDescUniqueBy<T, K>(x: T, s: seq<T>, key: T -> int, id: T -> K)
    requires UniqueBy(s, id)
    requires forall y :: y in s ==> id(y) != id(x)
    ensures UniqueBy(InsertDesc(x, s, key), id)
  {
    if s == [] {
    } else if key(x) >= key(s[0]) {
      UniqueByCons(x, s, id);
    } else {
      assert UniqueBy(s[1..], id);
      InsertDescUniqueBy(x, s[1..], key, id);
      var rest := InsertDesc(x, s[1..], key);
      forall y | y in rest ensures id(y) != id(s[0]) {
        assert y in multiset(rest);
        if y != x {
          assert y in multiset(s[1..]);
          var k :| 0 <= k < |s[1..]| && s[1..][k] == y;
          assert s[k + 1] == y;
        }
      }
      UniqueByCons(s[0], rest, id);
    }
  }
}
