/** `BlockedHistoryScreen`: the days-back input (digit filter with cursor
    remapping, preset chips, apply), the x-axis label selection of the chart,
    the known/unknown caller counts and the repeat-count badge. */
module BlockedHistoryScreen {
  import opened Wrappers
  import opened Seqs
  import opened Text
  import opened Entities
  import opened EventsViewModel

  /** The text and the days loaded when the screen opens. */
  const InitialDaysText: string := "7"
  const InitialDays: int := 7

  /** `coerceIn(lo, hi)`, for `lo <= hi`. */
  function CoerceIn(x: int, lo: int, hi: int): (r: int)
    requires lo <= hi
    ensures lo <= r <= hi
    ensures lo <= x <= hi ==> r == x
  {
    if x < lo then lo else if x > hi then hi else x
  }

  function IsNonDigit(c: char): bool { !IsDigit(c) }

  /** The characters before a position, split into digits and the rest. */
  lemma DigitsBeforeCursor(s: string, k: nat)
    requires k <= |s|
    ensures |FilterDigits(s[..k])| + |Filter(s[..k], IsNonDigit)| == k
    ensures |FilterDigits(s[..k])| <= |FilterDigits(s)|
  {
    FilterSplit(s[..k], IsDigit, IsNonDigit);
    assert s == s[..k] + s[k..];
    FilterAppend(s[..k], s[k..], IsDigit);
  }

  /** The `onValueChange` of the days field: keep the digits, and move the
      cursor back by the number of characters removed before it, so that it
      stays after the same digit. */
  method OnDaysInputChange(original: string, selectionEnd: int) returns (cleaned: string, newCursor: int)
    ensures cleaned == FilterDigits(original)
    ensures newCursor == |FilterDigits(original[..CoerceIn(selectionEnd, 0, |original|)])|
    ensures 0 <= newCursor <= |cleaned|
  {
    var cursor := CoerceIn(selectionEnd, 0, |original|);
    cleaned := FilterDigits(original);
    var removedBefore := 0;
    for i := 0 to cursor
      invariant removedBefore == |Filter(original[..i], IsNonDigit)|
    {
      NonDigitsStep(original, i);
      if i < |original| && !IsDigit(original[i]) {
        removedBefore := removedBefore + 1;
      }
    }
    DigitsBeforeCursor(original, cursor);
    newCursor := CoerceIn(cursor - removedBefore, 0, |cleaned|);
  }

  /** One more character counts as removed exactly when it is not a digit. */
  lemma NonDigitsStep(s: string, i: nat)
    requires i < |s|
    ensures |Filter(s[..i + 1], IsNonDigit)| == |Filter(s[..i], IsNonDigit)| + (if IsDigit(s[i]) then 0 else 1)
  {
    assert s[..i + 1] == s[..i] + [s[i]];
    FilterAppend(s[..i], [s[i]], IsNonDigit);
  }

  /** The cleaned text is a selection of the input's characters, in order. */
  lemma CleanedKeepsInputOrder(original: string)
    ensures IsSubsequence(FilterDigits(original), original)
    ensures AllDigits(FilterDigits(original))
  {
    FilterIsSubsequence(original, IsDigit);
  }

  /** The Apply button: `text.toLongOrNull() ?: 0`. */
  function ApplyDays(text: string): (d: int)
    ensures ToLongOrNull(text).None? ==> d == 0
    ensures ToLongOrNull(text).Some? ==> d == ToLongOrNull(text).value
  {
    ToLongOrNull(text).GetOr(0)
  }

  /** On text the field has cleaned, Apply loads the number the digits spell,
      and 0 when they are empty or too large for a `Long`. */
  lemma ApplyOfCleanedText(cleaned: string)
    requires AllDigits(cleaned)
    ensures ApplyDays(cleaned) == if |cleaned| > 0 && DigitsValue(cleaned) <= LongMax then DigitsValue(cleaned) else 0
  {
    if |cleaned| > 0 {
      assert IsDigit(cleaned[0]);
    }
  }

  /** The preset chips. */
  const Presets: seq<int> := [7, 14, 30]

  /** A chip is highlighted when the text parses to its value: never for a
      value beyond `Long`, and always when the text spells the value. */
  function ChipSelected(text: string, d: int): (b: bool)
    ensures b ==> LongMin <= d <= LongMax
    ensures LongMin <= d <= LongMax && text == DecimalString(d) ==> b
  {
    ParseDecimalString(d, LongMin, LongMax);
    ToLongOrNull(text) == Some(d)
  }

  /** Clicking a chip: its value as text, and the days to load. */
  function OnChipClick(d: int): (r: (string, int))
    ensures r.1 == d
    ensures ToLongOrNull(r.0) == (if LongMin <= d <= LongMax then Some(d) else None)
  {
    ParseDecimalString(d, LongMin, LongMax);
    (DecimalString(d), d)
  }

  /** After a chip is clicked, that chip and no other is highlighted; the
      initial text highlights the chip of the days first loaded. */
  lemma ClickedChipAloneSelected(d: int)
    requires d in Presets
    ensures forall p :: p in Presets ==> (ChipSelected(OnChipClick(d).0, p) <==> p == d)
    ensures ChipSelected(InitialDaysText, InitialDays)
  {
    ParseDecimalString(d, LongMin, LongMax);
    ParseDecimalString(InitialDays, LongMin, LongMax);
    assert DecimalString(InitialDays) == InitialDaysText by { assert NatString(7) == [DigitChar(7)]; }
  }

  /** At most this many x-axis labels between the regular ones. */
  const MaxLabels: int := 6

  /** `((n + maxLabels - 1) / maxLabels).coerceAtLeast(1)`: the smallest
      positive step that labels at most six regular positions among `n`. */
  function XLabelStride(n: nat): (stride: int)
    ensures stride >= 1
    ensures stride * MaxLabels >= n
    ensures stride == 1 || (stride - 1) * MaxLabels < n
  {
    var s := (n + MaxLabels - 1) / MaxLabels;
    if s < 1 then 1 else s
  }

  function Range(n: nat): (r: seq<int>)
    ensures |r| == n && forall i :: 0 <= i < n ==> r[i] == i
    ensures forall i :: i in r <==> 0 <= i < n
  {
    var r := seq(n, i => i);
    forall i ensures i in r <==> 0 <= i < n {
      if 0 <= i < n { assert r[i] == i; }
    }
    r
  }

  /** The labelled positions: the multiples of the stride and the last index. */
  function IsLabelled(n: nat, stride: int): (p: int -> bool)
    requires stride >= 1
    ensures p(0) && (n > 0 ==> p(n - 1))
    ensures forall i :: p(i) && i != n - 1 ==> i % stride == 0
    ensures forall i :: 0 <= i < stride && i != n - 1 ==> (p(i) <==> i == 0)
  {
    i => i % stride == 0 || i == n - 1
  }

  /** `indices.filter { it % stride == 0 || it == lastIndex }`. */
  function LabelledIndices(n: nat, stride: int): (r: seq<int>)
    requires stride >= 1
    ensures forall i :: i in r <==> 0 <= i < n && (i % stride == 0 || i == n - 1)
    ensures StrictlyIncreasingBy(r, (i: int) => i)
    ensures n > 0 ==> |r| > 0 && r[0] == 0 && r[|r| - 1] == n - 1
  {
    LabelledIndicesFacts(n, stride);
    Filter(Range(n), IsLabelled(n, stride))
  }

  lemma LabelledIndicesFacts(n: nat, stride: int)
    requires stride >= 1
    ensures var r := Filter(Range(n), IsLabelled(n, stride));
      (forall i :: i in r <==> 0 <= i < n && (i % stride == 0 || i == n - 1))
      && StrictlyIncreasingBy(r, (i: int) => i)
      && (n > 0 ==> |r| > 0 && r[0] == 0 && r[|r| - 1] == n - 1)
  {
    var all := Range(n);
    var p := IsLabelled(n, stride);
    FilterStrictlyIncreasing(all, p, (i: int) => i);
    FilterEnds(all, p, n);
  }

  lemma FilterEnds(all: seq<int>, p: int -> bool, n: nat)
    requires all == Range(n)
    requires StrictlyIncreasingBy(Filter(all, p), (i: int) => i)
    requires n > 0 ==> p(0) && p(n - 1)
    ensures n > 0 ==> |Filter(all, p)| > 0 && Filter(all, p)[0] == 0 && Filter(all, p)[|Filter(all, p)| - 1] == n - 1
  {
    var r := Filter(all, p);
    if n > 0 {
      assert r[0] == 0 by {
        assert all == [0] + all[1..];
        assert r == [0] + Filter(all[1..], p);
      }
      assert n - 1 in r by { assert all[n - 1] == n - 1; }
      var k :| 0 <= k < |r| && r[k] == n - 1;
      var last := r[|r| - 1];
      assert last in all;
      assert k == |r| - 1;
    }
  }

  /** The donut chart's counts: known callers, unknown callers, and a
      denominator that is never zero. */
  datatype CallerTypeCounts = CallerTypeCounts(known: int, unknown: int, total: int)

  function HasNumber(e: BlockedEvent): bool { e.e164.Some? }
  function HasNoNumber(e: BlockedEvent): bool { e.e164.None? }

  function CallerTypes(events: seq<BlockedEvent>): (c: CallerTypeCounts)
    ensures c.known == Count(events, HasNumber)
    ensures c.unknown == Count(events, HasNoNumber)
    ensures c.known + c.unknown == |events|
    ensures c.total >= 1 && c.total == (if |events| > 0 then |events| else 1)
  {
    var known := Count(events, HasNumber);
    var unknown := |events| - known;
    FilterSplit(events, HasNumber, HasNoNumber);
    CallerTypeCounts(known, unknown, if known + unknown > 1 then known + unknown else 1)
  }

  /** The badge of a group card: shown when the count is above one. */
  function ShowBadge(count: int): (b: bool)
    ensures b <==> count >= 2
  {
    count > 1
  }

  /** A group of the history list shows the badge exactly when its caller
      was blocked more than once in the period. */
  lemma BadgeMeansRepeatedCaller(events: seq<BlockedEvent>, g: BlockedNumberGroup)
    requires g in GroupedItems(events)
    ensures ShowBadge(g.count) <==> Count(events, HasKey(g.number)) >= 2
  {
  }
}
