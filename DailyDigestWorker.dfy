/** `DailyDigestWorker`: whether the daily digest shows a notification, the
    text of that notification, and the delay until the next run. */
module DailyDigestWorker {
  import opened Wrappers
  import opened Seqs
  import opened Text
  import opened Entities
  import opened Daos

  /** How an event without a number is listed. */
  const UnknownLabel: string := "Desconocido"

  /** At most this many distinct numbers are listed. */
  const TopCount: nat := 5

  const TitlePrefix: string := "Llamadas bloqueadas hoy: "

  datatype DigestNotification = DigestNotification(title: string, bigText: string)

  /** `e164 ?: "Desconocido"`: the number itself, or the label for a null one. */
  function DigestLabel(e: BlockedEvent): (l: string)
    ensures e.e164.Some? ==> l == e.e164.value
    ensures l == UnknownLabel <==> e.e164 == None || e.e164 == Some(UnknownLabel)
  {
    e.e164.GetOr(UnknownLabel)
  }

  /** The list the notification shows: `blocked.distinct().take(5)`. */
  function TopEntries(blocked: seq<string>): (r: seq<string>)
    ensures |r| <= TopCount && NoDuplicates(r)
    ensures forall x :: x in r ==> x in blocked
    ensures |r| == (if |Distinct(blocked)| < TopCount then |Distinct(blocked)| else TopCount)
    ensures forall i, j :: 0 <= i < j < |r| ==> FirstIndex(blocked, r[i]) < FirstIndex(blocked, r[j])
    ensures forall x :: x in blocked && x !in r ==>
      |r| == TopCount && forall i :: 0 <= i < |r| ==> FirstIndex(blocked, r[i]) < FirstIndex(blocked, x)
  {
    var d := Distinct(blocked);
    DistinctInFirstOccurrenceOrder(blocked);
    var r := Take(d, TopCount);
    forall x | x in blocked && x !in r
      ensures |r| == TopCount && forall i :: 0 <= i < |r| ==> FirstIndex(blocked, r[i]) < FirstIndex(blocked, x)
    {
      var k :| 0 <= k < |d| && d[k] == x;
    }
    r
  }

  /** The text around N in the suffix. */
  const MoreLead: string := "\n… y "
  const MoreTail: string := " más"

  /** The suffix `"\n… y N más"`, present when more than five events were blocked. */
  function More(total: int): (r: string)
    ensures r == [] <==> total <= TopCount
  {
    if total > TopCount then MoreLead + DecimalString(total - TopCount) + MoreTail else ""
  }

  /** Beyond five entries the suffix is framed by its fixed text, and the
      number between reads back as the entries beyond the first five. */
  lemma MoreCountsBeyondTop(total: int)
    requires TopCount < total <= IntMax
    ensures var r := More(total);
      |MoreLead| + |MoreTail| < |r| && r[..|MoreLead|] == MoreLead && r[|r| - |MoreTail|..] == MoreTail
      && ToIntOrNull(r[|MoreLead|..|r| - |MoreTail|]) == Some(total - TopCount)
  {
    var d := DecimalString(total - TopCount);
    var r := More(total);
    assert r == MoreLead + d + MoreTail;
    assert r[..|MoreLead|] == MoreLead;
    assert r[|r| - |MoreTail|..] == MoreTail;
    assert r[|MoreLead|..|r| - |MoreTail|] == d;
    ParseDecimalString(total - TopCount, IntMin, IntMax);
  }

  /** `show(blocked)`: the title counts every entry, the text lists the top
      entries one per line, then the suffix. */
  function Show(blocked: seq<string>): (n: DigestNotification)
    ensures n.title == TitlePrefix + DecimalString(|blocked|)
    ensures n.bigText == Join(TopEntries(blocked), "\n") + More(|blocked|)
  {
    DigestNotification(TitlePrefix + DecimalString(|blocked|), Join(TopEntries(blocked), "\n") + More(|blocked|))
  }

  /** The title can be read back as the number of blocked entries, duplicates included. */
  lemma TitleCountsEveryEntry(blocked: seq<string>)
    requires |blocked| <= IntMax
    ensures ToIntOrNull(RemovePrefix(Show(blocked).title, TitlePrefix)) == Some(|blocked|)
  {
    var t := Show(blocked).title;
    assert t[..|TitlePrefix|] == TitlePrefix;
    assert t[|TitlePrefix|..] == DecimalString(|blocked|);
    ParseDecimalString(|blocked|, IntMin, IntMax);
  }

  /** The N of the suffix is the number of entries beyond five, counting
      repeats, not the number of distinct entries beyond five: six calls from
      one number list one line and say "1 más". */
  lemma MoreCountsRepeats(x: string)
    ensures var blocked := [x, x, x, x, x, x];
      Distinct(blocked) == [x] && Show(blocked).bigText == x + "\n… y 1 más"
  {
    var blocked := [x, x, x, x, x, x];
    DistinctOfRepeated(blocked, x);
    assert TopEntries(blocked) == [x];
    assert More(6) == MoreLead + DecimalString(1) + MoreTail;
    assert DecimalString(1) == "1" by { assert NatString(1) == [DigitChar(1)]; }
  }

  /** `doWork`, given the events since the start of the day: a notification
      only when there is at least one, listing a null number as "Desconocido". */
  function DoWork(todaysEvents: seq<BlockedEvent>): (r: Option<DigestNotification>)
    ensures r.Some? <==> |todaysEvents| > 0
    ensures r.Some? ==> r.value == Show(Map(todaysEvents, DigestLabel))
  {
    if |todaysEvents| > 0 then Some(Show(Map(todaysEvents, DigestLabel))) else None
  }

  const MinuteMs: int := 60_000
  const HourMs: int := 3_600_000
  const DayMs: int := 86_400_000

  /** The time of day of an instant, in milliseconds since local midnight. */
  function TimeOfDay(t: int): (r: int)
    ensures 0 <= r < DayMs
  {
    t % DayMs
  }

  lemma TimeOfDayInDay(k: int, t: int)
    requires k * DayMs <= t < k * DayMs + DayMs
    ensures TimeOfDay(t) == t - k * DayMs
  {
    assert t == (t / DayMs) * DayMs + t % DayMs;
  }

  /** `schedule(hour, minute)`: the next run is today at `hour:minute:00.000`,
      or tomorrow when that is not after `now`. The delay is positive, at most
      a day, it lands on that time of day, and no earlier instant after `now` does. */
  method Schedule(now: int, hour: int, minute: int) returns (delay: int)
    requires 0 <= hour < 24 && 0 <= minute < 60
    ensures 0 < delay <= DayMs
    ensures TimeOfDay(now + delay) == hour * HourMs + minute * MinuteMs
    ensures forall t :: now < t < now + delay ==> TimeOfDay(t) != hour * HourMs + minute * MinuteMs
  {
    var target := hour * HourMs + minute * MinuteMs;
    var day := now / DayMs;
    var midnight := day * DayMs;
    assert now == midnight + now % DayMs;
    var next := midnight + target;
    if !(next > now) {
      next := next + DayMs;
    }
    delay := next - now;
    if next == midnight + target {
      TimeOfDayInDay(day, next);
      forall t | now < t < now + delay ensures TimeOfDay(t) != target {
        TimeOfDayInDay(day, t);
      }
    } else {
      TimeOfDayInDay(day + 1, next);
      forall t | now < t < now + delay ensures TimeOfDay(t) != target {
        if t < midnight + DayMs {
          TimeOfDayInDay(day, t);
        } else {
          TimeOfDayInDay(day + 1, t);
        }
      }
    }
  }
}
