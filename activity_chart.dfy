/** The dashboard's seven-day bar chart (src/components/dashboard/ActivityChart.tsx): for each of
    the last seven calendar days, today last, the summed count and the number of entries logged on
    that day. The clock reading `new Date()` is the parameter `now`. */
module ActivityChart {
  import opened Types
  import opened Time
  import opened Seqs

  /** One bar: the day's first millisecond, its weekday (what the `EEE` label names), the summed
      count and the number of entries. */
  datatype DayBar = DayBar(dayStart: int, weekday: int, count: int, total: int)

  /** `startOfDay(subDays(today, 6 - i))`. */
  function DayStart(now: int, i: int): int
  {
    StartOfDay(now - (6 - i) * MsPerDay)
  }

  /** `dayEnd.setHours(23, 59, 59, 999)`: the last millisecond of the day. */
  function DayEnd(start: int): int
  {
    start + MsPerDay - 1
  }

  /** `isWithinInterval(timestamp, { start, end })`: both ends included. */
  function Within(start: int, end: int): Exercise -> bool
  {
    (e: Exercise) => start <= e.timestamp <= end
  }

  /** `dayExercises` of bar `i`. */
  function Bucket(xs: seq<Exercise>, now: int, i: int): seq<Exercise>
  {
    Filter(xs, Within(DayStart(now, i), DayEnd(DayStart(now, i))))
  }

  function Bar(xs: seq<Exercise>, now: int, i: int): DayBar
  {
    var d := Bucket(xs, now, i);
    DayBar(DayStart(now, i), Weekday(DayStart(now, i)), SumCounts(d), |d|)
  }

  /** `chartData`. */
  function ChartData(xs: seq<Exercise>, now: int): seq<DayBar>
  {
    seq(7, i requires 0 <= i < 7 => Bar(xs, now, i))
  }

  function BarTotal(b: DayBar): int
  {
    b.total
  }

  function BarCount(b: DayBar): int
  {
    b.count
  }

  function Count(e: Exercise): int
  {
    e.count
  }

  /** The entries logged on the first `k` of the seven days. */
  function FirstDays(now: int, k: int): Exercise -> bool
  {
    (e: Exercise) => DayIndex(now) - 6 <= DayIndex(e.timestamp) < DayIndex(now) - 6 + k
  }

  /** The entries logged on one of the seven days that end today. */
  function LastWeek(now: int): Exercise -> bool
  {
    FirstDays(now, 7)
  }

  lemma DayShift(t: int, k: int)
    ensures DayIndex(t - k * MsPerDay) == DayIndex(t) - k
  {
    DayIndexBounds(t, DayIndex(t));
    DayIndexBounds(t - k * MsPerDay, DayIndex(t) - k);
  }

  /** Bar `i` starts `6 - i` days before the start of today. */
  lemma DayStartIs(now: int, i: int)
    ensures DayStart(now, i) == (DayIndex(now) - 6 + i) * MsPerDay
  {
    DayShift(now, 6 - i);
  }

  /** Bar `i` starts at the first millisecond of calendar day `today - (6 - i)`. */
  lemma BarDay(now: int, i: int)
    ensures DayIndex(DayStart(now, i)) == DayIndex(now) - 6 + i
    ensures StartOfDay(DayStart(now, i)) == DayStart(now, i)
  {
    DayShift(now, 6 - i);
    DayIndexBounds(DayStart(now, i), DayIndex(now) - 6 + i);
  }

  /** Seven bars for seven consecutive calendar days in order, the last one today. */
  lemma ChartDays(xs: seq<Exercise>, now: int)
    ensures |ChartData(xs, now)| == 7
    ensures forall i :: 0 <= i < 7 ==> DayIndex(ChartData(xs, now)[i].dayStart) == DayIndex(now) - 6 + i
    ensures forall i :: 0 <= i < 7 ==> StartOfDay(ChartData(xs, now)[i].dayStart) == ChartData(xs, now)[i].dayStart
    ensures ChartData(xs, now)[6].dayStart == StartOfDay(now)
    ensures forall i :: 0 <= i < 6 ==> ChartData(xs, now)[i + 1].weekday == (ChartData(xs, now)[i].weekday + 1) % 7
  {
    var r := ChartData(xs, now);
    forall i | 0 <= i < 7
      ensures DayIndex(r[i].dayStart) == DayIndex(now) - 6 + i && StartOfDay(r[i].dayStart) == r[i].dayStart
    {
      BarDay(now, i);
    }
    forall i | 0 <= i < 6 ensures r[i + 1].weekday == (r[i].weekday + 1) % 7 {
      BarDay(now, i);
      BarDay(now, i + 1);
      WeekdayStep(DayStart(now, i), DayStart(now, i + 1));
    }
    assert r[6].dayStart == StartOfDay(now) by {
      BarDay(now, 6);
      DayIndexBounds(now, DayIndex(now));
    }
  }

  /** The window of a bar holds exactly the timestamps of its calendar day. */
  lemma WithinDay(now: int, i: int, e: Exercise)
    ensures Within(DayStart(now, i), DayEnd(DayStart(now, i)))(e) <==> DayIndex(e.timestamp) == DayIndex(now) - 6 + i
  {
    DayStartIs(now, i);
    DayIndexBounds(e.timestamp, DayIndex(now) - 6 + i);
  }

  /** Bar `i` holds each entry logged on day `today - (6 - i)` as often as the log does, and no other. */
  lemma BucketContents(xs: seq<Exercise>, now: int, i: int)
    ensures forall e :: multiset(Bucket(xs, now, i))[e] == (if DayIndex(e.timestamp) == DayIndex(now) - 6 + i then multiset(xs)[e] else 0)
  {
    forall e ensures multiset(Bucket(xs, now, i))[e] ==
      (if DayIndex(e.timestamp) == DayIndex(now) - 6 + i then multiset(xs)[e] else 0)
    {
      FilterCount(xs, Within(DayStart(now, i), DayEnd(DayStart(now, i))));
      WithinDay(now, i, e);
    }
  }

  /** An entry from before the seven days, or from after today, is in no bar. */
  lemma OutsideIgnored(xs: seq<Exercise>, now: int, e: Exercise)
    requires DayIndex(e.timestamp) < DayIndex(now) - 6 || DayIndex(now) < DayIndex(e.timestamp)
    ensures forall i :: 0 <= i < 7 ==> e !in Bucket(xs, now, i)
  {
    forall i | 0 <= i < 7 ensures e !in Bucket(xs, now, i) {
      BucketContents(xs, now, i);
      assert e !in multiset(Bucket(xs, now, i));
    }
  }

  lemma {:induction false} SumCountsIsSumBy(xs: seq<Exercise>)
    ensures SumCounts(xs) == SumBy(xs, Count)
  {
    if xs != [] {
      SumCountsIsSumBy(xs[..|xs| - 1]);
    }
  }

  /** Bar `j`'s day follows the days of the `j` bars before it and is apart from them. */
  lemma BucketSplit(now: int, j: int, k: int)
    requires 0 <= j && k == j + 1 <= 7
    ensures forall e :: !(Within(DayStart(now, j), DayEnd(DayStart(now, j)))(e) && FirstDays(now, j)(e))
    ensures forall e :: FirstDays(now, k)(e) == (Within(DayStart(now, j), DayEnd(DayStart(now, j)))(e) || FirstDays(now, j)(e))
  {
    forall e ensures Within(DayStart(now, j), DayEnd(DayStart(now, j)))(e) <==> DayIndex(e.timestamp) == DayIndex(now) - 6 + j {
      WithinDay(now, j, e);
    }
  }

  /** Adding bar `j` to the bars before it adds its entries. */
  lemma BucketAddsEntries(xs: seq<Exercise>, now: int, j: int, k: int)
    requires 0 <= j && k == j + 1 <= 7
    ensures |Bucket(xs, now, j)| + |Filter(xs, FirstDays(now, j))| == |Filter(xs, FirstDays(now, k))|
  {
    BucketSplit(now, j, k);
    FilterDisjoint(xs, Within(DayStart(now, j), DayEnd(DayStart(now, j))), FirstDays(now, j), FirstDays(now, k));
  }

  /** Adding bar `j` to the bars before it adds its entries' counts. */
  lemma BucketAddsCounts(xs: seq<Exercise>, now: int, j: int, k: int)
    requires 0 <= j && k == j + 1 <= 7
    ensures SumBy(Bucket(xs, now, j), Count) + SumBy(Filter(xs, FirstDays(now, j)), Count) == SumBy(Filter(xs, FirstDays(now, k)), Count)
  {
    BucketSplit(now, j, k);
    FilterDisjointSum(xs, Within(DayStart(now, j), DayEnd(DayStart(now, j))), FirstDays(now, j), FirstDays(now, k), Count);
  }

  /** The number of entries in the first `k` bars. */
  function BarsTotal(xs: seq<Exercise>, now: int, k: nat): int
  {
    if k == 0 then 0 else BarsTotal(xs, now, k - 1) + |Bucket(xs, now, k - 1)|
  }

  /** The summed count of the first `k` bars. */
  function BarsCount(xs: seq<Exercise>, now: int, k: nat): int
  {
    if k == 0 then 0 else BarsCount(xs, now, k - 1) + SumBy(Bucket(xs, now, k - 1), Count)
  }

  /** The first `k` bars together hold the entries of the first `k` days. */
  lemma {:induction false} PrefixTotals(xs: seq<Exercise>, now: int, k: nat)
    requires k <= 7
    ensures BarsTotal(xs, now, k) == |Filter(xs, FirstDays(now, k))|
  {
    if k == 0 {
      FilterNone(xs, FirstDays(now, 0));
    } else {
      var j := k - 1;
      PrefixTotals(xs, now, j);
      BucketAddsEntries(xs, now, j, k);
    }
  }

  /** The first `k` bars together hold the summed count of the entries of the first `k` days. */
  lemma {:induction false} PrefixCounts(xs: seq<Exercise>, now: int, k: nat)
    requires k <= 7
    ensures BarsCount(xs, now, k) == SumBy(Filter(xs, FirstDays(now, k)), Count)
  {
    if k == 0 {
      FilterNone(xs, FirstDays(now, 0));
    } else {
      var j := k - 1;
      PrefixCounts(xs, now, j);
      BucketAddsCounts(xs, now, j, k);
    }
  }

  lemma {:induction false} BarsSumTotal(xs: seq<Exercise>, now: int, k: nat)
    requires k <= 7
    ensures SumBy(ChartData(xs, now)[..k], BarTotal) == BarsTotal(xs, now, k)
  {
    if k > 0 {
      var c := ChartData(xs, now);
      BarsSumTotal(xs, now, k - 1);
      assert c[..k][..k - 1] == c[..k - 1];
    }
  }

  lemma {:induction false} BarsSumCount(xs: seq<Exercise>, now: int, k: nat)
    requires k <= 7
    ensures SumBy(ChartData(xs, now)[..k], BarCount) == BarsCount(xs, now, k)
  {
    if k > 0 {
      var c := ChartData(xs, now);
      BarsSumCount(xs, now, k - 1);
      assert c[..k][..k - 1] == c[..k - 1];
      SumCountsIsSumBy(Bucket(xs, now, k - 1));
    }
  }

  /** The bars' entry totals add up to the number of entries logged in the last seven days, so
      to no more than the length of the log: no entry is in two bars. */
  lemma ChartTotals(xs: seq<Exercise>, now: int)
    ensures SumBy(ChartData(xs, now), BarTotal) == |Filter(xs, LastWeek(now))| <= |xs|
  {
    PrefixTotals(xs, now, 7);
    BarsSumTotal(xs, now, 7);
    assert ChartData(xs, now)[..7] == ChartData(xs, now);
  }

  /** The bars' counts add up to the summed count of the entries logged in the last seven days. */
  lemma ChartCounts(xs: seq<Exercise>, now: int)
    ensures SumBy(ChartData(xs, now), BarCount) == SumCounts(Filter(xs, LastWeek(now)))
  {
    PrefixCounts(xs, now, 7);
    BarsSumCount(xs, now, 7);
    SumCountsIsSumBy(Filter(xs, LastWeek(now)));
    assert ChartData(xs, now)[..7] == ChartData(xs, now);
  }
}
