/**
 The time-series half of the analytics service: the monthly series is
 handed out as a copy, and the weekly series splits every monthly point
 into four weeks.
 */
module AnalyticsWeekly {
  import opened Js

  /** One point of the monthly (or derived weekly) series. */
  datatype DataPoint = DataPoint(
    period: string,
    totalApplications: int,
    offersIssued: int,
    coeIssued: int,
    totalCollection: int)

  /** The four counters of a point. */
  datatype Counter = Applications | Offers | Coes | Collection

  function CounterOf(p: DataPoint, c: Counter): int {
    match c
    case Applications => p.totalApplications
    case Offers => p.offersIssued
    case Coes => p.coeIssued
    case Collection => p.totalCollection
  }

  const WeeksInMonth: int := 4

  /**
   JavaScript's `a % 4`: the remainder keeps the sign of the dividend (it
   truncates), unlike Dafny's `%`.
   */
  function JsRem(a: int): (r: int)
    ensures (a - r) % 4 == 0
    ensures a >= 0 ==> 0 <= r < 4
    ensures a < 0 ==> -4 < r <= 0
  {
    if a >= 0 then a % 4 else 0 - ((0 - a) % 4)
  }

  /**
   Week `week`'s share of a monthly value `v`: `Math.floor(v / 4)`, plus
   `v % 4` in week 1. Dafny's `/` by a positive divisor is the floor.
   */
  function WeekShare(v: int, week: int): int
    requires 1 <= week <= WeeksInMonth
  {
    v / 4 + (if week == 1 then JsRem(v) else 0)
  }

  /** For a non-negative value the four shares add back up to it, weeks 2 to 4 are equal and week 1 is the largest. */
  lemma SharesOfNonNegative(v: int)
    requires v >= 0
    ensures WeekShare(v, 1) + WeekShare(v, 2) + WeekShare(v, 3) + WeekShare(v, 4) == v
    ensures WeekShare(v, 2) == WeekShare(v, 3) == WeekShare(v, 4) == v / 4
    ensures WeekShare(v, 1) == v / 4 + v % 4
    ensures WeekShare(v, 1) >= WeekShare(v, 2) >= 0
  {
  }

  /**
   A negative monthly value is not conserved: the floor rounds down while
   the remainder is negative too, so -1 becomes -5 over four weeks.
   */
  lemma SharesOfMinusOne()
    ensures WeekShare(-1, 1) + WeekShare(-1, 2) + WeekShare(-1, 3) + WeekShare(-1, 4) == -5
  {
  }

  /** The label of week `week` of `period`: `<period>-W<week>`. */
  function WeekLabel(period: string, week: int): (s: string)
    requires 1 <= week <= WeeksInMonth
    ensures |s| == |period| + 3
    ensures s[..|period|] == period && s[|period|..|period| + 2] == "-W"
    ensures '1' <= s[|period| + 2] <= '4'
    ensures DigitValue(s[|period| + 2]) == week
  {
    period + "-W" + [DigitChar(week)]
  }

  function WeekPoint(m: DataPoint, week: int): (p: DataPoint)
    requires 1 <= week <= WeeksInMonth
    ensures p.period == WeekLabel(m.period, week)
    ensures forall c :: CounterOf(p, c) == WeekShare(CounterOf(m, c), week)
  {
    DataPoint(
      WeekLabel(m.period, week),
      WeekShare(m.totalApplications, week),
      WeekShare(m.offersIssued, week),
      WeekShare(m.coeIssued, week),
      WeekShare(m.totalCollection, week))
  }

  /** The four points one month is split into, week 1 to week 4. */
  function MonthWeeks(m: DataPoint): (r: seq<DataPoint>)
    ensures |r| == 4
    ensures forall w :: 0 <= w < 4 ==> r[w] == WeekPoint(m, w + 1)
  {
    [WeekPoint(m, 1), WeekPoint(m, 2), WeekPoint(m, 3), WeekPoint(m, 4)]
  }

  /**
   `getWeeklyData`: four points per monthly point, in month order, week 1
   to week 4.
   */
  function WeeklyData(months: seq<DataPoint>): (r: seq<DataPoint>)
    ensures |r| == 4 * |months|
  {
    if |months| == 0 then [] else MonthWeeks(months[0]) + WeeklyData(months[1..])
  }

  /** Point `4 * q + w` of the weekly series is point `w` of month `q`'s split. */
  lemma {:induction false} WeeklyDataIndex(months: seq<DataPoint>, q: int, w: int)
    requires 0 <= q < |months| && 0 <= w < 4
    ensures WeeklyData(months)[4 * q + w] == MonthWeeks(months[q])[w]
  {
    var head := MonthWeeks(months[0]);
    var rest := WeeklyData(months[1..]);
    assert WeeklyData(months) == head + rest;
    if q > 0 {
      WeeklyDataIndex(months[1..], q - 1, w);
      assert WeeklyData(months)[4 * q + w] == rest[4 * (q - 1) + w];
      assert months[1..][q - 1] == months[q];
    }
  }

  /** Point `k` of the weekly series is week `k % 4 + 1` of month `k / 4`. */
  lemma WeeklyDataAt(months: seq<DataPoint>, k: int)
    requires 0 <= k < 4 * |months|
    ensures WeeklyData(months)[k] == WeekPoint(months[k / 4], k % 4 + 1)
  {
    assert k == 4 * (k / 4) + k % 4;
    WeeklyDataIndex(months, k / 4, k % 4);
  }

  /** The sum of one counter over a series. */
  function Total(s: seq<DataPoint>, c: Counter): int {
    if |s| == 0 then 0 else CounterOf(s[0], c) + Total(s[1..], c)
  }

  lemma {:induction false} TotalOfConcat(a: seq<DataPoint>, b: seq<DataPoint>, c: Counter)
    ensures Total(a + b, c) == Total(a, c) + Total(b, c)
  {
    if |a| > 0 {
      assert (a + b)[1..] == a[1..] + b;
      TotalOfConcat(a[1..], b, c);
    } else {
      assert a + b == b;
    }
  }

  /** Over series with non-negative counters, the weekly series has the monthly totals. */
  lemma {:induction false} WeeklyTotalsConserved(months: seq<DataPoint>, c: Counter)
    requires forall i :: 0 <= i < |months| ==> CounterOf(months[i], c) >= 0
    ensures Total(WeeklyData(months), c) == Total(months, c)
  {
    if |months| > 0 {
      var m := months[0];
      var head := MonthWeeks(m);
      assert WeeklyData(months) == head + WeeklyData(months[1..]);
      TotalOfConcat(head, WeeklyData(months[1..]), c);
      SharesOfNonNegative(CounterOf(m, c));
      assert Total(head[3..], c) == WeekShare(CounterOf(m, c), 4);
      assert Total(head[2..], c) == WeekShare(CounterOf(m, c), 3) + Total(head[3..], c);
      assert Total(head[1..], c) == WeekShare(CounterOf(m, c), 2) + Total(head[2..], c);
      WeeklyTotalsConserved(months[1..], c);
    }
  }

  /**
   `getMonthlyData`: a copy of the fixture, point by point. Sequences are
   values here, so the copy is equal to the fixture and there is no separate
   array whose freshness could be stated.
   */
  method MonthlyData(fixture: seq<DataPoint>) returns (r: seq<DataPoint>)
    ensures |r| == |fixture|
    ensures forall i :: 0 <= i < |r| ==> r[i] == fixture[i]
  {
    r := [];
    var i := 0;
    while i < |fixture|
      invariant 0 <= i <= |fixture|
      invariant r == fixture[..i]
    {
      r := r + [fixture[i]];
      i := i + 1;
    }
  }
}
