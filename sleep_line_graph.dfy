/**
  The data behind the sleep line graph: one point per record, oldest first; at most 12
  points, spread evenly and always ending with the latest; and the y-axis ticks, every
  2 hours up to the even number of hours that covers the longest sleep.
*/
module SleepLineGraph {
  import opened Js
  import Sorting
  import OuraApi

  type SleepRecord = OuraApi.SleepRecord

  /**
    A chart point: the record's day, from which the label and `rawDate` are parsed, and
    the total, deep and REM sleep in hours.
  */
  datatype ChartPoint = ChartPoint(day: string, totalSleep: Number, deepSleep: Number, remSleep: Number)

  /** Seconds as hours (`seconds / 3600`). */
  function Hours(seconds: Value): (h: Number)
    ensures !h.Infinity?
  {
    match ToNumber(seconds)
    case Finite(x) => Finite(x / 3600.0)
    case _ => NaN
  }

  function PointOf(r: SleepRecord): ChartPoint
  {
    ChartPoint(if r.day.Str? then r.day.s else "", Hours(r.totalSleepDuration), Hours(r.deepSleepDuration), Hours(r.remSleepDuration))
  }

  // ---------------------------------------------------------------------------
  // chartData

  /** `chartData`: one point per record, in reverse order (oldest first for a newest-first list). */
  function ChartData(records: seq<SleepRecord>): (points: seq<ChartPoint>)
    ensures |points| == |records|
    ensures forall i :: 0 <= i < |points| ==> points[i] == PointOf(records[|records| - 1 - i])
    decreases |records|
  {
    if records == [] then [] else ChartData(records[1..]) + [PointOf(records[0])]
  }

  /** The points of two runs of records come out in swapped order, each run reversed. */
  lemma {:induction false} ChartDataAppend(a: seq<SleepRecord>, b: seq<SleepRecord>)
    ensures ChartData(a + b) == ChartData(b) + ChartData(a)
    decreases |a|
  {
    if a == [] {
      assert a + b == b;
    } else {
      assert (a + b)[1..] == a[1..] + b;
      assert (a + b)[0] == a[0];
      ChartDataAppend(a[1..], b);
    }
  }

  // ---------------------------------------------------------------------------
  // limitedChartData

  const MAX_POINTS := 12

  /** `Math.ceil(n / 12)` for a count of points. */
  function Step(n: nat): (step: nat)
    ensures n > MAX_POINTS ==> step >= 2
    ensures (step - 1) * MAX_POINTS < n <= step * MAX_POINTS
  {
    (n + MAX_POINTS - 1) / MAX_POINTS
  }

  function Min(a: nat, b: nat): nat
  {
    if a <= b then a else b
  }

  /** `Math.ceil(n / step)`: how many of `0, step, 2*step, ...` lie below `n`. */
  function Strides(n: nat, step: nat): (c: nat)
    requires step > 0
    ensures c * step >= n && (c == 0 || (c - 1) * step < n)
  {
    (n + step - 1) / step
  }

  /** The first `c` multiples of `step`. */
  function Multiples(c: nat, step: nat): (r: seq<nat>)
    ensures |r| == c && forall k :: 0 <= k < c ==> r[k] == k * step
  {
    seq(c, k requires 0 <= k => k * step)
  }

  /** Multiplying by a positive step keeps a strict order. */
  lemma MulStrict(a: int, b: int, step: int)
    requires a < b && step > 0
    ensures a * step < b * step
  {
    assert b * step == a * step + (b - a) * step;
  }

  /** A strict order of two multiples of a positive step is the order of the factors. */
  lemma MulCancel(a: int, b: int, step: int)
    requires a * step < b * step && step > 0
    ensures a < b
  {
    assert b * step - a * step == (b - a) * step;
  }

  /** The count of multiples below `n` is the only `c` with `(c - 1) * step < n <= c * step`. */
  lemma StridesUnique(n: nat, step: nat, c: nat)
    requires step > 0 && c * step >= n && (c == 0 || (c - 1) * step < n)
    ensures c == Strides(n, step)
  {
    var d := Strides(n, step);
    if c < d - 1 {
      MulStrict(c, d - 1, step);
    } else if c > d {
      if d < c - 1 {
        MulStrict(d, c - 1, step);
      }
    }
  }

  /**
    The indices the loop picks from `n > 12` points: `0, step, 2*step, ...` below `n`,
    at most 11 of them, then the last index when it was not picked.
  */
  function Picks(n: nat): (indices: seq<nat>)
    requires n > MAX_POINTS
  {
    var step := Step(n);
    var base := Multiples(Min(Strides(n, step), 11), step);
    if n - 1 in base then base else base + [n - 1]
  }

  /** More than 12 points give at least two multiples of the step below `n`, the last below `n`. */
  lemma PickCount(n: nat)
    requires n > MAX_POINTS
    ensures var c := Min(Strides(n, Step(n)), 11);
      2 <= c <= 11 && (c - 1) * Step(n) < n
  {
    var step := Step(n);
    var c := Strides(n, step);
    assert step < n;
    MulCancel(1, c, step);
    if Min(c, 11) < c {
      MulStrict(10, c - 1, step);
    }
  }

  /**
    The picked indices are valid and strictly increasing, there are at most 12, the first
    is 0 and the last is `n - 1`.
  */
  lemma PicksShape(n: nat)
    requires n > MAX_POINTS
    ensures var p := Picks(n);
      && 2 <= |p| <= MAX_POINTS && p[0] == 0 && p[|p| - 1] == n - 1
      && (forall k :: 0 <= k < |p| ==> p[k] < n)
      && (forall k, l :: 0 <= k < l < |p| ==> p[k] < p[l])
  {
    var step := Step(n);
    var c := Min(Strides(n, step), 11);
    PickCount(n);
    var base := Multiples(c, step);
    forall k | 0 <= k < c
      ensures base[k] < n
    {
      if k < c - 1 {
        MulStrict(k, c - 1, step);
      }
    }
    var p := Picks(n);
    forall k, l | 0 <= k < l < |p|
      ensures p[k] < p[l]
    {
      if l < c {
        MulStrict(k, l, step);
      }
    }
  }

  /** The points at `indices`, sorted ascending by date (the sort is stable, so equal days keep their order). */
  function ByDate(points: seq<ChartPoint>): (r: seq<ChartPoint>)
    ensures |r| == |points| && multiset(r) == multiset(points)
    ensures Sorting.SortedBy(r, (p: ChartPoint) => p.day, false)
  {
    Sorting.SortBySortedPermutation(points, (p: ChartPoint) => p.day, false);
    Sorting.SortBy(points, (p: ChartPoint) => p.day, false)
  }

  /** `limitedChartData` as a value: all points when there are at most 12, else the picked ones by date. */
  function Limited(points: seq<ChartPoint>): (r: seq<ChartPoint>)
  {
    if |points| <= MAX_POINTS then points
    else
      var p := Picks(|points|);
      PicksShape(|points|);
      ByDate(seq(|p|, k requires 0 <= k < |p| => points[p[k]]))
  }

  /**
    At most 12 points are shown, each one of the chart's, always including the latest,
    in date order; with at most 12 points they all are, unchanged.
  */
  lemma LimitedShape(points: seq<ChartPoint>)
    ensures |points| <= MAX_POINTS ==> Limited(points) == points
    ensures |Limited(points)| <= MAX_POINTS
    ensures forall x :: x in Limited(points) ==> x in points
    ensures |points| > 0 ==> points[|points| - 1] in Limited(points)
    ensures |points| > MAX_POINTS ==> Sorting.SortedBy(Limited(points), (p: ChartPoint) => p.day, false)
  {
    if |points| > MAX_POINTS {
      var p := Picks(|points|);
      PicksShape(|points|);
      var picked := seq(|p|, k requires 0 <= k < |p| => points[p[k]]);
      PickedFromPoints(points, p);
      var shown := Limited(points);
      assert multiset(shown) == multiset(picked);
      forall x | x in shown
        ensures x in points
      {
        assert x in multiset(shown);
      }
      assert points[|points| - 1] in multiset(shown);
    }
  }

  /** The points at some indices of the chart are the chart's, and the last index gives the latest. */
  lemma PickedFromPoints(points: seq<ChartPoint>, p: seq<nat>)
    requires |p| >= 1 && p[|p| - 1] == |points| - 1
    requires forall k :: 0 <= k < |p| ==> p[k] < |points|
    ensures var picked := seq(|p|, k requires 0 <= k < |p| => points[p[k]]);
      && (forall x :: x in multiset(picked) ==> x in points)
      && points[|points| - 1] in multiset(picked)
  {
    var picked := seq(|p|, k requires 0 <= k < |p| => points[p[k]]);
    assert picked[|p| - 1] == points[|points| - 1];
    forall x | x in multiset(picked)
      ensures x in points
    {
      assert x in picked;
      var k :| 0 <= k < |picked| && picked[k] == x;
      assert x == points[p[k]];
    }
  }

  /** `limitedChartData`: the `for` loop picking every `step`-th point, then the latest, then the sort. */
  method LimitedChartData(chartData: seq<ChartPoint>) returns (result: seq<ChartPoint>)
    ensures result == Limited(chartData)
  {
    var n := |chartData|;
    if n <= MAX_POINTS {
      return chartData;
    }
    var step := Step(n);
    var picked: seq<nat> := [];
    var i := 0;
    ghost var j := 0;
    while i < n
      invariant i == j * step
      invariant j == 0 || (j - 1) * step < n
      invariant picked == Multiples(Min(j, 11), step)
      decreases n - i
    {
      if |picked| < 11 {
        assert Multiples(j + 1, step) == Multiples(j, step) + [i];
        picked := picked + [i];
      }
      i := i + step;
      j := j + 1;
    }
    StridesUnique(n, step, j);
    if n > 0 && n - 1 !in picked {
      picked := picked + [n - 1];
    }
    assert picked == Picks(n);
    PicksShape(n);
    result := ByDate(seq(|picked|, k requires 0 <= k < |picked| => chartData[picked[k]]));
  }

  // ---------------------------------------------------------------------------
  // maxSleepHours and yAxisTicks

  /** `Math.ceil`. */
  function Ceil(x: real): (c: int)
    ensures (c as real) - 1.0 < x <= c as real
  {
    -((-x).Floor)
  }

  /** `Math.max(...xs)` of a non-empty list: NaN when any element is. */
  function MaxOf(xs: seq<Number>): (m: Number)
    requires |xs| > 0 && forall i :: 0 <= i < |xs| ==> !xs[i].Infinity?
    ensures !m.Infinity?
    ensures m.NaN? <==> exists i :: 0 <= i < |xs| && xs[i].NaN?
    ensures m.Finite? ==> forall i :: 0 <= i < |xs| ==> xs[i].Finite? && xs[i].r <= m.r
    ensures m.Finite? ==> exists i :: 0 <= i < |xs| && xs[i] == m
    decreases |xs|
  {
    if |xs| == 1 then xs[0]
    else
      var rest := MaxOf(xs[1..]);
      assert forall i :: 1 <= i < |xs| ==> xs[i] == xs[1..][i - 1];
      match (xs[0], rest)
      case (Finite(a), Finite(b)) => if a >= b then xs[0] else rest
      case _ => NaN
  }

  /** The total sleep of each point. */
  function Totals(points: seq<ChartPoint>): (xs: seq<Number>)
    ensures |xs| == |points| && forall i :: 0 <= i < |xs| ==> xs[i] == points[i].totalSleep
  {
    seq(|points|, i requires 0 <= i < |points| => points[i].totalSleep)
  }

  /**
    `maxSleepHours`: 10 with no points, else the longest total sleep rounded up to an
    even number of hours (`Math.ceil(max / 2) * 2`), NaN when a total is not a number.
  */
  function MaxSleepHours(points: seq<ChartPoint>): (m: Number)
    requires forall i :: 0 <= i < |points| ==> !points[i].totalSleep.Infinity?
    ensures points == [] ==> m == Finite(10.0)
  {
    if points == [] then Finite(10.0)
    else match MaxOf(Totals(points))
      case Finite(x) => Finite((Ceil(x / 2.0) * 2) as real)
      case _ => NaN
  }

  /**
    With numeric totals the maximum is the smallest even number of hours at least every
    total; a NaN total makes it NaN.
  */
  lemma MaxSleepHoursIsEvenCover(points: seq<ChartPoint>)
    requires points != [] && forall i :: 0 <= i < |points| ==> !points[i].totalSleep.Infinity?
    ensures (exists i :: 0 <= i < |points| && points[i].totalSleep.NaN?) <==> MaxSleepHours(points).NaN?
    ensures MaxSleepHours(points).Finite? ==>
      exists k: int :: && MaxSleepHours(points).r == (2 * k) as real
        && (forall i :: 0 <= i < |points| ==> points[i].totalSleep.r <= (2 * k) as real)
        && exists i :: 0 <= i < |points| && (2 * k - 2) as real < points[i].totalSleep.r
  {
    var xs := Totals(points);
    var m := MaxOf(xs);
    if m.Finite? {
      var k := Ceil(m.r / 2.0);
      var i :| 0 <= i < |xs| && xs[i] == m;
      assert (2 * k - 2) as real < points[i].totalSleep.r;
      assert forall j :: 0 <= j < |points| ==> points[j].totalSleep.r <= (2 * k) as real;
    }
  }

  /** `yAxisTicks` as a value: `0, 2, 4, ...` up to `max`; none when `max` is below 0 or NaN. */
  function Ticks(max: Number): (ticks: seq<int>)
    requires !max.Infinity?
  {
    match max
    case Finite(m) => if m < 0.0 then [] else seq(m.Floor / 2 + 1, k requires 0 <= k => 2 * k)
    case _ => []
  }

  /**
    The ticks start at 0, rise by 2 and stop at the last even number not above `max`: for
    an even `max` of at least 0 they end exactly at it and number `max / 2 + 1`.
  */
  lemma TicksShape(max: Number)
    requires !max.Infinity?
    ensures forall k :: 0 <= k < |Ticks(max)| ==> Ticks(max)[k] == 2 * k && max.Finite? && (2 * k) as real <= max.r
    ensures max.Finite? && max.r >= 0.0 ==> |Ticks(max)| > 0 && (2 * |Ticks(max)|) as real > max.r
    ensures forall e: int :: e >= 0 && max == Finite((2 * e) as real) ==>
      |Ticks(max)| == e + 1 && Ticks(max)[e] == 2 * e
  {
    if max.Finite? && max.r >= 0.0 {
      var f := max.r.Floor;
      var ticks := Ticks(max);
      assert |ticks| == f / 2 + 1;
      forall k | 0 <= k < |ticks|
        ensures ticks[k] == 2 * k && (2 * k) as real <= max.r
      {
        assert 2 * k <= f;
        assert (f as real) <= max.r;
      }
      assert (2 * (f / 2 + 1)) as real > max.r;
      forall e: int | e >= 0 && max == Finite((2 * e) as real)
        ensures |Ticks(max)| == e + 1
      {
        assert f == 2 * e;
      }
    } else {
      assert Ticks(max) == [];
    }
  }

  /** `yAxisTicks`: the `for` loop pushing `0, 2, 4, ...` while `i <= maxSleepHours`. */
  method YAxisTicks(maxSleepHours: Number) returns (ticks: seq<int>)
    requires !maxSleepHours.Infinity?
    ensures ticks == Ticks(maxSleepHours)
  {
    ticks := [];
    if !maxSleepHours.Finite? {
      return;
    }
    var m := maxSleepHours.r;
    var i := 0;
    while i as real <= m
      invariant i == 2 * |ticks| && i >= 0
      invariant forall k :: 0 <= k < |ticks| ==> ticks[k] == 2 * k
      invariant m >= 0.0 ==> i <= 2 * (m.Floor / 2 + 1)
      invariant m < 0.0 ==> ticks == []
      decreases m.Floor - i + 2
    {
      ticks := ticks + [i];
      i := i + 2;
    }
  }
}
