/** Maximum drawdown in one pass, with its peak, trough and recovery. */
module MaxDrawdown {
  import opened Base
  import opened Numeric

  type Point = (Date, real)

  datatype Drawdown = Drawdown(worst: real, peak: Date, trough: Date, recovery: Option<Date>)

  ghost predicate ValidNav(points: seq<Point>) {
    && (forall i | 0 <= i < |points| :: points[i].1 > 0.0)
    && (forall i, j | 0 <= i < j < |points| :: points[i].0 < points[j].0)
  }

  /** The change from one point to a later one. */
  function Change(from: real, to: real): real
    requires from > 0.0
  {
    to / from - 1.0
  }

  lemma HigherPeakFallsFurther(low: real, high: real, to: real)
    requires 0.0 < low <= high && to > 0.0
    ensures Change(high, to) <= Change(low, to)
  {
    var x, y := to / low, to / high;
    DivideThenMultiply(to, low);
    DivideThenMultiply(to, high);
    if y > x {
      QuotientIsMonotone(0.0, to, low);
      MulMonotone(low, high, x);
      MulStrictlyMonotone(x, y, high);
    }
  }

  lemma NoChange(x: real)
    requires x > 0.0
    ensures Change(x, x) == 0.0
  {
    QuotientIsUnique(1.0, x, x);
  }

  /** No pair of days, first before last, loses more than `worst`. */
  ghost predicate Bounds(points: seq<Point>, n: nat, worst: real)
    requires ValidNav(points) && n <= |points|
  {
    forall i, j | 0 <= i <= j < n :: Change(points[i].1, points[j].1) >= worst
  }

  /** The two days give exactly the loss `worst`. */
  ghost predicate Attains(points: seq<Point>, worst: real, high: nat, low: nat)
    requires ValidNav(points)
  {
    high <= low < |points| && Change(points[high].1, points[low].1) == worst
  }

  /** The first day after the trough back at the peak's value, if there is one. */
  ghost predicate RecoversFirst(points: seq<Point>, high: nat, low: nat, recovery: Option<Date>)
    requires high < |points| && low < |points|
  {
    match recovery
    case None => forall k | low < k < |points| :: points[k].1 < points[high].1
    case Some(day) => exists k ::
      && low < k < |points| && points[k].0 == day && points[k].1 >= points[high].1
      && forall m | low < m < k :: points[m].1 < points[high].1
  }

  lemma NewPointKeepsBound(points: seq<Point>, k: nat, top: nat, worst: real)
    requires ValidNav(points) && k < |points| && Bounds(points, k, worst) && top <= k
    requires forall i | 0 <= i <= k :: points[i].1 <= points[top].1
    requires worst <= Change(points[top].1, points[k].1)
    ensures Bounds(points, k + 1, worst)
  {
    forall i, j | 0 <= i <= j < k + 1
      ensures Change(points[i].1, points[j].1) >= worst
    {
      if j == k {
        HigherPeakFallsFurther(points[i].1, points[top].1, points[k].1);
      }
    }
  }

  lemma BoundLowers(points: seq<Point>, n: nat, worst: real, lower: real)
    requires ValidNav(points) && n <= |points| && Bounds(points, n, worst) && lower <= worst
    ensures Bounds(points, n, lower)
  {
  }

  /** Among the first n days no two in order lose that much. */
  ghost predicate NoneYet(points: seq<Point>, n: nat, worst: real)
    requires ValidNav(points) && n <= |points|
  {
    forall i, j | 0 <= i <= j < n :: Change(points[i].1, points[j].1) > worst
  }

  /** The first day at the highest value of the days up to n. */
  ghost predicate FirstHighest(points: seq<Point>, high: nat, n: nat) {
    && high < |points| && n < |points| && high <= n
    && (forall i | 0 <= i < high :: points[i].1 < points[high].1)
    && forall i | high <= i <= n :: points[i].1 <= points[high].1
  }

  lemma BoundIsStrict(points: seq<Point>, n: nat, worst: real, lower: real)
    requires ValidNav(points) && n <= |points| && Bounds(points, n, worst) && lower < worst
    ensures NoneYet(points, n, lower)
  {
  }

  lemma NoneBeforeTheFirst(points: seq<Point>)
    requires ValidNav(points)
    ensures NoneYet(points, 0, 0.0)
  {
  }

  /** The worst loss between any two days in order, its peak and trough, and the first return to the peak's value.
      The trough is the first day with that loss, and the peak the first day at the highest value up to it. */
  ghost predicate IsDrawdown(points: seq<Point>, d: Drawdown, high: nat, low: nat)
    requires ValidNav(points)
  {
    && d.worst <= 0.0 && Bounds(points, |points|, d.worst) && Attains(points, d.worst, high, low)
    && d.peak == points[high].0 && d.trough == points[low].0
    && NoneYet(points, low, d.worst) && FirstHighest(points, high, low)
    && RecoversFirst(points, high, low, d.recovery)
  }

  /** The scan: the worst loss between any two days in order, a pair that attains it as peak and trough,
      and the first return to the peak's value afterwards. The trough is the first day with that loss, and the peak
      the first day at the highest value up to it. */
  method Scan(points: seq<Point>) returns (d: Drawdown, ghost high: nat, ghost low: nat)
    requires points != [] && ValidNav(points)
    ensures IsDrawdown(points, d, high, low)
  {
    hide Change, Bounds, NoneYet;
    NoneBeforeTheFirst(points);
    var peakNav, peakDate := points[0].1, points[0].0;
    var worst, worstPeak, trough, peakAtWorst := 0.0, peakDate, peakDate, peakNav;
    high, low := 0, 0;
    ghost var top: nat := 0;
    NoChange(points[0].1);
    NothingIsBounded(points);
    for k := 0 to |points|
      invariant top < |points| && (if k > 0 then top < k else top == 0) && peakNav == points[top].1
                && peakDate == points[top].0
      invariant forall i | 0 <= i < k :: points[i].1 <= peakNav
      invariant forall i | 0 <= i < top :: points[i].1 < peakNav
      invariant worst <= 0.0 && Bounds(points, k, worst) && Attains(points, worst, high, low) && low < Max(k, 1)
      invariant NoneYet(points, low, worst) && FirstHighest(points, high, low)
      invariant worstPeak == points[high].0 && trough == points[low].0 && peakAtWorst == points[high].1
    {
      var (day, nav) := points[k];
      if nav > peakNav {
        peakNav, peakDate, top := nav, day, k;
      }
      var drawdown := Change(peakNav, nav);
      NoChange(nav);
      if drawdown < worst {
        BoundLowers(points, k, worst, drawdown);
        BoundIsStrict(points, k, worst, drawdown);
        worst, worstPeak, peakAtWorst, trough := drawdown, peakDate, peakNav, day;
        high, low := top, k;
      }
      NewPointKeepsBound(points, k, top, worst);
    }
    var recovery := FirstRecovery(points, trough, peakAtWorst, high, low);
    d := Drawdown(worst, worstPeak, trough, recovery);
  }

  lemma NothingIsBounded(points: seq<Point>)
    requires ValidNav(points)
    ensures Bounds(points, 0, 0.0)
  {
  }

  method FirstRecovery(points: seq<Point>, trough: Date, level: real, ghost high: nat, ghost low: nat)
    returns (recovery: Option<Date>)
    requires ValidNav(points) && low < |points| && points[low].0 == trough && high < |points| && points[high].1 == level
    ensures RecoversFirst(points, high, low, recovery)
  {
    for k := 0 to |points|
      invariant forall m | low < m < k :: points[m].1 < level
    {
      if points[k].0 > trough && points[k].1 >= level {
        assert k > low;
        return Some(points[k].0);
      }
    }
    return None;
  }

  predicate InOrder(points: seq<Point>) {
    forall i, j | 0 <= i < j < |points| :: points[i].0 < points[j].0
  }

  // ----- returns

  function Returns(points: seq<Point>): seq<real>
    requires points != [] && forall i | 0 <= i < |points| :: points[i].1 > 0.0
  {
    seq(|points| - 1, i requires 0 <= i < |points| - 1 => Change(points[i].1, points[i + 1].1))
  }

  function Compounded(changes: seq<real>): real {
    if changes == [] then 1.0 else Compounded(changes[..|changes| - 1]) * (1.0 + changes[|changes| - 1])
  }

  lemma ChangesChain(first: real, middle: real, last: real)
    requires first > 0.0 && middle > 0.0
    ensures (1.0 + Change(first, middle)) * (1.0 + Change(middle, last)) == 1.0 + Change(first, last)
  {
    var x, y := middle / first, last / middle;
    DivideThenMultiply(middle, first);
    DivideThenMultiply(last, middle);
    assert x * y * first == y * (x * first);
    QuotientIsUnique(x * y, last, first);
  }

  /** Compounding the daily returns gives the cumulative return. */
  lemma {:induction false} ReturnsCompound(points: seq<Point>)
    requires points != [] && forall i | 0 <= i < |points| :: points[i].1 > 0.0
    ensures Compounded(Returns(points)) == 1.0 + Change(points[0].1, points[|points| - 1].1)
  {
    var n := |points| - 1;
    if n == 0 {
      NoChange(points[0].1);
    } else {
      ReturnsCompound(points[..n]);
      assert Returns(points)[..n - 1] == Returns(points[..n]);
      ChangesChain(points[0].1, points[n - 1].1, points[n].1);
    }
  }

  datatype Analysis = Analysis(daily: seq<real>, cumulative: real, drawdown: Drawdown)

  /** The analysis refuses short samples and nonpositive values, and otherwise reports daily returns that
      compound to the cumulative one, and the maximum drawdown. */
  method Analyze(points: seq<Point>, riskFree: real) returns (r: Result<Analysis>)
    requires InOrder(points)
    ensures |points| < 2 || riskFree <= -1.0 <==> r == Err("PERFORMANCE_INSUFFICIENT_SAMPLE")
    ensures r.Ok? <==> |points| >= 2 && riskFree > -1.0 && forall i | 0 <= i < |points| :: points[i].1 > 0.0
    ensures r.Ok? ==>
              && |r.value.daily| == |points| - 1
              && (forall i | 0 < i < |points| :: r.value.daily[i - 1] == Change(points[i - 1].1, points[i].1))
              && Compounded(r.value.daily) == 1.0 + r.value.cumulative
    ensures r.Ok? ==>
              ValidNav(points) && exists high: nat, low: nat :: IsDrawdown(points, r.value.drawdown, high, low)
  {
    if |points| < 2 || riskFree <= -1.0 {
      return Err("PERFORMANCE_INSUFFICIENT_SAMPLE");
    }
    if exists i | 0 <= i < |points| :: points[i].1 <= 0.0 {
      return Err("BACKTEST_VALUATION_MISSING");
    }
    hide Change, Compounded, IsDrawdown;
    ReturnsCompound(points);
    var scan, high, low := Scan(points);
    r := Ok(Analysis(Returns(points), Change(points[0].1, points[|points| - 1].1), scan));
  }
}
