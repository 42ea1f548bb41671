/**
 * Portfolio metrics: the four summary figures over a list of timeline views.
 */
module Metrics {
  import opened Wrappers
  import opened Types
  import opened Timeline

  datatype PortfolioMetrics = PortfolioMetrics(totalProperties: nat, avgDelayDays: nat, atRisk: nat, upcomingStarts: nat)

  /** Sum of the views' total delays. */
  function TotalDelay(views: seq<PropertyTimelineView>): nat {
    if views == [] then 0 else TotalDelay(views[..|views| - 1]) + views[|views| - 1].totalDelayDays
  }

  /** The positions of the views whose summary is anything but "On track". */
  function AtRiskPositions(views: seq<PropertyTimelineView>): set<nat> {
    set i: nat | i < |views| && views[i].statusSummary != OnTrack
  }

  /** Views whose summary is anything but "On track". */
  function CountAtRisk(views: seq<PropertyTimelineView>): (n: nat)
    ensures n == |AtRiskPositions(views)|
    ensures n <= |views|
    ensures n == 0 <==> forall i :: 0 <= i < |views| ==> views[i].statusSummary == OnTrack
  {
    if views == [] then
      assert AtRiskPositions(views) == {};
      0
    else
      var front := views[..|views| - 1];
      var last := |views| - 1;
      assert AtRiskPositions(views) ==
        AtRiskPositions(front) + (if views[last].statusSummary != OnTrack then {last} else {});
      assert last !in AtRiskPositions(front);
      CountAtRisk(front) + (if views[last].statusSummary != OnTrack then 1 else 0)
  }

  /** The first stage whose status is planned (`Array.prototype.find`). */
  function FirstPlanned(stages: seq<StageTimelineEntry>): (r: Option<StageTimelineEntry>)
    ensures r.Some? ==> r.value in stages && r.value.status == Planned
    ensures r.None? ==> forall e :: e in stages ==> e.status != Planned
  {
    if stages == [] then None
    else if stages[0].status == Planned then Some(stages[0])
    else FirstPlanned(stages[1..])
  }

  /** Among several planned stages, the earliest in the list is the one found. */
  lemma {:induction false} FirstPlannedIsFirst(stages: seq<StageTimelineEntry>, i: nat)
    requires i < |stages| && stages[i].status == Planned
    requires forall j :: 0 <= j < i ==> stages[j].status != Planned
    ensures FirstPlanned(stages) == Some(stages[i])
  {
    if i > 0 {
      FirstPlannedIsFirst(stages[1..], i - 1);
    }
  }

  /**
   * A view starts soon when its next planned stage has a forecast start no later than seven
   * days from `now` (epoch milliseconds); a view with no planned stage never does.
   */
  predicate IsUpcoming(view: PropertyTimelineView, now: int) {
    var next := FirstPlanned(view.stages);
    next.Some? && StartOfDayMs(next.value.forecastStart) <= now + 7 * 86_400_000
  }

  /** The positions of the views that start soon. */
  function UpcomingPositions(views: seq<PropertyTimelineView>, now: int): set<nat> {
    set i: nat | i < |views| && IsUpcoming(views[i], now)
  }

  /** Views that start soon. */
  function CountUpcoming(views: seq<PropertyTimelineView>, now: int): (n: nat)
    ensures n == |UpcomingPositions(views, now)|
    ensures n <= |views|
    ensures n == 0 <==> forall i :: 0 <= i < |views| ==> !IsUpcoming(views[i], now)
  {
    if views == [] then
      assert UpcomingPositions(views, now) == {};
      0
    else
      var front := views[..|views| - 1];
      var last := |views| - 1;
      assert UpcomingPositions(views, now) ==
        UpcomingPositions(front, now) + (if IsUpcoming(views[last], now) then {last} else {});
      assert last !in UpcomingPositions(front, now);
      CountUpcoming(front, now) + (if IsUpcoming(views[last], now) then 1 else 0)
  }

  /** A later clock never counts fewer upcoming starts. */
  lemma {:induction false} UpcomingGrowsWithTime(views: seq<PropertyTimelineView>, now1: int, now2: int)
    requires now1 <= now2
    ensures CountUpcoming(views, now1) <= CountUpcoming(views, now2)
  {
    if views != [] {
      UpcomingGrowsWithTime(views[..|views| - 1], now1, now2);
    }
  }

  /** `Math.round(num / den)` for non-negative operands: the nearest integer, halves rounding up. */
  function RoundHalfUp(num: nat, den: nat): (r: nat)
    requires den > 0
    ensures 2 * den * r <= 2 * num + den < 2 * den * r + 2 * den
  {
    (2 * num + den) / (2 * den)
  }

  /** The summary figures; an empty list gives all zeros. */
  function DerivePortfolioMetrics(views: seq<PropertyTimelineView>, now: int): (m: PortfolioMetrics)
    ensures |views| == 0 ==> m == PortfolioMetrics(0, 0, 0, 0)
    ensures m.totalProperties == |views|
    ensures m.atRisk == |AtRiskPositions(views)| && m.upcomingStarts == |UpcomingPositions(views, now)|
    ensures m.atRisk <= m.totalProperties && m.upcomingStarts <= m.totalProperties
    ensures m.atRisk == 0 <==> forall i :: 0 <= i < |views| ==> views[i].statusSummary == OnTrack
    ensures |views| > 0 ==> 2 * |views| * m.avgDelayDays <= 2 * TotalDelay(views) + |views| < 2 * |views| * (m.avgDelayDays + 1)
  {
    if |views| == 0 then PortfolioMetrics(0, 0, 0, 0)
    else
      var avg := RoundHalfUp(TotalDelay(views), |views|);
      MulAssoc2(|views|, avg);
      PortfolioMetrics(|views|, avg, CountAtRisk(views), CountUpcoming(views, now))
  }

  /** The total lies between the count times the smallest and the count times the largest delay. */
  lemma {:induction false} TotalDelayBounds(views: seq<PropertyTimelineView>, lo: nat, hi: nat)
    requires forall i :: 0 <= i < |views| ==> lo <= views[i].totalDelayDays <= hi
    ensures |views| * lo <= TotalDelay(views) <= |views| * hi
  {
    if views != [] {
      var n := |views|;
      TotalDelayBounds(views[..n - 1], lo, hi);
      assert n * lo == (n - 1) * lo + lo;
      assert n * hi == (n - 1) * hi + hi;
    }
  }

  /** From `k * a < k * b` with positive `k`, `a < b`. */
  lemma CancelFactor(k: int, a: int, b: int)
    requires k > 0 && k * a < k * b
    ensures a < b
  {
  }

  lemma MulAssoc2(n: int, x: int)
    ensures 2 * (n * x) == (2 * n) * x && (2 * n) * (x + 1) == (2 * n) * x + 2 * n
  {
  }

  /** The average delay lies between the smallest and the largest per-view total. */
  lemma AverageWithinRange(views: seq<PropertyTimelineView>, now: int, lo: nat, hi: nat)
    requires |views| > 0
    requires forall i :: 0 <= i < |views| ==> lo <= views[i].totalDelayDays <= hi
    ensures lo <= DerivePortfolioMetrics(views, now).avgDelayDays <= hi
  {
    var n := |views|;
    var avg := DerivePortfolioMetrics(views, now).avgDelayDays;
    var total := TotalDelay(views);
    TotalDelayBounds(views, lo, hi);
    MulAssoc2(n, hi);
    MulAssoc2(n, lo);
    MulAssoc2(n, avg);
    assert (2 * n) * avg < (2 * n) * (hi + 1);
    CancelFactor(2 * n, avg, hi + 1);
    assert (2 * n) * lo < (2 * n) * (avg + 1);
    CancelFactor(2 * n, lo, avg + 1);
  }

  /** When every view is on time the average delay is zero. */
  lemma AllOnTimeAverageZero(views: seq<PropertyTimelineView>, now: int)
    requires |views| > 0
    requires forall i :: 0 <= i < |views| ==> views[i].totalDelayDays == 0
    ensures DerivePortfolioMetrics(views, now).avgDelayDays == 0
  {
    AverageWithinRange(views, now, 0, 0);
  }
}
