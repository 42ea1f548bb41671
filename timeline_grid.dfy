/**
 * The week scale that sizes the timeline grid: the earliest planned start, the latest
 * forecast end, and the number of whole weeks between them.
 */
module TimelineGrid {
  import opened Types
  import opened Timeline

  /** Grid bounds in epoch milliseconds, and the number of week columns. */
  datatype WeekScale = WeekScale(start: int, end: int, weeks: nat)

  /** Where a view starts: its first stage's planned start, or its anchor when it has no stages. */
  function ViewStart(view: PropertyTimelineView): Day {
    if |view.stages| > 0 then view.stages[0].plannedStart else view.property.groupClosingDate
  }

  /** Where a view ends: its last stage's forecast end, or its anchor when it has no stages. */
  function ViewEnd(view: PropertyTimelineView): Day {
    if |view.stages| > 0 then view.stages[|view.stages| - 1].forecastEnd else view.property.groupClosingDate
  }

  /** The running minimum of the view starts, folded from the left. */
  function Earliest(views: seq<PropertyTimelineView>): (d: Day)
    requires |views| > 0
    ensures forall i :: 0 <= i < |views| ==> d <= ViewStart(views[i])
    ensures exists i :: 0 <= i < |views| && d == ViewStart(views[i])
  {
    if |views| == 1 then ViewStart(views[0])
    else
      var sofar := Earliest(views[..|views| - 1]);
      var next := ViewStart(views[|views| - 1]);
      assert forall i :: 0 <= i < |views| - 1 ==> views[..|views| - 1][i] == views[i];
      if next < sofar then next else sofar
  }

  /** The running maximum of the view ends, folded from the left. */
  function Latest(views: seq<PropertyTimelineView>): (d: Day)
    requires |views| > 0
    ensures forall i :: 0 <= i < |views| ==> ViewEnd(views[i]) <= d
    ensures exists i :: 0 <= i < |views| && d == ViewEnd(views[i])
  {
    if |views| == 1 then ViewEnd(views[0])
    else
      var sofar := Latest(views[..|views| - 1]);
      var next := ViewEnd(views[|views| - 1]);
      assert forall i :: 0 <= i < |views| - 1 ==> views[..|views| - 1][i] == views[i];
      if next > sofar then next else sofar
  }

  /** `Math.ceil(ms / one week)`: the fewest whole weeks that cover `ms` milliseconds. */
  function WeeksCovering(ms: int): (w: int)
    ensures 604_800_000 * (w - 1) < ms <= 604_800_000 * w
  {
    -((-ms) / 604_800_000)
  }

  /**
   * The grid's bounds and week count. With no views both bounds are `now` and there is one
   * week; otherwise the bounds are the midnights of the earliest start and the latest end.
   */
  function BuildWeekScale(views: seq<PropertyTimelineView>, now: int): (scale: WeekScale)
    ensures scale.weeks >= 1
    ensures |views| == 0 ==> scale == WeekScale(now, now, 1)
    ensures |views| > 0 ==>
      && scale.start == StartOfDayMs(Earliest(views))
      && scale.end == StartOfDayMs(Latest(views))
  {
    if |views| == 0 then WeekScale(now, now, 1)
    else
      var earliest := StartOfDayMs(Earliest(views));
      var latest := StartOfDayMs(Latest(views));
      var weeks := WeeksCovering(latest - earliest);
      WeekScale(earliest, latest, if weeks >= 1 then weeks else 1)
  }

  /**
   * In days: when the latest end is after the earliest start the grid has the fewest weeks
   * that cover the span, otherwise exactly one week.
   */
  lemma WeeksCoverSpan(views: seq<PropertyTimelineView>, now: int)
    requires |views| > 0
    ensures var span := Latest(views) - Earliest(views);
      var weeks := BuildWeekScale(views, now).weeks;
      && (span > 0 ==> 7 * (weeks - 1) < span <= 7 * weeks)
      && (span <= 0 ==> weeks == 1)
  {
    var span := Latest(views) - Earliest(views);
    assert StartOfDayMs(Latest(views)) - StartOfDayMs(Earliest(views)) == span * 86_400_000;
  }
}
