/**
 * What the timeline builder promises about the timeline it derives: catalog order,
 * contiguous plans anchored at the group closing date, override precedence, the
 * forecast and delay rules, the status table, the roll-up figures, and two worked
 * scenarios.
 */
module TimelineProperties {
  import opened Wrappers
  import opened Types
  import opened Timeline

  /** Entry `j` of the built timeline is what the stage rules make of catalog stage `j`. */
  lemma EntryAt(p: PropertyRecord, ruleSet: RuleSet, now: int, j: nat)
    requires Covers(p, ruleSet) && j < |Catalog|
    ensures var s := TimelineOf(p, ruleSet, now).stages;
      |s| == |Catalog| && s[j] == StageRule(p, ruleSet, now, s, j)
  {
    TimelineFollowsStageRules(p, ruleSet, now);
  }

  /** One entry per catalog stage, in catalog order, carrying the stage's label and owner. */
  lemma StagesInCatalogOrder(p: PropertyRecord, ruleSet: RuleSet, now: int, j: nat)
    requires Covers(p, ruleSet) && j < |Catalog|
    ensures var s := TimelineOf(p, ruleSet, now).stages;
      && |s| == |Catalog|
      && s[j].key == Catalog[j].key
      && s[j].labelText == GetStageDefinition(s[j].key).labelText
      && s[j].owner == GetStageDefinition(s[j].key).owner
  {
    EntryAt(p, ruleSet, now, j);
    var s := TimelineOf(p, ruleSet, now).stages;
    assert IndexOf(s[j].key) == j;
  }

  /** The custom override wins over the rule set; the planned span is that many weeks (at least a day). */
  lemma DurationPrecedence(p: PropertyRecord, ruleSet: RuleSet, now: int, j: nat)
    requires Covers(p, ruleSet) && j < |Catalog|
    ensures var s := TimelineOf(p, ruleSet, now).stages;
      && (Catalog[j].key in p.customDurations ==> s[j].durationWeeks == p.customDurations[Catalog[j].key])
      && (Catalog[j].key !in p.customDurations ==> s[j].durationWeeks == ruleSet.durationsWeeks[Catalog[j].key])
      && s[j].plannedEnd - s[j].plannedStart == DurationDays(s[j].durationWeeks)
      && s[j].plannedEnd - s[j].plannedStart >= 1
      && (s[j].durationWeeks > 0 ==> s[j].plannedEnd - s[j].plannedStart == 7 * s[j].durationWeeks)
  {
    EntryAt(p, ruleSet, now, j);
  }

  /** The plan starts at the group closing date and every stage starts where the one before ended. */
  lemma PlannedContiguous(p: PropertyRecord, ruleSet: RuleSet, now: int, j: nat)
    requires Covers(p, ruleSet) && j < |Catalog|
    ensures var s := TimelineOf(p, ruleSet, now).stages;
      s[j].plannedStart == if j == 0 then p.groupClosingDate else s[j - 1].plannedEnd
  {
    EntryAt(p, ruleSet, now, j);
  }

  /** Days taken by the first `n` catalog stages under the effective durations. */
  function PlannedOffset(p: PropertyRecord, ruleSet: RuleSet, n: nat): (days: int)
    requires Covers(p, ruleSet) && n <= |Catalog|
    ensures days >= n
  {
    if n == 0 then 0
    else PlannedOffset(p, ruleSet, n - 1) + DurationDays(EffectiveWeeks(p, ruleSet, Catalog[n - 1].key))
  }

  /** A longer prefix of the catalog takes at least as many days. */
  lemma {:induction false} PlannedOffsetMonotone(p: PropertyRecord, ruleSet: RuleSet, m: nat, n: nat)
    requires Covers(p, ruleSet) && m <= n <= |Catalog|
    ensures PlannedOffset(p, ruleSet, m) + (n - m) <= PlannedOffset(p, ruleSet, n)
    decreases n - m
  {
    if m < n {
      PlannedOffsetMonotone(p, ruleSet, m, n - 1);
    }
  }

  /** The plan in closed form: the anchor plus the durations of the stages before (and including) this one. */
  lemma {:induction false} PlannedClosedForm(p: PropertyRecord, ruleSet: RuleSet, now: int, j: nat)
    requires Covers(p, ruleSet) && j < |Catalog|
    ensures var s := TimelineOf(p, ruleSet, now).stages;
      && s[j].plannedStart == p.groupClosingDate + PlannedOffset(p, ruleSet, j)
      && s[j].plannedEnd == p.groupClosingDate + PlannedOffset(p, ruleSet, j + 1)
  {
    EntryAt(p, ruleSet, now, j);
    if j > 0 {
      PlannedClosedForm(p, ruleSet, now, j - 1);
    }
  }

  /** Planned dates depend only on the anchor and the durations: not on actuals, not on the clock. */
  lemma PlannedIgnoresActualsAndClock(p: PropertyRecord, q: PropertyRecord, ruleSet: RuleSet,
                                      now1: int, now2: int, j: nat)
    requires Covers(p, ruleSet) && Covers(q, ruleSet) && j < |Catalog|
    requires p.groupClosingDate == q.groupClosingDate && p.customDurations == q.customDurations
    ensures var s := TimelineOf(p, ruleSet, now1).stages;
      var t := TimelineOf(q, ruleSet, now2).stages;
      && s[j].plannedStart == t[j].plannedStart
      && s[j].plannedEnd == t[j].plannedEnd
      && TimelineOf(p, ruleSet, now1).plannedGoLive == TimelineOf(q, ruleSet, now2).plannedGoLive
  {
    PlannedClosedForm(p, ruleSet, now1, j);
    PlannedClosedForm(q, ruleSet, now2, j);
    PlannedClosedForm(p, ruleSet, now1, |Catalog| - 1);
    PlannedClosedForm(q, ruleSet, now2, |Catalog| - 1);
    assert PlannedOffset(p, ruleSet, j) == PlannedOffset(q, ruleSet, j) by {
      OffsetsAgree(p, q, ruleSet, j);
    }
    OffsetsAgree(p, q, ruleSet, j + 1);
    OffsetsAgree(p, q, ruleSet, |Catalog|);
  }

  lemma {:induction false} OffsetsAgree(p: PropertyRecord, q: PropertyRecord, ruleSet: RuleSet, n: nat)
    requires Covers(p, ruleSet) && Covers(q, ruleSet) && n <= |Catalog|
    requires p.customDurations == q.customDurations
    ensures PlannedOffset(p, ruleSet, n) == PlannedOffset(q, ruleSet, n)
  {
    if n > 0 {
      OffsetsAgree(p, q, ruleSet, n - 1);
    }
  }

  /** The planned go-live is the end of the last stage, later than every other planned end. */
  lemma PlannedGoLiveIsLatest(p: PropertyRecord, ruleSet: RuleSet, now: int, j: nat)
    requires Covers(p, ruleSet) && j < |Catalog|
    ensures var view := TimelineOf(p, ruleSet, now);
      && view.plannedGoLive == view.stages[|Catalog| - 1].plannedEnd
      && view.stages[j].plannedEnd <= view.plannedGoLive
      && (j < |Catalog| - 1 ==> view.stages[j].plannedEnd < view.plannedGoLive)
  {
    PlannedClosedForm(p, ruleSet, now, j);
    PlannedClosedForm(p, ruleSet, now, |Catalog| - 1);
    PlannedOffsetMonotone(p, ruleSet, j + 1, |Catalog|);
  }

  /** The first recorded entry for a stage supplies its actual dates and notes. */
  lemma FirstActualWins(p: PropertyRecord, ruleSet: RuleSet, now: int, j: nat, i: nat)
    requires Covers(p, ruleSet) && j < |Catalog|
    requires i < |p.stageActuals| && p.stageActuals[i].stage == Catalog[j].key
    requires forall k :: 0 <= k < i ==> p.stageActuals[k].stage != Catalog[j].key
    ensures var s := TimelineOf(p, ruleSet, now).stages;
      && s[j].actualStart == p.stageActuals[i].actualStart
      && s[j].actualEnd == p.stageActuals[i].actualEnd
      && s[j].notes == p.stageActuals[i].notes
  {
    EntryAt(p, ruleSet, now, j);
    FindActualIsFirst(p.stageActuals, Catalog[j].key, i);
  }

  /** A stage with no recorded entry has no actual dates and no notes. */
  lemma UnrecordedStage(p: PropertyRecord, ruleSet: RuleSet, now: int, j: nat)
    requires Covers(p, ruleSet) && j < |Catalog|
    requires forall a :: a in p.stageActuals ==> a.stage != Catalog[j].key
    ensures var s := TimelineOf(p, ruleSet, now).stages;
      s[j].actualStart.None? && s[j].actualEnd.None? && s[j].notes.None?
  {
    EntryAt(p, ruleSet, now, j);
  }

  /**
   * Forecast rules: a recorded start pins the forecast start; otherwise it is the later of the
   * previous forecast end (the anchor for the first stage) and the planned start. A recorded end
   * pins the forecast end; otherwise the forecast keeps the planned length.
   */
  lemma ForecastRules(p: PropertyRecord, ruleSet: RuleSet, now: int, j: nat)
    requires Covers(p, ruleSet) && j < |Catalog|
    ensures var s := TimelineOf(p, ruleSet, now).stages;
      var previous := if j == 0 then p.groupClosingDate else s[j - 1].forecastEnd;
      && s[j].actualStart == RecordedStart(p.stageActuals, s[j].key)
      && s[j].actualEnd == RecordedEnd(p.stageActuals, s[j].key)
      && (s[j].actualStart.Some? ==> s[j].forecastStart == s[j].actualStart.value)
      && (s[j].actualStart.None? ==>
            && s[j].forecastStart >= previous
            && s[j].forecastStart >= s[j].plannedStart
            && (s[j].forecastStart == previous || s[j].forecastStart == s[j].plannedStart))
      && (s[j].actualEnd.Some? ==> s[j].forecastEnd == s[j].actualEnd.value)
      && (s[j].actualEnd.None? ==> s[j].forecastEnd - s[j].forecastStart == s[j].plannedEnd - s[j].plannedStart)
  {
    EntryAt(p, ruleSet, now, j);
  }

  /** The delay is how many days the forecast start lies after the planned start, never negative. */
  lemma DelayRule(p: PropertyRecord, ruleSet: RuleSet, now: int, j: nat)
    requires Covers(p, ruleSet) && j < |Catalog|
    ensures var s := TimelineOf(p, ruleSet, now).stages;
      && (s[j].forecastStart > s[j].plannedStart ==> s[j].delayDays == s[j].forecastStart - s[j].plannedStart)
      && (s[j].forecastStart <= s[j].plannedStart <==> s[j].delayDays == 0)
  {
    EntryAt(p, ruleSet, now, j);
  }

  /** Every entry's status is the classification of its own dates at `now`. */
  lemma StatusRule(p: PropertyRecord, ruleSet: RuleSet, now: int, j: nat)
    requires Covers(p, ruleSet) && j < |Catalog|
    ensures var e := TimelineOf(p, ruleSet, now).stages[j];
      && (e.status == Complete <==> e.actualEnd.Some? && e.actualEnd.value <= e.plannedEnd)
      && (e.status == Delayed <==>
            || (e.actualEnd.Some? && e.actualEnd.value > e.plannedEnd)
            || (e.actualEnd.None? && e.forecastStart > e.plannedEnd &&
                (e.actualStart.Some? || now <= StartOfDayMs(e.plannedEnd))))
      && (e.status == Overdue <==>
            e.actualEnd.None? && now > StartOfDayMs(e.plannedEnd) &&
            (e.actualStart.None? || e.forecastStart <= e.plannedEnd))
      && (e.status == InProgress <==>
            e.actualEnd.None? && e.actualStart.Some? && e.forecastStart <= e.plannedEnd &&
            now <= StartOfDayMs(e.plannedEnd))
      && (e.status == Planned <==>
            e.actualEnd.None? && e.actualStart.None? && e.forecastStart <= e.plannedEnd &&
            now <= StartOfDayMs(e.plannedEnd))
  {
    EntryAt(p, ruleSet, now, j);
  }

  /**
   * A property whose recorded entries carry no dates follows its plan: forecast equals plan,
   * no delay, and each stage is planned until its planned end has passed, overdue after.
   */
  lemma {:induction false} NoActualsFollowsPlan(p: PropertyRecord, ruleSet: RuleSet, now: int, j: nat)
    requires Covers(p, ruleSet) && j < |Catalog|
    requires forall a :: a in p.stageActuals ==> a.actualStart.None? && a.actualEnd.None?
    ensures var e := TimelineOf(p, ruleSet, now).stages[j];
      && e.forecastStart == e.plannedStart
      && e.forecastEnd == e.plannedEnd
      && e.delayDays == 0
      && (e.status == Planned <==> now <= StartOfDayMs(e.plannedEnd))
      && (e.status == Overdue <==> now > StartOfDayMs(e.plannedEnd))
  {
    EntryAt(p, ruleSet, now, j);
    var s := TimelineOf(p, ruleSet, now).stages;
    if j > 0 {
      NoActualsFollowsPlan(p, ruleSet, now, j - 1);
      PlannedContiguous(p, ruleSet, now, j);
    }
    var actual := FindActual(p.stageActuals, Catalog[j].key);
    assert actual.Some? ==> actual.value in p.stageActuals;
  }

  /** Sum of delays is zero exactly when every stage is on time, and bounds every single delay. */
  lemma {:induction false} SumDelaysFacts(stages: seq<StageTimelineEntry>)
    ensures SumDelays(stages) == 0 <==> forall i :: 0 <= i < |stages| ==> stages[i].delayDays == 0
    ensures forall i :: 0 <= i < |stages| ==> stages[i].delayDays <= SumDelays(stages)
  {
    if stages != [] {
      SumDelaysFacts(stages[1..]);
      assert forall i :: 1 <= i < |stages| ==> stages[i] == stages[1..][i - 1];
    }
  }

  /** No stage is delayed or overdue exactly when the late count is zero. */
  lemma {:induction false} CountLateZero(stages: seq<StageTimelineEntry>)
    ensures CountLate(stages) == 0 <==> forall i :: 0 <= i < |stages| ==> !IsLate(stages[i].status)
  {
    if stages != [] {
      CountLateZero(stages[1..]);
      assert forall i :: 1 <= i < |stages| ==> stages[i] == stages[1..][i - 1];
    }
  }

  /** The roll-up: go-live dates from the last stage, the delay total, the risk bucket. */
  lemma SummaryRules(p: PropertyRecord, ruleSet: RuleSet, now: int)
    requires Covers(p, ruleSet)
    ensures var view := TimelineOf(p, ruleSet, now);
      && view.forecastGoLive == view.stages[|view.stages| - 1].forecastEnd
      && (view.totalDelayDays == 0 <==> forall i :: 0 <= i < |view.stages| ==> view.stages[i].delayDays == 0)
      && (forall i :: 0 <= i < |view.stages| ==> view.stages[i].delayDays <= view.totalDelayDays)
      && (view.statusSummary == OnTrack <==> forall i :: 0 <= i < |view.stages| ==> !IsLate(view.stages[i].status))
      && (view.statusSummary == HighRisk <==> CountLate(view.stages) >= 3)
      && (view.statusSummary.Text() == "On track" <==> view.statusSummary == OnTrack)
  {
    var view := TimelineOf(p, ruleSet, now);
    SumDelaysFacts(view.stages);
    CountLateZero(view.stages);
  }

  /**
   * With no dated actuals the forecast go-live is the planned one, the delay total is zero,
   * and the property is on track exactly while the first stage's planned end has not passed.
   */
  lemma NoActualsSummary(p: PropertyRecord, ruleSet: RuleSet, now: int)
    requires Covers(p, ruleSet)
    requires forall a :: a in p.stageActuals ==> a.actualStart.None? && a.actualEnd.None?
    ensures var view := TimelineOf(p, ruleSet, now);
      && view.forecastGoLive == view.plannedGoLive
      && view.totalDelayDays == 0
      && (view.statusSummary == OnTrack <==> now <= StartOfDayMs(view.stages[0].plannedEnd))
  {
    var view := TimelineOf(p, ruleSet, now);
    var s := view.stages;
    forall i | 0 <= i < |s|
      ensures s[i].delayDays == 0
      ensures now <= StartOfDayMs(s[0].plannedEnd) ==> !IsLate(s[i].status)
    {
      NoActualsStage(p, ruleSet, now, i);
    }
    NoActualsFollowsPlan(p, ruleSet, now, 0);
    NoActualsFollowsPlan(p, ruleSet, now, |Catalog| - 1);
    SumDelaysFacts(s);
    CountLateZero(s);
  }

  /** With no dated actuals a stage has no delay, and is not late while the first planned end has not passed. */
  lemma NoActualsStage(p: PropertyRecord, ruleSet: RuleSet, now: int, i: nat)
    requires Covers(p, ruleSet) && i < |Catalog|
    requires forall a :: a in p.stageActuals ==> a.actualStart.None? && a.actualEnd.None?
    ensures var s := TimelineOf(p, ruleSet, now).stages;
      && s[i].delayDays == 0
      && (now <= StartOfDayMs(s[0].plannedEnd) ==> !IsLate(s[i].status))
  {
    var s := TimelineOf(p, ruleSet, now).stages;
    NoActualsFollowsPlan(p, ruleSet, now, i);
    PlannedClosedForm(p, ruleSet, now, 0);
    PlannedClosedForm(p, ruleSet, now, i);
    PlannedOffsetMonotone(p, ruleSet, 1, i + 1);
    StartOfDayMonotone(s[0].plannedEnd, s[i].plannedEnd);
  }

  lemma StartOfDayMonotone(a: Day, b: Day)
    requires a <= b
    ensures StartOfDayMs(a) <= StartOfDayMs(b)
  {
  }

  /** A stage whose recorded end is on or before its planned end is complete. */
  lemma FinishedOnTimeIsComplete(p: PropertyRecord, ruleSet: RuleSet, now: int, j: nat)
    requires Covers(p, ruleSet) && j < |Catalog|
    ensures var e := TimelineOf(p, ruleSet, now).stages[j];
      e.actualEnd.Some? && e.actualEnd.value <= e.plannedEnd ==> e.status == Complete
  {
    StatusRule(p, ruleSet, now, j);
  }

  // Worked scenarios. Day numbers count from 1970-01-01: 2025-01-01 is day 20089,
  // 2025-01-06 day 20094, 2025-02-03 day 20122, 2025-02-10 day 20129, 2025-03-01 day 20148.

  /** Anchor 2025-01-06, four weeks of group closing and nothing recorded for it. */
  predicate FirstStageScenario(p: PropertyRecord, ruleSet: RuleSet) {
    && Covers(p, ruleSet)
    && p.groupClosingDate == 20094
    && SalesToCloseGroup !in p.customDurations
    && ruleSet.durationsWeeks[SalesToCloseGroup] == 4
    && forall a :: a in p.stageActuals ==> a.stage != SalesToCloseGroup
  }

  /** The first stage runs 2025-01-06 to 2025-02-03: planned on 2025-01-01, overdue on 2025-03-01. */
  lemma FirstStageScenarioDates(p: PropertyRecord, ruleSet: RuleSet, now: int)
    requires FirstStageScenario(p, ruleSet)
    ensures var e := TimelineOf(p, ruleSet, now).stages[0];
      && e.plannedStart == 20094
      && e.plannedEnd == 20122
      && (now == StartOfDayMs(20089) ==> e.status == Planned)
      && (now == StartOfDayMs(20148) ==> e.status == Overdue)
  {
    EntryAt(p, ruleSet, now, 0);
  }

  /**
   * Same anchor and first stage, whose first recorded entry ends on 2025-02-10 without a start;
   * three weeks of legal onboarding with nothing recorded.
   */
  predicate LateCloseScenario(p: PropertyRecord, ruleSet: RuleSet) {
    && Covers(p, ruleSet)
    && p.groupClosingDate == 20094
    && SalesToCloseGroup !in p.customDurations
    && ruleSet.durationsWeeks[SalesToCloseGroup] == 4
    && |p.stageActuals| > 0
    && p.stageActuals[0].stage == SalesToCloseGroup
    && p.stageActuals[0].actualStart == None
    && p.stageActuals[0].actualEnd == Some(20129)
    && forall a :: a in p.stageActuals ==> a.stage != LegalOnboarding
  }

  /** The late close makes the first stage delayed, and the next stage's forecast starts on 2025-02-10. */
  lemma LateCloseScenarioForecast(p: PropertyRecord, ruleSet: RuleSet, now: int)
    requires LateCloseScenario(p, ruleSet)
    ensures var s := TimelineOf(p, ruleSet, now).stages;
      && s[0].status == Delayed
      && s[1].plannedStart == 20122
      && s[1].forecastStart == 20129
      && s[1].delayDays == 7
  {
    EntryAt(p, ruleSet, now, 0);
    EntryAt(p, ruleSet, now, 1);
    FindActualIsFirst(p.stageActuals, SalesToCloseGroup, 0);
  }
}
