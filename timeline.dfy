/**
 * The timeline derivation engine: the fixed stage catalog, the rule-set lookup and the
 * single pass over the catalog that produces the planned, forecast and actual dates,
 * the status and the delay of every stage, and the property's risk summary.
 */
module Timeline {
  import opened Wrappers
  import opened Types

  /** The seven stages, in pipeline order. */
  const Catalog: seq<StageDefinition> := [
    StageDefinition(SalesToCloseGroup, "Group Closing", Finance),
    StageDefinition(LegalOnboarding, "Legal Onboarding", Legal),
    StageDefinition(FindProperties, "Acquisition", Operations),
    StageDefinition(Renovation, "Renovation", Operations),
    StageDefinition(DesignInstall, "Design & Install", HomeExperience),
    StageDefinition(OnboardingHome, "Onboarding", PM),
    StageDefinition(GoLive, "Go Live", Marketing)
  ]

  /** The catalog position of a stage: every key occurs in the catalog, exactly once. */
  function IndexOf(key: StageKey): (i: nat)
    ensures i < |Catalog| && Catalog[i].key == key
    ensures forall j :: 0 <= j < |Catalog| && Catalog[j].key == key ==> j == i
  {
    match key
    case SalesToCloseGroup => 0
    case LegalOnboarding => 1
    case FindProperties => 2
    case Renovation => 3
    case DesignInstall => 4
    case OnboardingHome => 5
    case GoLive => 6
  }

  /** The first definition in `defs` with the given key (`Array.prototype.find`). */
  function FindDefinition(defs: seq<StageDefinition>, key: StageKey): (r: Option<StageDefinition>)
    ensures r.Some? ==> r.value in defs && r.value.key == key
    ensures r.None? ==> forall d :: d in defs ==> d.key != key
  {
    if defs == [] then None
    else if defs[0].key == key then Some(defs[0])
    else FindDefinition(defs[1..], key)
  }

  /** The catalog entry of a stage; the "unknown stage" failure cannot arise for a valid key. */
  function GetStageDefinition(key: StageKey): (d: StageDefinition)
    ensures d in Catalog && d.key == key
    ensures d == Catalog[IndexOf(key)]
  {
    var found := FindDefinition(Catalog, key);
    assert Catalog[IndexOf(key)] in Catalog;
    found.value
  }

  function Max(a: int, b: int): int {
    if a >= b then a else b
  }

  /** Epoch milliseconds of midnight (UTC) at the start of a day. */
  function StartOfDayMs(d: Day): int {
    d * 86_400_000
  }

  /**
   * The status of one stage, from what was recorded, the planned end, the forecast start
   * and the clock (`now`, in epoch milliseconds; a date is midnight of its day).
   */
  function ResolveStatus(actualStart: Option<Day>, actualEnd: Option<Day>, plannedEnd: Day,
                         forecastStart: Day, now: int): (s: StageStatus)
    ensures s == Complete <==> actualEnd.Some? && actualEnd.value <= plannedEnd
    ensures s == Delayed <==>
      || (actualEnd.Some? && actualEnd.value > plannedEnd)
      || (actualEnd.None? && forecastStart > plannedEnd && (actualStart.Some? || now <= StartOfDayMs(plannedEnd)))
    ensures s == Overdue <==>
      actualEnd.None? && now > StartOfDayMs(plannedEnd) && (actualStart.None? || forecastStart <= plannedEnd)
    ensures s == InProgress <==>
      actualEnd.None? && actualStart.Some? && forecastStart <= plannedEnd && now <= StartOfDayMs(plannedEnd)
    ensures s == Planned <==>
      actualEnd.None? && actualStart.None? && forecastStart <= plannedEnd && now <= StartOfDayMs(plannedEnd)
  {
    if actualEnd.Some? then
      (if actualEnd.value > plannedEnd then Delayed else Complete)
    else if actualStart.Some? then
      (if forecastStart > plannedEnd then Delayed
       else if now > StartOfDayMs(plannedEnd) then Overdue
       else InProgress)
    else if now > StartOfDayMs(plannedEnd) then Overdue
    else if forecastStart > plannedEnd then Delayed
    else Planned
  }

  /** The recorded entry for a stage (`Array.prototype.find`: the first one wins, see FindActualIsFirst). */
  function FindActual(stageActuals: seq<StageActual>, stage: StageKey): (r: Option<StageActual>)
    ensures r.Some? ==> r.value in stageActuals && r.value.stage == stage
    ensures r.None? ==> forall a :: a in stageActuals ==> a.stage != stage
  {
    if stageActuals == [] then None
    else if stageActuals[0].stage == stage then Some(stageActuals[0])
    else FindActual(stageActuals[1..], stage)
  }

  /** The entry found is the first one recorded for the stage. */
  lemma {:induction false} FindActualIsFirst(stageActuals: seq<StageActual>, stage: StageKey, i: nat)
    requires i < |stageActuals| && stageActuals[i].stage == stage
    requires forall j :: 0 <= j < i ==> stageActuals[j].stage != stage
    ensures FindActual(stageActuals, stage) == Some(stageActuals[i])
  {
    if i > 0 {
      FindActualIsFirst(stageActuals[1..], stage, i - 1);
    }
  }

  /** The recorded actual start of a stage, if any. */
  function RecordedStart(stageActuals: seq<StageActual>, stage: StageKey): Option<Day> {
    var actual := FindActual(stageActuals, stage);
    if actual.Some? then actual.value.actualStart else None
  }

  /** The recorded actual end of a stage, if any. */
  function RecordedEnd(stageActuals: seq<StageActual>, stage: StageKey): Option<Day> {
    var actual := FindActual(stageActuals, stage);
    if actual.Some? then actual.value.actualEnd else None
  }

  /** A property and a rule set together give a duration for every stage. */
  predicate Covers(p: PropertyRecord, ruleSet: RuleSet) {
    forall k: StageKey :: k in p.customDurations || k in ruleSet.durationsWeeks
  }

  /** The stage's duration in weeks: the property's override, else the rule set's default. */
  function EffectiveWeeks(p: PropertyRecord, ruleSet: RuleSet, key: StageKey): nat
    requires key in p.customDurations || key in ruleSet.durationsWeeks
  {
    if key in p.customDurations then p.customDurations[key] else ruleSet.durationsWeeks[key]
  }

  /** A stage lasts seven days per week and never less than one day. */
  function DurationDays(weeks: nat): (days: nat)
    ensures days >= 1
    ensures weeks > 0 ==> days == 7 * weeks
  {
    Max(1, weeks * 7)
  }

  /** One pass of the builder's loop: the entry for `def` given the two cursors. */
  function ResolveStage(p: PropertyRecord, ruleSet: RuleSet, now: int, def: StageDefinition,
                        plannedCursor: Day, forecastCursor: Day): StageTimelineEntry
    requires Covers(p, ruleSet)
  {
    var durationWeeks := EffectiveWeeks(p, ruleSet, def.key);
    var durationDays := DurationDays(durationWeeks);
    var plannedStart := plannedCursor;
    var plannedEnd := plannedStart + durationDays;
    var actual := FindActual(p.stageActuals, def.key);
    var actualStart := if actual.Some? then actual.value.actualStart else None;
    var actualEnd := if actual.Some? then actual.value.actualEnd else None;
    var forecastStart := if actualStart.Some? then actualStart.value else Max(forecastCursor, plannedStart);
    var forecastEnd := if actualEnd.Some? then actualEnd.value else forecastStart + durationDays;
    var status := ResolveStatus(actualStart, actualEnd, plannedEnd, forecastStart, now);
    var delayDays := Max(0, forecastStart - plannedStart);
    StageTimelineEntry(def.key, def.labelText, def.owner, plannedStart, plannedEnd, forecastStart,
                       forecastEnd, actualStart, actualEnd, durationWeeks, status, delayDays,
                       if actual.Some? then actual.value.notes else None)
  }

  /** The entries for catalog stages `i..`, starting from the given cursors. */
  function StagesFrom(p: PropertyRecord, ruleSet: RuleSet, now: int, i: nat,
                      plannedCursor: Day, forecastCursor: Day): (stages: seq<StageTimelineEntry>)
    requires Covers(p, ruleSet) && i <= |Catalog|
    ensures |stages| == |Catalog| - i
    decreases |Catalog| - i
  {
    if i == |Catalog| then []
    else
      var entry := ResolveStage(p, ruleSet, now, Catalog[i], plannedCursor, forecastCursor);
      [entry] + StagesFrom(p, ruleSet, now, i + 1, entry.plannedEnd, entry.forecastEnd)
  }

  /** The planned cursor when stage `j` of `stages` is reached: the anchor date, then the previous planned end. */
  function PlannedCursorAt(p: PropertyRecord, stages: seq<StageTimelineEntry>, j: nat): Day
    requires j <= |stages|
  {
    if j == 0 then p.groupClosingDate else stages[j - 1].plannedEnd
  }

  /** The forecast cursor when stage `j` of `stages` is reached: the anchor date, then the previous forecast end. */
  function ForecastCursorAt(p: PropertyRecord, stages: seq<StageTimelineEntry>, j: nat): Day
    requires j <= |stages|
  {
    if j == 0 then p.groupClosingDate else stages[j - 1].forecastEnd
  }

  /** What the rules make of catalog stage `j`, given the entries before it. */
  function StageRule(p: PropertyRecord, ruleSet: RuleSet, now: int, stages: seq<StageTimelineEntry>, j: nat)
    : StageTimelineEntry
    requires Covers(p, ruleSet) && j < |Catalog| && j <= |stages|
  {
    ResolveStage(p, ruleSet, now, Catalog[j], PlannedCursorAt(p, stages, j), ForecastCursorAt(p, stages, j))
  }

  /**
   * The stage rules, stated entry by entry: one entry per catalog stage, each one what
   * the rules make of its stage from the cursors left by the entry before it.
   */
  ghost predicate FollowsStageRules(p: PropertyRecord, ruleSet: RuleSet, now: int, stages: seq<StageTimelineEntry>)
    requires Covers(p, ruleSet)
  {
    && |stages| == |Catalog|
    && forall j {:trigger StageRule(p, ruleSet, now, stages, j)} ::
         0 <= j < |stages| ==> stages[j] == StageRule(p, ruleSet, now, stages, j)
  }

  /** Entry `j` of the fold from stage `i` is what the rules make of stage `i + j`. */
  lemma {:induction false} StagesFromFollowRules(p: PropertyRecord, ruleSet: RuleSet, now: int, i: nat,
                                                  plannedCursor: Day, forecastCursor: Day, j: nat)
    requires Covers(p, ruleSet) && i + j < |Catalog|
    ensures var s := StagesFrom(p, ruleSet, now, i, plannedCursor, forecastCursor);
      s[j] == ResolveStage(p, ruleSet, now, Catalog[i + j],
                           if j == 0 then plannedCursor else s[j - 1].plannedEnd,
                           if j == 0 then forecastCursor else s[j - 1].forecastEnd)
    decreases j
  {
    if j > 0 {
      var entry := ResolveStage(p, ruleSet, now, Catalog[i], plannedCursor, forecastCursor);
      StagesFromFollowRules(p, ruleSet, now, i + 1, entry.plannedEnd, entry.forecastEnd, j - 1);
    }
  }

  /** The built timeline's stage list follows the stage rules. */
  lemma TimelineFollowsStageRules(p: PropertyRecord, ruleSet: RuleSet, now: int)
    requires Covers(p, ruleSet)
    ensures FollowsStageRules(p, ruleSet, now, TimelineOf(p, ruleSet, now).stages)
  {
    var built := StagesFrom(p, ruleSet, now, 0, p.groupClosingDate, p.groupClosingDate);
    forall j | 0 <= j < |built|
      ensures built[j] == StageRule(p, ruleSet, now, built, j)
    {
      StagesFromFollowRules(p, ruleSet, now, 0, p.groupClosingDate, p.groupClosingDate, j);
    }
  }

  /** The stage rules hold of a sequence exactly when it is the built timeline's stage list. */
  lemma StageRulesDetermineStages(p: PropertyRecord, ruleSet: RuleSet, now: int, stages: seq<StageTimelineEntry>)
    requires Covers(p, ruleSet)
    ensures FollowsStageRules(p, ruleSet, now, stages) <==> stages == TimelineOf(p, ruleSet, now).stages
  {
    var built := TimelineOf(p, ruleSet, now).stages;
    TimelineFollowsStageRules(p, ruleSet, now);
    if FollowsStageRules(p, ruleSet, now, stages) {
      StageRulesAgree(p, ruleSet, now, stages, built, |Catalog|);
      assert stages == stages[..|Catalog|] == built[..|Catalog|] == built;
    }
  }

  /** Two sequences that follow the stage rules agree on every prefix. */
  lemma {:induction false} StageRulesAgree(p: PropertyRecord, ruleSet: RuleSet, now: int,
                                           s: seq<StageTimelineEntry>, t: seq<StageTimelineEntry>, n: nat)
    requires Covers(p, ruleSet)
    requires FollowsStageRules(p, ruleSet, now, s) && FollowsStageRules(p, ruleSet, now, t)
    requires n <= |Catalog|
    ensures s[..n] == t[..n]
  {
    if n > 0 {
      StageRulesAgree(p, ruleSet, now, s, t, n - 1);
      assert n >= 2 ==> s[n - 2] == s[..n - 1][n - 2] == t[..n - 1][n - 2] == t[n - 2];
      assert s[n - 1] == StageRule(p, ruleSet, now, s, n - 1) == StageRule(p, ruleSet, now, t, n - 1) == t[n - 1];
      assert s[..n] == s[..n - 1] + [s[n - 1]];
      assert t[..n] == t[..n - 1] + [t[n - 1]];
    }
  }

  /** Sum of the per-stage delays. */
  function SumDelays(stages: seq<StageTimelineEntry>): nat {
    if stages == [] then 0 else stages[0].delayDays + SumDelays(stages[1..])
  }

  /** A stage counts against the property when it is delayed or overdue. */
  predicate IsLate(status: StageStatus) {
    status == Delayed || status == Overdue
  }

  /** Number of delayed or overdue stages. */
  function CountLate(stages: seq<StageTimelineEntry>): (n: nat)
    ensures n <= |stages|
  {
    if stages == [] then 0 else (if IsLate(stages[0].status) then 1 else 0) + CountLate(stages[1..])
  }

  /** Risk bucket from the number of late stages: none, one or two, three or more. */
  function Summarize(lateStages: nat): RiskSummary {
    if lateStages == 0 then OnTrack else if lateStages <= 2 then MinorDelays else HighRisk
  }

  /** The resolved timeline of a property (the value `BuildTimeline` computes). */
  function TimelineOf(p: PropertyRecord, ruleSet: RuleSet, now: int): PropertyTimelineView
    requires Covers(p, ruleSet)
  {
    var stages := StagesFrom(p, ruleSet, now, 0, p.groupClosingDate, p.groupClosingDate);
    var plannedGoLive := if |stages| > 0 then stages[|stages| - 1].plannedEnd else p.groupClosingDate;
    var forecastGoLive := if |stages| > 0 then stages[|stages| - 1].forecastEnd else plannedGoLive;
    PropertyTimelineView(p, ruleSet, stages, plannedGoLive, forecastGoLive,
                         SumDelays(stages), Summarize(CountLate(stages)))
  }

  /** Appending the entry the rules make of the next stage keeps a prefix that follows the rules. */
  lemma RulesExtend(p: PropertyRecord, ruleSet: RuleSet, now: int, stages: seq<StageTimelineEntry>,
                    entry: StageTimelineEntry)
    requires Covers(p, ruleSet) && |stages| < |Catalog|
    requires forall j {:trigger StageRule(p, ruleSet, now, stages, j)} ::
               0 <= j < |stages| ==> stages[j] == StageRule(p, ruleSet, now, stages, j)
    requires entry == StageRule(p, ruleSet, now, stages, |stages|)
    ensures var ext := stages + [entry];
      forall j {:trigger StageRule(p, ruleSet, now, ext, j)} ::
        0 <= j < |ext| ==> ext[j] == StageRule(p, ruleSet, now, ext, j)
  {
    var ext := stages + [entry];
    forall j | 0 <= j < |ext|
      ensures ext[j] == StageRule(p, ruleSet, now, ext, j)
    {
      assert PlannedCursorAt(p, ext, j) == PlannedCursorAt(p, stages, j);
      assert ForecastCursorAt(p, ext, j) == ForecastCursorAt(p, stages, j);
      if j < |stages| {
        assert ext[j] == stages[j] == StageRule(p, ruleSet, now, stages, j);
      }
    }
  }

  /** Walks the catalog once, carrying a planned cursor and a forecast cursor. */
  method BuildTimeline(p: PropertyRecord, ruleSet: RuleSet, now: int) returns (view: PropertyTimelineView)
    requires Covers(p, ruleSet)
    ensures view == TimelineOf(p, ruleSet, now)
  {
    var stageActuals := p.stageActuals;
    var plannedStages: seq<StageTimelineEntry> := [];
    var plannedCursor := p.groupClosingDate;
    var forecastCursor := p.groupClosingDate;
    for i := 0 to |Catalog|
      invariant |plannedStages| == i
      invariant forall j {:trigger StageRule(p, ruleSet, now, plannedStages, j)} ::
        0 <= j < i ==> plannedStages[j] == StageRule(p, ruleSet, now, plannedStages, j)
      invariant plannedCursor == PlannedCursorAt(p, plannedStages, i)
      invariant forecastCursor == ForecastCursorAt(p, plannedStages, i)
    {
      var definition := Catalog[i];
      var durationWeeks := EffectiveWeeks(p, ruleSet, definition.key);
      var durationDays := DurationDays(durationWeeks);
      var plannedStart := plannedCursor;
      var plannedEnd := plannedStart + durationDays;

      var actual := FindActual(stageActuals, definition.key);
      var actualStart := if actual.Some? then actual.value.actualStart else None;
      var actualEnd := if actual.Some? then actual.value.actualEnd else None;

      var forecastStart := if actualStart.Some? then actualStart.value else Max(forecastCursor, plannedStart);
      var forecastEnd := if actualEnd.Some? then actualEnd.value else forecastStart + durationDays;

      var status := ResolveStatus(actualStart, actualEnd, plannedEnd, forecastStart, now);
      var delayDays: nat := Max(0, forecastStart - plannedStart);

      var entry := StageTimelineEntry(
        definition.key, definition.labelText, definition.owner, plannedStart, plannedEnd,
        forecastStart, forecastEnd, actualStart, actualEnd, durationWeeks, status, delayDays,
        if actual.Some? then actual.value.notes else None);
      assert entry == StageRule(p, ruleSet, now, plannedStages, i);
      RulesExtend(p, ruleSet, now, plannedStages, entry);
      plannedStages := plannedStages + [entry];

      plannedCursor := plannedEnd;
      forecastCursor := forecastEnd;
    }
    StageRulesDetermineStages(p, ruleSet, now, plannedStages);

    var plannedGoLive := if |plannedStages| > 0 then plannedStages[|plannedStages| - 1].plannedEnd
                         else p.groupClosingDate;
    var forecastGoLive := if |plannedStages| > 0 then plannedStages[|plannedStages| - 1].forecastEnd
                          else plannedGoLive;
    var totalDelayDays := SumDelays(plannedStages);
    var delayedStages := CountLate(plannedStages);
    view := PropertyTimelineView(p, ruleSet, plannedStages, plannedGoLive, forecastGoLive,
                                 totalDelayDays, Summarize(delayedStages));
  }

  /** The first rule set matching both collection type and region, if any. */
  function FirstMatchingRuleSet(rules: seq<RuleSet>, collectionType: string, region: string): (r: Option<RuleSet>)
    ensures r.Some? ==> r.value in rules && r.value.collectionType == collectionType && r.value.region == region
    ensures r.None? ==> forall rule :: rule in rules ==> !(rule.collectionType == collectionType && rule.region == region)
  {
    if rules == [] then None
    else if rules[0].collectionType == collectionType && rules[0].region == region then Some(rules[0])
    else FirstMatchingRuleSet(rules[1..], collectionType, region)
  }

  /** Among several matching rule sets, the first one wins. */
  lemma {:induction false} FirstMatchingRuleSetIsFirst(rules: seq<RuleSet>, collectionType: string, region: string, i: nat)
    requires i < |rules| && rules[i].collectionType == collectionType && rules[i].region == region
    requires forall j :: 0 <= j < i ==> !(rules[j].collectionType == collectionType && rules[j].region == region)
    ensures FirstMatchingRuleSet(rules, collectionType, region) == Some(rules[i])
  {
    if i > 0 {
      FirstMatchingRuleSetIsFirst(rules[1..], collectionType, region, i - 1);
    }
  }

  /**
   * The rule set that applies to a (collection type, region) pair: the first exact match,
   * otherwise the first rule set; absent only when there are no rule sets.
   */
  function SelectRuleSet(rules: seq<RuleSet>, collectionType: string, region: string): (r: Option<RuleSet>)
    ensures r.None? <==> |rules| == 0
    ensures r.Some? ==> r.value in rules
    ensures (exists rule :: rule in rules && rule.collectionType == collectionType && rule.region == region)
            ==> r.Some? && r.value.collectionType == collectionType && r.value.region == region
    ensures |rules| > 0 &&
            (forall rule :: rule in rules ==> !(rule.collectionType == collectionType && rule.region == region))
            ==> r == Some(rules[0])
  {
    var found := FirstMatchingRuleSet(rules, collectionType, region);
    if found.Some? then found else if |rules| > 0 then Some(rules[0]) else None
  }

  /** A property can be built against `rules`: some rule set applies and, with the overrides, covers every stage. */
  predicate Resolvable(p: PropertyRecord, rules: seq<RuleSet>) {
    var rule := SelectRuleSet(rules, p.collectionType, p.region);
    rule.Some? && Covers(p, rule.value)
  }

  /** One timeline per property, in order, each built against the rule set that applies to it. */
  function BuildTimelineCollection(properties: seq<PropertyRecord>, rules: seq<RuleSet>, now: int)
    : (views: seq<PropertyTimelineView>)
    requires forall i :: 0 <= i < |properties| ==> Resolvable(properties[i], rules)
    ensures |views| == |properties|
    ensures forall i :: 0 <= i < |views| ==>
      views[i].property == properties[i] &&
      Some(views[i].ruleSet) == SelectRuleSet(rules, properties[i].collectionType, properties[i].region)
    ensures forall i :: 0 <= i < |views| ==>
      Covers(properties[i], views[i].ruleSet) && views[i] == TimelineOf(properties[i], views[i].ruleSet, now)
    ensures forall i :: 0 <= i < |views| ==> |views[i].stages| == |Catalog|
  {
    seq(|properties|, i requires 0 <= i < |properties| && Resolvable(properties[i], rules) =>
      TimelineOf(properties[i], SelectRuleSet(rules, properties[i].collectionType, properties[i].region).value, now))
  }
}
