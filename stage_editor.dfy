/**
 * The stage editor form: its initial rows, the automatic end date, the edit and copy
 * actions, and the batch of per-stage updates it submits.
 *
 * The form holds text. Turning text into a day and a day into text is passed in as `parse`
 * (a `YYYY-MM-DD` string to the day it names, if any) and `format` (a day to its
 * `YYYY-MM-DD` string).
 */
module StageEditor {
  import opened Wrappers
  import opened Types
  import opened Timeline
  import opened Text
  import opened TimelineProperties

  /** The two text inputs of one stage. */
  datatype FormEntry = FormEntry(actualStart: string, actualEnd: string)

  type FormState = map<StageKey, FormEntry>

  datatype Field = ActualStartField | ActualEndField

  /** Every stage has a row. */
  predicate HasEveryStage(state: FormState) {
    forall k: StageKey :: k in state
  }

  /** The form with an empty row for every catalog stage. */
  method BuildEmptyState() returns (state: FormState)
    ensures forall k: StageKey :: k in state && state[k] == FormEntry("", "")
    ensures state.Keys == AllStages
  {
    state := map[];
    for i := 0 to |Catalog|
      invariant forall k: StageKey :: k in state <==> IndexOf(k) < i
      invariant forall k :: k in state ==> state[k] == FormEntry("", "")
    {
      state := state[Catalog[i].key := FormEntry("", "")];
    }
  }

  /** The text of an optional date: its formatted form, or empty. */
  function DateText(d: Option<Day>, format: Day -> string): string {
    if d.Some? then format(d.value) else ""
  }

  /** The row a stage gets from a list of entries: from the last entry for it, else empty. */
  function RowFor(stages: seq<StageTimelineEntry>, key: StageKey, format: Day -> string): FormEntry {
    if stages == [] then FormEntry("", "")
    else
      var last := stages[|stages| - 1];
      if last.key == key then FormEntry(DateText(last.actualStart, format), DateText(last.actualEnd, format))
      else RowFor(stages[..|stages| - 1], key, format)
  }

  /** The form loaded from a timeline: each stage's recorded dates, empty where there are none. */
  function InitialState(timeline: Option<PropertyTimelineView>, format: Day -> string): FormState {
    map k | k in AllStages :: if timeline.None? then FormEntry("", "") else RowFor(timeline.value.stages, k, format)
  }

  /** Starts from the empty form and overwrites the row of every stage the timeline lists. */
  method DeriveInitialState(timeline: Option<PropertyTimelineView>, format: Day -> string)
    returns (state: FormState)
    ensures state == InitialState(timeline, format)
  {
    var base := BuildEmptyState();
    if timeline.None? {
      return base;
    }
    var stages := timeline.value.stages;
    for i := 0 to |stages|
      invariant base.Keys == AllStages
      invariant forall k :: k in base ==> base[k] == RowFor(stages[..i], k, format)
    {
      var stage := stages[i];
      assert stages[..i + 1][..i] == stages[..i];
      base := base[stage.key := FormEntry(DateText(stage.actualStart, format), DateText(stage.actualEnd, format))];
    }
    assert stages[..|stages|] == stages;
    state := base;
  }

  /** A stage's row comes from its last entry in the list. */
  lemma {:induction false} RowForLast(stages: seq<StageTimelineEntry>, key: StageKey, format: Day -> string, i: nat)
    requires i < |stages| && stages[i].key == key
    requires forall j :: i < j < |stages| ==> stages[j].key != key
    ensures RowFor(stages, key, format) == FormEntry(DateText(stages[i].actualStart, format), DateText(stages[i].actualEnd, format))
  {
    if i < |stages| - 1 {
      RowForLast(stages[..|stages| - 1], key, format, i);
    }
  }

  /** The entries name the catalog stages, one each, in catalog order. */
  predicate ListsCatalog(stages: seq<StageTimelineEntry>) {
    |stages| == |Catalog| && forall i :: 0 <= i < |stages| ==> stages[i].key == Catalog[i].key
  }

  /** Every timeline the builder produces lists the catalog. */
  lemma BuiltTimelineListsCatalog(p: PropertyRecord, ruleSet: RuleSet, now: int)
    requires Covers(p, ruleSet)
    ensures ListsCatalog(TimelineOf(p, ruleSet, now).stages)
  {
    forall i | 0 <= i < |Catalog|
      ensures TimelineOf(p, ruleSet, now).stages[i].key == Catalog[i].key
    {
      StagesInCatalogOrder(p, ruleSet, now, i);
    }
  }

  /** Loading a timeline that lists the catalog gives each stage the text of its own actual dates. */
  lemma InitialStateRow(view: PropertyTimelineView, format: Day -> string, j: nat)
    requires ListsCatalog(view.stages) && j < |Catalog|
    ensures var row := InitialState(Some(view), format)[Catalog[j].key];
      row == FormEntry(DateText(view.stages[j].actualStart, format), DateText(view.stages[j].actualEnd, format))
  {
    AllStagesComplete();
    forall i | j < i < |view.stages|
      ensures view.stages[i].key != Catalog[j].key
    {
      assert IndexOf(Catalog[i].key) == i;
    }
    RowForLast(view.stages, Catalog[j].key, format, j);
  }

  /** The first entry of the list for a stage (`Array.prototype.find`). */
  function FindStage(stages: seq<StageTimelineEntry>, key: StageKey): (r: Option<StageTimelineEntry>)
    ensures r.Some? ==> r.value in stages && r.value.key == key
    ensures r.None? ==> forall e :: e in stages ==> e.key != key
  {
    if stages == [] then None
    else if stages[0].key == key then Some(stages[0])
    else FindStage(stages[1..], key)
  }

  /** The day a date input names: none when the input is empty or not a date. */
  function ToStartOfDay(value: string, parse: string -> Option<Day>): (r: Option<Day>)
    ensures value == "" ==> r.None?
    ensures value != "" ==> r == parse(value)
  {
    if value == "" then None else parse(value)
  }

  /**
   * The end date filled in when a start is typed: the start plus the stage's duration in
   * days (at least one); nothing without a timeline, without the stage, or without a date.
   */
  function DeriveAutoEndDate(timeline: Option<PropertyTimelineView>, stageKey: StageKey, startValue: string,
                             parse: string -> Option<Day>, format: Day -> string): (r: Option<string>)
    ensures r.Some? <==>
      && timeline.Some?
      && FindStage(timeline.value.stages, stageKey).Some?
      && ToStartOfDay(startValue, parse).Some?
    ensures r.Some? ==>
      var weeks := FindStage(timeline.value.stages, stageKey).value.durationWeeks;
      r.value == format(ToStartOfDay(startValue, parse).value + DurationDays(weeks))
  {
    if timeline.None? then None
    else
      var stageDetail := FindStage(timeline.value.stages, stageKey);
      if stageDetail.None? then None
      else
        var durationDays := Max(1, stageDetail.value.durationWeeks * 7);
        var startDate := ToStartOfDay(startValue, parse);
        if startDate.None? then None
        else Some(format(startDate.value + durationDays))
  }

  /** The form after typing `value` into one field of one stage's row. */
  function HandleChange(state: FormState, timeline: Option<PropertyTimelineView>, stageKey: StageKey, field: Field,
                        value: string, parse: string -> Option<Day>, format: Day -> string): (next: FormState)
    ensures stageKey in next
    ensures forall k :: k != stageKey ==> (k in next <==> k in state) && (k in state ==> next[k] == state[k])
    ensures var prev := if stageKey in state then state[stageKey] else FormEntry("", "");
      var auto := DeriveAutoEndDate(timeline, stageKey, value, parse, format);
      && (field == ActualEndField ==> next[stageKey] == FormEntry(prev.actualStart, value))
      && (field == ActualStartField ==> next[stageKey].actualStart == value)
      && (field == ActualStartField && value != "" && auto.Some? && auto.value != "" ==>
            next[stageKey].actualEnd == auto.value)
      && (field == ActualStartField && !(value != "" && auto.Some? && auto.value != "") ==>
            next[stageKey].actualEnd == prev.actualEnd)
  {
    var prev := if stageKey in state then state[stageKey] else FormEntry("", "");
    var nextStage := if field == ActualStartField then prev.(actualStart := value) else prev.(actualEnd := value);
    var autoEnd := if field == ActualStartField && value != "" then DeriveAutoEndDate(timeline, stageKey, value, parse, format)
                   else None;
    var row := if autoEnd.Some? && autoEnd.value != "" then nextStage.(actualEnd := autoEnd.value) else nextStage;
    state[stageKey := row]
  }

  /** The form after copying a stage's forecast dates into its actual fields. */
  function HandleCopyForecast(state: FormState, timeline: Option<PropertyTimelineView>, stageKey: StageKey,
                              format: Day -> string): (next: FormState)
    ensures timeline.None? || FindStage(timeline.value.stages, stageKey).None? ==> next == state
    ensures timeline.Some? && FindStage(timeline.value.stages, stageKey).Some? ==>
      var stage := FindStage(timeline.value.stages, stageKey).value;
      next == state[stageKey := FormEntry(format(stage.forecastStart), format(stage.forecastEnd))]
  {
    if timeline.None? then state
    else
      var stage := FindStage(timeline.value.stages, stageKey);
      if stage.None? then state
      else state[stageKey := FormEntry(format(stage.value.forecastStart), format(stage.value.forecastEnd))]
  }

  /** The day typed into a field: none when the trimmed text is empty or not a date. */
  function FieldDate(text: string, parse: string -> Option<Day>): (r: Option<Day>)
    ensures Trim(text) == "" ==> r.None?
    ensures Trim(text) != "" ==> r == parse(Trim(text))
  {
    var trimmed := Trim(text);
    if trimmed == "" then None else parse(trimmed)
  }

  /** One stage's update: its trimmed dates, cleared exactly when both fields are blank. */
  function UpdateFor(stage: StageKey, row: FormEntry, parse: string -> Option<Day>): (u: StageEditorUpdate)
    ensures u.stage == stage
    ensures u.clear <==> Trim(row.actualStart) == "" && Trim(row.actualEnd) == ""
    ensures u.actualStart == FieldDate(row.actualStart, parse) && u.actualEnd == FieldDate(row.actualEnd, parse)
  {
    var actualStart := Trim(row.actualStart);
    var actualEnd := Trim(row.actualEnd);
    StageEditorUpdate(stage, FieldDate(row.actualStart, parse), FieldDate(row.actualEnd, parse),
                      actualStart == "" && actualEnd == "")
  }

  /** One update per catalog stage, in catalog order. */
  function SubmitUpdates(state: FormState, parse: string -> Option<Day>): (updates: seq<StageEditorUpdate>)
    requires HasEveryStage(state)
    ensures |updates| == |Catalog|
    ensures forall j :: 0 <= j < |Catalog| ==> updates[j] == UpdateFor(Catalog[j].key, state[Catalog[j].key], parse)
  {
    seq(|Catalog|, j requires 0 <= j < |Catalog| => UpdateFor(Catalog[j].key, state[Catalog[j].key], parse))
  }

  /** Submitting: the property's id and the updates, or nothing when there is no timeline. */
  function HandleSubmit(state: FormState, timeline: Option<PropertyTimelineView>, parse: string -> Option<Day>)
    : (r: Option<(string, seq<StageEditorUpdate>)>)
    requires HasEveryStage(state)
    ensures r.None? <==> timeline.None?
    ensures r.Some? ==> r.value.0 == timeline.value.property.id && r.value.1 == SubmitUpdates(state, parse)
  {
    if timeline.None? then None else Some((timeline.value.property.id, SubmitUpdates(state, parse)))
  }

  /** Formatted dates are non-blank and parse back to the day they came from. */
  ghost predicate ParsesBack(parse: string -> Option<Day>, format: Day -> string) {
    forall d: Day :: format(d) != "" && parse(format(d)) == Some(d)
  }

  /** Formatted dates carry no white space at either end. */
  ghost predicate FormatsUntrimmed(format: Day -> string) {
    forall d: Day :: Trim(format(d)) == format(d)
  }

  /** Formatted dates survive the trimming on submit and parse back. */
  ghost predicate DateTextRoundTrip(parse: string -> Option<Day>, format: Day -> string) {
    ParsesBack(parse, format) && FormatsUntrimmed(format)
  }

  /** The update of a row that holds the text of optional dates gives those dates back. */
  lemma RowRoundTrip(stage: StageKey, start: Option<Day>, end: Option<Day>,
                     parse: string -> Option<Day>, format: Day -> string)
    requires DateTextRoundTrip(parse, format)
    ensures UpdateFor(stage, FormEntry(DateText(start, format), DateText(end, format)), parse)
            == StageEditorUpdate(stage, start, end, start.None? && end.None?)
  {
    if start.Some? {
      RoundTripAt(parse, format, start.value);
    }
    if end.Some? {
      RoundTripAt(parse, format, end.value);
    }
  }

  lemma RoundTripAt(parse: string -> Option<Day>, format: Day -> string, d: Day)
    requires DateTextRoundTrip(parse, format)
    ensures FieldDate(format(d), parse) == Some(d)
  {
  }

  /**
   * Submitting the form loaded from a timeline without editing it clears exactly the stages
   * that have no actual dates and hands every other stage its dates back unchanged.
   */
  lemma UneditedSubmit(view: PropertyTimelineView, parse: string -> Option<Day>, format: Day -> string, j: nat)
    requires ListsCatalog(view.stages) && j < |Catalog|
    requires DateTextRoundTrip(parse, format)
    ensures var state := InitialState(Some(view), format);
      HasEveryStage(state) &&
      var u := HandleSubmit(state, Some(view), parse).value.1[j];
      && u.clear == (view.stages[j].actualStart.None? && view.stages[j].actualEnd.None?)
      && u.actualStart == view.stages[j].actualStart
      && u.actualEnd == view.stages[j].actualEnd
  {
    var state := InitialState(Some(view), format);
    forall k: StageKey ensures k in state {
      AllStagesComplete();
    }
    InitialStateRow(view, format, j);
    RowRoundTrip(Catalog[j].key, view.stages[j].actualStart, view.stages[j].actualEnd, parse, format);
  }

  /** Copying a stage's forecast and submitting records the forecast dates for it, not a clear. */
  lemma CopyForecastThenSubmit(state: FormState, view: PropertyTimelineView, j: nat,
                               parse: string -> Option<Day>, format: Day -> string)
    requires HasEveryStage(state) && j < |Catalog|
    requires FindStage(view.stages, Catalog[j].key).Some?
    requires DateTextRoundTrip(parse, format)
    ensures var stage := FindStage(view.stages, Catalog[j].key).value;
      var next := HandleCopyForecast(state, Some(view), Catalog[j].key, format);
      HasEveryStage(next) &&
      HandleSubmit(next, Some(view), parse).value.1[j]
        == StageEditorUpdate(Catalog[j].key, Some(stage.forecastStart), Some(stage.forecastEnd), false)
  {
    var stage := FindStage(view.stages, Catalog[j].key).value;
    RowRoundTrip(Catalog[j].key, Some(stage.forecastStart), Some(stage.forecastEnd), parse, format);
  }

  /**
   * Typing a start date for a stage fills in the end date that lies the stage's duration
   * (at least one day) after it, and leaves the typed start as it is.
   */
  lemma TypedStartFillsEnd(view: PropertyTimelineView, state: FormState, j: nat, value: string, start: Day,
                           parse: string -> Option<Day>, format: Day -> string)
    requires ListsCatalog(view.stages) && j < |Catalog|
    requires ParsesBack(parse, format)
    requires value != "" && parse(value) == Some(start)
    ensures var next := HandleChange(state, Some(view), Catalog[j].key, ActualStartField, value, parse, format);
      && next[Catalog[j].key].actualStart == value
      && parse(next[Catalog[j].key].actualEnd) == Some(start + DurationDays(view.stages[j].durationWeeks))
  {
    var key := Catalog[j].key;
    var end := start + DurationDays(view.stages[j].durationWeeks);
    FindStageInCatalogList(view.stages, j);
    assert DeriveAutoEndDate(Some(view), key, value, parse, format) == Some(format(end));
    assert format(end) != "" && parse(format(end)) == Some(end);
    StartChangeTakesAutoEnd(state, view, key, value, parse, format);
    var next := HandleChange(state, Some(view), key, ActualStartField, value, parse, format);
    assert next[key] == FormEntry(value, format(end));
  }

  /** A typed start whose automatic end date is non-blank sets both fields of the row. */
  lemma StartChangeTakesAutoEnd(state: FormState, view: PropertyTimelineView, key: StageKey, value: string,
                                parse: string -> Option<Day>, format: Day -> string)
    requires value != ""
    requires var auto := DeriveAutoEndDate(Some(view), key, value, parse, format);
      auto.Some? && auto.value != ""
    ensures var next := HandleChange(state, Some(view), key, ActualStartField, value, parse, format);
      next[key] == FormEntry(value, DeriveAutoEndDate(Some(view), key, value, parse, format).value)
  {
  }

  /** In a list of the catalog, looking a stage up finds its own entry. */
  lemma FindStageInCatalogList(stages: seq<StageTimelineEntry>, j: nat)
    requires ListsCatalog(stages) && j < |Catalog|
    ensures FindStage(stages, Catalog[j].key) == Some(stages[j])
  {
    forall i | 0 <= i < j
      ensures stages[i].key != Catalog[j].key
    {
      assert IndexOf(Catalog[i].key) == i;
    }
    FindStageAt(stages, Catalog[j].key, j);
  }

  /** The first entry for a key is the one found. */
  lemma {:induction false} FindStageAt(stages: seq<StageTimelineEntry>, key: StageKey, j: nat)
    requires j < |stages| && stages[j].key == key
    requires forall i :: 0 <= i < j ==> stages[i].key != key
    ensures FindStage(stages, key) == Some(stages[j])
  {
    if j > 0 {
      FindStageAt(stages[1..], key, j - 1);
    }
  }
}
