# Launch timeline dashboard — a Dafny model

This project models the computational core of a property-launch dashboard. Every launch
property goes through seven pipeline stages in a fixed order:

1. group closing
2. legal onboarding
3. acquisition
4. renovation
5. design and install
6. onboarding
7. go live

The model covers:

- **The timeline engine.** From a property's anchor date (its group closing date) and the
  stage durations, it derives each stage's planned dates. The durations come from the
  property's own overrides, else from the rule set for its collection type and region. From
  the recorded actual dates it derives each stage's forecast dates, its status (planned,
  in progress, delayed, overdue, complete) and its delay in days. It then rolls these up
  into go-live dates, a total delay and a risk bucket (on track, minor delays, high risk).
- **The portfolio metrics and the week grid** drawn over all timelines.
- **The dashboard's list edits**: saving the stage editor's batch of updates, dragging a
  stage bar, the filter option lists, and the timeline filter.
- **The stage editor form**: the initial rows, the automatic end date, copying the forecast,
  and the per-stage updates it submits.
- **The administration panel and workspace**:
  - the duration form and its precedence rules;
  - the guards on each form;
  - the slug rule that names new collections and properties;
  - the handlers that change the collections, properties and rule sets.

## Representation choices

- **Dates.** Calendar dates are whole day numbers (`Types.Day`, days since 1970-01-01 UTC).
- **The clock.** It is a parameter `now`, in epoch milliseconds. A date compares with it
  as midnight of its day (`Timeline.StartOfDayMs`).
- **Durations.** They are whole non-negative weeks (`nat`). A stage lasts
  `max(1, 7 * weeks)` days (`Timeline.DurationDays`). Fractional and negative counts are
  under "Left out".
- **Parsing and formatting dates.** The form fields hold text. The conversion between text
  and days (`Date` parsing, `toISOString().slice(0, 10)`) is passed in as two function
  parameters, `parse` and `format`. The round-trip lemmas state outright what they assume
  of them (`StageEditor.DateTextRoundTrip`).
- **The clock and randomness in the admin handlers.** `Date.now()`, the current date text
  and the random document-id suffix are parameters (`nowMs`, `today`, `randomPart`).
- **Where the model is imperative.** `buildTimeline`, the merge in `handleStageSave`, the
  in-place upsert of `handleStagePositionChange`, `buildEmptyState` and
  `deriveInitialState` loop and update variables in the source. Each of them is a Dafny
  method with loop invariants, proved equal to a specification function.
- **The admin workspace state.** The workspace's three lists are the fields of the class
  `AdminWorkspace.Workspace`, and each handler is a method that reassigns them.
- **Shared rule-set lookup.** `buildTimelineCollection` and `buildDurationMap` use the same
  lookup, written once as `Timeline.SelectRuleSet`: the first exact match, else the first
  rule set.

## Model

| member | source | states |
|---|---|---|
| Timeline.IndexOf | src/lib/timeline.ts:14-71 | every stage key occurs in the catalog, at exactly one position |
| Timeline.FindDefinition | src/lib/timeline.ts:74 | a found definition is in the list and has the key; absence means no entry has the key |
| Timeline.GetStageDefinition | src/lib/timeline.ts:73-79 | for every key the catalog entry with that key is returned; the unknown-stage error cannot arise |
| Timeline.ResolveStatus | src/lib/timeline.ts:85-113 | each of the five statuses holds exactly when its row of the decision table holds (recorded end, recorded start, clock, forecast start versus planned end) |
| Timeline.FindActual | src/lib/timeline.ts:115-116 | a found entry is recorded for the stage; absence means no entry is recorded for it |
| Timeline.FindActualIsFirst | src/lib/timeline.ts:115-116 | the first recorded entry for a stage is the one found |
| Timeline.DurationDays | src/lib/timeline.ts:128 | a stage lasts at least one day, and seven days per week for a positive week count |
| Timeline.StagesFrom | src/lib/timeline.ts:125-160 | the fold from catalog position `i` yields one entry per remaining stage |
| Timeline.StagesFromFollowRules | src/lib/timeline.ts:125-160 | entry `j` of the fold is what one loop pass makes of stage `i + j` from the previous entry's ends |
| Timeline.TimelineFollowsStageRules | src/lib/timeline.ts:118-185 | the built stage list follows the stage rules entry by entry |
| Timeline.StageRulesDetermineStages | src/lib/timeline.ts:118-185 | a list follows the stage rules exactly when it is the built stage list |
| Timeline.StageRulesAgree | src/lib/timeline.ts:125-160 | two lists that follow the stage rules agree on every prefix |
| Timeline.RulesExtend | src/lib/timeline.ts:142-159 | pushing the entry the rules give for the next stage keeps the list rule-following |
| Timeline.EffectiveWeeks | src/lib/timeline.ts:126-127 | a stage's weeks: the property's override, else the rule set's value |
| Timeline.ResolveStage | src/lib/timeline.ts:125-157 | one pass of the builder's loop: planned dates from the planned cursor, the first recorded entry's actuals, forecast from the actual start or the later cursor, the status, the delay and the notes |
| Timeline.SumDelays | src/lib/timeline.ts:164 | the total delay: the sum of the stages' delays |
| Timeline.Summarize | src/lib/timeline.ts:169-174 | on track with no late stage, minor delays with one or two, high risk from three |
| Timeline.TimelineOf | src/lib/timeline.ts:118-185 | the built view: the stages from the group closing date, go-live dates from the last stage or the anchor, the total delay and the risk bucket |
| Timeline.CountLate | src/lib/timeline.ts:165-167 | the late count never exceeds the number of stages |
| Timeline.BuildTimeline | src/lib/timeline.ts:118-185 | the loop with its two cursors computes exactly the specified timeline |
| Timeline.FirstMatchingRuleSet | src/lib/timeline.ts:190-191 | a found rule set is in the list and matches both collection type and region; absence means none matches |
| Timeline.FirstMatchingRuleSetIsFirst | src/lib/timeline.ts:190-191 | among several matching rule sets the first one wins |
| Timeline.SelectRuleSet | src/lib/timeline.ts:189-192 | an exact match is chosen when one exists, otherwise the first rule set; there is no rule set only when the list is empty |
| Timeline.BuildTimelineCollection | src/lib/timeline.ts:187-194 | one view per property, in order; each view is the timeline built for its property against the selected rule set (the first exact match, else the first), with one entry per catalog stage |
| TimelineProperties.EntryAt | src/lib/timeline.ts:125-160 | entry `j` of the built timeline is what the loop makes of catalog stage `j` |
| TimelineProperties.StagesInCatalogOrder | src/lib/timeline.ts:142-145 | one entry per catalog stage, in catalog order, with that stage's label and owner |
| TimelineProperties.DurationPrecedence | src/lib/timeline.ts:126-130 | the override wins over the rule set, and the planned span is that many weeks, at least one day |
| TimelineProperties.PlannedContiguous | src/lib/timeline.ts:122-158 | the plan starts at the group closing date and each stage starts where the previous one ended |
| TimelineProperties.PlannedOffset | src/lib/timeline.ts:128-130 | the first `n` stages take at least `n` days |
| TimelineProperties.PlannedOffsetMonotone | src/lib/timeline.ts:128-130 | each further stage adds at least one day |
| TimelineProperties.PlannedClosedForm | src/lib/timeline.ts:122-158 | planned start and end are the anchor plus the durations of the earlier stages (and of this one) |
| TimelineProperties.PlannedIgnoresActualsAndClock | src/lib/timeline.ts:126-130 | planned dates and planned go-live depend only on the anchor and durations, not on recorded actuals or the clock |
| TimelineProperties.OffsetsAgree | src/lib/timeline.ts:126-128 | equal overrides give equal planned offsets |
| TimelineProperties.PlannedGoLiveIsLatest | src/lib/timeline.ts:162 | the planned go-live is the last stage's planned end, and strictly after every earlier stage's planned end |
| TimelineProperties.FirstActualWins | src/lib/timeline.ts:132-155 | the first recorded entry for a stage supplies its actual dates and notes |
| TimelineProperties.UnrecordedStage | src/lib/timeline.ts:132-155 | a stage with no recorded entry has no actual dates and no notes |
| TimelineProperties.ForecastRules | src/lib/timeline.ts:123-159 | a recorded start or end pins the forecast; otherwise the forecast start is the later of the previous forecast end and the planned start, and the forecast keeps the planned length |
| TimelineProperties.DelayRule | src/lib/timeline.ts:140 | the delay is the forecast start minus the planned start when positive, and zero exactly when the forecast is not late |
| TimelineProperties.StatusRule | src/lib/timeline.ts:97-139 | every built entry's status is the decision table applied to its own dates |
| TimelineProperties.NoActualsFollowsPlan | src/lib/timeline.ts:97-140 | with nothing recorded, forecast equals plan, the delay is zero, and the status is planned or overdue depending only on the clock |
| TimelineProperties.SumDelaysFacts | src/lib/timeline.ts:164 | the delay total is zero exactly when every stage delay is zero, and it bounds every stage delay |
| TimelineProperties.CountLateZero | src/lib/timeline.ts:165-167 | the late count is zero exactly when no stage is delayed or overdue |
| TimelineProperties.SummaryRules | src/lib/timeline.ts:162-174 | the forecast go-live is the last stage's forecast end; the total delay is zero exactly when all delays are; on track exactly when no stage is late; high risk exactly from three late stages |
| TimelineProperties.NoActualsSummary | src/lib/timeline.ts:162-174 | with nothing recorded the go-live dates agree, the total delay is zero, and the property is on track exactly when the clock has not passed the first planned end |
| TimelineProperties.StartOfDayMonotone | src/lib/timeline.ts:106 | a later day starts at a later instant |
| TimelineProperties.FinishedOnTimeIsComplete | src/lib/timeline.ts:97-98 | a recorded end on or before the planned end makes the stage complete |
| TimelineProperties.FirstStageScenarioDates | src/lib/timeline.ts:122-130 | a four-week first stage anchored on 2025-01-06 runs to 2025-02-03, and is planned before that and overdue after it |
| TimelineProperties.LateCloseScenarioForecast | src/lib/timeline.ts:97-137 | a group closing that ends a week late is delayed and pushes the next stage's forecast start, and its delay, by seven days |
| Metrics.TotalDelay | src/lib/metrics.ts:13 | the sum of the views' total delays |
| Metrics.IsUpcoming | src/lib/metrics.ts:15-21 | a view starts soon when its first planned stage's forecast start is within seven days of now |
| Metrics.CountAtRisk | src/lib/metrics.ts:14 | the at-risk count is the number of positions whose view is not on track; so it is at most the number of views, and zero exactly when every view is on track |
| Metrics.FirstPlanned | src/lib/metrics.ts:16 | a found stage is planned; absence means no stage is planned |
| Metrics.FirstPlannedIsFirst | src/lib/metrics.ts:16 | the earliest planned stage is the one found |
| Metrics.CountUpcoming | src/lib/metrics.ts:15-21 | the upcoming count is the number of positions whose view starts within seven days; so it is at most the number of views, and zero exactly when none does |
| Metrics.UpcomingGrowsWithTime | src/lib/metrics.ts:15-21 | a later clock never counts fewer upcoming starts |
| Metrics.RoundHalfUp | src/lib/metrics.ts:25 | the result is the quotient rounded to the nearest integer, halves up |
| Metrics.DerivePortfolioMetrics | src/lib/metrics.ts:3-29 | all zeros for no views; the property count is the number of views; at-risk is the number of views not on track and upcoming the number starting within seven days, both bounded by it; the average is the rounded mean delay |
| Metrics.TotalDelayBounds | src/lib/metrics.ts:13 | the delay total lies between the count times the smallest and the count times the largest view delay |
| Metrics.AverageWithinRange | src/lib/metrics.ts:13-25 | the average delay lies between the smallest and the largest view delay |
| Metrics.AllOnTimeAverageZero | src/lib/metrics.ts:13-25 | views without delay average zero |
| TimelineGrid.ViewStart | src/lib/timelineGrid.ts:18 | a view starts at its first stage's planned start, else at its anchor |
| TimelineGrid.ViewEnd | src/lib/timelineGrid.ts:23-25 | a view ends at its last stage's forecast end, else at its anchor |
| TimelineGrid.Earliest | src/lib/timelineGrid.ts:17-20 | the grid start is at or before every view's start and equal to one of them |
| TimelineGrid.Latest | src/lib/timelineGrid.ts:22-27 | the grid end is at or after every view's end and equal to one of them |
| TimelineGrid.WeeksCovering | src/lib/timelineGrid.ts:29 | the week count is the fewest whole weeks that cover the span |
| TimelineGrid.BuildWeekScale | src/lib/timelineGrid.ts:11-36 | at least one week; no views give the clock for both ends and one week; otherwise the ends are the earliest start and the latest end |
| TimelineGrid.WeeksCoverSpan | src/lib/timelineGrid.ts:29 | with a positive span the weeks are the ceiling of the span in weeks, otherwise exactly one |
| TimelineWorkspace.LastUpdate | src/components/dashboard/TimelineWorkspace.tsx:130-134 | a found update is for the stage; absence means the batch has none for it |
| TimelineWorkspace.LastUpdateIsLast | src/components/dashboard/TimelineWorkspace.tsx:130 | of several updates for a stage, the last in the batch is applied |
| TimelineWorkspace.MergedEntry | src/components/dashboard/TimelineWorkspace.tsx:139-152 | each stage contributes at most one entry, and only for itself |
| TimelineWorkspace.MergedActuals | src/components/dashboard/TimelineWorkspace.tsx:130-153 | the merged list: for each catalog stage in order, its entry after the save |
| TimelineWorkspace.MergeStageActuals | src/components/dashboard/TimelineWorkspace.tsx:130-153 | the loop over the catalog computes exactly the specified merged list |
| TimelineWorkspace.FindActualAppend | src/lib/timeline.ts:115-116 | a lookup in a concatenation searches the first part before the second |
| TimelineWorkspace.MergePrefixStages | src/components/dashboard/TimelineWorkspace.tsx:133-153 | after `n` catalog stages only those stages have entries |
| TimelineWorkspace.MergePrefixLookup | src/components/dashboard/TimelineWorkspace.tsx:133-153 | after `n` catalog stages each of them has exactly its saved entry and the others none |
| TimelineWorkspace.MergedLookup | src/components/dashboard/TimelineWorkspace.tsx:134-152 | after a save a cleared stage has no entry, an updated stage has the update's dates without notes, and any other stage keeps its first entry or stays absent |
| TimelineWorkspace.MergedInCatalogOrder | src/components/dashboard/TimelineWorkspace.tsx:132-153 | the merged list is in catalog order with at most one entry per stage |
| TimelineWorkspace.HandleStageSave | src/components/dashboard/TimelineWorkspace.tsx:126-162 | only the property with the id changes, and only its recorded actuals, which become the merged list |
| TimelineWorkspace.FindActualIndex | src/components/dashboard/TimelineWorkspace.tsx:175 | a found index is the first entry for the stage; absence means there is none |
| TimelineWorkspace.FindActualOtherUpdate | src/components/dashboard/TimelineWorkspace.tsx:177 | replacing another stage's entry does not change a lookup |
| TimelineWorkspace.FindActualFirstUpdate | src/components/dashboard/TimelineWorkspace.tsx:177 | replacing a stage's first entry makes the replacement what a lookup finds |
| TimelineWorkspace.Upserted | src/components/dashboard/TimelineWorkspace.tsx:173-180 | after the drag the stage's first entry holds the payload at its own index, the lookup of the stage finds it, and other stages' lookups are unchanged; every other entry stays in place, later entries of the stage included; the payload is appended exactly when the stage had no entry |
| TimelineWorkspace.UpsertStageActual | src/components/dashboard/TimelineWorkspace.tsx:173-180 | the in-place replacement or push computes exactly the specified upsert |
| TimelineWorkspace.HandleStagePositionChange | src/components/dashboard/TimelineWorkspace.tsx:168-189 | only the property with the id changes, and its entries become exactly the upsert of the dragged dates |
| TimelineWorkspace.DistinctAppend | src/components/dashboard/TimelineWorkspace.tsx:19 | appending a new value keeps a list free of repeats |
| TimelineWorkspace.NonEmpty | src/components/dashboard/TimelineWorkspace.tsx:19 | the kept values are exactly the non-empty ones |
| TimelineWorkspace.Dedupe | src/components/dashboard/TimelineWorkspace.tsx:19 | the same values, each exactly once |
| TimelineWorkspace.LexLeqTotal | src/components/dashboard/TimelineWorkspace.tsx:20 | any two strings are comparable |
| TimelineWorkspace.InsertByBase | src/components/dashboard/TimelineWorkspace.tsx:19-20 | inserting into a sorted list keeps it sorted and adds exactly the new value |
| TimelineWorkspace.SortByBase | src/components/dashboard/TimelineWorkspace.tsx:19-20 | the result is sorted and has the same values, and no repeats when the input had none |
| TimelineWorkspace.SortValues | src/components/dashboard/TimelineWorkspace.tsx:18-21 | the options are exactly the non-empty input values, each once, sorted case-insensitively |
| TimelineWorkspace.MatchesFilters | src/components/dashboard/TimelineWorkspace.tsx:71-90 | every non-empty exact filter equals its field, and a non-empty search occurs, lower-cased, in the name or the manager |
| TimelineWorkspace.FilterTimelines | src/components/dashboard/TimelineWorkspace.tsx:70-92 | the shown timelines are exactly those matching every non-empty filter |
| TimelineWorkspace.FilterKeepsOrder | src/components/dashboard/TimelineWorkspace.tsx:72 | filtering keeps the original order |
| TimelineWorkspace.EmptyFiltersKeepAll | src/components/dashboard/TimelineWorkspace.tsx:73-82 | with every filter field empty, every timeline is shown |
| StageEditor.BuildEmptyState | src/components/dashboard/StageEditorDrawer.tsx:185-189 | every catalog stage has an empty row, and there are no other rows |
| StageEditor.RowFor | src/components/dashboard/StageEditorDrawer.tsx:194-198 | a stage's row: the text of the last entry for it, else two empty fields |
| StageEditor.InitialState | src/components/dashboard/StageEditorDrawer.tsx:191-201 | the loaded form: a row for every stage, empty without a timeline |
| StageEditor.DeriveInitialState | src/components/dashboard/StageEditorDrawer.tsx:191-201 | the loop computes exactly the specified initial form |
| StageEditor.RowForLast | src/components/dashboard/StageEditorDrawer.tsx:194-198 | a stage's row comes from its last entry in the timeline |
| StageEditor.BuiltTimelineListsCatalog | src/lib/timeline.ts:125-143 | every built timeline lists the catalog stages in order |
| StageEditor.InitialStateRow | src/components/dashboard/StageEditorDrawer.tsx:191-201 | each stage's initial row is the text of its own actual dates, empty where there are none |
| StageEditor.FindStage | src/components/dashboard/StageEditorDrawer.tsx:209 | a found entry is for the stage; absence means the timeline has none |
| StageEditor.ToStartOfDay | src/components/dashboard/StageEditorDrawer.tsx:217-221 | empty input gives no date; otherwise the input's parse |
| StageEditor.DeriveAutoEndDate | src/components/dashboard/StageEditorDrawer.tsx:203-215 | defined exactly when there is a timeline, the stage is in it and the start parses; then it is the start plus the stage's duration in days |
| StageEditor.HandleChange | src/components/dashboard/StageEditorDrawer.tsx:40-59 | other stages are untouched; an end edit keeps the start; a start edit sets the start and takes the automatic end only when one is defined and non-empty |
| StageEditor.HandleCopyForecast | src/components/dashboard/StageEditorDrawer.tsx:61-73 | no change without a timeline or the stage; otherwise only that stage's row becomes its forecast dates |
| StageEditor.FieldDate | src/components/dashboard/StageEditorDrawer.tsx:80-86 | blank after trimming gives no date; otherwise the trimmed text's parse |
| StageEditor.UpdateFor | src/components/dashboard/StageEditorDrawer.tsx:79-88 | an update for the stage with its trimmed dates, cleared exactly when both fields are blank |
| StageEditor.SubmitUpdates | src/components/dashboard/StageEditorDrawer.tsx:78-89 | exactly one update per catalog stage, in catalog order |
| StageEditor.HandleSubmit | src/components/dashboard/StageEditorDrawer.tsx:75-92 | nothing without a timeline; otherwise the property's id and the per-stage updates |
| StageEditor.RowRoundTrip | src/components/dashboard/StageEditorDrawer.tsx:79-88 | a row holding the text of optional dates submits those dates back, cleared exactly when both are absent |
| StageEditor.RoundTripAt | src/components/dashboard/StageEditorDrawer.tsx:80-85 | a formatted date survives trimming and parses back |
| StageEditor.UneditedSubmit | src/components/dashboard/StageEditorDrawer.tsx:75-92 | submitting the unedited form clears exactly the stages with no actual dates and hands every stage its dates back |
| StageEditor.CopyForecastThenSubmit | src/components/dashboard/StageEditorDrawer.tsx:61-89 | copying a stage's forecast and submitting records the forecast dates for it, not a clear |
| StageEditor.TypedStartFillsEnd | src/components/dashboard/StageEditorDrawer.tsx:40-59 | typing a start keeps it and fills in an end that lies the stage's duration after it |
| StageEditor.StartChangeTakesAutoEnd | src/components/dashboard/StageEditorDrawer.tsx:47-51 | a start edit with a non-empty automatic end sets both fields |
| StageEditor.FindStageInCatalogList | src/components/dashboard/StageEditorDrawer.tsx:209 | in a timeline listing the catalog, looking up stage `j` finds entry `j` |
| StageEditor.FindStageAt | src/components/dashboard/StageEditorDrawer.tsx:209 | the first entry for a key is the one found |
| Text.Lower | src/components/admin/AdminWorkspace.tsx:154 | same length, each character lower-cased |
| Text.Upper | src/components/admin/AdminWorkspace.tsx:90 | same length, each character upper-cased |
| Text.Trim | src/components/dashboard/StageEditorDrawer.tsx:80-81 | the result is a part of the input with no white space at either end, and everything cut off before and after it is white space; empty exactly when the input is all white space |
| Text.TrimTrimmed | src/components/dashboard/StageEditorDrawer.tsx:80-81 | text without white space at its ends is unchanged by trimming |
| Text.NatToString | src/components/admin/AdminWorkspace.tsx:86 | a non-empty string of decimal digits whose value is the number, with a leading zero only for zero itself |
| AdminPanel.StageWeeks | src/components/admin/AdminPanel.tsx:553-556 | a stage's weeks: the override, else the rule set's value, else the default 4 |
| AdminPanel.BuildDurationMap | src/components/admin/AdminPanel.tsx:537-560 | a value for every stage: the default 4 without a property, otherwise the override, else the applying rule set's value, else 4 |
| AdminPanel.DurationMapMatchesTimeline | src/components/admin/AdminPanel.tsx:546-558 | for a property its rule set covers, the form shows the durations the timeline is built with |
| AdminPanel.FullOverridesShown | src/components/admin/AdminPanel.tsx:550-558 | overrides for every stage are shown as they are, whatever the rule sets say |
| AdminPanel.FindCollection | src/components/admin/AdminPanel.tsx:98 | a found collection has the id; absence means none has it |
| AdminPanel.FindCollectionIsFirst | src/components/admin/AdminPanel.tsx:98 | of several collections with the id, the earliest in the list is found |
| AdminPanel.ActiveCollection | src/components/admin/AdminPanel.tsx:97-98 | the first collection with the selected id when one exists, otherwise the first collection; none only when there are no collections |
| AdminPanel.CollectionProperties | src/components/admin/AdminPanel.tsx:100-103 | exactly the properties of the active collection, none without one |
| AdminPanel.CollectionPropertiesKeepsOrder | src/components/admin/AdminPanel.tsx:100-103 | listing the properties of a concatenation lists each part in turn, so order and repeats are kept |
| AdminPanel.CollectionPropertiesOfOne | src/components/admin/AdminPanel.tsx:100-103 | a single property is listed exactly when it belongs to the active collection |
| AdminPanel.CollectionPropertiesStep | src/components/admin/AdminPanel.tsx:100-103 | a property added at the end is listed last when it belongs to the collection, and the rest is listed as before |
| AdminPanel.NoneListed | src/components/admin/AdminPanel.tsx:100-103 | properties none of which belongs to the active collection list nothing |
| AdminPanel.FirstCollectionProperty | src/components/admin/AdminPanel.tsx:100-107 | the first listed property is the collection's first property in the workspace's list, the one the duration form falls back to |
| AdminPanel.FindProperty | src/components/admin/AdminPanel.tsx:106 | a found property has the id; absence means none has it |
| AdminPanel.FindPropertyIsFirst | src/components/admin/AdminPanel.tsx:106 | of several properties with the id, the earliest in the list is found |
| AdminPanel.ActiveProperty | src/components/admin/AdminPanel.tsx:105-107 | the first listed property with the selected id when one exists, otherwise the first listed; none only when the list is empty |
| AdminPanel.CollectionSave | src/components/admin/AdminPanel.tsx:145-148 | nothing without an active collection; otherwise its id and the form's patch |
| AdminPanel.PanelPatch | src/components/admin/AdminPanel.tsx:129-147 | the patch sets name, region focus and description and nothing else |
| AdminPanel.CollectionCreate | src/components/admin/AdminPanel.tsx:150-154 | handed over exactly when name and code are non-empty, and the form then empties; otherwise the form is kept |
| AdminPanel.AddDoc | src/components/admin/AdminPanel.tsx:156-160 | handed over exactly with an active collection, a title and a type, with the link as typed; the form then empties |
| AdminPanel.AddProperty | src/components/admin/AdminPanel.tsx:162-171 | handed over exactly with an active collection, a name, a region and a manager; the form then clears only name and manager |
| AdminPanel.DurationSave | src/components/admin/AdminPanel.tsx:173-183 | handed over exactly with an active property, keyed by its id, type and region; the rule-set switch then turns off |
| AdminWorkspace.CollapseShape | src/components/admin/AdminWorkspace.tsx:155 | collapsing leaves only slug characters and single dashes, is empty only for empty text, and ends in a dash exactly when the text ends in another character |
| AdminWorkspace.CollapseHasSlugChar | src/components/admin/AdminWorkspace.tsx:155 | collapsing keeps a letter or digit exactly when there was one |
| AdminWorkspace.StripShape | src/components/admin/AdminWorkspace.tsx:156 | dropping the end dashes of collapsed text leaves a slug |
| AdminWorkspace.CollapseRuns | src/components/admin/AdminWorkspace.tsx:155 | every run of characters other than `a`-`z` and `0`-`9` becomes one dash |
| AdminWorkspace.StripDashes | src/components/admin/AdminWorkspace.tsx:156 | a dash at the front and one at the end are dropped |
| AdminWorkspace.Slugify | src/components/admin/AdminWorkspace.tsx:152-156 | the result is a non-empty slug: only `a`-`z`, `0`-`9` and single dashes, no dash at either end; the `item-` fallback is used exactly when no letter or digit survives |
| AdminWorkspace.FallbackIsSlug | src/components/admin/AdminWorkspace.tsx:156 | the fallback is itself a slug |
| AdminWorkspace.StripKeepsSlugChar | src/components/admin/AdminWorkspace.tsx:156 | dropping end dashes keeps the letters and digits |
| AdminWorkspace.NoSlugCharStripsToEmpty | src/components/admin/AdminWorkspace.tsx:155-156 | collapsed text without letters or digits strips to nothing |
| AdminWorkspace.HasSlugCharLower | src/components/admin/AdminWorkspace.tsx:154-155 | something survives lower-casing exactly when the text has an ASCII letter or digit |
| AdminWorkspace.SlugIsFixed | src/components/admin/AdminWorkspace.tsx:152-156 | a non-empty slug is its own slug |
| AdminWorkspace.CollapseFixed | src/components/admin/AdminWorkspace.tsx:155 | collapsing text of slug characters and single dashes changes nothing |
| AdminWorkspace.SlugifyIdempotent | src/components/admin/AdminWorkspace.tsx:152-156 | the slug of a slug is itself, whatever the clock |
| AdminWorkspace.CollapseKeepsSlugChar | src/components/admin/AdminWorkspace.tsx:155 | a letter or digit appended to text survives collapsing, after the collapsed text |
| AdminWorkspace.CollapseAppendSlugChars | src/components/admin/AdminWorkspace.tsx:155 | letters and digits after a text survive collapsing unchanged |
| AdminWorkspace.LowerAppend | src/components/admin/AdminWorkspace.tsx:154 | lower-casing distributes over concatenation |
| AdminWorkspace.LowerDigits | src/components/admin/AdminWorkspace.tsx:154 | lower-casing leaves digits alone |
| AdminWorkspace.PropertyId | src/components/admin/AdminWorkspace.tsx:86 | a new property's id always ends with the clock's digits |
| AdminWorkspace.PropertyIdPrefix | src/components/admin/AdminWorkspace.tsx:86 | the text before the clock ends in a dash |
| AdminWorkspace.SlugEndsWithDigits | src/components/admin/AdminWorkspace.tsx:152-156 | text ending in a dash and digits never takes the fallback and its slug ends with the digits |
| AdminWorkspace.CollapsedWithDigits | src/components/admin/AdminWorkspace.tsx:154-155 | lower-casing and collapsing text ending in a dash and digits ends in a dash and the digits |
| AdminWorkspace.StripKeepsSuffix | src/components/admin/AdminWorkspace.tsx:156 | dropping end dashes keeps a final run of digits |
| AdminWorkspace.NewCollection | src/components/admin/AdminWorkspace.tsx:19-28 | a new collection is named by a slug and takes the code, else the name, as its code, with no properties or documents |
| AdminWorkspace.PanelCollectionUsesCode | src/components/admin/AdminWorkspace.tsx:19-24 | a collection created from the panel keeps the typed code and is named by its slug |
| AdminWorkspace.ApplyPatch | src/components/admin/AdminWorkspace.tsx:35 | each present field of the patch replaces the collection's field, absent ones leave it |
| AdminWorkspace.PatchCollections | src/components/admin/AdminWorkspace.tsx:32-38 | only collections with the id are patched |
| AdminWorkspace.PanelSaveKeepsIdentity | src/components/admin/AdminWorkspace.tsx:32-38 | saving the panel form changes name, region focus and description only; every id, code, property list and document list stays |
| AdminWorkspace.NewDocument | src/components/admin/AdminWorkspace.tsx:44-51 | a new document carries the generated id, the payload, the admin user and today's date |
| AdminWorkspace.AppendDocument | src/components/admin/AdminWorkspace.tsx:52-58 | only collections with the id gain the document, at the end |
| AdminWorkspace.WithoutDocument | src/components/admin/AdminWorkspace.tsx:67 | exactly the documents without the id remain |
| AdminWorkspace.WithoutDocumentKeepsOrder | src/components/admin/AdminWorkspace.tsx:67 | removal from a concatenation removes from each part in turn, and a single document stays exactly when it lacks the id, so order and repeats are kept |
| AdminWorkspace.DeleteDocument | src/components/admin/AdminWorkspace.tsx:61-72 | only collections with the id lose documents, exactly those with the document id |
| AdminWorkspace.WithoutAbsentDocument | src/components/admin/AdminWorkspace.tsx:67 | removing an id no document has changes nothing |
| AdminWorkspace.AddThenDeleteRestores | src/components/admin/AdminWorkspace.tsx:40-72 | deleting a just-added document with a new id restores the collections |
| AdminWorkspace.DeleteRemovesDocument | src/components/admin/AdminWorkspace.tsx:61-72 | after a delete no document of the collection has the id |
| AdminWorkspace.NewProperty | src/components/admin/AdminWorkspace.tsx:85-101 | the new property's fields: the generated id, the upper-cased first three letters as code, the collection's name and code or the upper-cased collection id, the payload, no actuals |
| AdminWorkspace.AddPropertyId | src/components/admin/AdminWorkspace.tsx:103-109 | only collections with the id list the property id, at the end |
| AdminWorkspace.NewPropertyUsesCollectionRules | src/components/admin/AdminWorkspace.tsx:93 | a new property of a collection whose code names a rule set for its region is built against that rule set |
| AdminWorkspace.AddedPropertyIsListed | src/components/admin/AdminWorkspace.tsx:85-109 | the new property's id is appended to its collection, and the panel lists the property under that collection |
| AdminWorkspace.SetCustomDurations | src/components/admin/AdminWorkspace.tsx:119-125 | only properties with the id take the durations as overrides |
| AdminWorkspace.SetRuleDurations | src/components/admin/AdminWorkspace.tsx:127-133 | only rule sets with the type and region take the durations |
| AdminWorkspace.SavedDurationsTakeEffect | src/components/admin/AdminWorkspace.tsx:119-125 | saved durations for every stage are what the panel shows next and what the timeline builds with |
| AdminWorkspace.RuleDurationsApply | src/components/admin/AdminWorkspace.tsx:126-134 | with the switch on, the rule set that applies to the pair afterwards carries the durations |
| AdminWorkspace.Workspace.constructor | src/components/admin/AdminWorkspace.tsx:9-11 | the workspace starts with the given collections, properties and rule sets |
| AdminWorkspace.Workspace.CreateCollection | src/components/admin/AdminWorkspace.tsx:13-30 | exactly one new collection is appended; the other lists are unchanged |
| AdminWorkspace.Workspace.UpdateCollection | src/components/admin/AdminWorkspace.tsx:32-38 | the collections with the id are patched; the other lists are unchanged |
| AdminWorkspace.Workspace.AddDocument | src/components/admin/AdminWorkspace.tsx:40-59 | the new document is appended to the collections with the id; the other lists are unchanged |
| AdminWorkspace.Workspace.DeleteDocumentFrom | src/components/admin/AdminWorkspace.tsx:61-72 | the documents with the id leave the collections with the id; the other lists are unchanged |
| AdminWorkspace.Workspace.AddProperty | src/components/admin/AdminWorkspace.tsx:74-110 | exactly one new property is appended and its id listed in its collection; rule sets are unchanged |
| AdminWorkspace.Workspace.UpdatePropertyDurations | src/components/admin/AdminWorkspace.tsx:112-135 | the property takes the durations; the rule sets for its pair take them only when asked; collections are unchanged |

## Left out

- Rendering is not modelled: the JSX, the hooks, scrolling, the drawer's open and close,
  and the effects that reload forms when the selection changes. Only the handlers'
  transformations of their state are modelled.
- Date text parsing and formatting are not modelled; they are the `parse` and `format`
  parameters. The round-trip lemmas assume that `format` never yields blank text or text
  with white space at its ends, and that `parse` inverts it. `toISOString().slice(0, 10)`
  meets this only for years 0000 to 9999; beyond them its text (`+010000-01` and the like)
  does not parse back, and the round-trip lemmas do not cover such days.
- The week labels (`getWeekLabel`, `formatWeekLabel`) are not modelled; they are locale
  formatting only.
- Both clock reads in `resolveStatus` and in the metrics are the one `now` parameter, so a
  single derivation sees a single instant.
- Time zones and daylight-saving time are not modelled: a date is UTC midnight of its day.
- Floating-point layout arithmetic (bar positions, percentages) is not modelled.
- Timeline.DurationDays: durations are whole non-negative weeks. A fractional week count,
  which `Math.max(1, durationWeeks * 7)` and the `Math.round` of the stage editor would treat
  differently, is not modelled. Neither is a negative one. The panel's duration input stores
  `Number(event.target.value)` (`src/components/admin/AdminPanel.tsx:494-502`), and its
  `min={1}` does not stop a typed `-3`. Such a value is saved as an override
  (`src/components/admin/AdminWorkspace.tsx:122`) and shown as typed. The timeline then
  gives the stage a one-day span, as it would for 0 weeks, since `Math.max(1, -21)` is 1.
- Timeline.BuildTimeline: the delay is a whole number of days, so the `Math.round` of a
  day difference is exact and is not modelled.
- Timeline.BuildTimeline: the source reads recorded actual dates with `new Date(text)`.
  For an unparsable text that gives an Invalid Date. The Invalid Date is truthy, so it is
  taken as the actual date and becomes the forecast start. The later `toISOString` call
  then throws a `RangeError`, and the whole build fails. The model has no such failure: a
  recorded date is either a day or absent. `StageEditor.FieldDate` maps such a text to an
  absent date, which is then submitted without clearing the stage. The editor's fields are
  date inputs (`src/components/dashboard/StageEditorDrawer.tsx:142` and `:151`), which yield
  either a valid ISO date or empty text, so the form never produces such a text.
- Timeline.BuildTimeline: `requires Covers(p, ruleSet)`. A stage with neither an override nor
  a rule-set duration gives `undefined` weeks in the source (a NaN date), and this is not
  modelled. `BuildTimelineCollection` likewise requires non-empty rule sets, since the
  source dereferences the missing rule set.
- The display-only fields of the catalog (colour, form-field name, description) are not
  modelled.
- The fixture data is not modelled; two scenario lemmas use dates shaped like it instead.
- Text.Lower: only ASCII letters change case. The source's `toLowerCase`, `toUpperCase` and
  `localeCompare(…, { sensitivity: 'base' })` also map other letters and ignore accents.
  The option-list order is therefore stated for ASCII case folding only.
- TimelineWorkspace.SortValues: the options are ordered by code unit after ASCII case
  folding, not by the 'en' base collation of `localeCompare`. The two differ on punctuation
  and symbols as well as on non-ASCII letters: collation puts `_`, `:`, `@`, `[`, `~` and the
  like before digits and letters, so it lists "r_1" before "r1" where this model lists "r1"
  first. The order among values that compare equal is not stated either.
- AdminWorkspace.Slugify: lower-casing is ASCII-only, as in `Text.Lower`. A non-ASCII
  character whose JavaScript lower case is an ASCII letter (the Kelvin sign, for one) is
  not modelled.
- StageEditor.HandleChange: a row missing from the form state is treated as two empty
  fields. In the source, spreading a missing row gives a row without the other field. The
  form always has a row for every stage, so this does not arise there.
- The property form's closing-date input is taken as a day number; parsing its text is
  part of the date parsing left out above.
- The generated document id's random part (`Math.random().toString(36)`) and the creation
  date are the `randomPart` and `today` parameters.
- AdminWorkspace.NewProperty: `name.slice(0, 3).toUpperCase()` is the ASCII `Text.Upper` of
  the first three characters.
