/**
 * The dashboard's list operations: merging a batch of stage-editor updates into a
 * property's recorded actuals, the drag-to-reschedule upsert, the sorted option lists of
 * the filter bar, and the filter over timelines.
 */
module TimelineWorkspace {
  import opened Wrappers
  import opened Types
  import opened Timeline
  import opened Text

  // ---------------------------------------------------------------------------
  // Saving the stage editor

  /** The update a stage gets when the batch is loaded into a `Map`: the last one for it wins. */
  function LastUpdate(updates: seq<StageEditorUpdate>, stage: StageKey): (r: Option<StageEditorUpdate>)
    ensures r.Some? ==> r.value in updates && r.value.stage == stage
    ensures r.None? ==> forall u :: u in updates ==> u.stage != stage
  {
    if updates == [] then None
    else if updates[|updates| - 1].stage == stage then Some(updates[|updates| - 1])
    else LastUpdate(updates[..|updates| - 1], stage)
  }

  /** Of several updates for one stage, the last in the batch is the one applied. */
  lemma {:induction false} LastUpdateIsLast(updates: seq<StageEditorUpdate>, stage: StageKey, i: nat)
    requires i < |updates| && updates[i].stage == stage
    requires forall j :: i < j < |updates| ==> updates[j].stage != stage
    ensures LastUpdate(updates, stage) == Some(updates[i])
  {
    if i < |updates| - 1 {
      LastUpdateIsLast(updates[..|updates| - 1], stage, i);
    }
  }

  /**
   * The entry a stage should have after the save: none when its update clears it, the
   * update's dates (without notes) when it does not, else the first existing entry, if any.
   */
  function SavedActual(actuals: seq<StageActual>, updates: seq<StageEditorUpdate>, stage: StageKey)
    : Option<StageActual>
  {
    var update := LastUpdate(updates, stage);
    if update.Some? then
      (if update.value.clear then None
       else Some(StageActual(stage, update.value.actualStart, update.value.actualEnd, None)))
    else FindActual(actuals, stage)
  }

  /** What the merge pushes for one stage: its saved entry, if it has one. */
  function MergedEntry(actuals: seq<StageActual>, updates: seq<StageEditorUpdate>, stage: StageKey)
    : (r: seq<StageActual>)
    ensures |r| <= 1
    ensures forall a :: a in r ==> a.stage == stage
  {
    var saved := SavedActual(actuals, updates, stage);
    if saved.Some? then [saved.value] else []
  }

  /** The merged list after the first `n` catalog stages. */
  function MergePrefix(actuals: seq<StageActual>, updates: seq<StageEditorUpdate>, n: nat): seq<StageActual>
    requires n <= |Catalog|
  {
    if n == 0 then [] else MergePrefix(actuals, updates, n - 1) + MergedEntry(actuals, updates, Catalog[n - 1].key)
  }

  /** The recorded actuals after a save. */
  function MergedActuals(actuals: seq<StageActual>, updates: seq<StageEditorUpdate>): seq<StageActual> {
    MergePrefix(actuals, updates, |Catalog|)
  }

  /** Rebuilds a property's actuals in catalog order from the batch and the existing entries. */
  method MergeStageActuals(actuals: seq<StageActual>, updates: seq<StageEditorUpdate>)
    returns (merged: seq<StageActual>)
    ensures merged == MergedActuals(actuals, updates)
  {
    merged := [];
    for i := 0 to |Catalog|
      invariant merged == MergePrefix(actuals, updates, i)
    {
      var stage := Catalog[i];
      var update := LastUpdate(updates, stage.key);
      var existing := FindActual(actuals, stage.key);
      if update.Some? {
        if !update.value.clear {
          merged := merged + [StageActual(stage.key, update.value.actualStart, update.value.actualEnd, None)];
        }
        continue;
      }
      if existing.Some? {
        merged := merged + [existing.value];
      }
    }
  }

  /** Looking a stage up in a concatenation searches the first part before the second. */
  lemma {:induction false} FindActualAppend(a: seq<StageActual>, b: seq<StageActual>, stage: StageKey)
    ensures FindActual(a + b, stage) == if FindActual(a, stage).Some? then FindActual(a, stage) else FindActual(b, stage)
  {
    if a != [] {
      assert (a + b)[1..] == a[1..] + b;
      FindActualAppend(a[1..], b, stage);
    } else {
      assert a + b == b;
    }
  }

  /** Every entry of the merged prefix belongs to one of the first `n` catalog stages. */
  lemma {:induction false} MergePrefixStages(actuals: seq<StageActual>, updates: seq<StageEditorUpdate>, n: nat)
    requires n <= |Catalog|
    ensures forall a :: a in MergePrefix(actuals, updates, n) ==> IndexOf(a.stage) < n
  {
    if n > 0 {
      MergePrefixStages(actuals, updates, n - 1);
      forall a | a in MergedEntry(actuals, updates, Catalog[n - 1].key)
        ensures IndexOf(a.stage) == n - 1
      {
        assert a.stage == Catalog[n - 1].key;
      }
    }
  }

  /** In the merged prefix, a stage among the first `n` has its saved entry, and the others none. */
  lemma {:induction false} MergePrefixLookup(actuals: seq<StageActual>, updates: seq<StageEditorUpdate>,
                                             n: nat, stage: StageKey)
    requires n <= |Catalog|
    ensures FindActual(MergePrefix(actuals, updates, n), stage)
            == if IndexOf(stage) < n then SavedActual(actuals, updates, stage) else None
  {
    if n > 0 {
      var key := Catalog[n - 1].key;
      MergePrefixLookup(actuals, updates, n - 1, stage);
      FindActualAppend(MergePrefix(actuals, updates, n - 1), MergedEntry(actuals, updates, key), stage);
      if IndexOf(stage) == n - 1 {
        assert key == stage;
      }
    }
  }

  /**
   * After a save, looking a stage up gives exactly its saved entry: nothing for a cleared
   * stage, the update's dates for an updated one, the first existing entry otherwise.
   */
  lemma MergedLookup(actuals: seq<StageActual>, updates: seq<StageEditorUpdate>, stage: StageKey)
    ensures var found := FindActual(MergedActuals(actuals, updates), stage);
      var update := LastUpdate(updates, stage);
      && (update.Some? && update.value.clear ==> found.None?)
      && (update.Some? && !update.value.clear ==>
            found == Some(StageActual(stage, update.value.actualStart, update.value.actualEnd, None)))
      && (update.None? ==> found == FindActual(actuals, stage))
  {
    MergePrefixLookup(actuals, updates, |Catalog|, stage);
  }

  /** Entries in strictly increasing catalog position, so at most one per stage. */
  predicate InCatalogOrder(actuals: seq<StageActual>) {
    forall i, j :: 0 <= i < j < |actuals| ==> IndexOf(actuals[i].stage) < IndexOf(actuals[j].stage)
  }

  /** The merged list is in catalog order with at most one entry per stage. */
  lemma {:induction false} MergedInCatalogOrder(actuals: seq<StageActual>, updates: seq<StageEditorUpdate>, n: nat)
    requires n <= |Catalog|
    ensures InCatalogOrder(MergePrefix(actuals, updates, n))
  {
    if n > 0 {
      MergedInCatalogOrder(actuals, updates, n - 1);
      MergePrefixStages(actuals, updates, n - 1);
      var before := MergePrefix(actuals, updates, n - 1);
      var entry := MergedEntry(actuals, updates, Catalog[n - 1].key);
      var merged := before + entry;
      assert MergePrefix(actuals, updates, n) == merged;
      forall i, j | 0 <= i < j < |merged|
        ensures IndexOf(merged[i].stage) < IndexOf(merged[j].stage)
      {
        assert merged[i] == before[i] && before[i] in before;
        if j < |before| {
          assert merged[j] == before[j];
        } else {
          assert merged[j] == entry[j - |before|] && entry[j - |before|] in entry;
          assert IndexOf(Catalog[n - 1].key) == n - 1;
        }
      }
    }
  }

  /** Applies a save to the one property with the given id; every other property is kept. */
  method HandleStageSave(properties: seq<PropertyRecord>, propertyId: string, updates: seq<StageEditorUpdate>)
    returns (next: seq<PropertyRecord>)
    ensures |next| == |properties|
    ensures forall i :: 0 <= i < |properties| && properties[i].id != propertyId ==> next[i] == properties[i]
    ensures forall i :: 0 <= i < |properties| && properties[i].id == propertyId ==>
      next[i] == properties[i].(stageActuals := MergedActuals(properties[i].stageActuals, updates))
  {
    next := [];
    for i := 0 to |properties|
      invariant |next| == i
      invariant forall j :: 0 <= j < i && properties[j].id != propertyId ==> next[j] == properties[j]
      invariant forall j :: 0 <= j < i && properties[j].id == propertyId ==>
        next[j] == properties[j].(stageActuals := MergedActuals(properties[j].stageActuals, updates))
    {
      var property := properties[i];
      if property.id != propertyId {
        next := next + [property];
      } else {
        var mergedActuals := MergeStageActuals(property.stageActuals, updates);
        next := next + [property.(stageActuals := mergedActuals)];
      }
    }
  }

  // ---------------------------------------------------------------------------
  // Drag to reschedule

  /** `Array.prototype.findIndex` on the stage: the first position recorded for it. */
  function FindActualIndex(actuals: seq<StageActual>, stage: StageKey): (r: Option<nat>)
    ensures r.Some? ==> r.value < |actuals| && actuals[r.value].stage == stage &&
                        forall j :: 0 <= j < r.value ==> actuals[j].stage != stage
    ensures r.None? ==> forall j :: 0 <= j < |actuals| ==> actuals[j].stage != stage
  {
    if actuals == [] then None
    else if actuals[0].stage == stage then Some(0)
    else
      var rest := FindActualIndex(actuals[1..], stage);
      if rest.Some? then Some(rest.value + 1) else None
  }

  /** Replacing an entry of another stage does not change what a lookup of this stage finds. */
  lemma {:induction false} FindActualOtherUpdate(actuals: seq<StageActual>, i: nat, a: StageActual, stage: StageKey)
    requires i < |actuals| && actuals[i].stage != stage && a.stage != stage
    ensures FindActual(actuals[i := a], stage) == FindActual(actuals, stage)
  {
    if i > 0 {
      assert actuals[i := a][1..] == actuals[1..][i - 1 := a];
      FindActualOtherUpdate(actuals[1..], i - 1, a, stage);
    }
  }

  /** Replacing the first entry of a stage makes the replacement what a lookup finds. */
  lemma {:induction false} FindActualFirstUpdate(actuals: seq<StageActual>, i: nat, a: StageActual)
    requires i < |actuals| && a.stage == actuals[i].stage
    requires forall j :: 0 <= j < i ==> actuals[j].stage != a.stage
    ensures FindActual(actuals[i := a], a.stage) == Some(a)
  {
    FindActualIsFirst(actuals[i := a], a.stage, i);
  }

  /** The entry a drag records: the dragged dates, no notes. */
  function DragPayload(stageKey: StageKey, actualStart: Day, actualEnd: Day): StageActual {
    StageActual(stageKey, Some(actualStart), Some(actualEnd), None)
  }

  /**
   * The stage entries after a drag: the payload replaces the stage's first entry at its own
   * index, or is appended when the stage has none. Afterwards a lookup of that stage finds the
   * payload, lookups of every other stage are unchanged, and every entry but the stage's
   * first stays where it was, later entries of the same stage included.
   */
  function Upserted(actuals: seq<StageActual>, payload: StageActual): (next: seq<StageActual>)
    ensures FindActual(next, payload.stage) == Some(payload)
    ensures forall k :: k != payload.stage ==> FindActual(next, k) == FindActual(actuals, k)
    ensures |actuals| <= |next| <= |actuals| + 1
    ensures forall j :: 0 <= j < |actuals| && actuals[j].stage != payload.stage ==> next[j] == actuals[j]
    ensures forall f ::
      && 0 <= f < |actuals|
      && actuals[f].stage == payload.stage
      && (forall j :: 0 <= j < f ==> actuals[j].stage != payload.stage)
      ==> next[f] == payload
    ensures forall j, m :: 0 <= m < j < |actuals| && actuals[m].stage == payload.stage ==> next[j] == actuals[j]
    ensures |next| == |actuals| + 1 <==> forall j :: 0 <= j < |actuals| ==> actuals[j].stage != payload.stage
    ensures |next| == |actuals| + 1 ==> next[|actuals|] == payload
  {
    var existing := FindActualIndex(actuals, payload.stage);
    if existing.Some? then
      FindActualFirstUpdate(actuals, existing.value, payload);
      assert forall k :: k != payload.stage ==> FindActual(actuals[existing.value := payload], k) == FindActual(actuals, k) by {
        forall k | k != payload.stage
          ensures FindActual(actuals[existing.value := payload], k) == FindActual(actuals, k)
        {
          FindActualOtherUpdate(actuals, existing.value, payload, k);
        }
      }
      actuals[existing.value := payload]
    else
      FindActualAppend(actuals, [payload], payload.stage);
      assert forall k :: k != payload.stage ==> FindActual(actuals + [payload], k) == FindActual(actuals, k) by {
        forall k | k != payload.stage
          ensures FindActual(actuals + [payload], k) == FindActual(actuals, k)
        {
          FindActualAppend(actuals, [payload], k);
        }
      }
      actuals + [payload]
  }

  /** The drag handler's update of one property's entries, written as the handler writes it. */
  method UpsertStageActual(actuals: seq<StageActual>, stageKey: StageKey, actualStart: Day, actualEnd: Day)
    returns (next: seq<StageActual>)
    ensures next == Upserted(actuals, DragPayload(stageKey, actualStart, actualEnd))
  {
    var nextActuals := actuals;
    var payload := DragPayload(stageKey, actualStart, actualEnd);
    var existingIndex := FindActualIndex(nextActuals, stageKey);
    if existingIndex.Some? {
      nextActuals := nextActuals[existingIndex.value := payload];
    } else {
      nextActuals := nextActuals + [payload];
    }
    next := nextActuals;
  }

  /** Applies a drag to the one property with the given id; every other property is kept. */
  method HandleStagePositionChange(properties: seq<PropertyRecord>, propertyId: string, stageKey: StageKey,
                                   actualStart: Day, actualEnd: Day)
    returns (next: seq<PropertyRecord>)
    ensures |next| == |properties|
    ensures forall i :: 0 <= i < |properties| && properties[i].id != propertyId ==> next[i] == properties[i]
    ensures forall i :: 0 <= i < |properties| && properties[i].id == propertyId ==>
      next[i] == properties[i].(stageActuals := Upserted(properties[i].stageActuals, DragPayload(stageKey, actualStart, actualEnd)))
  {
    next := [];
    for i := 0 to |properties|
      invariant |next| == i
      invariant forall j :: 0 <= j < i && properties[j].id != propertyId ==> next[j] == properties[j]
      invariant forall j :: 0 <= j < i && properties[j].id == propertyId ==>
        next[j] == properties[j].(stageActuals := Upserted(properties[j].stageActuals, DragPayload(stageKey, actualStart, actualEnd)))
    {
      var property := properties[i];
      if property.id != propertyId {
        next := next + [property];
      } else {
        var nextActuals := UpsertStageActual(property.stageActuals, stageKey, actualStart, actualEnd);
        next := next + [property.(stageActuals := nextActuals)];
      }
    }
  }

  // ---------------------------------------------------------------------------
  // Option lists of the filter bar

  /** No value occurs twice. */
  predicate Distinct(s: seq<string>) {
    forall i, j :: 0 <= i < j < |s| ==> s[i] != s[j]
  }

  /** Appending a new value keeps a list free of repeats. */
  lemma DistinctAppend(s: seq<string>, x: string)
    requires Distinct(s) && x !in s
    ensures Distinct(s + [x])
  {
    assert forall i :: 0 <= i < |s| ==> (s + [x])[i] == s[i];
  }

  /** `values.filter(Boolean)`: the non-empty values. */
  function NonEmpty(values: seq<string>): (r: seq<string>)
    ensures forall v :: v in r <==> v in values && v != ""
  {
    if values == [] then []
    else NonEmpty(values[..|values| - 1]) + (if values[|values| - 1] != "" then [values[|values| - 1]] else [])
  }

  /** `Array.from(new Set(values))`: each value once. */
  function Dedupe(values: seq<string>): (r: seq<string>)
    ensures forall v :: v in r <==> v in values
    ensures Distinct(r)
  {
    if values == [] then []
    else
      var sofar := Dedupe(values[..|values| - 1]);
      var last := values[|values| - 1];
      if last in sofar then sofar else sofar + [last]
  }

  /** Lexicographic order on strings (code-unit comparison). */
  predicate LexLeq(a: string, b: string) {
    a == [] || (b != [] && (a[0] < b[0] || (a[0] == b[0] && LexLeq(a[1..], b[1..]))))
  }

  /** Of any two strings, one is at most the other. */
  lemma {:induction false} LexLeqTotal(a: string, b: string)
    ensures LexLeq(a, b) || LexLeq(b, a)
  {
    if a != [] && b != [] && a[0] == b[0] {
      LexLeqTotal(a[1..], b[1..]);
    }
  }

  /**
   * The comparison of the option lists: lexicographic after ASCII case folding, so that
   * values differing only in case compare equal.
   */
  predicate BaseLeq(a: string, b: string) {
    LexLeq(Lower(a), Lower(b))
  }

  /** Neighbours are in order. */
  predicate SortedByBase(s: seq<string>) {
    forall i :: 0 < i < |s| ==> BaseLeq(s[i - 1], s[i])
  }

  /**
   * Inserts `x` into a sorted list after every element that compares at most `x` from the
   * end, so values that compare equal keep their input order.
   */
  function InsertByBase(sorted: seq<string>, x: string): (r: seq<string>)
    requires SortedByBase(sorted)
    ensures SortedByBase(r)
    ensures |r| == |sorted| + 1
    ensures forall v :: v in r <==> v in sorted || v == x
    ensures Distinct(sorted) && x !in sorted ==> Distinct(r)
    ensures r[|r| - 1] == x || (sorted != [] && r[|r| - 1] == sorted[|sorted| - 1])
  {
    if sorted == [] then [x]
    else
      var last := sorted[|sorted| - 1];
      if BaseLeq(last, x) then sorted + [x]
      else
        var rest := sorted[..|sorted| - 1];
        var front := InsertByBase(rest, x);
        LexLeqTotal(Lower(last), Lower(x));
        assert sorted == rest + [last];
        assert Distinct(sorted) && x !in sorted ==> Distinct(front + [last]) by {
          if Distinct(sorted) && x !in sorted {
            DistinctAppend(front, last);
          }
        }
        front + [last]
  }

  /** A stable insertion sort by `BaseLeq`. */
  function SortByBase(values: seq<string>): (r: seq<string>)
    ensures SortedByBase(r)
    ensures |r| == |values|
    ensures forall v :: v in r <==> v in values
    ensures Distinct(values) ==> Distinct(r)
  {
    if values == [] then []
    else
      var front := values[..|values| - 1];
      var last := values[|values| - 1];
      assert Distinct(values) ==> Distinct(front) && last !in front;
      InsertByBase(SortByBase(front), last)
  }

  /**
   * The option list of a filter: every non-empty value exactly once, nothing else, sorted
   * case-insensitively.
   */
  function SortValues(values: seq<string>): (r: seq<string>)
    ensures forall v :: v in r <==> v in values && v != ""
    ensures forall i :: 0 <= i < |r| ==> r[i] != ""
    ensures Distinct(r)
    ensures SortedByBase(r)
  {
    var sorted := SortByBase(Dedupe(NonEmpty(values)));
    assert forall i :: 0 <= i < |sorted| ==> sorted[i] != "" by {
      forall i | 0 <= i < |sorted|
        ensures sorted[i] != ""
      {
        assert sorted[i] in sorted;
      }
    }
    sorted
  }

  // ---------------------------------------------------------------------------
  // Filtering the timelines

  datatype FilterState = FilterState(region: string, collection: string, property: string, product: string,
                                     search: string)

  /**
   * A timeline is shown when every non-empty exact-match field agrees with its property, and
   * a non-empty search occurs, case-insensitively, in the property's name or its PM.
   */
  predicate MatchesFilters(view: PropertyTimelineView, filters: FilterState) {
    var searchTerm := Lower(filters.search);
    && (filters.region == "" || view.property.region == filters.region)
    && (filters.collection == "" || view.property.collectionName == filters.collection)
    && (filters.product == "" || view.property.productType == filters.product)
    && (filters.property == "" || view.property.name == filters.property)
    && (searchTerm == "" || Contains(Lower(view.property.name), searchTerm)
                         || Contains(Lower(view.property.pm), searchTerm))
  }

  /** The shown timelines, in their original order. */
  function FilterTimelines(timelines: seq<PropertyTimelineView>, filters: FilterState)
    : (r: seq<PropertyTimelineView>)
    ensures |r| <= |timelines|
    ensures forall v :: v in r <==> v in timelines && MatchesFilters(v, filters)
  {
    if timelines == [] then []
    else
      var last := timelines[|timelines| - 1];
      FilterTimelines(timelines[..|timelines| - 1], filters) + (if MatchesFilters(last, filters) then [last] else [])
  }

  /** Filtering keeps order: filtering a concatenation concatenates the filtered parts. */
  lemma {:induction false} FilterKeepsOrder(a: seq<PropertyTimelineView>, b: seq<PropertyTimelineView>,
                                            filters: FilterState)
    ensures FilterTimelines(a + b, filters) == FilterTimelines(a, filters) + FilterTimelines(b, filters)
  {
    if b != [] {
      assert (a + b)[..|a + b| - 1] == a + b[..|b| - 1];
      assert (a + b)[|a + b| - 1] == b[|b| - 1];
      FilterKeepsOrder(a, b[..|b| - 1], filters);
    } else {
      assert a + b == a;
    }
  }

  /** With every field empty, nothing is filtered out. */
  lemma {:induction false} EmptyFiltersKeepAll(timelines: seq<PropertyTimelineView>)
    ensures FilterTimelines(timelines, FilterState("", "", "", "", "")) == timelines
  {
    if timelines != [] {
      var last := timelines[|timelines| - 1];
      EmptyFiltersKeepAll(timelines[..|timelines| - 1]);
      assert MatchesFilters(last, FilterState("", "", "", "", ""));
      assert timelines == timelines[..|timelines| - 1] + [last];
    }
  }
}
