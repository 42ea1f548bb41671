/**
 * The administration panel: the duration form's initial values, which collection and
 * property are active, and the guards that decide whether a form is handed to the
 * workspace, with the payloads it hands over.
 */
module AdminPanel {
  import opened Wrappers
  import opened Types
  import opened Timeline
  import TimelineProperties

  /** The weeks shown for a stage when nothing else says how long it takes. */
  const DefaultDuration: nat := 4

  /** A new collection as typed into the panel. */
  datatype CollectionPayload = CollectionPayload(name: string, code: string, regionFocus: string, description: string)

  /** A new document as typed into the panel. */
  datatype DocumentPayload = DocumentPayload(title: string, docType: string, url: Option<string>)

  /** A new property as typed into the panel; the closing date input is read as a day. */
  datatype PropertyPayload = PropertyPayload(
    name: string,
    region: string,
    productType: string,
    pm: string,
    priority: Priority,
    groupClosingDate: Day)

  /** Saved stage durations for a property, optionally also for its rule set. */
  datatype DurationPayload = DurationPayload(
    propertyId: string,
    durations: map<StageKey, nat>,
    applyToRuleSet: bool,
    collectionType: string,
    region: string)

  /** Some fields of a collection; the absent ones are left alone. */
  datatype CollectionPatch = CollectionPatch(
    id: Option<string>,
    name: Option<string>,
    code: Option<string>,
    regionFocus: Option<string>,
    description: Option<string>,
    propertyIds: Option<seq<string>>,
    documents: Option<seq<CollectionDocument>>)

  /** The editable fields of the active collection. */
  datatype CollectionForm = CollectionForm(name: string, regionFocus: string, description: string)

  /** The document inputs; the link input is text that may be empty. */
  datatype DocForm = DocForm(title: string, docType: string, url: string)

  /** The weeks shown for one stage: the override, else the rule set's value, else the default. */
  function StageWeeks(property: PropertyRecord, rule: Option<RuleSet>, key: StageKey): nat {
    if key in property.customDurations then property.customDurations[key]
    else if rule.Some? && key in rule.value.durationsWeeks then rule.value.durationsWeeks[key]
    else DefaultDuration
  }

  /**
   * The duration form's values, one per catalog stage: the default everywhere without a
   * property, otherwise each stage's override, else the value of the rule set that applies
   * (the exact match, else the first), else the default.
   */
  function BuildDurationMap(property: Option<PropertyRecord>, ruleSets: seq<RuleSet>): (m: map<StageKey, nat>)
    ensures forall k: StageKey :: k in m
    ensures property.None? ==> forall k: StageKey :: m[k] == DefaultDuration
    ensures property.Some? ==>
      var rule := SelectRuleSet(ruleSets, property.value.collectionType, property.value.region);
      forall k: StageKey ::
        && (k in property.value.customDurations ==> m[k] == property.value.customDurations[k])
        && (k !in property.value.customDurations && rule.Some? && k in rule.value.durationsWeeks ==>
              m[k] == rule.value.durationsWeeks[k])
        && (k !in property.value.customDurations && (rule.None? || k !in rule.value.durationsWeeks) ==>
              m[k] == DefaultDuration)
  {
    AllStagesComplete();
    if property.None? then map k | k in AllStages :: DefaultDuration
    else
      var rule := SelectRuleSet(ruleSets, property.value.collectionType, property.value.region);
      map k | k in AllStages :: StageWeeks(property.value, rule, k)
  }

  /**
   * The form shows exactly the durations the timeline builds with: for a property whose
   * rule set applies and covers it, stage `j`'s value is the built entry's duration.
   */
  lemma DurationMapMatchesTimeline(p: PropertyRecord, ruleSets: seq<RuleSet>, now: int, j: nat)
    requires Resolvable(p, ruleSets) && j < |Catalog|
    ensures var rule := SelectRuleSet(ruleSets, p.collectionType, p.region).value;
      BuildDurationMap(Some(p), ruleSets)[Catalog[j].key] == TimelineOf(p, rule, now).stages[j].durationWeeks
  {
    var rule := SelectRuleSet(ruleSets, p.collectionType, p.region).value;
    TimelineProperties.DurationPrecedence(p, rule, now, j);
  }

  /** A property whose overrides name every stage shows them all, whatever the rule sets say. */
  lemma FullOverridesShown(p: PropertyRecord, ruleSets: seq<RuleSet>)
    requires forall k: StageKey :: k in p.customDurations
    ensures BuildDurationMap(Some(p), ruleSets) == p.customDurations
  {
    var m := BuildDurationMap(Some(p), ruleSets);
    assert forall k :: k in m <==> k in p.customDurations;
  }

  /** The first collection with the id (`Array.prototype.find`). */
  function FindCollection(collections: seq<CollectionRecord>, id: string): (r: Option<CollectionRecord>)
    ensures r.Some? ==> r.value in collections && r.value.id == id
    ensures r.None? ==> forall c :: c in collections ==> c.id != id
  {
    if collections == [] then None
    else if collections[0].id == id then Some(collections[0])
    else FindCollection(collections[1..], id)
  }

  /** Among several collections with the id, the earliest in the list is the one found. */
  lemma {:induction false} FindCollectionIsFirst(collections: seq<CollectionRecord>, id: string, i: nat)
    requires i < |collections| && collections[i].id == id
    requires forall j :: 0 <= j < i ==> collections[j].id != id
    ensures FindCollection(collections, id) == Some(collections[i])
  {
    if i > 0 {
      FindCollectionIsFirst(collections[1..], id, i - 1);
    }
  }

  /**
   * The collection being edited: the first one with the selected id, else the first one,
   * else none.
   */
  function ActiveCollection(collections: seq<CollectionRecord>, activeId: string): (r: Option<CollectionRecord>)
    ensures r.None? <==> |collections| == 0
    ensures r.Some? ==> r.value in collections
    ensures (exists c :: c in collections && c.id == activeId) ==> r.Some? && r.value.id == activeId
    ensures forall i :: 0 <= i < |collections| && collections[i].id == activeId &&
                        (forall j :: 0 <= j < i ==> collections[j].id != activeId) ==>
                        r == Some(collections[i])
    ensures (forall c :: c in collections ==> c.id != activeId) && |collections| > 0 ==> r == Some(collections[0])
  {
    var found := FindCollection(collections, activeId);
    assert forall i :: 0 <= i < |collections| && collections[i].id == activeId &&
                       (forall j :: 0 <= j < i ==> collections[j].id != activeId) ==>
                       found == Some(collections[i]) by {
      forall i | 0 <= i < |collections| && collections[i].id == activeId &&
                 (forall j :: 0 <= j < i ==> collections[j].id != activeId)
        ensures found == Some(collections[i])
      {
        FindCollectionIsFirst(collections, activeId, i);
      }
    }
    if found.Some? then found else if |collections| > 0 then Some(collections[0]) else None
  }

  /** The properties of the active collection, in order; none without an active collection. */
  function CollectionProperties(properties: seq<PropertyRecord>, active: Option<CollectionRecord>)
    : (r: seq<PropertyRecord>)
    ensures |r| <= |properties|
    ensures forall p :: p in r <==> p in properties && active.Some? && p.collectionId == active.value.id
  {
    if active.None? || properties == [] then []
    else
      var rest := CollectionProperties(properties[..|properties| - 1], active);
      var last := properties[|properties| - 1];
      assert forall p :: p in properties <==> p in properties[..|properties| - 1] || p == last;
      if last.collectionId == active.value.id then rest + [last] else rest
  }

  /**
   * The listing is a filter: it works piece by piece, keeping the order and the repeats of
   * the properties it keeps (with `CollectionPropertiesOfOne` for a single property).
   */
  lemma {:induction false} CollectionPropertiesKeepsOrder(a: seq<PropertyRecord>, b: seq<PropertyRecord>,
                                                          active: Option<CollectionRecord>)
    ensures CollectionProperties(a + b, active) == CollectionProperties(a, active) + CollectionProperties(b, active)
  {
    if b == [] {
      assert a + b == a;
    } else if active.Some? {
      var b0 := b[..|b| - 1];
      var x := b[|b| - 1];
      var kept := if x.collectionId == active.value.id then [x] else [];
      assert a + b == (a + b0) + [x];
      assert b == b0 + [x];
      CollectionPropertiesKeepsOrder(a, b0, active);
      CollectionPropertiesStep(a + b0, x, active);
      CollectionPropertiesStep(b0, x, active);
      ConcatAssoc(CollectionProperties(a, active), CollectionProperties(b0, active), kept);
    }
  }

  /** Concatenation is associative. */
  lemma ConcatAssoc<T>(x: seq<T>, y: seq<T>, z: seq<T>)
    ensures (x + y) + z == x + (y + z)
  {
  }

  /** One property is listed exactly when it belongs to the active collection. */
  lemma CollectionPropertiesOfOne(p: PropertyRecord, active: Option<CollectionRecord>)
    ensures CollectionProperties([p], active) == if active.Some? && p.collectionId == active.value.id then [p] else []
  {
    assert [p][..0] == [];
  }

  /** A property added at the end is listed after the others when it belongs to the collection. */
  lemma CollectionPropertiesStep(front: seq<PropertyRecord>, x: PropertyRecord, active: Option<CollectionRecord>)
    requires active.Some?
    ensures CollectionProperties(front + [x], active) ==
      CollectionProperties(front, active) + (if x.collectionId == active.value.id then [x] else [])
  {
    assert (front + [x])[..|front + [x]| - 1] == front;
  }

  /**
   * The first property listed for the active collection is the first of the collection's
   * properties in the workspace's list, so it is the one the duration form falls back to.
   */
  lemma FirstCollectionProperty(properties: seq<PropertyRecord>, active: Option<CollectionRecord>, i: nat)
    requires active.Some? && i < |properties| && properties[i].collectionId == active.value.id
    requires forall j :: 0 <= j < i ==> properties[j].collectionId != active.value.id
    ensures var listed := CollectionProperties(properties, active);
      |listed| > 0 && listed[0] == properties[i]
  {
    var front := properties[..i];
    var back := properties[i + 1..];
    assert properties == front + ([properties[i]] + back);
    CollectionPropertiesKeepsOrder(front, [properties[i]] + back, active);
    CollectionPropertiesKeepsOrder([properties[i]], back, active);
    NoneListed(front, active);
  }

  /** Properties none of which belongs to the active collection list nothing. */
  lemma {:induction false} NoneListed(properties: seq<PropertyRecord>, active: Option<CollectionRecord>)
    requires active.Some?
    requires forall j :: 0 <= j < |properties| ==> properties[j].collectionId != active.value.id
    ensures CollectionProperties(properties, active) == []
  {
    if properties != [] {
      NoneListed(properties[..|properties| - 1], active);
    }
  }

  /** The first property with the id. */
  function FindProperty(properties: seq<PropertyRecord>, id: string): (r: Option<PropertyRecord>)
    ensures r.Some? ==> r.value in properties && r.value.id == id
    ensures r.None? ==> forall p :: p in properties ==> p.id != id
  {
    if properties == [] then None
    else if properties[0].id == id then Some(properties[0])
    else FindProperty(properties[1..], id)
  }

  /** Among several properties with the id, the earliest in the list is the one found. */
  lemma {:induction false} FindPropertyIsFirst(properties: seq<PropertyRecord>, id: string, i: nat)
    requires i < |properties| && properties[i].id == id
    requires forall j :: 0 <= j < i ==> properties[j].id != id
    ensures FindProperty(properties, id) == Some(properties[i])
  {
    if i > 0 {
      FindPropertyIsFirst(properties[1..], id, i - 1);
    }
  }

  /**
   * The property whose durations are edited: the first one with the selected id, else the
   * collection's first, else none.
   */
  function ActiveProperty(collectionProperties: seq<PropertyRecord>, activeId: string): (r: Option<PropertyRecord>)
    ensures r.None? <==> |collectionProperties| == 0
    ensures r.Some? ==> r.value in collectionProperties
    ensures (exists p :: p in collectionProperties && p.id == activeId) ==> r.Some? && r.value.id == activeId
    ensures forall i :: 0 <= i < |collectionProperties| && collectionProperties[i].id == activeId &&
                        (forall j :: 0 <= j < i ==> collectionProperties[j].id != activeId) ==>
                        r == Some(collectionProperties[i])
    ensures (forall p :: p in collectionProperties ==> p.id != activeId) && |collectionProperties| > 0 ==>
      r == Some(collectionProperties[0])
  {
    var found := FindProperty(collectionProperties, activeId);
    assert forall i :: 0 <= i < |collectionProperties| && collectionProperties[i].id == activeId &&
                       (forall j :: 0 <= j < i ==> collectionProperties[j].id != activeId) ==>
                       found == Some(collectionProperties[i]) by {
      forall i | 0 <= i < |collectionProperties| && collectionProperties[i].id == activeId &&
                 (forall j :: 0 <= j < i ==> collectionProperties[j].id != activeId)
        ensures found == Some(collectionProperties[i])
      {
        FindPropertyIsFirst(collectionProperties, activeId, i);
      }
    }
    if found.Some? then found else if |collectionProperties| > 0 then Some(collectionProperties[0]) else None
  }

  /** What a form action hands to the workspace, if anything, and the form's next contents. */
  datatype Submission<P, F> = Submission(emitted: Option<P>, form: F)

  /** Saving the collection form patches the active collection's name, focus and description. */
  function CollectionSave(active: Option<CollectionRecord>, form: CollectionForm): (r: Option<(string, CollectionPatch)>)
    ensures r.None? <==> active.None?
    ensures r.Some? ==> r.value.0 == active.value.id && r.value.1 == PanelPatch(form)
  {
    if active.None? then None else Some((active.value.id, PanelPatch(form)))
  }

  /** The patch of the collection form: the three edited fields, nothing else. */
  function PanelPatch(form: CollectionForm): (patch: CollectionPatch)
    ensures patch.id.None? && patch.code.None? && patch.propertyIds.None? && patch.documents.None?
    ensures patch.name == Some(form.name) && patch.regionFocus == Some(form.regionFocus)
    ensures patch.description == Some(form.description)
  {
    CollectionPatch(None, Some(form.name), None, Some(form.regionFocus), Some(form.description), None, None)
  }

  /** A new collection is handed over only with a name and a code; the form then empties. */
  function CollectionCreate(form: CollectionPayload): (r: Submission<CollectionPayload, CollectionPayload>)
    ensures r.emitted.Some? <==> form.name != "" && form.code != ""
    ensures r.emitted.Some? ==> r.emitted.value == form && r.form == CollectionPayload("", "", "", "")
    ensures r.emitted.None? ==> r.form == form
  {
    if form.name == "" || form.code == "" then Submission(None, form)
    else Submission(Some(form), CollectionPayload("", "", "", ""))
  }

  /**
   * A document is handed over only for an active collection and with a title and a type;
   * the link is handed over as typed, even when empty. The form then empties.
   */
  function AddDoc(active: Option<CollectionRecord>, form: DocForm): (r: Submission<(string, DocumentPayload), DocForm>)
    ensures r.emitted.Some? <==> active.Some? && form.title != "" && form.docType != ""
    ensures r.emitted.Some? ==>
      && r.emitted.value == (active.value.id, DocumentPayload(form.title, form.docType, Some(form.url)))
      && r.form == DocForm("", "", "")
    ensures r.emitted.None? ==> r.form == form
  {
    if active.None? || form.title == "" || form.docType == "" then Submission(None, form)
    else Submission(Some((active.value.id, DocumentPayload(form.title, form.docType, Some(form.url)))), DocForm("", "", ""))
  }

  /**
   * A property is handed over only for an active collection and with a name, a region and
   * a manager; the form then clears the name and the manager and keeps the rest.
   */
  function AddProperty(active: Option<CollectionRecord>, form: PropertyPayload)
    : (r: Submission<(string, PropertyPayload), PropertyPayload>)
    ensures r.emitted.Some? <==> active.Some? && form.name != "" && form.region != "" && form.pm != ""
    ensures r.emitted.Some? ==> r.emitted.value == (active.value.id, form) && r.form == form.(name := "", pm := "")
    ensures r.emitted.None? ==> r.form == form
  {
    if active.None? then Submission(None, form)
    else if form.name == "" || form.region == "" || form.pm == "" then Submission(None, form)
    else Submission(Some((active.value.id, form)), form.(name := "", pm := ""))
  }

  /**
   * The durations are handed over only for an active property, keyed by it and by its
   * collection type and region; the rule-set switch then turns off.
   */
  function DurationSave(active: Option<PropertyRecord>, durations: map<StageKey, nat>, applyToRuleSet: bool)
    : (r: Submission<DurationPayload, bool>)
    ensures r.emitted.None? <==> active.None?
    ensures r.emitted.None? ==> r.form == applyToRuleSet
    ensures r.emitted.Some? ==>
      && r.emitted.value == DurationPayload(active.value.id, durations, applyToRuleSet,
                                            active.value.collectionType, active.value.region)
      && !r.form
  {
    if active.None? then Submission(None, applyToRuleSet)
    else
      var p := active.value;
      Submission(Some(DurationPayload(p.id, durations, applyToRuleSet, p.collectionType, p.region)), false)
  }
}
