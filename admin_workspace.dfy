/**
 * The administration workspace: the collections, properties and rule sets the admin panel
 * edits, the handlers that change them, and the slug rule that names new records.
 *
 * The clock and the random document-id suffix are parameters: `nowMs` is the epoch
 * milliseconds, `today` the current date text and `randomPart` the generated suffix.
 */
module AdminWorkspace {
  import opened Wrappers
  import opened Types
  import opened Timeline
  import opened Text
  import opened AdminPanel
  import TimelineProperties

  /** The characters a slug keeps: lower-case ASCII letters and digits. */
  predicate IsSlugChar(c: char) {
    'a' <= c <= 'z' || '0' <= c <= '9'
  }

  /** An ASCII letter or digit. */
  predicate IsAsciiAlnum(c: char) {
    'a' <= c <= 'z' || 'A' <= c <= 'Z' || '0' <= c <= '9'
  }

  predicate HasSlugChar(s: string) {
    exists i :: 0 <= i < |s| && IsSlugChar(s[i])
  }

  /** No two dashes in a row. */
  predicate NoDoubleDash(s: string) {
    forall i :: 0 <= i < |s| - 1 ==> !(s[i] == '-' && s[i + 1] == '-')
  }

  /** Slug characters and single dashes only. */
  predicate Dashed(s: string) {
    && (forall i :: 0 <= i < |s| ==> IsSlugChar(s[i]) || s[i] == '-')
    && NoDoubleDash(s)
  }

  /** Slug characters and single dashes, with no dash at either end. */
  predicate IsSlug(s: string) {
    Dashed(s) && (s != [] ==> s[0] != '-' && s[|s| - 1] != '-')
  }

  /** Every maximal run of characters other than `a`-`z` and `0`-`9` becomes one dash. */
  function CollapseRuns(s: string): string {
    if s == [] then []
    else
      var init := s[..|s| - 1];
      var c := s[|s| - 1];
      var rest := CollapseRuns(init);
      if IsSlugChar(c) then rest + [c]
      else if init != [] && !IsSlugChar(init[|init| - 1]) then rest
      else rest + ['-']
  }

  /**
   * Collapsed text holds only slug characters and single dashes, is empty only for empty
   * text, and ends with a dash exactly when the text ends outside `a`-`z` and `0`-`9`.
   */
  lemma {:induction false} CollapseShape(s: string)
    ensures var r := CollapseRuns(s);
      && Dashed(r)
      && (|r| == 0 <==> |s| == 0)
      && (|s| > 0 ==> (r[|r| - 1] == '-' <==> !IsSlugChar(s[|s| - 1])))
  {
    if s != [] {
      var init := s[..|s| - 1];
      var c := s[|s| - 1];
      var rest := CollapseRuns(init);
      CollapseShape(init);
      if IsSlugChar(c) {
        var r := rest + [c];
        assert forall i :: 0 <= i < |rest| ==> r[i] == rest[i];
      } else if !(init != [] && !IsSlugChar(init[|init| - 1])) {
        var r := rest + ['-'];
        assert forall i :: 0 <= i < |rest| ==> r[i] == rest[i];
      }
    }
  }

  /** Collapsing keeps some letter or digit exactly when there was one. */
  lemma {:induction false} CollapseHasSlugChar(s: string)
    ensures HasSlugChar(CollapseRuns(s)) <==> HasSlugChar(s)
  {
    if s != [] {
      var init := s[..|s| - 1];
      var c := s[|s| - 1];
      var rest := CollapseRuns(init);
      CollapseHasSlugChar(init);
      assert forall i :: 0 <= i < |init| ==> s[i] == init[i];
      assert HasSlugChar(s) && !IsSlugChar(c) ==> HasSlugChar(init);
      if IsSlugChar(c) {
        assert (rest + [c])[|rest|] == c;
        assert forall i :: 0 <= i < |rest| ==> (rest + [c])[i] == rest[i];
      } else if !(init != [] && !IsSlugChar(init[|init| - 1])) {
        assert forall i :: 0 <= i < |rest| ==> (rest + ['-'])[i] == rest[i];
      }
    }
  }

  /** Drops one dash at the front and one at the end. */
  function StripDashes(s: string): string {
    var front := if |s| > 0 && s[0] == '-' then s[1..] else s;
    if |front| > 0 && front[|front| - 1] == '-' then front[..|front| - 1] else front
  }

  /** Stripping the end dashes of slug characters and single dashes leaves a slug. */
  lemma StripShape(s: string)
    requires Dashed(s)
    ensures IsSlug(StripDashes(s))
  {
    var r := StripDashes(s);
    var k := if |s| > 0 && s[0] == '-' then 1 else 0;
    assert forall i :: 0 <= i < |r| ==> r[i] == s[i + k];
  }

  /** The text of a generated name when the slug comes out empty. */
  function Fallback(nowMs: nat): string {
    "item-" + NatToString(nowMs)
  }

  /**
   * The slug of `value`: lower-cased, each run of other characters turned into one dash,
   * a dash at either end dropped; `item-` and the clock's milliseconds when that is empty.
   */
  function Slugify(value: string, nowMs: nat): (r: string)
    ensures r != [] && IsSlug(r)
    ensures !HasSlugChar(Lower(value)) ==> r == Fallback(nowMs)
    ensures HasSlugChar(Lower(value)) ==> r == StripDashes(CollapseRuns(Lower(value))) && HasSlugChar(r)
  {
    var collapsed := CollapseRuns(Lower(value));
    var cleaned := StripDashes(collapsed);
    CollapseShape(Lower(value));
    StripShape(collapsed);
    CollapseHasSlugChar(Lower(value));
    assert cleaned != "" <==> HasSlugChar(Lower(value)) by {
      if HasSlugChar(Lower(value)) {
        StripKeepsSlugChar(collapsed);
      } else {
        NoSlugCharStripsToEmpty(collapsed);
      }
    }
    FallbackIsSlug(nowMs);
    if cleaned != "" then cleaned else Fallback(nowMs)
  }

  lemma FallbackIsSlug(nowMs: nat)
    ensures IsSlug(Fallback(nowMs)) && HasSlugChar(Fallback(nowMs))
  {
    var f := Fallback(nowMs);
    assert IsSlugChar(f[0]);
    var digits := NatToString(nowMs);
    assert forall i :: 5 <= i < |f| ==> f[i] == digits[i - 5];
  }

  /** Dropping end dashes keeps the letters and digits. */
  lemma StripKeepsSlugChar(s: string)
    requires HasSlugChar(s)
    ensures HasSlugChar(StripDashes(s))
  {
    var i :| 0 <= i < |s| && IsSlugChar(s[i]);
    var front := if |s| > 0 && s[0] == '-' then s[1..] else s;
    var k := if |s| > 0 && s[0] == '-' then i - 1 else i;
    assert front[k] == s[i];
    var r := StripDashes(s);
    assert r[k] == front[k];
  }

  /** Collapsed text without letters or digits is at most one dash, which stripping removes. */
  lemma NoSlugCharStripsToEmpty(s: string)
    requires Dashed(s) && !HasSlugChar(s)
    ensures StripDashes(s) == []
  {
  }

  /** The ASCII lower-casing of a character is a slug character exactly for letters and digits. */
  lemma HasSlugCharLower(s: string)
    ensures HasSlugChar(Lower(s)) <==> exists i :: 0 <= i < |s| && IsAsciiAlnum(s[i])
  {
    if exists i :: 0 <= i < |s| && IsAsciiAlnum(s[i]) {
      var i :| 0 <= i < |s| && IsAsciiAlnum(s[i]);
      assert IsSlugChar(Lower(s)[i]);
    }
  }

  /** Text that is already a non-empty slug is its own slug. */
  lemma {:induction false} SlugIsFixed(s: string, nowMs: nat)
    requires s != [] && IsSlug(s)
    ensures Slugify(s, nowMs) == s
  {
    assert Lower(s) == s;
    CollapseFixed(s);
    assert IsSlugChar(s[0]);
    assert HasSlugChar(s);
  }

  /** Collapsing text made of slug characters and single dashes changes nothing. */
  lemma {:induction false} CollapseFixed(s: string)
    requires Dashed(s)
    ensures CollapseRuns(s) == s
  {
    if s != [] {
      var init := s[..|s| - 1];
      CollapseFixed(init);
      assert s == init + [s[|s| - 1]];
    }
  }

  /** Slugs are stable: the slug of a slug is itself, whatever the clock says. */
  lemma SlugifyIdempotent(value: string, nowMs: nat, laterMs: nat)
    ensures Slugify(Slugify(value, nowMs), laterMs) == Slugify(value, nowMs)
  {
    SlugIsFixed(Slugify(value, nowMs), laterMs);
  }

  /** A letter or digit appended to text is kept after the collapsed text. */
  lemma CollapseKeepsSlugChar(init: string, c: char)
    requires IsSlugChar(c)
    ensures CollapseRuns(init + [c]) == CollapseRuns(init) + [c]
  {
    var s := init + [c];
    assert s[..|s| - 1] == init;
  }

  /** Collapsing text followed by letters and digits collapses the text and keeps them. */
  lemma {:induction false} CollapseAppendSlugChars(a: string, t: string)
    requires forall i :: 0 <= i < |t| ==> IsSlugChar(t[i])
    ensures CollapseRuns(a + t) == CollapseRuns(a) + t
    decreases |t|
  {
    if t != [] {
      var t0 := t[..|t| - 1];
      var x := t[|t| - 1];
      CollapseAppendSlugChars(a, t0);
      CollapseKeepsSlugChar(a + t0, x);
      assert a + t == (a + t0) + [x];
      assert CollapseRuns(a) + t == (CollapseRuns(a) + t0) + [x];
    } else {
      assert a + t == a;
    }
  }

  lemma LowerAppend(a: string, b: string)
    ensures Lower(a + b) == Lower(a) + Lower(b)
  {
  }

  lemma LowerDigits(t: string)
    requires forall i :: 0 <= i < |t| ==> IsDigit(t[i])
    ensures Lower(t) == t
  {
  }

  /**
   * The id of a property added at `nowMs`: the slug of the collection id, the name and the
   * clock. The clock's digits keep it off the fallback, and it always ends with them.
   */
  function PropertyId(collectionId: string, name: string, nowMs: nat): (id: string)
    ensures var digits := NatToString(nowMs);
      |digits| <= |id| && id[|id| - |digits|..] == digits
  {
    var prefix := PropertyIdPrefix(collectionId, name);
    var digits := NatToString(nowMs);
    SlugEndsWithDigits(prefix, digits, nowMs);
    Slugify(prefix + digits, nowMs)
  }

  /** The text before the clock's digits in a property id: collection id and name, each followed by a dash. */
  function PropertyIdPrefix(collectionId: string, name: string): (r: string)
    ensures r != [] && r[|r| - 1] == '-'
  {
    collectionId + "-" + name + "-"
  }

  /** The slug of text ending in a dash and then digits is never the fallback and ends with the digits. */
  lemma SlugEndsWithDigits(a: string, digits: string, nowMs: nat)
    requires a != [] && a[|a| - 1] == '-' && digits != []
    requires forall i :: 0 <= i < |digits| ==> IsDigit(digits[i])
    ensures HasSlugChar(Lower(a + digits))
    ensures var id := Slugify(a + digits, nowMs);
      |digits| <= |id| && id[|id| - |digits|..] == digits
  {
    var raw := a + digits;
    var c := CollapseRuns(Lower(a));
    CollapsedWithDigits(a, digits);
    assert HasSlugChar(Lower(raw)) by {
      assert IsSlugChar(Lower(raw)[|Lower(raw)| - 1]);
    }
    var id := Slugify(raw, nowMs);
    assert id == StripDashes(c + digits);
    StripKeepsSuffix(c, digits);
  }

  /** Lower-casing and collapsing text that ends in a dash, then digits, ends in a dash, then the digits. */
  lemma CollapsedWithDigits(a: string, digits: string)
    requires a != [] && a[|a| - 1] == '-'
    requires forall i :: 0 <= i < |digits| ==> IsDigit(digits[i])
    ensures Lower(a + digits) == Lower(a) + digits
    ensures var c := CollapseRuns(Lower(a));
      c != [] && c[|c| - 1] == '-' && CollapseRuns(Lower(a + digits)) == c + digits
  {
    LowerAppend(a, digits);
    LowerDigits(digits);
    CollapseAppendSlugChars(Lower(a), digits);
    CollapseShape(Lower(a));
  }

  /** Dropping end dashes of text that ends with a non-empty run of digits keeps that run at the end. */
  lemma StripKeepsSuffix(c: string, digits: string)
    requires c != [] && digits != []
    requires forall i :: 0 <= i < |digits| ==> IsDigit(digits[i])
    ensures var r := StripDashes(c + digits);
      |digits| <= |r| && r[|r| - |digits|..] == digits
  {
    var s := c + digits;
    var front := if s[0] == '-' then c[1..] + digits else c + digits;
    assert s[1..] == c[1..] + digits;
    assert front[|front| - 1] == digits[|digits| - 1];
    assert StripDashes(s) == front;
  }

  /** The code of a new collection: the typed code, else its name. */
  function CodeOrName(payload: CollectionPayload): string {
    if payload.code != "" then payload.code else payload.name
  }

  /** The collection created from a payload: named by the slug of its code, with no properties or documents. */
  function NewCollection(payload: CollectionPayload, nowMs: nat): (c: CollectionRecord)
    ensures c.id != [] && IsSlug(c.id)
    ensures c.name == payload.name && c.code == CodeOrName(payload)
    ensures c.regionFocus == payload.regionFocus && c.description == payload.description
    ensures c.propertyIds == [] && c.documents == []
  {
    CollectionRecord(Slugify(CodeOrName(payload), nowMs), payload.name, CodeOrName(payload),
                     payload.regionFocus, payload.description, [], [])
  }

  /** A collection created from the panel keeps the typed code and is named by its slug. */
  lemma PanelCollectionUsesCode(form: CollectionPayload, nowMs: nat)
    requires CollectionCreate(form).emitted.Some?
    ensures var c := NewCollection(CollectionCreate(form).emitted.value, nowMs);
      c.code == form.code && c.id == Slugify(form.code, nowMs)
  {
  }

  /** The collection with the patch's present fields written over it. */
  function ApplyPatch(c: CollectionRecord, patch: CollectionPatch): (r: CollectionRecord)
    ensures r.id == patch.id.GetOr(c.id) && r.name == patch.name.GetOr(c.name)
    ensures r.code == patch.code.GetOr(c.code) && r.regionFocus == patch.regionFocus.GetOr(c.regionFocus)
    ensures r.description == patch.description.GetOr(c.description)
    ensures r.propertyIds == patch.propertyIds.GetOr(c.propertyIds)
    ensures r.documents == patch.documents.GetOr(c.documents)
  {
    CollectionRecord(
      patch.id.GetOr(c.id),
      patch.name.GetOr(c.name),
      patch.code.GetOr(c.code),
      patch.regionFocus.GetOr(c.regionFocus),
      patch.description.GetOr(c.description),
      patch.propertyIds.GetOr(c.propertyIds),
      patch.documents.GetOr(c.documents))
  }

  /** Every collection with the id, patched; the others as they were. */
  function PatchCollections(collections: seq<CollectionRecord>, collectionId: string, patch: CollectionPatch)
    : (r: seq<CollectionRecord>)
    ensures |r| == |collections|
    ensures forall i :: 0 <= i < |r| ==>
      r[i] == if collections[i].id == collectionId then ApplyPatch(collections[i], patch) else collections[i]
  {
    seq(|collections|, i requires 0 <= i < |collections| =>
      if collections[i].id == collectionId then ApplyPatch(collections[i], patch) else collections[i])
  }

  /**
   * Saving the panel's collection form renames and re-describes the collection and touches
   * nothing else: every id, code, property list and document list stays.
   */
  lemma PanelSaveKeepsIdentity(collections: seq<CollectionRecord>, active: Option<CollectionRecord>,
                               form: CollectionForm)
    requires CollectionSave(active, form).Some?
    ensures var (id, patch) := CollectionSave(active, form).value;
      var r := PatchCollections(collections, id, patch);
      forall i :: 0 <= i < |r| ==>
        && r[i].id == collections[i].id && r[i].code == collections[i].code
        && r[i].propertyIds == collections[i].propertyIds && r[i].documents == collections[i].documents
        && (collections[i].id == id ==>
              r[i].name == form.name && r[i].regionFocus == form.regionFocus && r[i].description == form.description)
  {
  }

  /** The id of a generated document: `doc-` and the random suffix. */
  function DocumentId(randomPart: string): string {
    "doc-" + randomPart
  }

  /** The document stored for a payload, uploaded by the admin user today. */
  function NewDocument(payload: DocumentPayload, randomPart: string, today: string): (d: CollectionDocument)
    ensures d.id == DocumentId(randomPart) && d.uploadedBy == "Admin User" && d.uploadedAt == today
    ensures d.title == payload.title && d.docType == payload.docType && d.url == payload.url
  {
    CollectionDocument(DocumentId(randomPart), payload.title, payload.docType, "Admin User", today, payload.url)
  }

  /** Every collection with the id gets the document at the end of its list. */
  function AppendDocument(collections: seq<CollectionRecord>, collectionId: string, doc: CollectionDocument)
    : (r: seq<CollectionRecord>)
    ensures |r| == |collections|
    ensures forall i :: 0 <= i < |r| ==>
      r[i] == if collections[i].id == collectionId then collections[i].(documents := collections[i].documents + [doc])
              else collections[i]
  {
    seq(|collections|, i requires 0 <= i < |collections| =>
      if collections[i].id == collectionId then collections[i].(documents := collections[i].documents + [doc])
      else collections[i])
  }

  /** The documents without those carrying the id, in order. */
  function WithoutDocument(docs: seq<CollectionDocument>, documentId: string): (r: seq<CollectionDocument>)
    ensures |r| <= |docs|
    ensures forall d :: d in r <==> d in docs && d.id != documentId
  {
    if docs == [] then []
    else
      var rest := WithoutDocument(docs[..|docs| - 1], documentId);
      var last := docs[|docs| - 1];
      assert forall d :: d in docs <==> d in docs[..|docs| - 1] || d == last;
      if last.id != documentId then rest + [last] else rest
  }

  /**
   * The removal is a filter: it works piece by piece, keeping the order and the repeats of
   * the documents it keeps.
   */
  lemma {:induction false} WithoutDocumentKeepsOrder(a: seq<CollectionDocument>, b: seq<CollectionDocument>,
                                                     documentId: string)
    ensures WithoutDocument(a + b, documentId) == WithoutDocument(a, documentId) + WithoutDocument(b, documentId)
    ensures forall d :: WithoutDocument([d], documentId) == if d.id != documentId then [d] else []
  {
    if b != [] {
      var b0 := b[..|b| - 1];
      var x := b[|b| - 1];
      var kept := if x.id != documentId then [x] else [];
      assert (a + b)[..|a + b| - 1] == a + b0;
      assert (a + b)[|a + b| - 1] == x;
      assert WithoutDocument(a + b, documentId) == WithoutDocument(a + b0, documentId) + kept;
      assert WithoutDocument(b, documentId) == WithoutDocument(b0, documentId) + kept;
      WithoutDocumentKeepsOrder(a, b0, documentId);
    } else {
      assert a + b == a;
    }
    forall d
      ensures WithoutDocument([d], documentId) == if d.id != documentId then [d] else []
    {
      assert [d][..0] == [];
    }
  }

  /** Every collection with the id loses the documents carrying the document id. */
  function DeleteDocument(collections: seq<CollectionRecord>, collectionId: string, documentId: string)
    : (r: seq<CollectionRecord>)
    ensures |r| == |collections|
    ensures forall i :: 0 <= i < |r| ==>
      r[i] == if collections[i].id == collectionId
              then collections[i].(documents := WithoutDocument(collections[i].documents, documentId))
              else collections[i]
  {
    seq(|collections|, i requires 0 <= i < |collections| =>
      if collections[i].id == collectionId
      then collections[i].(documents := WithoutDocument(collections[i].documents, documentId))
      else collections[i])
  }

  /** Removing an id no document carries changes nothing. */
  lemma {:induction false} WithoutAbsentDocument(docs: seq<CollectionDocument>, documentId: string)
    requires forall d :: d in docs ==> d.id != documentId
    ensures WithoutDocument(docs, documentId) == docs
  {
    if docs != [] {
      WithoutAbsentDocument(docs[..|docs| - 1], documentId);
      assert docs == docs[..|docs| - 1] + [docs[|docs| - 1]];
    }
  }

  /** Deleting a just-added document whose id was new restores the collections. */
  lemma AddThenDeleteRestores(collections: seq<CollectionRecord>, collectionId: string, doc: CollectionDocument)
    requires forall c :: c in collections && c.id == collectionId ==> forall d :: d in c.documents ==> d.id != doc.id
    ensures DeleteDocument(AppendDocument(collections, collectionId, doc), collectionId, doc.id) == collections
  {
    var added := AppendDocument(collections, collectionId, doc);
    var r := DeleteDocument(added, collectionId, doc.id);
    forall i | 0 <= i < |collections|
      ensures r[i] == collections[i]
    {
      if collections[i].id == collectionId {
        var docs := collections[i].documents;
        assert collections[i] in collections;
        WithoutAbsentDocument(docs, doc.id);
        assert (docs + [doc])[..|docs|] == docs;
      }
    }
  }

  /** After a delete, no document of the collection carries the id. */
  lemma DeleteRemovesDocument(collections: seq<CollectionRecord>, collectionId: string, documentId: string, i: nat)
    requires i < |collections| && collections[i].id == collectionId
    ensures forall d :: d in DeleteDocument(collections, collectionId, documentId)[i].documents ==> d.id != documentId
  {
  }

  /** The property created from a payload, in the collection with the id. */
  function NewProperty(collections: seq<CollectionRecord>, collectionId: string, payload: PropertyPayload, nowMs: nat)
    : (p: PropertyRecord)
    ensures p.id == PropertyId(collectionId, payload.name, nowMs)
    ensures p.code == Upper(payload.name[..if |payload.name| < 3 then |payload.name| else 3])
    ensures p.collectionId == collectionId
    ensures var found := FindCollection(collections, collectionId);
      && p.collectionName == (if found.Some? then found.value.name else Upper(collectionId))
      && p.collectionType == (if found.Some? then found.value.code else Upper(collectionId))
    ensures p.name == payload.name && p.productType == payload.productType && p.region == payload.region
    ensures p.pm == payload.pm && p.priority == payload.priority && p.groupClosingDate == payload.groupClosingDate
    ensures p.stageActuals == [] && p.riskNotes == Some("") && p.customDurations == map[]
  {
    var found := FindCollection(collections, collectionId);
    PropertyRecord(
      PropertyId(collectionId, payload.name, nowMs),
      payload.name,
      Upper(payload.name[..if |payload.name| < 3 then |payload.name| else 3]),
      collectionId,
      if found.Some? then found.value.name else Upper(collectionId),
      if found.Some? then found.value.code else Upper(collectionId),
      payload.productType,
      payload.region,
      payload.pm,
      [],
      payload.groupClosingDate,
      payload.priority,
      Some(""),
      map[])
  }

  /** Every collection with the id lists the property id at the end. */
  function AddPropertyId(collections: seq<CollectionRecord>, collectionId: string, propertyId: string)
    : (r: seq<CollectionRecord>)
    ensures |r| == |collections|
    ensures forall i :: 0 <= i < |r| ==>
      r[i] == if collections[i].id == collectionId
              then collections[i].(propertyIds := collections[i].propertyIds + [propertyId])
              else collections[i]
  {
    seq(|collections|, i requires 0 <= i < |collections| =>
      if collections[i].id == collectionId
      then collections[i].(propertyIds := collections[i].propertyIds + [propertyId])
      else collections[i])
  }

  /** A new property whose collection's code names a rule set is built against that rule set. */
  lemma NewPropertyUsesCollectionRules(collections: seq<CollectionRecord>, collectionId: string,
                                       payload: PropertyPayload, nowMs: nat, ruleSets: seq<RuleSet>, i: nat)
    requires FindCollection(collections, collectionId).Some?
    requires i < |ruleSets|
    requires ruleSets[i].collectionType == FindCollection(collections, collectionId).value.code
    requires ruleSets[i].region == payload.region
    requires forall j :: 0 <= j < i ==>
      !(ruleSets[j].collectionType == ruleSets[i].collectionType && ruleSets[j].region == payload.region)
    ensures var p := NewProperty(collections, collectionId, payload, nowMs);
      SelectRuleSet(ruleSets, p.collectionType, p.region) == Some(ruleSets[i])
  {
    var p := NewProperty(collections, collectionId, payload, nowMs);
    FirstMatchingRuleSetIsFirst(ruleSets, p.collectionType, p.region, i);
  }

  /**
   * A property added to an existing collection is listed under it, and the panel shows it
   * among that collection's properties.
   */
  lemma AddedPropertyIsListed(collections: seq<CollectionRecord>, properties: seq<PropertyRecord>,
                              collectionId: string, payload: PropertyPayload, nowMs: nat, i: nat)
    requires i < |collections| && collections[i].id == collectionId
    ensures var p := NewProperty(collections, collectionId, payload, nowMs);
      var c := AddPropertyId(collections, collectionId, p.id)[i];
      && c.propertyIds == collections[i].propertyIds + [p.id]
      && p in CollectionProperties(properties + [p], Some(c))
  {
  }

  /** Every property with the id takes the durations as its overrides. */
  function SetCustomDurations(properties: seq<PropertyRecord>, propertyId: string, durations: map<StageKey, nat>)
    : (r: seq<PropertyRecord>)
    ensures |r| == |properties|
    ensures forall i :: 0 <= i < |r| ==>
      r[i] == if properties[i].id == propertyId then properties[i].(customDurations := durations) else properties[i]
  {
    seq(|properties|, i requires 0 <= i < |properties| =>
      if properties[i].id == propertyId then properties[i].(customDurations := durations) else properties[i])
  }

  /** Every rule set for the collection type and region takes the durations as its defaults. */
  function SetRuleDurations(ruleSets: seq<RuleSet>, collectionType: string, region: string,
                            durations: map<StageKey, nat>): (r: seq<RuleSet>)
    ensures |r| == |ruleSets|
    ensures forall i :: 0 <= i < |r| ==>
      r[i] == if ruleSets[i].collectionType == collectionType && ruleSets[i].region == region
              then ruleSets[i].(durationsWeeks := durations) else ruleSets[i]
  {
    seq(|ruleSets|, i requires 0 <= i < |ruleSets| =>
      if ruleSets[i].collectionType == collectionType && ruleSets[i].region == region
      then ruleSets[i].(durationsWeeks := durations) else ruleSets[i])
  }

  /**
   * Saved durations are what the panel shows next and what the timeline builds with: a
   * property given a duration for every stage shows exactly those, and stage `j` of its
   * timeline lasts the saved number of weeks, against any rule set.
   */
  lemma SavedDurationsTakeEffect(properties: seq<PropertyRecord>, payload: DurationPayload, i: nat,
                                 ruleSets: seq<RuleSet>, rule: RuleSet, now: int, j: nat)
    requires forall k: StageKey :: k in payload.durations
    requires i < |properties| && properties[i].id == payload.propertyId && j < |Catalog|
    ensures var p := SetCustomDurations(properties, payload.propertyId, payload.durations)[i];
      && BuildDurationMap(Some(p), ruleSets) == payload.durations
      && Covers(p, rule)
      && TimelineOf(p, rule, now).stages[j].durationWeeks == payload.durations[Catalog[j].key]
  {
    var p := SetCustomDurations(properties, payload.propertyId, payload.durations)[i];
    FullOverridesShown(p, ruleSets);
    TimelineProperties.DurationPrecedence(p, rule, now, j);
  }

  /** With the rule-set switch on, the rule set that applies to the pair afterwards carries the durations. */
  lemma {:induction false} RuleDurationsApply(ruleSets: seq<RuleSet>, collectionType: string, region: string,
                                             durations: map<StageKey, nat>)
    requires exists rule :: rule in ruleSets && rule.collectionType == collectionType && rule.region == region
    ensures var r := SelectRuleSet(SetRuleDurations(ruleSets, collectionType, region, durations), collectionType, region);
      r.Some? && r.value.durationsWeeks == durations
  {
    var updated := SetRuleDurations(ruleSets, collectionType, region, durations);
    var rule :| rule in ruleSets && rule.collectionType == collectionType && rule.region == region;
    var k :| 0 <= k < |ruleSets| && ruleSets[k] == rule;
    assert updated[k] in updated && updated[k].collectionType == collectionType && updated[k].region == region;
  }

  /** The admin workspace's records, changed in place by the panel's handlers. */
  class Workspace {
    var collections: seq<CollectionRecord>
    var properties: seq<PropertyRecord>
    var ruleSets: seq<RuleSet>

    constructor(collections0: seq<CollectionRecord>, properties0: seq<PropertyRecord>, ruleSets0: seq<RuleSet>)
      ensures collections == collections0 && properties == properties0 && ruleSets == ruleSets0
    {
      collections := collections0;
      properties := properties0;
      ruleSets := ruleSets0;
    }

    /** Appends the collection made from the payload. */
    method CreateCollection(payload: CollectionPayload, nowMs: nat)
      modifies this
      ensures collections == old(collections) + [NewCollection(payload, nowMs)]
      ensures properties == old(properties) && ruleSets == old(ruleSets)
    {
      collections := collections + [NewCollection(payload, nowMs)];
    }

    /** Patches every collection with the id. */
    method UpdateCollection(collectionId: string, patch: CollectionPatch)
      modifies this
      ensures collections == PatchCollections(old(collections), collectionId, patch)
      ensures properties == old(properties) && ruleSets == old(ruleSets)
    {
      collections := PatchCollections(collections, collectionId, patch);
    }

    /** Adds a document, uploaded today by the admin user, to every collection with the id. */
    method AddDocument(collectionId: string, payload: DocumentPayload, randomPart: string, today: string)
      modifies this
      ensures collections == AppendDocument(old(collections), collectionId, NewDocument(payload, randomPart, today))
      ensures properties == old(properties) && ruleSets == old(ruleSets)
    {
      collections := AppendDocument(collections, collectionId, NewDocument(payload, randomPart, today));
    }

    /** Removes the documents with the document id from every collection with the id. */
    method DeleteDocumentFrom(collectionId: string, documentId: string)
      modifies this
      ensures collections == DeleteDocument(old(collections), collectionId, documentId)
      ensures properties == old(properties) && ruleSets == old(ruleSets)
    {
      collections := DeleteDocument(collections, collectionId, documentId);
    }

    /** Appends the new property and lists its id in every collection with the collection id. */
    method AddProperty(collectionId: string, payload: PropertyPayload, nowMs: nat)
      modifies this
      ensures var p := NewProperty(old(collections), collectionId, payload, nowMs);
        && properties == old(properties) + [p]
        && collections == AddPropertyId(old(collections), collectionId, p.id)
      ensures ruleSets == old(ruleSets)
    {
      var p := NewProperty(collections, collectionId, payload, nowMs);
      properties := properties + [p];
      collections := AddPropertyId(collections, collectionId, p.id);
    }

    /** Stores the durations as the property's overrides and, when asked, as its rule set's defaults. */
    method UpdatePropertyDurations(payload: DurationPayload)
      modifies this
      ensures properties == SetCustomDurations(old(properties), payload.propertyId, payload.durations)
      ensures payload.applyToRuleSet ==>
        ruleSets == SetRuleDurations(old(ruleSets), payload.collectionType, payload.region, payload.durations)
      ensures !payload.applyToRuleSet ==> ruleSets == old(ruleSets)
      ensures collections == old(collections)
    {
      properties := SetCustomDurations(properties, payload.propertyId, payload.durations);
      if payload.applyToRuleSet {
        ruleSets := SetRuleDurations(ruleSets, payload.collectionType, payload.region, payload.durations);
      }
    }
  }
}
