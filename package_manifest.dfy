/**
 * The inventory ("опись") of a document package (src/package_manifest.py):
 * one item per requirement, each matched against the documents on hand,
 * with its completion status, source, notes, and the package metrics.
 *
 * Exporting, the directory layout, copying and archiving are left out; the
 * manifest id and the creation time are parameters.
 */
module PackageManifest {
  import opened Wrappers
  import opened Text
  import opened Sequences
  import opened Percentages

  const StatusNotPrepared := "not_prepared"
  const StatusFromTemplate := "from_template"
  const StatusProvided := "provided"
  const StatusMissing := "missing"

  const UnknownDocument := "Неизвестный документ"
  const MandatoryMissingNote := "ТРЕБУЕТСЯ: обязательный документ отсутствует"
  const OptionalMissingNote := "Опциональный документ не предоставлен"
  const FromTemplateNote := "Скопирован из каталога типовых документов"
  const ExpiringNote := "Внимание: срок действия скоро истекает"

  /** A requirement from the analysis: the keys the manifest reads. */
  datatype Requirement = Requirement(
    id: Option<string>, name: Option<string>, mandatory: Option<bool>,
    category: Option<string>, format: Option<string>, validity: Option<string>)
  {
    /** `requirement.get("name", "").lower()`, the name matching uses. */
    function LowerName(): string { Lower(name.GetOr("")) }
    /** `req.get("mandatory", True)`, the flag the item records. */
    predicate IsMandatory() { mandatory.GetOr(true) }
  }

  /**
   * A document on hand. Flags hold what `get` returns; only `Some(true)`
   * is truthy.
   */
  datatype Document = Document(
    name: Option<string>, sourceType: Option<string>, filePath: Option<string>, targetPath: Option<string>,
    fromTemplate: Option<bool>, userUploaded: Option<bool>, expiringSoon: Option<bool>,
    otherKeys: seq<(string, string)>)
  {
    function LowerName(): string { Lower(name.GetOr("")) }
    /** The dict `{}`, which Python treats as false. */
    predicate IsEmptyDict() {
      name.None? && sourceType.None? && filePath.None? && targetPath.None?
      && fromTemplate.None? && userUploaded.None? && expiringSoon.None? && otherKeys == []
    }
  }

  /** One line of the inventory. */
  datatype Item = Item(
    position: nat, documentId: string, documentName: string, kind: string, mandatory: bool,
    completionStatus: string, sourceType: string, sourcePath: string, targetPath: string,
    linkedRequirements: seq<string>, notes: string, format: string, validityRequirements: string)

  /** The figures `_calculate_metrics` returns. */
  datatype Metrics = Metrics(
    totalDocuments: nat, mandatoryDocuments: nat, providedDocuments: nat, mandatoryProvided: nat,
    completenessPercentage: real, missingMandatory: int, missingOptional: int)

  /** The dict `create_manifest` returns. */
  datatype Manifest = Manifest(
    manifestId: string, procurementInfo: seq<(string, string)>, createdAt: string,
    items: seq<Item>, metrics: Metrics, totalDocuments: nat)

  // ---------------------------------------------------------------------
  // _find_matching_document
  // ---------------------------------------------------------------------

  /** The position of the first document whose name is related to `reqName`, or `|documents|`. */
  function FirstRelated(reqName: string, documents: seq<Document>): (i: nat)
    ensures i <= |documents|
    ensures i < |documents| ==> Related(reqName, documents[i].LowerName())
    ensures forall j :: 0 <= j < i ==> !Related(reqName, documents[j].LowerName())
    decreases |documents|
  {
    if documents == [] then 0
    else if Related(reqName, documents[0].LowerName()) then 0
    else 1 + FirstRelated(reqName, documents[1..])
  }

  /** What `_find_matching_document` returns. */
  function MatchingDocument(req: Requirement, documents: seq<Document>): Option<Document> {
    var i := FirstRelated(req.LowerName(), documents);
    if i < |documents| then Some(documents[i]) else None
  }

  /** `_find_matching_document`: the loop returns at the first related document. */
  method FindMatchingDocument(req: Requirement, documents: seq<Document>) returns (r: Option<Document>)
    ensures r == MatchingDocument(req, documents)
  {
    var reqName := Lower(req.name.GetOr(""));
    for k := 0 to |documents|
      invariant forall j :: 0 <= j < k ==> !Related(reqName, documents[j].LowerName())
    {
      var docName := Lower(documents[k].name.GetOr(""));
      if Contains(docName, reqName) || Contains(reqName, docName) {
        FirstRelatedAt(reqName, documents, k);
        return Some(documents[k]);
      }
    }
    FirstRelatedNone(reqName, documents);
    return None;
  }

  lemma FirstRelatedAt(reqName: string, documents: seq<Document>, k: nat)
    requires k < |documents| && Related(reqName, documents[k].LowerName())
    requires forall j :: 0 <= j < k ==> !Related(reqName, documents[j].LowerName())
    ensures FirstRelated(reqName, documents) == k
  {
  }

  lemma FirstRelatedNone(reqName: string, documents: seq<Document>)
    requires forall j :: 0 <= j < |documents| ==> !Related(reqName, documents[j].LowerName())
    ensures FirstRelated(reqName, documents) == |documents|
  {
  }

  /**
   * The match is the first document related to the requirement's name,
   * and there is none exactly when no document is related.
   */
  lemma MatchingDocumentIsFirst(req: Requirement, documents: seq<Document>)
    ensures MatchingDocument(req, documents).None? <==>
      forall j :: 0 <= j < |documents| ==> !Related(req.LowerName(), documents[j].LowerName())
    ensures MatchingDocument(req, documents).Some? ==>
      exists i :: 0 <= i < |documents| && MatchingDocument(req, documents) == Some(documents[i])
        && Related(req.LowerName(), documents[i].LowerName())
        && forall j :: 0 <= j < i ==> !Related(req.LowerName(), documents[j].LowerName())
  {
    var i := FirstRelated(req.LowerName(), documents);
    if i < |documents| {
      assert !Related(req.LowerName(), documents[i].LowerName()) ==> false;
    }
  }

  /** A requirement without "name" looks for "", which every name contains: the first document matches. */
  lemma UnnamedMatchesFirst(req: Requirement, documents: seq<Document>)
    requires req.name.None? && documents != []
    ensures MatchingDocument(req, documents) == Some(documents[0])
  {
    assert req.LowerName() == [];
    ContainsEmpty(documents[0].LowerName());
  }

  // ---------------------------------------------------------------------
  // Status, source and notes of an item
  // ---------------------------------------------------------------------

  /** `if matched_doc:`, false for no match and for the empty dict. */
  predicate Truthy(m: Option<Document>) {
    m.Some? && !m.value.IsEmptyDict()
  }

  /** `completion_status`: the document's own source type, or "missing"/"not_prepared" without one. */
  function CompletionStatus(req: Requirement, m: Option<Document>): (s: string)
    ensures Truthy(m) && m.value.sourceType.None? ==> s == StatusProvided
    ensures !Truthy(m) ==> (s == StatusMissing <==> req.IsMandatory())
    ensures !Truthy(m) ==> (s == StatusNotPrepared <==> !req.IsMandatory())
  {
    if Truthy(m) then m.value.sourceType.GetOr(StatusProvided)
    else if req.IsMandatory() then StatusMissing else StatusNotPrepared
  }

  /** `_determine_source_type`. */
  function SourceType(m: Option<Document>): (s: string)
    ensures !Truthy(m) ==> s == "not_found"
    ensures Truthy(m) && m.value.sourceType.GetOr("") != "" ==> s == m.value.sourceType.value
    ensures s != ""
  {
    if !Truthy(m) then "not_found"
    else if m.value.sourceType.GetOr("") != "" then m.value.sourceType.value
    else if m.value.fromTemplate == Some(true) then "template_library"
    else if m.value.userUploaded == Some(true) then "user_provided"
    else "from_KD"
  }

  /**
   * Without a source type of its own, a document is classified by the first
   * of its flags that is set: from_template, then user_uploaded.
   */
  lemma SourceTypeFlags(d: Document)
    requires !d.IsEmptyDict() && d.sourceType.GetOr("") == ""
    ensures SourceType(Some(d)) == "template_library" <==> d.fromTemplate == Some(true)
    ensures SourceType(Some(d)) == "user_provided" <==> d.fromTemplate != Some(true) && d.userUploaded == Some(true)
    ensures SourceType(Some(d)) == "from_KD" <==> d.fromTemplate != Some(true) && d.userUploaded != Some(true)
  {
  }

  /** The notes that apply, before they are joined. */
  function NoteList(req: Requirement, m: Option<Document>): (ns: seq<string>)
    ensures !Truthy(m) ==> |ns| == 1
    ensures Truthy(m) ==> |ns| <= 2
  {
    if !Truthy(m) then
      [if req.mandatory == Some(true) then MandatoryMissingNote else OptionalMissingNote]
    else
      (if m.value.fromTemplate == Some(true) then [FromTemplateNote] else [])
      + (if m.value.expiringSoon == Some(true) then [ExpiringNote] else [])
  }

  /** `_generate_notes`: the notes joined with "; ", "" when there are none. */
  function Notes(req: Requirement, m: Option<Document>): string {
    Join(NoteList(req, m), "; ")
  }

  /**
   * The notes of a matched document name what is set among from_template
   * and expiring_soon, in that order; an unmatched requirement gets one
   * note, the mandatory one only when "mandatory" is present and true.
   */
  lemma NotesCases(req: Requirement, m: Option<Document>)
    ensures !Truthy(m) ==> Notes(req, m) == (if req.mandatory == Some(true) then MandatoryMissingNote else OptionalMissingNote)
    ensures Truthy(m) ==>
      var t, e := m.value.fromTemplate == Some(true), m.value.expiringSoon == Some(true);
      Notes(req, m) == (if t && e then FromTemplateNote + "; " + ExpiringNote
                        else if t then FromTemplateNote
                        else if e then ExpiringNote
                        else "")
  {
    if Truthy(m) && m.value.fromTemplate == Some(true) && m.value.expiringSoon == Some(true) {
      var ns := NoteList(req, m);
      assert ns == [FromTemplateNote, ExpiringNote];
      assert ns[1..] == [ExpiringNote];
      assert Join(ns, "; ") == ns[0] + "; " + Join(ns[1..], "; ");
    }
  }

  /**
   * An unmatched requirement without "mandatory" counts as mandatory for its
   * status ("missing") but gets the note of an optional document.
   */
  lemma AbsentMandatoryDisagrees(req: Requirement, m: Option<Document>)
    requires req.mandatory.None? && !Truthy(m)
    ensures CompletionStatus(req, m) == StatusMissing
    ensures Notes(req, m) == OptionalMissingNote
  {
    NotesCases(req, m);
  }

  // ---------------------------------------------------------------------
  // create_manifest
  // ---------------------------------------------------------------------

  /** `f"REQ-{position:03d}"`. */
  function DefaultId(position: nat): string {
    "REQ-" + PadLeft(NatToString(position), 3, '0')
  }

  /** `req.get("id", f"REQ-{position:03d}")`. */
  function RequirementId(req: Requirement, position: nat): string {
    req.id.GetOr(DefaultId(position))
  }

  /** The item `create_manifest` builds for `req` at `position`. */
  function ManifestItem(req: Requirement, position: nat, documents: seq<Document>): Item {
    var m := MatchingDocument(req, documents);
    var id := RequirementId(req, position);
    Item(
      position, id, req.name.GetOr(UnknownDocument), req.category.GetOr("other"), req.IsMandatory(),
      CompletionStatus(req, m), SourceType(m),
      if Truthy(m) then m.value.filePath.GetOr("") else "",
      if Truthy(m) then m.value.targetPath.GetOr("") else "",
      [id], Notes(req, m), req.format.GetOr(""), req.validity.GetOr(""))
  }

  /** The items of the inventory: requirement `k` at position `k + 1`. */
  function ManifestItems(requirements: seq<Requirement>, documents: seq<Document>): (items: seq<Item>)
    ensures |items| == |requirements|
  {
    seq(|requirements|, k requires 0 <= k < |requirements| => ManifestItem(requirements[k], k + 1, documents))
  }

  /** The body of the loop in `create_manifest`: the item for `req` at `position`. */
  method BuildItem(req: Requirement, position: nat, documents: seq<Document>) returns (item: Item)
    ensures item == ManifestItem(req, position, documents)
  {
    var reqId := req.id.GetOr(DefaultId(position));
    var reqName := req.name.GetOr(UnknownDocument);
    var mandatory := req.mandatory.GetOr(true);
    var matched := FindMatchingDocument(req, documents);
    var status, sourcePath, targetPath;
    if matched.Some? && !matched.value.IsEmptyDict() {
      status := matched.value.sourceType.GetOr(StatusProvided);
      sourcePath := matched.value.filePath.GetOr("");
      targetPath := matched.value.targetPath.GetOr("");
    } else {
      status := if mandatory then StatusMissing else StatusNotPrepared;
      sourcePath := "";
      targetPath := "";
    }
    item := Item(
      position, reqId, reqName, req.category.GetOr("other"), mandatory, status, SourceType(matched),
      sourcePath, targetPath, [reqId], Notes(req, matched), req.format.GetOr(""), req.validity.GetOr(""));
  }

  /** The loop of `create_manifest`: a running position and one item appended per requirement. */
  method BuildItems(documents: seq<Document>, requirements: seq<Requirement>) returns (items: seq<Item>)
    ensures items == ManifestItems(requirements, documents)
  {
    items := [];
    var position := 0;
    for k := 0 to |requirements|
      invariant position == k && |items| == k
      invariant forall j :: 0 <= j < k ==> items[j] == ManifestItem(requirements[j], j + 1, documents)
    {
      position := position + 1;
      var item := BuildItem(requirements[k], position, documents);
      AppendItem(items, item, requirements, documents);
      items := items + [item];
    }
  }

  lemma AppendItem(items: seq<Item>, item: Item, requirements: seq<Requirement>, documents: seq<Document>)
    requires |items| < |requirements|
    requires forall j :: 0 <= j < |items| ==> items[j] == ManifestItem(requirements[j], j + 1, documents)
    requires item == ManifestItem(requirements[|items|], |items| + 1, documents)
    ensures forall j :: 0 <= j < |items| + 1 ==> (items + [item])[j] == ManifestItem(requirements[j], j + 1, documents)
  {
  }

  /** `create_manifest`, with the manifest id and the time stamp given. */
  method CreateManifest(documents: seq<Document>, requirements: seq<Requirement>,
                        procurementInfo: Option<seq<(string, string)>>, manifestId: string, createdAt: string)
    returns (manifest: Manifest)
    ensures var items := ManifestItems(requirements, documents);
      manifest == Manifest(manifestId, procurementInfo.GetOr([]), createdAt, items, MetricsOf(items), |requirements|)
  {
    var items := BuildItems(documents, requirements);
    var metrics := MetricsOf(items);
    manifest := Manifest(manifestId, procurementInfo.GetOr([]), createdAt, items, metrics, |items|);
  }

  /**
   * One item per requirement, in order, at positions 1..n; each item links
   * exactly its own id, which defaults to "REQ-" and the three-digit
   * position, and its name defaults to "Неизвестный документ".
   */
  lemma ManifestShape(requirements: seq<Requirement>, documents: seq<Document>)
    ensures var items := ManifestItems(requirements, documents);
      |items| == |requirements|
      && forall k :: 0 <= k < |items| ==>
        items[k].position == k + 1
        && items[k].linkedRequirements == [items[k].documentId]
        && items[k].documentId == requirements[k].id.GetOr(DefaultId(k + 1))
        && items[k].documentName == requirements[k].name.GetOr(UnknownDocument)
        && items[k].mandatory == requirements[k].IsMandatory()
  {
  }

  /** Requirements without an id get pairwise distinct default ids. */
  lemma DefaultIdsDistinct(requirements: seq<Requirement>, documents: seq<Document>)
    requires forall k :: 0 <= k < |requirements| ==> requirements[k].id.None?
    ensures forall i, j :: 0 <= i < j < |requirements| ==>
      ManifestItems(requirements, documents)[i].documentId != ManifestItems(requirements, documents)[j].documentId
  {
    forall i, j | 0 <= i < j < |requirements|
      ensures ManifestItems(requirements, documents)[i].documentId != ManifestItems(requirements, documents)[j].documentId
    {
      ItemIdAt(requirements, documents, i);
      ItemIdAt(requirements, documents, j);
      assert requirements[i].id.None? && requirements[j].id.None?;
      DefaultIdInjective(i + 1, j + 1);
    }
  }

  lemma ItemIdAt(requirements: seq<Requirement>, documents: seq<Document>, k: nat)
    requires k < |requirements|
    ensures ManifestItems(requirements, documents)[k].documentId == RequirementId(requirements[k], k + 1)
  {
  }

  /** Default ids of different positions differ. */
  lemma DefaultIdInjective(a: nat, b: nat)
    requires a != b
    ensures DefaultId(a) != DefaultId(b)
  {
    var x, y := PadLeft(NatToString(a), 3, '0'), PadLeft(NatToString(b), 3, '0');
    if "REQ-" + x == "REQ-" + y {
      assert ("REQ-" + x)[4..] == x && ("REQ-" + y)[4..] == y;
      ZeroPaddedInjective(a, b, 3);
    }
  }

  // ---------------------------------------------------------------------
  // _calculate_metrics
  // ---------------------------------------------------------------------

  /** Status "provided" or "from_template". */
  predicate IsProvided(i: Item) {
    i.completionStatus == StatusProvided || i.completionStatus == StatusFromTemplate
  }

  predicate IsMandatoryItem(i: Item) { i.mandatory }
  predicate MandatoryProvided(i: Item) { i.mandatory && IsProvided(i) }
  predicate MandatoryMissing(i: Item) { i.mandatory && !IsProvided(i) }
  predicate OptionalMissing(i: Item) { !i.mandatory && !IsProvided(i) }

  /** `_calculate_metrics`, with the percentage kept exact. */
  function MetricsOf(items: seq<Item>): Metrics {
    var mandatory := CountIf(items, IsMandatoryItem);
    var provided := CountIf(items, IsProvided);
    var mandatoryProvided := CountIf(items, MandatoryProvided);
    Metrics(
      |items|, mandatory, provided, mandatoryProvided,
      if mandatory > 0 then ExactPercent(mandatoryProvided, mandatory) else 100.0,
      mandatory - mandatoryProvided,
      |items| - mandatory - (provided - mandatoryProvided))
  }

  /** How the four counts relate, item by item. */
  lemma {:induction false} ItemCounts(items: seq<Item>)
    ensures CountIf(items, IsMandatoryItem) == CountIf(items, MandatoryProvided) + CountIf(items, MandatoryMissing)
    ensures |items| == CountIf(items, IsMandatoryItem) + CountIf(items, IsProvided)
      - CountIf(items, MandatoryProvided) + CountIf(items, OptionalMissing)
    ensures CountIf(items, MandatoryProvided) <= CountIf(items, IsProvided)
  {
    if items != [] {
      ItemCounts(items[..|items| - 1]);
    }
  }

  /**
   * missing_mandatory counts the mandatory items not provided and
   * missing_optional the optional items not provided, so neither is
   * negative; the percentage lies in [0, 100] and is 100 exactly when no
   * mandatory item is missing.
   */
  lemma MetricsMeaning(items: seq<Item>)
    ensures var m := MetricsOf(items);
      m.missingMandatory == CountIf(items, MandatoryMissing)
      && m.missingOptional == CountIf(items, OptionalMissing)
      && m.mandatoryProvided <= m.mandatoryDocuments
      && m.mandatoryProvided <= m.providedDocuments
      && 0.0 <= m.completenessPercentage <= 100.0
      && (m.completenessPercentage == 100.0 <==> m.missingMandatory == 0)
  {
    ItemCounts(items);
    var m := MetricsOf(items);
    if m.mandatoryDocuments > 0 {
      ExactPercentRange(m.mandatoryProvided, m.mandatoryDocuments);
    }
  }

}
