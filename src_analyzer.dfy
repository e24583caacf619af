/**
 * The command-line analyzer (src/analyzer.py): it cuts the JSON object out
 * of the language model's answer and checks a list of supplied document
 * descriptions against the required documents.
 *
 * The model call is left out; `analyze` is modelled from the answer text
 * on, with the JSON decoder as an uninterpreted `parse` function.
 */
module Analyzer {
  import opened Wrappers
  import opened Text
  import opened Percentages

  // ---------------------------------------------------------------------
  // The JSON slice of `analyze`
  // ---------------------------------------------------------------------

  const NoJsonMessage := "JSON не найден в ответе модели"
  const BadJsonMessage := "JSON decode error"

  /**
   * `text[text.find('{') : text.rfind('}') + 1]` when the first '{' comes
   * before the last '}', otherwise the ValueError the source raises.
   */
  function JsonSlice(text: string): (r: Result<string, string>)
    ensures r.Err? <==> Find(text, "{") < 0 || RFind(text, "}") < Find(text, "{")
    ensures r.Err? ==> r.error == NoJsonMessage
    ensures r.Ok? ==> |r.value| >= 2 && r.value[0] == '{' && r.value[|r.value| - 1] == '}'
  {
    var start := Find(text, "{");
    var end := RFind(text, "}") + 1;
    if start >= 0 && end > start then
      assert OccursAt(text, "}", end - 1) && OccursAt(text, "{", start);
      assert text[end - 1] != '{';
      Ok(text[start..end])
    else Err(NoJsonMessage)
  }

  /**
   * The slice is the answer with a prefix holding no '{' and a suffix
   * holding no '}' removed: the widest such cut.
   */
  lemma JsonSliceCut(text: string)
    requires JsonSlice(text).Ok?
    ensures exists pre, post ::
      text == pre + JsonSlice(text).value + post
      && (forall k :: 0 <= k < |pre| ==> pre[k] != '{')
      && (forall k :: 0 <= k < |post| ==> post[k] != '}')
  {
    var start := Find(text, "{");
    var end := RFind(text, "}") + 1;
    CutBetween(text, start, end, '{', '}');
  }

  /**
   * Cutting `text` at `start` and `end` leaves a prefix without `open` and a
   * suffix without `close` when neither occurs there.
   */
  lemma CutBetween(text: string, start: nat, end: nat, open: char, close: char)
    requires start <= end <= |text|
    requires forall j :: 0 <= j < start ==> !OccursAt(text, [open], j)
    requires forall j :: end - 1 < j ==> !OccursAt(text, [close], j)
    ensures exists pre, post ::
      text == pre + text[start..end] + post
      && (forall k :: 0 <= k < |pre| ==> pre[k] != open)
      && (forall k :: 0 <= k < |post| ==> post[k] != close)
  {
    var pre, post := text[..start], text[end..];
    forall k | 0 <= k < |pre|
      ensures pre[k] != open
    {
      NotAt(text, open, k);
    }
    forall k | 0 <= k < |post|
      ensures post[k] != close
    {
      NotAt(text, close, end + k);
    }
    assert text == pre + text[start..end] + post;
  }

  lemma NotAt(text: string, c: char, k: nat)
    requires k < |text| && !OccursAt(text, [c], k)
    ensures text[k] != c
  {
    assert text[k..k + 1] == [text[k]];
  }

  /**
   * The result of `analyze` from the model's answer on: the slice decoded,
   * or the error the source re-raises.
   */
  function AnalyzeAnswer<J>(text: string, parse: string -> Option<J>): (r: Result<J, string>)
    ensures r.Ok? <==> JsonSlice(text).Ok? && parse(JsonSlice(text).value).Some?
    ensures r.Ok? ==> Some(r.value) == parse(JsonSlice(text).value)
  {
    match JsonSlice(text)
    case Err(e) => Err(e)
    case Ok(slice) =>
      match parse(slice)
      case None => Err(BadJsonMessage)
      case Some(j) => Ok(j)
  }

  /** An answer that is itself one JSON object, with nothing around it, is decoded whole. */
  lemma AnalyzeBareObject<J>(body: string, parse: string -> Option<J>)
    requires forall k :: 0 <= k < |body| ==> body[k] != '{' && body[k] != '}'
    ensures JsonSlice("{" + body + "}") == Ok("{" + body + "}")
    ensures AnalyzeAnswer("{" + body + "}", parse).Ok? <==> parse("{" + body + "}").Some?
  {
    var text := "{" + body + "}";
    assert OccursAt(text, "{", 0);
    assert OccursAt(text, "}", |text| - 1);
    forall j | |text| - 1 < j
      ensures !OccursAt(text, "}", j)
    {
    }
    assert RFind(text, "}") == |text| - 1;
    assert text[0..|text|] == text;
  }

  // ---------------------------------------------------------------------
  // verify_documents
  // ---------------------------------------------------------------------

  /**
   * A required document as `verify_documents` reads it. The source raises
   * KeyError for a matched dict without "name", so a name is always present.
   */
  datatype Requirement = Requirement(id: Option<string>, name: string, mandatory: Option<bool>)
  {
    /** `req_doc.get("id", "")`. */
    function Id(): string { id.GetOr("") }
    /** `req_doc.get("mandatory", True)`. */
    predicate IsMandatory() { mandatory.GetOr(true) }
  }

  /** An entry of `verification["provided"]`; its status is always "provided". */
  datatype ProvidedDoc = ProvidedDoc(docId: string, name: string)

  const ProvidedStatus := "provided"

  /** The dict `verify_documents` returns. */
  datatype Verification = Verification(
    provided: seq<ProvidedDoc>,
    missingCritical: seq<string>,
    missingOptional: seq<string>,
    completenessScore: nat)

  /** `any(doc_name in prov or prov in doc_name for prov in provided_normalized)`. */
  predicate AnyRelated(docName: string, normalized: seq<string>) {
    normalized != [] && (Related(docName, normalized[0]) || AnyRelated(docName, normalized[1..]))
  }

  lemma {:induction false} AnyRelatedIff(docName: string, normalized: seq<string>)
    ensures AnyRelated(docName, normalized) <==> exists k :: 0 <= k < |normalized| && Related(docName, normalized[k])
    decreases |normalized|
  {
    if normalized != [] {
      AnyRelatedIff(docName, normalized[1..]);
      if !Related(docName, normalized[0]) && !AnyRelated(docName, normalized[1..]) {
        forall k | 0 <= k < |normalized|
          ensures !Related(docName, normalized[k])
        {
          if k > 0 {
            assert normalized[k] == normalized[1..][k - 1];
          }
        }
      }
      if AnyRelated(docName, normalized[1..]) {
        var k :| 0 <= k < |normalized[1..]| && Related(docName, normalized[1..][k]);
        assert Related(docName, normalized[k + 1]);
      }
    }
  }

  /** The test of `verify_documents`: the lower-cased name is related to some lower-cased description. */
  predicate IsProvided(name: string, normalized: seq<string>) {
    AnyRelated(Lower(name), normalized)
  }

  /** `[doc.lower() for doc in provided]`. */
  function Normalized(provided: seq<string>): (r: seq<string>)
    ensures |r| == |provided|
    ensures forall k :: 0 <= k < |r| ==> r[k] == Lower(provided[k])
  {
    seq(|provided|, k requires 0 <= k < |provided| => Lower(provided[k]))
  }

  /** The matching test as a function value, for the generic counting below. */
  function ProvidedIn(normalized: seq<string>): string -> bool {
    name => IsProvided(name, normalized)
  }

  /** The lists and counters of the loop. */
  datatype Tallies = Tallies(
    provided: seq<ProvidedDoc>,
    missingCritical: seq<string>,
    missingOptional: seq<string>,
    totalMandatory: nat,
    matchedMandatory: nat)

  /** One pass of the loop body for requirement `r`. */
  function Step(t: Tallies, r: Requirement, isProvided: bool): Tallies {
    var total := if r.IsMandatory() then t.totalMandatory + 1 else t.totalMandatory;
    if isProvided then
      Tallies(t.provided + [ProvidedDoc(r.Id(), r.name)], t.missingCritical, t.missingOptional,
              total, if r.IsMandatory() then t.matchedMandatory + 1 else t.matchedMandatory)
    else if r.IsMandatory() then
      Tallies(t.provided, t.missingCritical + [r.Id()], t.missingOptional, total, t.matchedMandatory)
    else
      Tallies(t.provided, t.missingCritical, t.missingOptional + [r.Id()], total, t.matchedMandatory)
  }

  /**
   * The state after the loop has seen `required`; every mandatory
   * requirement is either matched or listed as critical.
   */
  function Tally(required: seq<Requirement>, matches: string -> bool): (t: Tallies)
    ensures t.totalMandatory == t.matchedMandatory + |t.missingCritical|
    ensures |t.provided| + |t.missingCritical| + |t.missingOptional| == |required|
  {
    if required == [] then Tallies([], [], [], 0, 0)
    else
      var r := required[|required| - 1];
      Step(Tally(required[..|required| - 1], matches), r, matches(r.name))
  }

  /** `int(matched / total * 100)`, or 100 when nothing is mandatory. */
  function Score(total: nat, matched: nat): (s: nat)
    requires matched <= total
  {
    if total > 0 then FloorPercent(matched, total) else 100
  }

  /** The result of `verify_documents(required, provided)`. */
  function Verified(required: seq<Requirement>, provided: seq<string>): Verification {
    var t := Tally(required, ProvidedIn(Normalized(provided)));
    Verification(t.provided, t.missingCritical, t.missingOptional, Score(t.totalMandatory, t.matchedMandatory))
  }

  /** The `any(...)` generator: stops at the first related description. */
  method FindRelated(docName: string, normalized: seq<string>) returns (found: bool)
    ensures found == AnyRelated(docName, normalized)
  {
    found := false;
    var k := 0;
    while k < |normalized| && !found
      invariant 0 <= k <= |normalized|
      invariant AnyRelated(docName, normalized) == (found || AnyRelated(docName, normalized[k..]))
    {
      assert normalized[k..][1..] == normalized[k + 1..];
      found := Related(docName, normalized[k]);
      k := k + 1;
    }
  }

  method VerifyDocuments(required: seq<Requirement>, provided: seq<string>) returns (v: Verification)
    ensures v == Verified(required, provided)
  {
    var normalized := Normalized(provided);
    var providedDocs: seq<ProvidedDoc> := [];
    var missingCritical: seq<string> := [];
    var missingOptional: seq<string> := [];
    var totalMandatory := 0;
    var matchedMandatory := 0;
    for i := 0 to |required|
      invariant Tallies(providedDocs, missingCritical, missingOptional, totalMandatory, matchedMandatory)
        == Tally(required[..i], ProvidedIn(normalized))
    {
      var r := required[i];
      var isMandatory := r.IsMandatory();
      if isMandatory {
        totalMandatory := totalMandatory + 1;
      }
      var isProvided := FindRelated(Lower(r.name), normalized);
      assert isProvided == ProvidedIn(normalized)(r.name) by {
        ProvidedInApply(normalized, r.name);
      }
      TallySnoc(required, i, ProvidedIn(normalized), isProvided);
      if isProvided {
        providedDocs := providedDocs + [ProvidedDoc(r.Id(), r.name)];
        if isMandatory {
          matchedMandatory := matchedMandatory + 1;
        }
      } else if isMandatory {
        missingCritical := missingCritical + [r.Id()];
      } else {
        missingOptional := missingOptional + [r.Id()];
      }
    }
    WholeSlice(required);
    var score := Score(totalMandatory, matchedMandatory);
    v := Verification(providedDocs, missingCritical, missingOptional, score);
  }

  lemma ProvidedInApply(normalized: seq<string>, name: string)
    ensures ProvidedIn(normalized)(name) == AnyRelated(Lower(name), normalized)
  {
  }

  lemma WholeSlice<T>(s: seq<T>)
    ensures s[..|s|] == s
  {
  }

  lemma TallySnoc(required: seq<Requirement>, i: nat, matches: string -> bool, isProvided: bool)
    requires i < |required| && isProvided == matches(required[i].name)
    ensures Tally(required[..i + 1], matches) == Step(Tally(required[..i], matches), required[i], isProvided)
  {
    assert required[..i + 1][..i] == required[..i];
  }

  // ---------------------------------------------------------------------
  // Properties of verify_documents
  // ---------------------------------------------------------------------

  /** The requirements matched, as provided entries, in input order. */
  function ProvidedDocs(required: seq<Requirement>, matches: string -> bool): seq<ProvidedDoc> {
    if required == [] then []
    else
      var head := if matches(required[0].name) then [ProvidedDoc(required[0].Id(), required[0].name)] else [];
      head + ProvidedDocs(required[1..], matches)
  }

  /** The ids of the unmatched requirements whose mandatory flag is `mandatory`, in input order. */
  function MissingIds(required: seq<Requirement>, matches: string -> bool, mandatory: bool): seq<string> {
    if required == [] then []
    else
      var head := if !matches(required[0].name) && required[0].IsMandatory() == mandatory then [required[0].Id()] else [];
      head + MissingIds(required[1..], matches, mandatory)
  }

  /** The number of mandatory requirements. */
  function MandatoryCount(required: seq<Requirement>): nat {
    if required == [] then 0
    else (if required[0].IsMandatory() then 1 else 0) + MandatoryCount(required[1..])
  }

  lemma {:induction false} ProvidedDocsSnoc(required: seq<Requirement>, r: Requirement, matches: string -> bool)
    ensures ProvidedDocs(required + [r], matches)
      == ProvidedDocs(required, matches) + (if matches(r.name) then [ProvidedDoc(r.Id(), r.name)] else [])
    decreases |required|
  {
    if required != [] {
      assert (required + [r])[1..] == required[1..] + [r];
      ProvidedDocsSnoc(required[1..], r, matches);
    } else {
      assert ([] + [r])[1..] == [];
    }
  }

  lemma {:induction false} MissingIdsSnoc(required: seq<Requirement>, r: Requirement, matches: string -> bool, mandatory: bool)
    ensures MissingIds(required + [r], matches, mandatory)
      == MissingIds(required, matches, mandatory) + (if !matches(r.name) && r.IsMandatory() == mandatory then [r.Id()] else [])
    decreases |required|
  {
    if required != [] {
      assert (required + [r])[1..] == required[1..] + [r];
      MissingIdsSnoc(required[1..], r, matches, mandatory);
    } else {
      assert ([] + [r])[1..] == [];
    }
  }

  lemma {:induction false} MandatoryCountSnoc(required: seq<Requirement>, r: Requirement)
    ensures MandatoryCount(required + [r]) == MandatoryCount(required) + (if r.IsMandatory() then 1 else 0)
    decreases |required|
  {
    if required != [] {
      assert (required + [r])[1..] == required[1..] + [r];
      MandatoryCountSnoc(required[1..], r);
    } else {
      assert ([] + [r])[1..] == [];
    }
  }

  /**
   * Each requirement lands in exactly one list, in input order: the
   * matched ones in `provided`, the unmatched mandatory ones in
   * `missing_critical` and the unmatched optional ones in `missing_optional`;
   * `total_mandatory` counts the mandatory requirements.
   */
  lemma {:induction false} TallyLists(required: seq<Requirement>, matches: string -> bool)
    ensures var t := Tally(required, matches);
      t.provided == ProvidedDocs(required, matches)
      && t.missingCritical == MissingIds(required, matches, true)
      && t.missingOptional == MissingIds(required, matches, false)
      && t.totalMandatory == MandatoryCount(required)
    decreases |required|
  {
    if required != [] {
      var init, r := required[..|required| - 1], required[|required| - 1];
      assert required == init + [r];
      TallyLists(init, matches);
      ProvidedDocsSnoc(init, r, matches);
      MissingIdsSnoc(init, r, matches, true);
      MissingIdsSnoc(init, r, matches, false);
      MandatoryCountSnoc(init, r);
    }
  }

  /** The three lists of `verify_documents` are the filters of the input by match and mandatory flag. */
  lemma VerifiedLists(required: seq<Requirement>, provided: seq<string>)
    ensures var m := ProvidedIn(Normalized(provided));
      var v := Verified(required, provided);
      v.provided == ProvidedDocs(required, m)
      && v.missingCritical == MissingIds(required, m, true)
      && v.missingOptional == MissingIds(required, m, false)
      && |v.provided| + |v.missingCritical| + |v.missingOptional| == |required|
  {
    TallyLists(required, ProvidedIn(Normalized(provided)));
  }

  /** The score lies in 0..100 and is 100 exactly when no mandatory requirement is missing. */
  lemma VerifiedScore(required: seq<Requirement>, provided: seq<string>)
    ensures var v := Verified(required, provided);
      v.completenessScore <= 100 && (v.completenessScore == 100 <==> v.missingCritical == [])
  {
    TallyScore(required, ProvidedIn(Normalized(provided)));
  }

  lemma TallyScore(required: seq<Requirement>, matches: string -> bool)
    ensures var t := Tally(required, matches);
      var s := Score(t.totalMandatory, t.matchedMandatory);
      s <= 100 && (s == 100 <==> t.missingCritical == [])
  {
  }

  /** With no mandatory requirement the score is 100. */
  lemma NoMandatoryScore(required: seq<Requirement>, provided: seq<string>)
    requires forall k :: 0 <= k < |required| ==> !required[k].IsMandatory()
    ensures Verified(required, provided).completenessScore == 100
  {
    var m := ProvidedIn(Normalized(provided));
    TallyLists(required, m);
    MandatoryNone(required);
  }

  lemma {:induction false} MandatoryNone(required: seq<Requirement>)
    requires forall k :: 0 <= k < |required| ==> !required[k].IsMandatory()
    ensures MandatoryCount(required) == 0
    decreases |required|
  {
    if required != [] {
      MandatoryNone(required[1..]);
    }
  }

  /** An optional requirement never changes the score, whether it is matched or not. */
  lemma OptionalKeepsScore(required: seq<Requirement>, r: Requirement, provided: seq<string>)
    requires !r.IsMandatory()
    ensures Verified(required + [r], provided).completenessScore == Verified(required, provided).completenessScore
  {
    var m := ProvidedIn(Normalized(provided));
    assert (required + [r])[..|required + [r]| - 1] == required;
  }

  /**
   * A requirement named "" counts as provided as soon as any description is
   * supplied, because "" is a substring of every string.
   */
  lemma EmptyNameProvided(provided: seq<string>)
    requires provided != []
    ensures IsProvided("", Normalized(provided))
  {
    ContainsEmpty(Normalized(provided)[0]);
    assert Related(Lower(""), Normalized(provided)[0]);
  }

  /** Matching ignores the case of both the name and the descriptions. */
  lemma ProvidedIgnoresCase(name: string, provided: seq<string>)
    ensures IsProvided(Lower(name), Normalized(provided)) <==> IsProvided(name, Normalized(provided))
  {
    LowerIsLowerCase(name);
  }
}
