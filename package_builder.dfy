/**
 * Matching of required documents against the documents on hand and the
 * completeness figures of a package (src/package_builder.py).
 *
 * Packaging the files into a ZIP archive is left out.
 */
module PackageBuilder {
  import opened Wrappers
  import opened Text
  import opened Sequences
  import opened Percentages

  /** A required-document dict: "name" and "mandatory" are read, the rest is carried along. */
  datatype Requirement = Requirement(name: Option<string>, mandatory: Option<bool>, otherKeys: seq<(string, string)>)
  {
    /** `req_doc.get("name", "").lower()`. */
    function LowerName(): string { Lower(name.GetOr("")) }
    /** `req_doc.get("mandatory", True)`. */
    predicate IsMandatory() { mandatory.GetOr(true) }
  }

  /** A document on hand: "name" and "status" are read, the rest is carried along. */
  datatype Available = Available(name: Option<string>, status: Option<string>, otherKeys: seq<(string, string)>)
  {
    function LowerName(): string { Lower(name.GetOr("")) }
    /** `avail_doc.get("status") != "expired"`. */
    predicate NotExpired() { status != Some("expired") }
    /** The dict `{}`, which Python treats as false. */
    predicate IsEmptyDict() { name.None? && status.None? && otherKeys == [] }
  }

  datatype MatchEntry = MatchEntry(required: Requirement, matched: Available)
  datatype MissingEntry = MissingEntry(required: Requirement, mandatory: bool)

  /** The dict `match_documents` returns. */
  datatype Matching = Matching(matched: seq<MatchEntry>, missing: seq<MissingEntry>)

  /** The dict `calculate_completeness` returns. */
  datatype Completeness = Completeness(total: nat, matched: nat, completeness: nat, ready: bool)

  // ---------------------------------------------------------------------
  // match_documents
  // ---------------------------------------------------------------------

  /** The inner loop's test: names related either way, and the document not expired. */
  predicate Usable(reqName: string, d: Available) {
    Related(reqName, d.LowerName()) && d.NotExpired()
  }

  /** The position of the first usable document, or `|available|` when there is none. */
  function FirstUsable(reqName: string, available: seq<Available>): (i: nat)
    ensures i <= |available|
    ensures i < |available| ==> Usable(reqName, available[i])
    ensures forall j :: 0 <= j < i ==> !Usable(reqName, available[j])
    decreases |available|
  {
    if available == [] then 0
    else if Usable(reqName, available[0]) then 0
    else 1 + FirstUsable(reqName, available[1..])
  }

  /**
   * `found` after the inner loop, as `if found:` reads it: the first usable
   * document, unless that is the empty dict, which is false.
   */
  function Found(reqName: string, available: seq<Available>): Option<Available> {
    var i := FirstUsable(reqName, available);
    if i < |available| && !available[i].IsEmptyDict() then Some(available[i]) else None
  }

  /** One turn of the outer loop, given what the inner loop found. */
  function MatchStep(m: Matching, r: Requirement, found: Option<Available>): Matching {
    match found
    case Some(d) => Matching(m.matched + [MatchEntry(r, d)], m.missing)
    case None => Matching(m.matched, m.missing + [MissingEntry(r, r.IsMandatory())])
  }

  /** The outer loop over `required`, for any way `find` of looking a requirement up. */
  function MatchWith(required: seq<Requirement>, find: Requirement -> Option<Available>): Matching
    decreases |required|
  {
    if required == [] then Matching([], [])
    else
      var r := required[|required| - 1];
      MatchStep(MatchWith(required[..|required| - 1], find), r, find(r))
  }

  /** The lookup `match_documents` performs for one requirement. */
  function Finder(available: seq<Available>): Requirement -> Option<Available> {
    (r: Requirement) => Found(r.LowerName(), available)
  }

  /** The result of `match_documents(required, available)`. */
  function Matched(required: seq<Requirement>, available: seq<Available>): Matching {
    MatchWith(required, Finder(available))
  }

  lemma MatchedSnoc(required: seq<Requirement>, i: nat, available: seq<Available>)
    requires i < |required|
    ensures Matched(required[..i + 1], available)
      == MatchStep(Matched(required[..i], available), required[i], Found(required[i].LowerName(), available))
  {
    assert required[..i + 1][..i] == required[..i];
  }

  /** The inner loop, which breaks at the first usable document. */
  method FindAvailable(reqName: string, available: seq<Available>) returns (found: Option<Available>)
    ensures found == (if FirstUsable(reqName, available) < |available| then Some(available[FirstUsable(reqName, available)]) else None)
  {
    found := None;
    var k := 0;
    while k < |available| && found.None?
      invariant 0 <= k <= |available|
      invariant found.None? ==> forall j :: 0 <= j < k ==> !Usable(reqName, available[j])
      invariant found.Some? ==> 0 < k && k - 1 == FirstUsable(reqName, available) && found == Some(available[k - 1])
    {
      var availName := available[k].LowerName();
      if Related(reqName, availName) {
        if available[k].NotExpired() {
          found := Some(available[k]);
          FirstUsableAt(reqName, available, k);
        }
      }
      k := k + 1;
    }
    if found.None? {
      FirstUsableNone(reqName, available);
    }
  }

  lemma FirstUsableAt(reqName: string, available: seq<Available>, k: nat)
    requires k < |available| && Usable(reqName, available[k])
    requires forall j :: 0 <= j < k ==> !Usable(reqName, available[j])
    ensures FirstUsable(reqName, available) == k
  {
  }

  lemma FirstUsableNone(reqName: string, available: seq<Available>)
    requires forall j :: 0 <= j < |available| ==> !Usable(reqName, available[j])
    ensures FirstUsable(reqName, available) == |available|
  {
  }

  method MatchDocuments(required: seq<Requirement>, available: seq<Available>) returns (m: Matching)
    ensures m == Matched(required, available)
  {
    var matched: seq<MatchEntry> := [];
    var missing: seq<MissingEntry> := [];
    for i := 0 to |required|
      invariant Matching(matched, missing) == Matched(required[..i], available)
    {
      var reqDoc := required[i];
      var found := FindAvailable(reqDoc.LowerName(), available);
      MatchedSnoc(required, i, available);
      if found.Some? && !found.value.IsEmptyDict() {
        matched := matched + [MatchEntry(reqDoc, found.value)];
      } else {
        missing := missing + [MissingEntry(reqDoc, reqDoc.IsMandatory())];
      }
    }
    assert required[..|required|] == required;
    m := Matching(matched, missing);
  }

  // ---------------------------------------------------------------------
  // calculate_completeness
  // ---------------------------------------------------------------------

  /** `sum(1 for m in missing if m["mandatory"])`. */
  function MandatoryMissing(missing: seq<MissingEntry>): (n: nat)
    ensures n == 0 <==> forall k :: 0 <= k < |missing| ==> !missing[k].mandatory
    ensures n <= |missing|
  {
    if missing == [] then 0
    else (if missing[0].mandatory then 1 else 0) + MandatoryMissing(missing[1..])
  }

  /** `int(matched / total * 100)`, or 0 when there is nothing to match. */
  function Percent(part: nat, total: nat): nat
    requires part <= total
  {
    if total > 0 then FloorPercent(part, total) else 0
  }

  /**
   * `calculate_completeness`: the percentage of requirements matched, 0
   * with no requirements, and ready exactly when no missing document is
   * mandatory.
   */
  function CompletenessOf(m: Matching): (c: Completeness)
    ensures c.total == |m.matched| + |m.missing| && c.matched == |m.matched|
    ensures c.completeness <= 100
    ensures c.completeness == 100 <==> c.total > 0 && m.missing == []
    ensures c.ready <==> forall k :: 0 <= k < |m.missing| ==> !m.missing[k].mandatory
  {
    var total := |m.matched| + |m.missing|;
    Completeness(total, |m.matched|, Percent(|m.matched|, total), MandatoryMissing(m.missing) == 0)
  }

  // ---------------------------------------------------------------------
  // Properties of match_documents
  // ---------------------------------------------------------------------

  /** The requirements of the matched entries, in order. */
  function MatchedRequirements(m: Matching): (rs: seq<Requirement>)
    ensures |rs| == |m.matched|
  {
    seq(|m.matched|, k requires 0 <= k < |m.matched| => m.matched[k].required)
  }

  /** The requirements of the missing entries, in order. */
  function MissingRequirements(m: Matching): (rs: seq<Requirement>)
    ensures |rs| == |m.missing|
  {
    seq(|m.missing|, k requires 0 <= k < |m.missing| => m.missing[k].required)
  }

  /** The requirements for which `find` finds something (or nothing), in input order. */
  function FoundFilter(required: seq<Requirement>, find: Requirement -> Option<Available>, found: bool): seq<Requirement>
    decreases |required|
  {
    if required == [] then []
    else
      var init := FoundFilter(required[..|required| - 1], find, found);
      var r := required[|required| - 1];
      if find(r).Some? == found then init + [r] else init
  }

  lemma {:induction false} FoundFilterMembers(required: seq<Requirement>, find: Requirement -> Option<Available>, found: bool)
    ensures forall r :: r in FoundFilter(required, find, found) <==> r in required && find(r).Some? == found
    decreases |required|
  {
    if required != [] {
      var init, r := required[..|required| - 1], required[|required| - 1];
      FoundFilterMembers(init, find, found);
      assert required == init + [r];
    }
  }

  /**
   * Every requirement appears exactly once: in `matched` when a document
   * was found for it, in `missing` otherwise, each list in input order.
   */
  lemma {:induction false} MatchWithPartition(required: seq<Requirement>, find: Requirement -> Option<Available>)
    ensures var m := MatchWith(required, find);
      MatchedRequirements(m) == FoundFilter(required, find, true)
      && MissingRequirements(m) == FoundFilter(required, find, false)
    decreases |required|
  {
    if required != [] {
      var init, r := required[..|required| - 1], required[|required| - 1];
      var before := MatchWith(init, find);
      MatchWithPartition(init, find);
      if find(r).Some? {
        assert MatchedRequirements(MatchWith(required, find)) == MatchedRequirements(before) + [r];
        assert MissingRequirements(MatchWith(required, find)) == MissingRequirements(before);
      } else {
        assert MatchedRequirements(MatchWith(required, find)) == MatchedRequirements(before);
        assert MissingRequirements(MatchWith(required, find)) == MissingRequirements(before) + [r];
      }
    }
  }

  /** Each entry records what `find` gave for its requirement, and a missing one its mandatory flag. */
  predicate EntriesAgree(m: Matching, find: Requirement -> Option<Available>) {
    (forall k :: 0 <= k < |m.matched| ==> find(m.matched[k].required) == Some(m.matched[k].matched))
    && (forall k :: 0 <= k < |m.missing| ==>
          find(m.missing[k].required) == None && m.missing[k].mandatory == m.missing[k].required.IsMandatory())
  }

  lemma {:induction false} MatchWithEntries(required: seq<Requirement>, find: Requirement -> Option<Available>)
    ensures EntriesAgree(MatchWith(required, find), find)
    decreases |required|
  {
    if required != [] {
      var init, r := required[..|required| - 1], required[|required| - 1];
      MatchWithEntries(init, find);
      var before, after := MatchWith(init, find), MatchWith(required, find);
      if find(r).Some? {
        assert after.matched == before.matched + [MatchEntry(r, find(r).value)];
        assert after.missing == before.missing;
        forall k | 0 <= k < |after.matched|
          ensures find(after.matched[k].required) == Some(after.matched[k].matched)
        {
          if k < |before.matched| {
            assert after.matched[k] == before.matched[k];
          }
        }
      } else {
        assert after.matched == before.matched;
        assert after.missing == before.missing + [MissingEntry(r, r.IsMandatory())];
        forall k | 0 <= k < |after.missing|
          ensures find(after.missing[k].required) == None
          ensures after.missing[k].mandatory == after.missing[k].required.IsMandatory()
        {
          if k < |before.missing| {
            assert after.missing[k] == before.missing[k];
          }
        }
      }
    }
  }

  /**
   * `match_documents` sorts every requirement into exactly one list: into
   * `matched` when a document was found for it, into `missing` otherwise,
   * each list in input order.
   */
  lemma MatchedPartition(required: seq<Requirement>, available: seq<Available>)
    ensures var m := Matched(required, available);
      MatchedRequirements(m) == FoundFilter(required, Finder(available), true)
      && MissingRequirements(m) == FoundFilter(required, Finder(available), false)
      && |m.matched| + |m.missing| == |required|
  {
    MatchWithPartition(required, Finder(available));
    FoundFilterLength(required, Finder(available));
  }

  lemma {:induction false} FoundFilterLength(required: seq<Requirement>, find: Requirement -> Option<Available>)
    ensures |FoundFilter(required, find, true)| + |FoundFilter(required, find, false)| == |required|
    decreases |required|
  {
    if required != [] {
      FoundFilterLength(required[..|required| - 1], find);
    }
  }

  /**
   * What `Found` means: the first document on hand whose name is related to
   * the requirement's and that is not expired (unrelated and expired ones
   * before it are skipped), provided it is not the empty dict.
   */
  lemma FoundIsFirstUsable(reqName: string, available: seq<Available>, d: Available)
    requires Found(reqName, available) == Some(d)
    ensures Related(reqName, d.LowerName()) && d.NotExpired() && !d.IsEmptyDict()
    ensures exists i :: 0 <= i < |available| && available[i] == d && forall j :: 0 <= j < i ==> !Usable(reqName, available[j])
  {
    var i := FirstUsable(reqName, available);
    assert available[i] == d;
  }

  /** Every matched entry holds the document found for its requirement. */
  lemma MatchedAreFound(required: seq<Requirement>, available: seq<Available>)
    ensures var m := Matched(required, available);
      forall k :: 0 <= k < |m.matched| ==> Found(m.matched[k].required.LowerName(), available) == Some(m.matched[k].matched)
  {
    MatchWithEntries(required, Finder(available));
    assert EntriesAgree(Matched(required, available), Finder(available));
  }

  /**
   * Every missing entry is a requirement for which nothing was found, and
   * records its mandatory flag, true when absent.
   */
  lemma MissingAreNotFound(required: seq<Requirement>, available: seq<Available>)
    ensures var m := Matched(required, available);
      forall k :: 0 <= k < |m.missing| ==>
        Found(m.missing[k].required.LowerName(), available) == None
        && m.missing[k].mandatory == m.missing[k].required.mandatory.GetOr(true)
  {
    MatchWithEntries(required, Finder(available));
    assert EntriesAgree(Matched(required, available), Finder(available));
  }

  /**
   * The empty dict `{}` on hand matches every requirement (its name "" is a
   * substring of every name) and then counts as not found, so a leading `{}`
   * leaves every requirement missing.
   */
  lemma LeadingEmptyDictHidesAll(required: seq<Requirement>, available: seq<Available>)
    requires available != [] && available[0].IsEmptyDict()
    ensures Matched(required, available).matched == []
    ensures MissingRequirements(Matched(required, available)) == required
  {
    forall r: Requirement
      ensures Finder(available)(r) == None
    {
      ContainsEmpty(r.LowerName());
      assert available[0].LowerName() == [];
      assert Usable(r.LowerName(), available[0]);
    }
    NothingFound(required, Finder(available));
  }

  lemma {:induction false} NothingFound(required: seq<Requirement>, find: Requirement -> Option<Available>)
    requires forall r: Requirement :: find(r) == None
    ensures MatchWith(required, find).matched == []
    ensures MissingRequirements(MatchWith(required, find)) == required
    decreases |required|
  {
    if required != [] {
      var init, r := required[..|required| - 1], required[|required| - 1];
      NothingFound(init, find);
      assert find(r) == None;
      assert required == init + [r];
      assert MissingRequirements(MatchWith(required, find)) == MissingRequirements(MatchWith(init, find)) + [r];
    }
  }

  /** The package is ready exactly when every mandatory requirement was matched. */
  lemma ReadyIffMandatoryMatched(required: seq<Requirement>, available: seq<Available>)
    ensures CompletenessOf(Matched(required, available)).ready <==>
      forall r :: r in required && r.IsMandatory() ==> Found(r.LowerName(), available).Some?
  {
    var m := Matched(required, available);
    MatchWithPartition(required, Finder(available));
    MatchWithEntries(required, Finder(available));
    FoundFilterMembers(required, Finder(available), false);
    var missing := MissingRequirements(m);
    assert forall k :: 0 <= k < |m.missing| ==> m.missing[k].mandatory == missing[k].IsMandatory();
    if !CompletenessOf(m).ready {
      var k :| 0 <= k < |m.missing| && m.missing[k].mandatory;
      assert missing[k] in missing;
    }
  }
}
