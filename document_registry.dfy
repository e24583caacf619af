/**
 * The company document registry of src/document_registry.py: documents
 * are appended with sequential ids and stamped with an expiry status,
 * listed by closeness of expiry, searched through a chain of filters, and
 * the company requisites are replaced with the previous version kept in a
 * history.
 *
 * The clock and `datetime.fromisoformat` are parameters: `now` is the
 * current instant counted in microseconds, `stamp` its ISO text, and
 * `parse` maps an expiry text to an instant in the same unit, or to None
 * where Python raises ValueError or TypeError.
 */
module DocumentRegistry {
  import opened Wrappers
  import opened Text
  import opened Sequences

  /** The length of a `timedelta(days=1)` in microseconds. */
  const MicrosPerDay: int := 86_400_000_000

  const StatusValid := "valid"
  const StatusExpired := "expired"
  const StatusExpiring7 := "expiring_soon_7d"
  const StatusExpiring30 := "expiring_soon_30d"
  const StatusUnknown := "unknown"

  /**
   * A registry document, a dict in the source: the keys the registry reads
   * or writes, each possibly absent, and the other keys as they are.
   */
  datatype Document = Document(
    name: Option<string>,
    category: Option<string>,
    tags: Option<seq<string>>,
    expiryDate: Option<string>,
    id: Option<string>,
    addedAt: Option<string>,
    status: Option<string>,
    other: map<string, string>)

  /** A requisites dict: its version, its validity period and the requisites themselves. */
  datatype Requisites = Requisites(
    version: Option<int>,
    effectiveFrom: Option<string>,
    effectiveTo: Option<string>,
    fields: map<string, string>)

  /** The `{}` that `get_current_requisites` falls back to. */
  const NoRequisites := Requisites(None, None, None, map[])

  /** `f"doc_{n:04d}"`. */
  function DocId(n: nat): (r: string)
    ensures |r| >= 8 && r[..4] == "doc_"
  {
    "doc_" + PadLeft(NatToString(n), 4, '0')
  }

  /** Different positions give different ids. */
  lemma DocIdInjective(a: nat, b: nat)
    requires DocId(a) == DocId(b)
    ensures a == b
  {
    assert DocId(a)[4..] == PadLeft(NatToString(a), 4, '0');
    assert DocId(b)[4..] == PadLeft(NatToString(b), 4, '0');
    ZeroPaddedInjective(a, b, 4);
  }

  /** `"expiry_date" in document and document["expiry_date"]`. */
  predicate HasExpiry(d: Document) {
    d.expiryDate.Some? && d.expiryDate.value != ""
  }

  /** `(expiry - now).days`: whole days, rounded down as `timedelta` normalises them. */
  function DaysLeft(expiry: int, now: int): int {
    (expiry - now) / MicrosPerDay
  }

  /** The rounded-down day count lies within one day of the exact difference. */
  lemma DaysLeftBounds(expiry: int, now: int)
    ensures DaysLeft(expiry, now) * MicrosPerDay <= expiry - now < (DaysLeft(expiry, now) + 1) * MicrosPerDay
  {
  }

  /** The thresholds of `_calculate_status` for a parsed expiry date. */
  function StatusForDays(daysLeft: int): string {
    if daysLeft < 0 then StatusExpired
    else if daysLeft <= 7 then StatusExpiring7
    else if daysLeft <= 30 then StatusExpiring30
    else StatusValid
  }

  /** `_calculate_status`. */
  function CalculateStatus(d: Document, parse: string -> Option<int>, now: int): (s: string)
    ensures s in {StatusValid, StatusExpired, StatusExpiring7, StatusExpiring30, StatusUnknown}
  {
    if !HasExpiry(d) then StatusValid
    else match parse(d.expiryDate.value)
      case None => StatusUnknown
      case Some(expiry) => StatusForDays(DaysLeft(expiry, now))
  }

  /**
   * What each status says about the expiry instant: expired before now,
   * expiring within the week while less than 8 days remain, within the
   * month while less than 31 remain, and valid otherwise or without a date.
   */
  lemma StatusMeaning(d: Document, parse: string -> Option<int>, now: int)
    ensures var s := CalculateStatus(d, parse, now);
      && (s == StatusUnknown <==> HasExpiry(d) && parse(d.expiryDate.value).None?)
      && (s == StatusValid <==>
            !HasExpiry(d) || (parse(d.expiryDate.value).Some? && now + 31 * MicrosPerDay <= parse(d.expiryDate.value).value))
      && (s == StatusExpired <==>
            HasExpiry(d) && parse(d.expiryDate.value).Some? && parse(d.expiryDate.value).value < now)
      && (s == StatusExpiring7 <==>
            HasExpiry(d) && parse(d.expiryDate.value).Some?
            && now <= parse(d.expiryDate.value).value < now + 8 * MicrosPerDay)
      && (s == StatusExpiring30 <==>
            HasExpiry(d) && parse(d.expiryDate.value).Some?
            && now + 8 * MicrosPerDay <= parse(d.expiryDate.value).value < now + 31 * MicrosPerDay)
  {
    if HasExpiry(d) && parse(d.expiryDate.value).Some? {
      DaysLeftBounds(parse(d.expiryDate.value).value, now);
    }
  }

  /** The dict after `add_document` stamped it with its id, the time and its status. */
  function Stamped(d: Document, docId: string, parse: string -> Option<int>, now: int, stamp: string): Document {
    d.(id := Some(docId), addedAt := Some(stamp), status := Some(CalculateStatus(d, parse, now)))
  }

  /** The condition of `get_expiring_documents`: a readable date with now < expiry <= now + days. */
  predicate ExpiresWithin(d: Document, parse: string -> Option<int>, now: int, days: int) {
    HasExpiry(d) && parse(d.expiryDate.value).Some?
    && now < parse(d.expiryDate.value).value <= now + days * MicrosPerDay
  }

  /** The documents `get_expiring_documents` returns, in registry order. */
  function Expiring(docs: seq<Document>, parse: string -> Option<int>, now: int, days: int): seq<Document> {
    Filter(docs, (d: Document) => ExpiresWithin(d, parse, now, days))
  }

  /** The listing keeps registry order and holds exactly the documents expiring in the window. */
  lemma ExpiringMeaning(docs: seq<Document>, parse: string -> Option<int>, now: int, days: int)
    ensures Subsequence(Expiring(docs, parse, now, days), docs)
    ensures forall d :: d in Expiring(docs, parse, now, days) <==> d in docs && ExpiresWithin(d, parse, now, days)
  {
    FilterMeaning(docs, (d: Document) => ExpiresWithin(d, parse, now, days));
  }

  /**
   * Listing and status agree: a document listed as expiring within at most
   * 7 days carries the 7-day status, and one listed within at most 30 days
   * carries one of the two expiring statuses.
   */
  lemma ExpiringAreFlagged(docs: seq<Document>, parse: string -> Option<int>, now: int, days: int, d: Document)
    requires d in Expiring(docs, parse, now, days)
    ensures days <= 7 ==> CalculateStatus(d, parse, now) == StatusExpiring7
    ensures days <= 30 ==> CalculateStatus(d, parse, now) in {StatusExpiring7, StatusExpiring30}
  {
    ExpiringMeaning(docs, parse, now, days);
    StatusMeaning(d, parse, now);
  }

  /** The keyword arguments of `search_documents`. */
  datatype Filters = Filters(
    query: Option<string>,
    category: Option<string>,
    status: Option<string>,
    tags: Option<seq<string>>)

  /** A string argument that is neither None nor empty. */
  predicate Given(s: Option<string>) {
    s.Some? && s.value != ""
  }

  predicate MatchesQuery(d: Document, query: string) {
    Contains(Lower(d.name.GetOr("")), Lower(query))
  }

  predicate MatchesTags(d: Document, tags: seq<string>) {
    exists t :: t in tags && t in d.tags.GetOr([])
  }

  /** `if given: results = [d for d in results if p(d)]`. */
  function When(given: bool, docs: seq<Document>, p: Document -> bool): seq<Document> {
    if given then Filter(docs, p) else docs
  }

  /** The four comprehensions of `search_documents`, each applied only when its argument is given. */
  function SearchDocuments(docs: seq<Document>, f: Filters, parse: string -> Option<int>, now: int): seq<Document> {
    var byQuery := When(Given(f.query), docs, (d: Document) => MatchesQuery(d, f.query.GetOr("")));
    var byCategory := When(Given(f.category), byQuery, (d: Document) => d.category == f.category);
    var byStatus := When(Given(f.status), byCategory, (d: Document) => CalculateStatus(d, parse, now) == f.status.GetOr(""));
    When(f.tags.Some? && f.tags.value != [], byStatus, (d: Document) => MatchesTags(d, f.tags.GetOr([])))
  }

  /** A document passes every filter whose argument is given. */
  predicate Selected(d: Document, f: Filters, parse: string -> Option<int>, now: int) {
    && (Given(f.query) ==> MatchesQuery(d, f.query.value))
    && (Given(f.category) ==> d.category == f.category)
    && (Given(f.status) ==> CalculateStatus(d, parse, now) == f.status.value)
    && (f.tags.Some? && f.tags.value != [] ==> MatchesTags(d, f.tags.value))
  }

  /** An optional comprehension is a comprehension whose test always passes when it is skipped. */
  lemma FilterWhen(s: seq<Document>, given: bool, p: Document -> bool, q: Document -> bool)
    requires forall x :: q(x) == (!given || p(x))
    ensures When(given, s, p) == Filter(s, q)
  {
    if given {
      FilterSame(s, p, q);
    } else {
      FilterKeepsAll(s, q);
    }
  }

  /** Four optional comprehensions in a row are one comprehension with the conjunction of the applied tests. */
  lemma FilterChain(
    s: seq<Document>,
    g1: bool, p1: Document -> bool, g2: bool, p2: Document -> bool,
    g3: bool, p3: Document -> bool, g4: bool, p4: Document -> bool,
    all: Document -> bool)
    requires forall x :: all(x) == ((!g1 || p1(x)) && (!g2 || p2(x)) && (!g3 || p3(x)) && (!g4 || p4(x)))
    ensures When(g4, When(g3, When(g2, When(g1, s, p1), p2), p3), p4) == Filter(s, all)
  {
    var q1 := (x: Document) => !g1 || p1(x);
    var q2 := (x: Document) => !g2 || p2(x);
    var q3 := (x: Document) => !g3 || p3(x);
    var q4 := (x: Document) => !g4 || p4(x);
    var q12 := (x: Document) => q1(x) && q2(x);
    var q123 := (x: Document) => q12(x) && q3(x);
    FilterWhen(s, g1, p1, q1);
    FilterWhen(Filter(s, q1), g2, p2, q2);
    FilterTwice(s, q1, q2, q12);
    FilterWhen(Filter(s, q12), g3, p3, q3);
    FilterTwice(s, q12, q3, q123);
    FilterWhen(Filter(s, q123), g4, p4, q4);
    FilterTwice(s, q123, q4, all);
  }

  /** The filter chain is one comprehension with the conjunction of the given tests. */
  lemma SearchIsOneFilter(docs: seq<Document>, f: Filters, parse: string -> Option<int>, now: int)
    ensures SearchDocuments(docs, f, parse, now) == Filter(docs, (d: Document) => Selected(d, f, parse, now))
  {
    FilterChain(docs,
      Given(f.query), (d: Document) => MatchesQuery(d, f.query.GetOr("")),
      Given(f.category), (d: Document) => d.category == f.category,
      Given(f.status), (d: Document) => CalculateStatus(d, parse, now) == f.status.GetOr(""),
      f.tags.Some? && f.tags.value != [], (d: Document) => MatchesTags(d, f.tags.GetOr([])),
      (d: Document) => Selected(d, f, parse, now));
  }

  /**
   * `search_documents` returns the documents passing every given filter,
   * in registry order, and with no filter given returns all of them.
   */
  lemma SearchMeaning(docs: seq<Document>, f: Filters, parse: string -> Option<int>, now: int)
    ensures Subsequence(SearchDocuments(docs, f, parse, now), docs)
    ensures forall d :: d in SearchDocuments(docs, f, parse, now) <==> d in docs && Selected(d, f, parse, now)
    ensures !Given(f.query) && !Given(f.category) && !Given(f.status) && (f.tags.None? || f.tags.value == [])
      ==> SearchDocuments(docs, f, parse, now) == docs
  {
    SearchIsOneFilter(docs, f, parse, now);
    FilterMeaning(docs, (d: Document) => Selected(d, f, parse, now));
    if !Given(f.query) && !Given(f.category) && !Given(f.status) && (f.tags.None? || f.tags.value == []) {
      FilterKeepsAll(docs, (d: Document) => Selected(d, f, parse, now));
    }
  }

  /** The text query ignores case: lower-casing it first selects the same documents. */
  lemma QueryIgnoresCase(docs: seq<Document>, f: Filters, parse: string -> Option<int>, now: int)
    requires f.query.Some?
    ensures SearchDocuments(docs, f.(query := Some(Lower(f.query.value))), parse, now)
         == SearchDocuments(docs, f, parse, now)
  {
    var q := f.query.value;
    LowerIsLowerCase(q);
    LowerOfLowerCase(Lower(q));
    var g := f.(query := Some(Lower(q)));
    SearchIsOneFilter(docs, f, parse, now);
    SearchIsOneFilter(docs, g, parse, now);
    FilterSame(docs, (d: Document) => Selected(d, g, parse, now), (d: Document) => Selected(d, f, parse, now));
  }

  /** Ids handed out one after another, starting at `doc_0001`. */
  predicate SequentialIds(docs: seq<Document>) {
    forall i :: 0 <= i < |docs| ==> docs[i].id == Some(DocId(i + 1))
  }

  /** A document appended under the next id keeps the ids sequential. */
  lemma SequentialIdsSnoc(docs: seq<Document>, d: Document)
    requires SequentialIds(docs) && d.id == Some(DocId(|docs| + 1))
    ensures SequentialIds(docs + [d])
  {
    forall i | 0 <= i < |docs| + 1 ensures (docs + [d])[i].id == Some(DocId(i + 1)) {
      if i < |docs| {
        assert (docs + [d])[i] == docs[i];
      }
    }
  }

  /** Since nothing removes documents, no two of them share an id. */
  lemma SequentialIdsDistinct(docs: seq<Document>)
    requires SequentialIds(docs)
    ensures forall i, j :: 0 <= i < j < |docs| ==> docs[i].id != docs[j].id
  {
    forall i, j | 0 <= i < j < |docs|
      ensures docs[i].id != docs[j].id
    {
      if docs[i].id == docs[j].id {
        DocIdInjective(i + 1, j + 1);
      }
    }
  }

  /** The registry of one company: its documents and its requisites with their history. */
  class Registry {
    var documents: seq<Document>
    /** `self.requisites["history"]`, absent until the first `set_requisites`. */
    var history: Option<seq<Requisites>>
    /** `self.requisites["current"]`. */
    var current: Option<Requisites>

    ghost predicate Valid()
      reads this
    {
      SequentialIds(documents) && (current.Some? ==> history.Some?)
    }

    constructor ()
      ensures Valid()
      ensures documents == [] && history == None && current == None
    {
      documents := [];
      history := None;
      current := None;
    }

    /** `add_document`: stamps the document and appends it under the next id. */
    method AddDocument(document: Document, parse: string -> Option<int>, now: int, stamp: string)
      returns (docId: string, stored: Document)
      requires Valid()
      modifies this
      ensures Valid()
      ensures docId == DocId(|old(documents)| + 1)
      ensures stored == Stamped(document, docId, parse, now, stamp)
      ensures documents == old(documents) + [stored]
      ensures history == old(history) && current == old(current)
    {
      docId := DocId(|documents| + 1);
      stored := document.(id := Some(docId), addedAt := Some(stamp));
      stored := stored.(status := Some(CalculateStatus(document, parse, now)));
      SequentialIdsSnoc(documents, stored);
      documents := documents + [stored];
    }

    /** `get_expiring_documents`. */
    method GetExpiringDocuments(parse: string -> Option<int>, now: int, days: int) returns (expiring: seq<Document>)
      ensures expiring == Expiring(documents, parse, now, days)
    {
      expiring := [];
      var threshold := now + days * MicrosPerDay;
      for i := 0 to |documents|
        invariant expiring == Expiring(documents[..i], parse, now, days)
      {
        var doc := documents[i];
        assert documents[..i + 1] == documents[..i] + [doc];
        if HasExpiry(doc) {
          match parse(doc.expiryDate.value) {
            case None =>
            case Some(expiry) =>
              if now < expiry <= threshold {
                expiring := expiring + [doc];
              }
          }
        }
      }
      assert documents[..|documents|] == documents;
    }

    /** `search_documents` over the registry. */
    function Search(f: Filters, parse: string -> Option<int>, now: int): (r: seq<Document>)
      reads this
      ensures Subsequence(r, documents)
      ensures forall d :: d in r <==> d in documents && Selected(d, f, parse, now)
    {
      SearchMeaning(documents, f, parse, now);
      SearchDocuments(documents, f, parse, now)
    }

    /** `set_requisites`: the new dict becomes current and the previous one goes to the history. */
    method SetRequisites(requisites: Requisites, stamp: string) returns (stored: Requisites)
      requires Valid()
      modifies this
      ensures Valid()
      ensures stored.fields == requisites.fields && stored.effectiveTo == requisites.effectiveTo
      ensures stored.version == Some(requisites.version.GetOr(1)) && stored.effectiveFrom == Some(stamp)
      ensures current == Some(stored)
      ensures old(current).None? ==> history == Some(old(history).GetOr([]))
      ensures old(current).Some? ==> history == Some(old(history).value + [old(current).value.(effectiveTo := Some(stamp))])
      ensures documents == old(documents)
    {
      stored := requisites.(version := Some(requisites.version.GetOr(1)), effectiveFrom := Some(stamp));
      if history.None? {
        history := Some([]);
      }
      if current.Some? {
        var previous := current.value.(effectiveTo := Some(stamp));
        history := Some(history.value + [previous]);
      }
      current := Some(stored);
    }

    /** `get_current_requisites`. */
    function GetCurrentRequisites(): (r: Requisites)
      reads this
      ensures current.None? ==> r == NoRequisites
      ensures current.Some? ==> r == current.value
    {
      current.GetOr(NoRequisites)
    }
  }
}
