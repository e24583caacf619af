/**
 * The report generator: append-only stores of procurement records and
 * document packages, the date filter and the per-field counts of the
 * procurement report, the rejection report and the ten most often
 * missing documents. The clock is a parameter (`now`), and a procurement
 * record is a dictionary of strings.
 */
module Reports {
  import opened Wrappers
  import opened Text
  import opened Sequences
  import Tally
  import Ranking
  import Percentages

  /** A procurement record. */
  type Record = map<string, string>

  const UnknownValue := "Неизвестно"
  const UnknownReason := "Неизвестна"
  const UnknownDocument := "Неизвестный"
  const NotAvailable := "N/A"
  const RejectedStatus := "rejected"
  /** How many of the most often missing documents are reported. */
  const TopMissingCount := 10

  /** `item.get(field, default)`. */
  function GetOr(item: Record, field: string, default: string): string {
    if field in item then item[field] else default
  }

  // ---------------------------------------------------------------------
  // _filter_by_date
  // ---------------------------------------------------------------------

  /** An optional bound is truthy when given and not empty. */
  predicate Given(bound: Option<string>) {
    bound.Some? && bound.value != ""
  }

  function CreatedAt(item: Record): string {
    GetOr(item, "created_at", "")
  }

  /** The condition of the comprehension: on or after a given start, on or before a given end, as strings. */
  predicate InPeriod(item: Record, start: Option<string>, end: Option<string>) {
    && (!Given(start) || StrLe(start.value, CreatedAt(item)))
    && (!Given(end) || StrLe(CreatedAt(item), end.value))
  }

  /** `_filter_by_date`. */
  function FilterByDate(items: seq<Record>, start: Option<string>, end: Option<string>): seq<Record> {
    if !Given(start) && !Given(end) then items
    else Filter(items, item => InPeriod(item, start, end))
  }

  /**
   * Without bounds the items come back unchanged; in every case the result
   * is the comprehension, so it keeps, in their order, exactly the items
   * created within the period.
   */
  lemma FilterByDateMeaning(items: seq<Record>, start: Option<string>, end: Option<string>)
    ensures !Given(start) && !Given(end) ==> FilterByDate(items, start, end) == items
    ensures FilterByDate(items, start, end) == Filter(items, item => InPeriod(item, start, end))
    ensures Subsequence(FilterByDate(items, start, end), items)
    ensures forall x :: x in FilterByDate(items, start, end) <==> x in items && InPeriod(x, start, end)
  {
    var inPeriod := item => InPeriod(item, start, end);
    if !Given(start) && !Given(end) {
      FilterKeepsAll(items, inPeriod);
    }
    FilterMeaning(items, inPeriod);
  }

  // ---------------------------------------------------------------------
  // _count_by_field
  // ---------------------------------------------------------------------

  /** The value each item is counted under. */
  function FieldValues(items: seq<Record>, field: string): (values: seq<string>)
    ensures |values| == |items|
    ensures forall i :: 0 <= i < |items| ==> values[i] == GetOr(items[i], field, UnknownValue)
  {
    seq(|items|, i requires 0 <= i < |items| => GetOr(items[i], field, UnknownValue))
  }

  /** `_count_by_field`. */
  method CountByField(items: seq<Record>, field: string) returns (counts: seq<(string, nat)>)
    ensures counts == Tally.Tally(FieldValues(items, field))
  {
    counts := [];
    for i := 0 to |items|
      invariant counts == Tally.Tally(FieldValues(items[..i], field))
    {
      var value := GetOr(items[i], field, UnknownValue);
      CountStep(items, field, i);
      counts := Tally.Bump(counts, value);
    }
    assert items[..|items|] == items;
  }

  lemma CountStep(items: seq<Record>, field: string, i: nat)
    requires i < |items|
    ensures Tally.Tally(FieldValues(items[..i + 1], field))
         == Tally.Bump(Tally.Tally(FieldValues(items[..i], field)), GetOr(items[i], field, UnknownValue))
  {
    var value := GetOr(items[i], field, UnknownValue);
    assert FieldValues(items[..i + 1], field) == FieldValues(items[..i], field) + [value];
    Tally.TallySnoc(FieldValues(items[..i], field), value);
  }

  /**
   * Each value is counted once per item holding it, an absent field under
   * "Неизвестно"; every value appears once and the counts add up to the
   * number of items.
   */
  lemma CountByFieldMeaning(items: seq<Record>, field: string)
    ensures Tally.Total(Tally.Tally(FieldValues(items, field))) == |items|
    ensures Tally.DistinctKeys(Tally.Tally(FieldValues(items, field)))
    ensures forall v :: Tally.Get(Tally.Tally(FieldValues(items, field)), v) == Tally.Count(FieldValues(items, field), v)
    ensures forall i :: 0 <= i < |items| && field !in items[i] ==>
      Tally.Get(Tally.Tally(FieldValues(items, field)), UnknownValue) >= 1
  {
    var values := FieldValues(items, field);
    Tally.TallyTotal(values);
    Tally.TallyDistinct(values);
    forall v ensures Tally.Get(Tally.Tally(values), v) == Tally.Count(values, v) {
      Tally.TallyGet(values, v);
    }
    forall i | 0 <= i < |items| && field !in items[i]
      ensures Tally.Get(Tally.Tally(values), UnknownValue) >= 1
    {
      assert values[i] == UnknownValue;
    }
  }

  // ---------------------------------------------------------------------
  // The reports
  // ---------------------------------------------------------------------

  /** `start_date or "N/A"`. */
  function OrNotAvailable(bound: Option<string>): string {
    if Given(bound) then bound.value else NotAvailable
  }

  datatype ProcurementReport = ProcurementReport(
    periodStart: string,
    periodEnd: string,
    totalProcurements: nat,
    byStatus: seq<(string, nat)>,
    byLegalBasis: seq<(string, nat)>,
    generatedAt: string)

  predicate IsRejected(p: Record) {
    "status" in p && p["status"] == RejectedStatus
  }

  function Reasons(rejected: seq<Record>): (reasons: seq<string>)
    ensures |reasons| == |rejected|
    ensures forall i :: 0 <= i < |rejected| ==> reasons[i] == GetOr(rejected[i], "rejection_reason", UnknownReason)
  {
    seq(|rejected|, i requires 0 <= i < |rejected| => GetOr(rejected[i], "rejection_reason", UnknownReason))
  }

  /** `len(rejected) / len(self.procurements) if self.procurements else 0`, exactly. */
  function RejectionRate(procurements: seq<Record>): real {
    if |procurements| == 0 then 0.0 else CountIf(procurements, IsRejected) as real / |procurements| as real
  }

  datatype RejectionReport = RejectionReport(
    totalRejected: nat,
    rejectionRate: real,
    reasons: seq<(string, nat)>,
    generatedAt: string)

  /**
   * The rejection rate is a fraction: 0 without procurements or without
   * rejections, 1 when all are rejected.
   */
  lemma RejectionRateMeaning(procurements: seq<Record>)
    ensures 0.0 <= RejectionRate(procurements) <= 1.0
    ensures RejectionRate(procurements) == 0.0 <==> CountIf(procurements, IsRejected) == 0
    ensures |procurements| > 0 ==> (RejectionRate(procurements) == 1.0 <==> CountIf(procurements, IsRejected) == |procurements|)
  {
    if |procurements| > 0 {
      Percentages.Fraction(CountIf(procurements, IsRejected), |procurements|);
    }
  }

  /**
   * The records counted as rejected are exactly those with status
   * "rejected", and their reasons add up to their number, an absent
   * reason counted as "Неизвестна".
   */
  lemma RejectedReasonsMeaning(procurements: seq<Record>)
    ensures Tally.Total(Tally.Tally(Reasons(Filter(procurements, IsRejected)))) == CountIf(procurements, IsRejected)
    ensures forall x :: x in Filter(procurements, IsRejected) <==> x in procurements && IsRejected(x)
  {
    FilterMeaning(procurements, IsRejected);
    Tally.TallyTotal(Reasons(Filter(procurements, IsRejected)));
  }

  /** A missing entry of a package: `{"required": {"name": ...}}`, either part possibly absent. */
  datatype MissingEntry = MissingEntry(required: Option<Record>)

  /** A document package, as the report reads it: `pkg.get("missing", [])`. */
  datatype Package = Package(missing: Option<seq<MissingEntry>>)

  /** `doc.get("required", {}).get("name", "Неизвестный")`. */
  function MissingName(entry: MissingEntry): string {
    match entry.required
    case None => UnknownDocument
    case Some(required) => GetOr(required, "name", UnknownDocument)
  }

  function EntriesOf(p: Package): seq<MissingEntry> {
    p.missing.GetOr([])
  }

  function MissingNames(entries: seq<MissingEntry>): (names: seq<string>)
    ensures |names| == |entries|
    ensures forall i :: 0 <= i < |entries| ==> names[i] == MissingName(entries[i])
  {
    seq(|entries|, i requires 0 <= i < |entries| => MissingName(entries[i]))
  }

  /** The names of all missing entries of all packages, in loop order. */
  function AllMissingNames(packages: seq<Package>): seq<string> {
    if packages == [] then []
    else AllMissingNames(packages[..|packages| - 1]) + MissingNames(EntriesOf(packages[|packages| - 1]))
  }

  /** The number of missing entries over all packages. */
  function TotalMissing(packages: seq<Package>): nat {
    if packages == [] then 0 else TotalMissing(packages[..|packages| - 1]) + |EntriesOf(packages[|packages| - 1])|
  }

  function ByCount(entry: (string, nat)): real {
    entry.1 as real
  }

  /** `sorted(missing_docs.items(), key=lambda x: x[1], reverse=True)[:10]`. */
  function TopMissing(packages: seq<Package>): seq<(string, nat)> {
    Ranking.Top(Tally.Tally(AllMissingNames(packages)), TopMissingCount, ByCount)
  }

  datatype MissingReport = MissingReport(topMissingDocuments: seq<(string, nat)>, generatedAt: string)

  lemma {:induction false} AllMissingNamesLength(packages: seq<Package>)
    ensures |AllMissingNames(packages)| == TotalMissing(packages)
  {
    if packages != [] {
      AllMissingNamesLength(packages[..|packages| - 1]);
    }
  }

  /** Every missing entry of every package is counted once. */
  lemma MissingCountsTotal(packages: seq<Package>)
    ensures Tally.Total(Tally.Tally(AllMissingNames(packages))) == TotalMissing(packages)
  {
    Tally.TallyTotal(AllMissingNames(packages));
    AllMissingNamesLength(packages);
  }

  /**
   * The ten most often missing documents: at most ten, and exactly ten
   * when that many names are missing, most often first.
   */
  lemma TopMissingSorted(packages: seq<Package>)
    ensures |TopMissing(packages)| == if |Tally.Tally(AllMissingNames(packages))| <= TopMissingCount
      then |Tally.Tally(AllMissingNames(packages))| else TopMissingCount
    ensures Ranking.NonIncreasing(TopMissing(packages), ByCount)
  {
    Ranking.TopSorted(Tally.Tally(AllMissingNames(packages)), TopMissingCount, ByCount);
  }

  /** No name left out is missing more often than one reported. */
  lemma TopMissingBest(packages: seq<Package>)
    ensures forall x: (string, nat), y: (string, nat) ::
      x in Ranking.Rest(Tally.Tally(AllMissingNames(packages)), TopMissingCount, ByCount) && y in TopMissing(packages)
      ==> x.1 <= y.1
  {
    var t := Tally.Tally(AllMissingNames(packages));
    Ranking.TopBest(t, TopMissingCount, ByCount);
    forall x: (string, nat), y: (string, nat) | x in Ranking.Rest(t, TopMissingCount, ByCount) && y in TopMissing(packages)
      ensures x.1 <= y.1
    {
      assert ByCount(x) <= ByCount(y);
    }
  }

  /** Each document reported is missing, with the number of missing entries of its name. */
  lemma TopMissingCounts(packages: seq<Package>)
    ensures forall e: (string, nat) :: e in TopMissing(packages) ==>
      e.0 in AllMissingNames(packages) && e.1 == Tally.Count(AllMissingNames(packages), e.0)
  {
    var all := AllMissingNames(packages);
    var t := Tally.Tally(all);
    Ranking.TopMembers(t, TopMissingCount, ByCount);
    Tally.TallyDistinct(all);
    Tally.TallyPositive(all);
    forall e: (string, nat) | e in TopMissing(packages) ensures e.0 in all && e.1 == Tally.Count(all, e.0) {
      Tally.GetOfMember(t, e.0, e.1);
      Tally.TallyGet(all, e.0);
      var i :| 0 <= i < |t| && t[i] == e;
      assert e.1 >= 1;
    }
  }

  /** The names reported are distinct. */
  lemma TopMissingDistinct(packages: seq<Package>)
    ensures Tally.DistinctKeys(TopMissing(packages))
  {
    var all := AllMissingNames(packages);
    var t := Tally.Tally(all);
    var top := TopMissing(packages);
    Ranking.TopSplit(t, TopMissingCount, ByCount);
    Ranking.TopMembers(t, TopMissingCount, ByCount);
    Tally.TallyDistinct(all);
    forall i, j | 0 <= i < j < |top| ensures top[i].0 != top[j].0 {
      if top[i].0 == top[j].0 {
        assert top[i] in top && top[j] in top;
        Tally.GetOfMember(t, top[i].0, top[i].1);
        Tally.GetOfMember(t, top[j].0, top[j].1);
        TwiceInMultiset(top, i, j);
        DistinctOnce(t, top[i]);
      }
    }
  }

  /** An element at two positions occurs at least twice. */
  lemma TwiceInMultiset<T>(s: seq<T>, i: nat, j: nat)
    requires i < j < |s| && s[i] == s[j]
    ensures multiset(s)[s[i]] >= 2
  {
    assert s == s[..j] + [s[j]] + s[j + 1..];
    assert s[i] in s[..j];
  }

  /** With distinct keys, no pair occurs twice. */
  lemma {:induction false} DistinctOnce<K>(t: seq<(K, nat)>, p: (K, nat))
    requires Tally.DistinctKeys(t)
    ensures multiset(t)[p] <= 1
  {
    if t != [] {
      var rest := t[1..];
      assert t == [t[0]] + rest;
      assert Tally.DistinctKeys(rest) by {
        forall a, b | 0 <= a < b < |rest| ensures rest[a].0 != rest[b].0 {
          assert rest[a] == t[a + 1] && rest[b] == t[b + 1];
        }
      }
      DistinctOnce(rest, p);
      if t[0] == p {
        forall k | 0 <= k < |rest| ensures rest[k] != p {
          assert rest[k] == t[k + 1];
        }
        assert p !in rest;
      }
    }
  }

  /** The counting loop of `generate_rejection_report`. */
  method CountReasons(rejected: seq<Record>) returns (reasons: seq<(string, nat)>)
    ensures reasons == Tally.Tally(Reasons(rejected))
  {
    reasons := [];
    for i := 0 to |rejected|
      invariant reasons == Tally.Tally(Reasons(rejected[..i]))
    {
      var reason := GetOr(rejected[i], "rejection_reason", UnknownReason);
      ReasonStep(rejected, i);
      reasons := Tally.Bump(reasons, reason);
    }
    assert rejected[..|rejected|] == rejected;
  }

  lemma ReasonStep(rejected: seq<Record>, i: nat)
    requires i < |rejected|
    ensures Tally.Tally(Reasons(rejected[..i + 1]))
         == Tally.Bump(Tally.Tally(Reasons(rejected[..i])), GetOr(rejected[i], "rejection_reason", UnknownReason))
  {
    var reason := GetOr(rejected[i], "rejection_reason", UnknownReason);
    assert Reasons(rejected[..i + 1]) == Reasons(rejected[..i]) + [reason];
    Tally.TallySnoc(Reasons(rejected[..i]), reason);
  }

  /** The counting loops of `generate_missing_documents_report`. */
  method CountMissing(packages: seq<Package>) returns (missingDocs: seq<(string, nat)>)
    ensures missingDocs == Tally.Tally(AllMissingNames(packages))
  {
    missingDocs := [];
    for i := 0 to |packages|
      invariant missingDocs == Tally.Tally(AllMissingNames(packages[..i]))
    {
      var entries := EntriesOf(packages[i]);
      var before := AllMissingNames(packages[..i]);
      assert before + MissingNames(entries[..0]) == before;
      for j := 0 to |entries|
        invariant missingDocs == Tally.Tally(before + MissingNames(entries[..j]))
      {
        var name := MissingName(entries[j]);
        MissingStep(before, entries, j);
        missingDocs := Tally.Bump(missingDocs, name);
      }
      PackageStep(packages, i);
    }
    assert packages[..|packages|] == packages;
  }

  lemma MissingStep(before: seq<string>, entries: seq<MissingEntry>, j: nat)
    requires j < |entries|
    ensures Tally.Tally(before + MissingNames(entries[..j + 1]))
         == Tally.Bump(Tally.Tally(before + MissingNames(entries[..j])), MissingName(entries[j]))
  {
    var name := MissingName(entries[j]);
    assert MissingNames(entries[..j + 1]) == MissingNames(entries[..j]) + [name];
    AppendAssoc(before, MissingNames(entries[..j]), [name]);
    Tally.TallySnoc(before + MissingNames(entries[..j]), name);
  }

  lemma PackageStep(packages: seq<Package>, i: nat)
    requires i < |packages|
    ensures AllMissingNames(packages[..i + 1]) == AllMissingNames(packages[..i]) + MissingNames(EntriesOf(packages[i])[..|EntriesOf(packages[i])|])
  {
    var entries := EntriesOf(packages[i]);
    assert packages[..i + 1][..i] == packages[..i];
    assert entries[..|entries|] == entries;
  }

  // ---------------------------------------------------------------------
  // ReportGenerator
  // ---------------------------------------------------------------------

  class ReportGenerator {
    var procurements: seq<Record>
    var packages: seq<Package>

    constructor ()
      ensures procurements == [] && packages == []
    {
      procurements := [];
      packages := [];
    }

    /** `add_procurement_data`. */
    method AddProcurementData(procurement: Record)
      modifies this
      ensures procurements == old(procurements) + [procurement]
      ensures packages == old(packages)
    {
      procurements := procurements + [procurement];
    }

    /** `add_package_data`. */
    method AddPackageData(package: Package)
      modifies this
      ensures packages == old(packages) + [package]
      ensures procurements == old(procurements)
    {
      packages := packages + [package];
    }

    /** `generate_procurement_report`, stamped `now`. */
    method GenerateProcurementReport(start: Option<string>, end: Option<string>, now: string) returns (r: ProcurementReport)
      ensures r.periodStart == OrNotAvailable(start) && r.periodEnd == OrNotAvailable(end)
      ensures r.totalProcurements == |FilterByDate(procurements, start, end)|
      ensures r.byStatus == Tally.Tally(FieldValues(FilterByDate(procurements, start, end), "status"))
      ensures r.byLegalBasis == Tally.Tally(FieldValues(FilterByDate(procurements, start, end), "legal_basis"))
      ensures r.generatedAt == now
    {
      var filtered := FilterByDate(procurements, start, end);
      var byStatus := CountByField(filtered, "status");
      var byLegalBasis := CountByField(filtered, "legal_basis");
      r := ProcurementReport(OrNotAvailable(start), OrNotAvailable(end), |filtered|, byStatus, byLegalBasis, now);
    }

    /** `generate_rejection_report`, stamped `now`. */
    method GenerateRejectionReport(now: string) returns (r: RejectionReport)
      ensures r.totalRejected == CountIf(procurements, IsRejected)
      ensures r.rejectionRate == RejectionRate(procurements)
      ensures r.reasons == Tally.Tally(Reasons(Filter(procurements, IsRejected)))
      ensures r.generatedAt == now
    {
      var rejected := Filter(procurements, IsRejected);
      FilterMeaning(procurements, IsRejected);
      var reasons := CountReasons(rejected);
      var rate := if |procurements| > 0 then |rejected| as real / |procurements| as real else 0.0;
      r := RejectionReport(|rejected|, rate, reasons, now);
    }

    /** `generate_missing_documents_report`, stamped `now`. */
    method GenerateMissingDocumentsReport(now: string) returns (r: MissingReport)
      ensures r.topMissingDocuments == TopMissing(packages)
      ensures r.generatedAt == now
    {
      var missingDocs := CountMissing(packages);
      r := MissingReport(Ranking.Top(missingDocs, TopMissingCount, ByCount), now);
    }
  }
}
