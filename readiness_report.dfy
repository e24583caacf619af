/**
 * The readiness report on a package (src/readiness_report.py): metrics over
 * the inventory items, the problems found in them, recommendations, the
 * overall status, a summary of problems by type and a three-line
 * checklist.
 *
 * The report id and time stamp, the status descriptions and exporting are
 * left out.
 */
module ReadinessReport {
  import opened Wrappers
  import opened Text
  import opened Sequences
  import opened Percentages
  import Tally

  const StatusReady := "ready"
  const StatusIncomplete := "incomplete"
  const StatusWithRisks := "with_risks"
  const StatusNotStarted := "not_started"

  const ProblemMissingMandatory := "missing_mandatory"
  const ProblemMissingOptional := "missing_optional"
  const ProblemNoTemplate := "no_template"
  const ProblemExpiringSoon := "expiring_soon"

  const LowReadinessAdvice := "Готовность пакета низкая. Рекомендуется сосредоточиться на обязательных документах"
  const AlmostReadyAdvice := "Пакет почти готов. Проверьте оставшиеся документы"
  const ReadyAdvice := "Пакет полностью готов к подаче. Рекомендуется финальная проверка перед отправкой"
  const CatalogueAdvice := "Рассмотрите использование каталога типовых документов для ускорения подготовки заявок"

  /** An inventory item as the report reads it: every key may be absent. */
  datatype ReportItem = ReportItem(
    documentId: Option<string>, documentName: Option<string>, completionStatus: Option<string>,
    mandatory: Option<bool>, templateMatch: Option<bool>, validity: Option<string>,
    sourceType: Option<string>, linkedRequirements: Option<seq<string>>)

  /** A problem dict; "type" and "priority" are optional for the functions that read problems. */
  datatype Problem = Problem(
    kind: Option<string>, documentId: Option<string>, documentName: Option<string>,
    priority: Option<string>, linkedRequirements: Option<seq<string>>,
    description: string, actionRequired: string)

  /** The dict `calculate_readiness` returns, with the percentage kept exact. */
  datatype Readiness = Readiness(
    totalRequirements: nat, requirementsCovered: nat, totalMandatory: nat, providedMandatory: nat,
    completeness: real, totalOptional: nat, providedOptional: nat,
    fromTemplates: nat, userProvided: nat)

  datatype ChecklistEntry = ChecklistEntry(item: string, checked: bool, status: string)

  // ---------------------------------------------------------------------
  // calculate_readiness
  // ---------------------------------------------------------------------

  /** completion_status in {"provided", "from_template"}. */
  predicate Provided(i: ReportItem) {
    i.completionStatus == Some("provided") || i.completionStatus == Some("from_template")
  }

  /** `i.get("mandatory")` is truthy: an item without the key counts as optional. */
  predicate Mandatory(i: ReportItem) { i.mandatory == Some(true) }
  predicate Optional(i: ReportItem) { !Mandatory(i) }
  predicate ProvidedMandatory(i: ReportItem) { Mandatory(i) && Provided(i) }
  predicate ProvidedOptional(i: ReportItem) { Optional(i) && Provided(i) }
  predicate FromTemplates(i: ReportItem) { i.sourceType == Some("template_library") }
  predicate UserProvided(i: ReportItem) { i.sourceType == Some("user_provided") }

  /** `calculate_readiness(manifest, requirements)`; only the number of requirements is read. */
  function CalculateReadiness<R>(items: seq<ReportItem>, requirements: seq<R>): Readiness {
    var totalMandatory := CountIf(items, Mandatory);
    var providedMandatory := CountIf(items, ProvidedMandatory);
    var providedOptional := CountIf(items, ProvidedOptional);
    Readiness(
      |requirements|, providedMandatory + providedOptional, totalMandatory, providedMandatory,
      if totalMandatory > 0 then ExactPercent(providedMandatory, totalMandatory) else 100.0,
      CountIf(items, Optional), providedOptional,
      CountIf(items, FromTemplates), CountIf(items, UserProvided))
  }

  lemma {:induction false} ReadinessCounts(items: seq<ReportItem>)
    ensures CountIf(items, Mandatory) + CountIf(items, Optional) == |items|
    ensures CountIf(items, ProvidedMandatory) + CountIf(items, ProvidedOptional) == CountIf(items, Provided)
    ensures CountIf(items, ProvidedMandatory) <= CountIf(items, Mandatory)
    ensures CountIf(items, ProvidedOptional) <= CountIf(items, Optional)
  {
    if items != [] {
      ReadinessCounts(items[..|items| - 1]);
    }
  }

  /**
   * Every item is mandatory or optional; the requirements covered are the
   * items provided; the percentage lies in [0, 100] and is 100 exactly when
   * every mandatory item is provided (so also with no mandatory item).
   */
  lemma ReadinessMeaning<R>(items: seq<ReportItem>, requirements: seq<R>)
    ensures var m := CalculateReadiness(items, requirements);
      m.totalMandatory + m.totalOptional == |items|
      && m.requirementsCovered == CountIf(items, Provided)
      && m.providedMandatory <= m.totalMandatory && m.providedOptional <= m.totalOptional
      && 0.0 <= m.completeness <= 100.0
      && (m.completeness == 100.0 <==> forall k :: 0 <= k < |items| && Mandatory(items[k]) ==> Provided(items[k]))
  {
    ReadinessCounts(items);
    CountIfAll(items, ProvidedMandatory);
    MandatoryProvidedAll(items);
    var m := CalculateReadiness(items, requirements);
    if m.totalMandatory > 0 {
      ExactPercentRange(m.providedMandatory, m.totalMandatory);
    }
  }

  /** All mandatory items are provided exactly when the two counts agree. */
  lemma {:induction false} MandatoryProvidedAll(items: seq<ReportItem>)
    ensures CountIf(items, ProvidedMandatory) == CountIf(items, Mandatory) <==>
      forall k :: 0 <= k < |items| && Mandatory(items[k]) ==> Provided(items[k])
  {
    if items != [] {
      var init := items[..|items| - 1];
      MandatoryProvidedAll(init);
      ReadinessCounts(init);
      var last := items[|items| - 1];
      if forall k :: 0 <= k < |init| && Mandatory(init[k]) ==> Provided(init[k]) {
        if !Mandatory(last) || Provided(last) {
          forall k | 0 <= k < |items| && Mandatory(items[k]) ensures Provided(items[k]) {
            if k < |init| { assert items[k] == init[k]; }
          }
        }
      } else {
        var k :| 0 <= k < |init| && Mandatory(init[k]) && !Provided(init[k]);
        assert items[k] == init[k];
      }
    }
  }

  // ---------------------------------------------------------------------
  // identify_problems
  // ---------------------------------------------------------------------

  /** The problems the first loop records for one item. */
  function ItemProblems(item: ReportItem): (ps: seq<Problem>)
    ensures |ps| <= 1
  {
    var name := item.documentName.GetOr("");
    var id := item.documentId.GetOr("");
    var status := item.completionStatus.GetOr("");
    var mandatory := item.mandatory.GetOr(true);
    var missing :=
      if status == "missing" && mandatory then
        [Problem(Some(ProblemMissingMandatory), Some(id), Some(name), Some("high"),
                 Some(item.linkedRequirements.GetOr([])),
                 "Обязательный документ отсутствует: " + name, "Необходимо предоставить документ")]
      else if status == "missing" && !mandatory then
        [Problem(Some(ProblemMissingOptional), Some(id), Some(name), Some("low"), None,
                 "Опциональный документ отсутствует: " + name, "Рекомендуется предоставить для повышения шансов")]
      else [];
    var noTemplate :=
      if status == "not_prepared" && item.templateMatch != Some(true) then
        [Problem(Some(ProblemNoTemplate), Some(id), Some(name), Some(if mandatory then "medium" else "low"), None,
                 "Типовой шаблон не найден: " + name, "Подготовить документ вручную или добавить шаблон")]
      else [];
    missing + noTemplate
  }

  /** The validity text mentions days ("дней", in any case) or "30". */
  predicate LimitedValidity(item: ReportItem) {
    var validity := item.validity.GetOr("");
    Contains(Lower(validity), "дней") || Contains(validity, "30")
  }

  /** The problem the second loop records for one item, if any. */
  function ExpiryProblems(item: ReportItem): (ps: seq<Problem>)
    ensures |ps| == if LimitedValidity(item) then 1 else 0
  {
    if LimitedValidity(item) then
      [Problem(Some(ProblemExpiringSoon), item.documentId, item.documentName, Some("medium"), None,
               "Документ имеет ограниченный срок действия: " + item.validity.GetOr(""),
               "Проверить актуальность перед подачей")]
    else []
  }

  /** The first loop's output. */
  function PerItemProblems(items: seq<ReportItem>): seq<Problem> {
    if items == [] then [] else PerItemProblems(items[..|items| - 1]) + ItemProblems(items[|items| - 1])
  }

  /** The second loop's output. */
  function ExpiringProblems(items: seq<ReportItem>): seq<Problem> {
    if items == [] then [] else ExpiringProblems(items[..|items| - 1]) + ExpiryProblems(items[|items| - 1])
  }

  /** What `identify_problems` returns. */
  function Problems(items: seq<ReportItem>): seq<Problem> {
    PerItemProblems(items) + ExpiringProblems(items)
  }

  lemma PerItemStep(items: seq<ReportItem>, i: nat)
    requires i < |items|
    ensures PerItemProblems(items[..i + 1]) == PerItemProblems(items[..i]) + ItemProblems(items[i])
  {
    assert items[..i + 1][..i] == items[..i];
  }

  lemma ExpiringStep(items: seq<ReportItem>, i: nat)
    requires i < |items|
    ensures ExpiringProblems(items[..i + 1]) == ExpiringProblems(items[..i]) + ExpiryProblems(items[i])
  {
    assert items[..i + 1][..i] == items[..i];
  }

  /** `identify_problems`: a loop for the per-item problems, then one for limited validity. */
  method IdentifyProblems(items: seq<ReportItem>) returns (problems: seq<Problem>)
    ensures problems == Problems(items)
  {
    problems := AddItemProblems(items);
    problems := AddExpiryProblems(items, problems);
  }

  /** The first loop of `identify_problems`. */
  method AddItemProblems(items: seq<ReportItem>) returns (problems: seq<Problem>)
    ensures problems == PerItemProblems(items)
  {
    problems := [];
    for i := 0 to |items|
      invariant problems == PerItemProblems(items[..i])
    {
      PerItemStep(items, i);
      var item := items[i];
      var docName := item.documentName.GetOr("");
      var docId := item.documentId.GetOr("");
      var status := item.completionStatus.GetOr("");
      var mandatory := item.mandatory.GetOr(true);
      if status == "missing" && mandatory {
        problems := problems + [Problem(Some(ProblemMissingMandatory), Some(docId), Some(docName), Some("high"),
          Some(item.linkedRequirements.GetOr([])),
          "Обязательный документ отсутствует: " + docName, "Необходимо предоставить документ")];
      } else if status == "missing" && !mandatory {
        problems := problems + [Problem(Some(ProblemMissingOptional), Some(docId), Some(docName), Some("low"), None,
          "Опциональный документ отсутствует: " + docName, "Рекомендуется предоставить для повышения шансов")];
      }
      if status == "not_prepared" && item.templateMatch != Some(true) {
        problems := problems + [Problem(Some(ProblemNoTemplate), Some(docId), Some(docName),
          Some(if mandatory then "medium" else "low"), None,
          "Типовой шаблон не найден: " + docName, "Подготовить документ вручную или добавить шаблон")];
      }
    }
    assert items[..|items|] == items;
  }

  /** The second loop of `identify_problems`, appending to what the first found. */
  method AddExpiryProblems(items: seq<ReportItem>, found: seq<Problem>) returns (problems: seq<Problem>)
    ensures problems == found + ExpiringProblems(items)
  {
    problems := found;
    for i := 0 to |items|
      invariant problems == found + ExpiringProblems(items[..i])
    {
      ExpiringStep(items, i);
      var item := items[i];
      var validity := item.validity.GetOr("");
      if Contains(Lower(validity), "дней") || Contains(validity, "30") {
        problems := problems + [Problem(Some(ProblemExpiringSoon), item.documentId, item.documentName, Some("medium"), None,
          "Документ имеет ограниченный срок действия: " + validity, "Проверить актуальность перед подачей")];
      }
    }
    assert items[..|items|] == items;
  }

  predicate IsMissingMandatory(p: Problem) { p.kind == Some(ProblemMissingMandatory) }
  predicate IsNoTemplate(p: Problem) { p.kind == Some(ProblemNoTemplate) }
  predicate IsExpiring(p: Problem) { p.kind == Some(ProblemExpiringSoon) }
  predicate IsHighPriority(p: Problem) { p.priority == Some("high") }

  /** "missing" with mandatory defaulting to true: the items that give a missing_mandatory problem. */
  predicate MissingMandatoryItem(i: ReportItem) {
    i.completionStatus == Some("missing") && i.mandatory.GetOr(true)
  }

  lemma ItemProblemCounts(item: ReportItem)
    ensures CountIf(ItemProblems(item), IsMissingMandatory) == (if MissingMandatoryItem(item) then 1 else 0)
    ensures CountIf(ItemProblems(item), IsHighPriority) == (if MissingMandatoryItem(item) then 1 else 0)
    ensures CountIf(ItemProblems(item), IsExpiring) == 0
  {
    var ps := ItemProblems(item);
    if |ps| == 1 {
      assert ps[..0] == [];
    }
  }

  lemma ExpiryProblemCounts(item: ReportItem)
    ensures CountIf(ExpiryProblems(item), IsMissingMandatory) == 0
    ensures CountIf(ExpiryProblems(item), IsHighPriority) == 0
    ensures CountIf(ExpiryProblems(item), IsExpiring) == (if LimitedValidity(item) then 1 else 0)
  {
    if LimitedValidity(item) {
      assert ExpiryProblems(item)[..0] == [];
    }
  }

  /**
   * Problem counts by kind: one missing_mandatory problem, and one
   * high-priority problem, per missing item whose mandatory flag is true or
   * absent; one expiring_soon problem per item with limited validity.
   */
  lemma {:induction false} ProblemCounts(items: seq<ReportItem>)
    ensures CountIf(Problems(items), IsMissingMandatory) == CountIf(items, MissingMandatoryItem)
    ensures CountIf(Problems(items), IsHighPriority) == CountIf(items, MissingMandatoryItem)
    ensures CountIf(Problems(items), IsExpiring) == CountIf(items, LimitedValidity)
  {
    PerItemCounts(items);
    ExpiringCounts(items);
    CountIfAppend(PerItemProblems(items), ExpiringProblems(items), IsMissingMandatory);
    CountIfAppend(PerItemProblems(items), ExpiringProblems(items), IsHighPriority);
    CountIfAppend(PerItemProblems(items), ExpiringProblems(items), IsExpiring);
  }

  lemma {:induction false} PerItemCounts(items: seq<ReportItem>)
    ensures CountIf(PerItemProblems(items), IsMissingMandatory) == CountIf(items, MissingMandatoryItem)
    ensures CountIf(PerItemProblems(items), IsHighPriority) == CountIf(items, MissingMandatoryItem)
    ensures CountIf(PerItemProblems(items), IsExpiring) == 0
  {
    if items != [] {
      var init, last := items[..|items| - 1], items[|items| - 1];
      PerItemCounts(init);
      ItemProblemCounts(last);
      CountIfAppend(PerItemProblems(init), ItemProblems(last), IsMissingMandatory);
      CountIfAppend(PerItemProblems(init), ItemProblems(last), IsHighPriority);
      CountIfAppend(PerItemProblems(init), ItemProblems(last), IsExpiring);
    }
  }

  lemma {:induction false} ExpiringCounts(items: seq<ReportItem>)
    ensures CountIf(ExpiringProblems(items), IsMissingMandatory) == 0
    ensures CountIf(ExpiringProblems(items), IsHighPriority) == 0
    ensures CountIf(ExpiringProblems(items), IsExpiring) == CountIf(items, LimitedValidity)
    ensures forall k :: 0 <= k < |ExpiringProblems(items)| ==> IsExpiring(ExpiringProblems(items)[k])
  {
    if items != [] {
      var init, last := items[..|items| - 1], items[|items| - 1];
      ExpiringCounts(init);
      ExpiryProblemCounts(last);
      CountIfAppend(ExpiringProblems(init), ExpiryProblems(last), IsMissingMandatory);
      CountIfAppend(ExpiringProblems(init), ExpiryProblems(last), IsHighPriority);
      CountIfAppend(ExpiringProblems(init), ExpiryProblems(last), IsExpiring);
    }
  }

  /** The expiring_soon problems come after all per-item problems. */
  lemma ExpiringComeLast(items: seq<ReportItem>)
    ensures forall k :: |PerItemProblems(items)| <= k < |Problems(items)| ==> IsExpiring(Problems(items)[k])
  {
    ExpiringCounts(items);
    var n := |PerItemProblems(items)|;
    forall k | n <= k < |Problems(items)| ensures IsExpiring(Problems(items)[k]) {
      assert Problems(items)[k] == ExpiringProblems(items)[k - n];
    }
  }

  // ---------------------------------------------------------------------
  // generate_recommendations
  // ---------------------------------------------------------------------

  /** The problems of one kind, in order (`[p for p in problems if p.get("type") == kind]`). */
  function OfKind(problems: seq<Problem>, kind: string): (r: seq<Problem>)
    ensures |r| <= |problems|
    ensures forall k :: 0 <= k < |r| ==> r[k].kind == Some(kind)
  {
    if problems == [] then []
    else
      var init := OfKind(problems[..|problems| - 1], kind);
      if problems[|problems| - 1].kind == Some(kind) then init + [problems[|problems| - 1]] else init
  }

  /** The names of the problems, "" where absent. */
  function Names(problems: seq<Problem>): (ns: seq<string>)
    ensures |ns| == |problems|
  {
    seq(|problems|, k requires 0 <= k < |problems| => problems[k].documentName.GetOr(""))
  }

  function UrgentAdvice(missing: seq<Problem>): string {
    "СРОЧНО: подготовить обязательные документы (" + NatToString(|missing|) + " шт.): "
      + Join(Names(missing[..if |missing| < 5 then |missing| else 5]), ", ")
  }

  function TemplatesAdvice(n: nat): string {
    "Добавить типовые шаблоны для " + NatToString(n) + " документов для ускорения подготовки будущих заявок"
  }

  function ExpiryAdvice(n: nat): string {
    "Проверить актуальность " + NatToString(n) + " документов с ограниченным сроком действия"
  }

  /** The advice on completeness: low below 50, almost ready below 80, ready at 100 without problems. */
  function CompletenessAdvice(completeness: real, noProblems: bool): seq<string> {
    if completeness < 50.0 then [LowReadinessAdvice]
    else if completeness < 80.0 then [AlmostReadyAdvice]
    else if completeness >= 100.0 && noProblems then [ReadyAdvice]
    else []
  }

  /** `generate_recommendations(problems, metrics)`. */
  function Recommendations(problems: seq<Problem>, metrics: Readiness): seq<string> {
    var missing := OfKind(problems, ProblemMissingMandatory);
    var noTemplate := OfKind(problems, ProblemNoTemplate);
    var expiring := OfKind(problems, ProblemExpiringSoon);
    (if missing != [] then [UrgentAdvice(missing)] else [])
    + (if noTemplate != [] then [TemplatesAdvice(|noTemplate|)] else [])
    + (if expiring != [] then [ExpiryAdvice(|expiring|)] else [])
    + CompletenessAdvice(metrics.completeness, problems == [])
    + (if metrics.fromTemplates == 0 then [CatalogueAdvice] else [])
  }

  /** `OfKind` keeps exactly the problems of that kind. */
  lemma {:induction false} OfKindCount(problems: seq<Problem>)
    ensures |OfKind(problems, ProblemMissingMandatory)| == CountIf(problems, IsMissingMandatory)
    ensures |OfKind(problems, ProblemNoTemplate)| == CountIf(problems, IsNoTemplate)
    ensures |OfKind(problems, ProblemExpiringSoon)| == CountIf(problems, IsExpiring)
  {
    if problems != [] {
      OfKindCount(problems[..|problems| - 1]);
    }
  }

  /**
   * With missing_mandatory problems, the first recommendation counts all of
   * them and names the first five (fewer when there are fewer).
   */
  lemma UrgentAdviceFirst(problems: seq<Problem>, metrics: Readiness)
    requires CountIf(problems, IsMissingMandatory) > 0
    ensures var r := Recommendations(problems, metrics);
      var missing := OfKind(problems, ProblemMissingMandatory);
      |r| >= 1 && |missing| == CountIf(problems, IsMissingMandatory)
      && r[0] == "СРОЧНО: подготовить обязательные документы (" + NatToString(CountIf(problems, IsMissingMandatory))
                 + " шт.): " + Join(Names(missing[..if |missing| < 5 then |missing| else 5]), ", ")
  {
    OfKindCount(problems);
  }

  /**
   * The completeness message comes just before the catalogue hint, which
   * is last when no item comes from the template library: the low-readiness
   * message below 50, the almost-ready one from 50 to below 80, the ready
   * one at 100 or more when there is no problem.
   */
  lemma CompletenessAdviceRules(problems: seq<Problem>, metrics: Readiness)
    ensures var r := Recommendations(problems, metrics);
      var n := |r| - (if metrics.fromTemplates == 0 then 1 else 0);
      0 <= n <= |r|
      && (metrics.fromTemplates == 0 ==> r[n] == CatalogueAdvice)
      && (metrics.completeness < 50.0 ==> 1 <= n && r[n - 1] == LowReadinessAdvice)
      && (50.0 <= metrics.completeness < 80.0 ==> 1 <= n && r[n - 1] == AlmostReadyAdvice)
      && (metrics.completeness >= 100.0 && problems == [] ==> 1 <= n && r[n - 1] == ReadyAdvice)
  {
  }

  // ---------------------------------------------------------------------
  // _determine_status
  // ---------------------------------------------------------------------

  /**
   * `_determine_status`: not_started at 0% takes precedence, then
   * incomplete with a missing mandatory document, then with_risks with any
   * problem, else ready.
   */
  function DetermineStatus(metrics: Readiness, problems: seq<Problem>): (s: string)
    ensures s == StatusNotStarted <==> metrics.completeness == 0.0
    ensures s == StatusIncomplete <==> metrics.completeness != 0.0 && CountIf(problems, IsMissingMandatory) > 0
    ensures s == StatusWithRisks <==>
      metrics.completeness != 0.0 && CountIf(problems, IsMissingMandatory) == 0 && problems != []
    ensures s == StatusReady <==> metrics.completeness != 0.0 && problems == []
  {
    if metrics.completeness == 0.0 then StatusNotStarted
    else if CountIf(problems, IsMissingMandatory) > 0 then StatusIncomplete
    else if problems != [] then StatusWithRisks
    else StatusReady
  }

  // ---------------------------------------------------------------------
  // _summarize_problems
  // ---------------------------------------------------------------------

  /** `problem.get("type", "unknown")`. */
  function KindKey(p: Problem): string { p.kind.GetOr("unknown") }

  function KindKeys(problems: seq<Problem>): (ks: seq<string>)
    ensures |ks| == |problems|
  {
    seq(|problems|, k requires 0 <= k < |problems| => KindKey(problems[k]))
  }

  /** `_summarize_problems`: a count per type, in first-occurrence order. */
  method SummarizeProblems(problems: seq<Problem>) returns (summary: seq<(string, nat)>)
    ensures summary == Tally.Tally(KindKeys(problems))
  {
    summary := [];
    for i := 0 to |problems|
      invariant summary == Tally.Tally(KindKeys(problems)[..i])
    {
      assert KindKeys(problems)[..i + 1][..i] == KindKeys(problems)[..i];
      summary := Tally.Bump(summary, problems[i].kind.GetOr("unknown"));
    }
    assert KindKeys(problems)[..|problems|] == KindKeys(problems);
  }

  /**
   * The summary counts every problem once: its counts add up to the number
   * of problems, each type at most once, and a problem without a type under
   * "unknown".
   */
  lemma SummaryCounts(problems: seq<Problem>)
    ensures Tally.Total(Tally.Tally(KindKeys(problems))) == |problems|
    ensures Tally.DistinctKeys(Tally.Tally(KindKeys(problems)))
    ensures forall k :: k in Tally.Keys(Tally.Tally(KindKeys(problems))) <==> exists p :: p in problems && KindKey(p) == k
  {
    Tally.TallyTotal(KindKeys(problems));
    Tally.TallyDistinct(KindKeys(problems));
    forall k ensures k in Tally.Keys(Tally.Tally(KindKeys(problems))) <==> exists p :: p in problems && KindKey(p) == k {
      Tally.TallyGet(KindKeys(problems), k);
      if k in KindKeys(problems) {
        var j :| 0 <= j < |problems| && KindKeys(problems)[j] == k;
        assert problems[j] in problems;
      }
      if exists p :: p in problems && KindKey(p) == k {
        var p :| p in problems && KindKey(p) == k;
        var j :| 0 <= j < |problems| && problems[j] == p;
        assert KindKeys(problems)[j] == k;
      }
    }
  }

  // ---------------------------------------------------------------------
  // _generate_checklist
  // ---------------------------------------------------------------------

  /** `_generate_checklist`: all documents, all mandatory documents, no critical problem. */
  function Checklist(items: seq<ReportItem>, problems: seq<Problem>): (r: seq<ChecklistEntry>)
    ensures |r| == 3
  {
    var total := |items|;
    var provided := CountIf(items, Provided);
    var mandatory := CountIf(items, Mandatory);
    var mandatoryProvided := CountIf(items, ProvidedMandatory);
    var highPriority := CountIf(problems, IsHighPriority);
    [ChecklistEntry("Все документы предоставлены", provided == total,
                    NatToString(provided) + "/" + NatToString(total)),
     ChecklistEntry("Все обязательные документы предоставлены", mandatoryProvided == mandatory,
                    NatToString(mandatoryProvided) + "/" + NatToString(mandatory)),
     ChecklistEntry("Нет критических проблем", highPriority == 0,
                    "Критических проблем: " + NatToString(highPriority))]
  }

  /**
   * The three checks hold exactly when every item is provided, every
   * mandatory item is provided, and no problem has high priority.
   */
  lemma ChecklistMeaning(items: seq<ReportItem>, problems: seq<Problem>)
    ensures var r := Checklist(items, problems);
      (r[0].checked <==> forall k :: 0 <= k < |items| ==> Provided(items[k]))
      && (r[1].checked <==> forall k :: 0 <= k < |items| && Mandatory(items[k]) ==> Provided(items[k]))
      && (r[2].checked <==> forall k :: 0 <= k < |problems| ==> !IsHighPriority(problems[k]))
  {
    CountIfAll(items, Provided);
    MandatoryProvidedAll(items);
    CountIfAll(problems, IsHighPriority);
  }

  /**
   * On the problems `identify_problems` finds, the third check holds exactly
   * when no item is "missing" with its mandatory flag true or absent.
   */
  lemma NoCriticalProblemsMeaning(items: seq<ReportItem>)
    ensures Checklist(items, Problems(items))[2].checked <==>
      forall k :: 0 <= k < |items| ==> !MissingMandatoryItem(items[k])
  {
    ProblemCounts(items);
    CountIfAll(items, MissingMandatoryItem);
  }
}
