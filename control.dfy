/**
 * The multi-stage control of a document package: four fixed stages
 * (automatic, legal, financial, final), each owning a fixed checklist, a
 * status and a list of issues, driven by a controller that records every
 * action in an append-only history.
 *
 * Clock readings (`datetime.now()`) are parameters: `now` is the ISO
 * timestamp of one operation and `stamp` the compact form that entry ids are
 * built from. Whether a document's file exists and its size in bytes are
 * per-document inputs.
 */
module Control {
  import opened Wrappers
  import Text
  import Tally

  /** Files above 50 MiB draw a warning. */
  const MaxFileSize: nat := 52428800

  /** A file larger than `MaxFileSize` bytes. */
  predicate TooLarge(size: nat) {
    size > MaxFileSize
  }

  const AutomaticName := "Автоматический"
  const LegalName := "Юридический"
  const FinancialName := "Финансовый"
  const FinalName := "Итоговый"

  /** The user and comment that automatic marking records. */
  const SystemUser := "system"
  const AutoComment := "Автоматическая проверка"

  /**
   * Severities. Issues are "blocker", "critical", "warning" or "info";
   * checklist items are "critical" or "normal".
   */
  datatype Severity = Blocker | Critical | Warning | Info | Normal

  /** Stage statuses: "pending", "passed", "warning", "failed". */
  datatype Status = Pending | Passed | Warning | Failed {
    /** The status as the source spells it. */
    function Spelling(): string {
      match this
      case Pending => "pending"
      case Passed => "passed"
      case Warning => "warning"
      case Failed => "failed"
    }
  }

  /** The messages a check reports; `Render` gives the text the source builds. */
  datatype Message =
    | FileNotFound(name: Option<string>)
    | FileTooLarge(name: Option<string>)
    | Expired(name: Option<string>)
    | MissingDocuments(count: nat)
    | ReviewRequired(kind: StageKind, count: nat)

  /** One issue a check reports. */
  datatype Issue = Issue(severity: Severity, message: Message)

  /** A checklist item as `ChecklistItem.to_dict` shows it. */
  datatype ItemView = ItemView(
    id: string,
    description: string,
    category: string,
    isAutomatic: bool,
    checked: bool,
    checkedBy: Option<string>,
    checkedAt: Option<string>,
    comment: string,
    severity: Severity)

  /** A document of the package as the automatic stage sees it. */
  datatype PackageDoc = PackageDoc(
    name: Option<string>,
    /** `file_path` is set and the file exists. */
    available: bool,
    /** The file size in bytes (read only when `available`). */
    size: nat,
    status: Option<string>)

  /** The package under control: its documents and the number of required documents. */
  datatype Package = Package(documents: seq<PackageDoc>, requiredCount: nat)

  datatype StageKind = Automatic | Legal | Financial | Final

  /** The mutable part of a stage, with its checklist as views. */
  datatype StageState = StageState(
    status: Status,
    issues: seq<Issue>,
    checkedAt: Option<string>,
    items: seq<ItemView>)

  /** What `get_result` returns. */
  datatype StageResult = StageResult(
    stage: string,
    status: Status,
    issues: seq<Issue>,
    checkedAt: Option<string>,
    checklist: seq<ItemView>)
  {
    /** The `completion` field: the share of checked items, computed from the checklist shown. */
    function CompletionField(): real {
      Completion(checklist)
    }
  }

  datatype HistoryEntry = HistoryEntry(
    entryId: string,
    stageName: string,
    action: string,
    userId: string,
    userName: string,
    timestamp: string,
    statusBefore: Status,
    statusAfter: Status,
    comment: string,
    timeSpentMinutes: int)

  /** What `execute_full_control` returns. */
  datatype ControlReport = ControlReport(
    overallStatus: Status,
    stages: seq<StageResult>,
    completedAt: string,
    historyEntries: nat)

  /** What `get_statistics` returns: an empty history reports only its size. */
  datatype Statistics =
    | NoEntries
    | Summary(
        totalEntries: nat,
        totalTimeMinutes: int,
        byStage: seq<(string, nat)>,
        byAction: seq<(string, nat)>)
  {
    /** `avg_time_minutes`, exact rather than rounded to one decimal. */
    function AverageTimeMinutes(): real
      requires Summary? && totalEntries > 0
    {
      totalTimeMinutes as real / totalEntries as real
    }
  }

  // ---------------------------------------------------------------------
  // Checklists

  function StageName(kind: StageKind): string {
    match kind
    case Automatic => AutomaticName
    case Legal => LegalName
    case Financial => FinancialName
    case Final => FinalName
  }

  function NewItem(id: string, description: string, category: string, isAutomatic: bool, severity: Severity): ItemView {
    ItemView(id, description, category, isAutomatic, false, None, None, "", severity)
  }

  /** The checklist each stage starts with. */
  function Template(kind: StageKind): (r: seq<ItemView>)
    ensures |r| == TemplateSize(kind)
  {
    seq(TemplateSize(kind), i requires 0 <= i < TemplateSize(kind) => TemplateItem(kind, i))
  }

  function TemplateSize(kind: StageKind): nat {
    match kind
    case Automatic => 8
    case Legal => 8
    case Financial => 7
    case Final => 4
  }

  /** Item `i` of the checklist of a stage of the given kind. */
  function TemplateItem(kind: StageKind, i: nat): ItemView
    requires i < TemplateSize(kind)
  {
    match kind
    case Automatic =>
      (match i
      case 0 => NewItem("auto_01", "Все обязательные документы предоставлены", "completeness", true, Critical)
      case 1 => NewItem("auto_02", "Форматы файлов соответствуют требованиям", "format", true, Normal)
      case 2 => NewItem("auto_03", "Размеры файлов в пределах лимитов", "format", true, Normal)
      case 3 => NewItem("auto_04", "Документы не истекли", "validity", true, Critical)
      case 4 => NewItem("auto_05", "Отсутствуют вирусы", "security", true, Normal)
      case 5 => NewItem("auto_06", "Читаемость текста (для сканов)", "quality", true, Normal)
      case 6 => NewItem("auto_07", "Подписи и печати присутствуют (если требуется)", "signatures", false, Normal)
      case _ => NewItem("auto_08", "Реквизиты актуальны", "requisites", true, Normal))
    case Legal =>
      (match i
      case 0 => NewItem("legal_01", "Соответствие учредительных документов законодательству", "compliance", false, Critical)
      case 1 => NewItem("legal_02", "Полномочия подписанта подтверждены", "authority", false, Critical)
      case 2 => NewItem("legal_03", "Отсутствие противоречий между документами", "consistency", false, Normal)
      case 3 => NewItem("legal_04", "Соответствие требованиям закупки", "compliance", false, Critical)
      case 4 => NewItem("legal_05", "Корректность формулировок", "quality", false, Normal)
      case 5 => NewItem("legal_06", "Наличие обязательных реквизитов", "requisites", false, Normal)
      case 6 => NewItem("legal_07", "Соответствие срокам действия", "validity", false, Normal)
      case _ => NewItem("legal_08", "Отсутствие ограничений на участие", "restrictions", false, Critical))
    case Financial =>
      (match i
      case 0 => NewItem("fin_01", "Финансовые показатели соответствуют требованиям", "financial", false, Critical)
      case 1 => NewItem("fin_02", "Обеспечение заявки предоставлено", "security", false, Normal)
      case 2 => NewItem("fin_03", "Расчетные счета активны", "accounts", false, Normal)
      case 3 => NewItem("fin_04", "Отсутствие задолженностей подтверждено", "debts", false, Critical)
      case 4 => NewItem("fin_05", "Ценовое предложение корректно", "pricing", false, Critical)
      case 5 => NewItem("fin_06", "НДС учтен правильно", "taxes", false, Normal)
      case _ => NewItem("fin_07", "Нет признаков демпинга", "pricing", false, Normal))
    case Final =>
      (match i
      case 0 => NewItem("final_01", "Автоматический контроль пройден", "stages", false, Critical)
      case 1 => NewItem("final_02", "Юридический контроль пройден", "stages", false, Critical)
      case 2 => NewItem("final_03", "Финансовый контроль пройден", "stages", false, Critical)
      case _ => NewItem("final_04", "Утверждение руководителя получено", "approval", false, Critical))
  }


  /** `mark_checked`: checked, by whom, when, and the comment replaced. */
  function Marked(v: ItemView, user: string, comment: string, now: string): ItemView {
    v.(checked := true, checkedBy := Some(user), checkedAt := Some(now), comment := comment)
  }

  /** Unchecking clears the flag, the user and the time, and keeps the comment. */
  function Unmarked(v: ItemView): ItemView {
    v.(checked := false, checkedBy := None, checkedAt := None)
  }

  /** The index of the first item with the given id, or -1. */
  function FirstWithId(items: seq<ItemView>, id: string): (k: int)
    ensures -1 <= k < |items|
    ensures k >= 0 ==> items[k].id == id
    ensures forall j :: 0 <= j < |items| && (k < 0 || j < k) ==> items[j].id != id
  {
    if items == [] then -1
    else if items[0].id == id then 0
    else
      var k := FirstWithId(items[1..], id);
      if k < 0 then -1 else k + 1
  }

  /**
   * `update_checklist_item` on the views: the first item with the id is
   * marked or unmarked and every other item is left as it was.
   */
  function UpdateItems(items: seq<ItemView>, id: string, checked: bool, user: string, comment: string, now: string): (r: seq<ItemView>)
    ensures |r| == |items|
    ensures forall j :: 0 <= j < |items| && j != FirstWithId(items, id) ==> r[j] == items[j]
    ensures FirstWithId(items, id) < 0 ==> r == items
  {
    var k := FirstWithId(items, id);
    if k < 0 then items
    else items[k := if checked then Marked(items[k], user, comment, now) else Unmarked(items[k])]
  }

  /** `_mark_checklist_item`: mark the first item with the id when the flag is set; never uncheck. */
  function MarkIf(items: seq<ItemView>, id: string, flag: bool, now: string): seq<ItemView> {
    if flag then UpdateItems(items, id, true, SystemUser, AutoComment, now) else items
  }

  lemma UpdateFirstMatch(items: seq<ItemView>, id: string, checked: bool, user: string, comment: string, now: string)
    requires FirstWithId(items, id) >= 0
    ensures var k := FirstWithId(items, id);
      var r := UpdateItems(items, id, checked, user, comment, now);
      r[k].id == id && r[k].checked == checked
      && (checked ==> r[k].checkedBy == Some(user) && r[k].checkedAt == Some(now) && r[k].comment == comment)
      && (!checked ==> r[k].checkedBy == None && r[k].checkedAt == None && r[k].comment == items[k].comment)
  {
  }

  /** Every item is either unchanged or, for the first item with the id, checked now. */
  lemma {:induction false} MarkIfMonotone(items: seq<ItemView>, id: string, flag: bool, now: string)
    ensures |MarkIf(items, id, flag, now)| == |items|
    ensures forall j :: 0 <= j < |items| && items[j].checked ==> MarkIf(items, id, flag, now)[j].checked
    ensures forall j :: 0 <= j < |items| && items[j].id != id ==> MarkIf(items, id, flag, now)[j] == items[j]
    ensures forall j :: 0 <= j < |items| ==> MarkIf(items, id, flag, now)[j].id == items[j].id
  {
    if flag && FirstWithId(items, id) >= 0 {
      UpdateFirstMatch(items, id, true, SystemUser, AutoComment, now);
    }
  }

  /** The items not yet checked. */
  function Unchecked(items: seq<ItemView>): (r: seq<ItemView>)
    ensures |r| <= |items|
    ensures forall v :: v in r <==> v in items && !v.checked
  {
    if items == [] then []
    else (if items[0].checked then [] else [items[0]]) + Unchecked(items[1..])
  }

  predicate HasCriticalUnchecked(items: seq<ItemView>) {
    exists j :: 0 <= j < |items| && items[j].severity == Critical && !items[j].checked
  }

  function CountChecked(items: seq<ItemView>): (n: nat)
    ensures n <= |items|
  {
    if items == [] then 0 else (if items[0].checked then 1 else 0) + CountChecked(items[1..])
  }

  /** `_calculate_checklist_completion`, as an exact percentage (the source rounds to one decimal). */
  function Completion(items: seq<ItemView>): (p: real)
    ensures 0.0 <= p <= 100.0
    ensures p == 100.0 <==> |items| == CountChecked(items)
  {
    if |items| == 0 then 100.0
    else
      var c, n := CountChecked(items) as real, |items| as real;
      PercentBounds(c, n);
      c * 100.0 / n
  }

  /** `c` out of `n` as a percentage lies in 0..100 and is 100 exactly when `c == n`. */
  lemma PercentBounds(c: real, n: real)
    requires 0.0 <= c <= n && n > 0.0
    ensures 0.0 <= c * 100.0 / n <= 100.0
    ensures c * 100.0 / n == 100.0 <==> c == n
  {
    var q := c * 100.0 / n;
    assert q * n == c * 100.0;
  }

  // ---------------------------------------------------------------------
  // The checks

  function ShowName(name: Option<string>): string {
    match name
    case Some(s) => s
    case None => "None"
  }

  /** The issues one document raises: a missing file skips the size and expiry checks. */
  function DocIssues(d: PackageDoc): seq<Issue> {
    if !d.available then [Issue(Critical, FileNotFound(d.name))]
    else
      (if TooLarge(d.size) then [Issue(Severity.Warning, FileTooLarge(d.name))] else [])
      + (if d.status == Some("expired") then [Issue(Blocker, Expired(d.name))] else [])
  }

  /** The issues of the document loop, in document order. */
  function DocsIssues(docs: seq<PackageDoc>): seq<Issue> {
    if docs == [] then [] else DocsIssues(docs[..|docs| - 1]) + DocIssues(docs[|docs| - 1])
  }

  function ShortfallIssues(pkg: Package): seq<Issue> {
    if |pkg.documents| < pkg.requiredCount
    then [Issue(Blocker, MissingDocuments(pkg.requiredCount - |pkg.documents|))]
    else []
  }

  /** All issues of an automatic check. */
  function AutoIssues(pkg: Package): seq<Issue> {
    ShortfallIssues(pkg) + DocsIssues(pkg.documents)
  }

  /** The `all_formats_ok` flag of the document loop: every file exists. */
  predicate AllAvailable(docs: seq<PackageDoc>) {
    docs == [] || (AllAvailable(docs[..|docs| - 1]) && docs[|docs| - 1].available)
  }

  /** The `all_sizes_ok` flag: no existing file is too large. */
  predicate AllSizesOk(docs: seq<PackageDoc>) {
    docs == [] || (AllSizesOk(docs[..|docs| - 1]) && (docs[|docs| - 1].available ==> !TooLarge(docs[|docs| - 1].size)))
  }

  /** The `all_valid` flag: no existing file is expired. */
  predicate AllValid(docs: seq<PackageDoc>) {
    docs == [] || (AllValid(docs[..|docs| - 1]) && (docs[|docs| - 1].available ==> docs[|docs| - 1].status != Some("expired")))
  }

  /** The three flags say what their names say about every document. */
  lemma {:induction false} FlagsMeaning(docs: seq<PackageDoc>)
    ensures AllAvailable(docs) <==> forall j :: 0 <= j < |docs| ==> docs[j].available
    ensures AllSizesOk(docs) <==> forall j :: 0 <= j < |docs| && docs[j].available ==> !TooLarge(docs[j].size)
    ensures AllValid(docs) <==> forall j :: 0 <= j < |docs| && docs[j].available ==> docs[j].status != Some("expired")
  {
    if docs != [] {
      var init := docs[..|docs| - 1];
      FlagsMeaning(init);
      assert forall j :: 0 <= j < |init| ==> init[j] == docs[j];
    }
  }

  predicate HasSeverity(issues: seq<Issue>, severity: Severity) {
    exists j :: 0 <= j < |issues| && issues[j].severity == severity
  }

  /** The status an automatic check ends in. */
  function Resolve(issues: seq<Issue>): Status {
    if HasSeverity(issues, Blocker) then Failed
    else if HasSeverity(issues, Critical) then Status.Warning
    else Passed
  }

  /** The checklist after an automatic check: seven items marked when their flag holds. */
  function AutoItems(items: seq<ItemView>, pkg: Package, now: string): seq<ItemView> {
    MarkFlags(items, FlagsOf(pkg), now)
  }

  /** What the automatic check found: enough documents, and the three flags of its document loop. */
  datatype Flags = Flags(enough: bool, formatsOk: bool, sizesOk: bool, valid: bool)

  function FlagsOf(pkg: Package): Flags {
    var docs := pkg.documents;
    Flags(|docs| >= pkg.requiredCount, AllAvailable(docs), AllSizesOk(docs), AllValid(docs))
  }

  /** The seven markings: four by flag, three unconditional. */
  function MarkFlags(items: seq<ItemView>, flags: Flags, now: string): seq<ItemView> {
    var m1 := MarkIf(items, "auto_01", flags.enough, now);
    var m2 := MarkIf(m1, "auto_02", flags.formatsOk, now);
    var m3 := MarkIf(m2, "auto_03", flags.sizesOk, now);
    var m4 := MarkIf(m3, "auto_04", flags.valid, now);
    var m5 := MarkIf(m4, "auto_05", true, now);
    var m6 := MarkIf(m5, "auto_06", true, now);
    MarkIf(m6, "auto_08", true, now)
  }

  /** The text of a message, as the checks format it. */
  function Render(m: Message): string {
    match m
    case FileNotFound(name) => "Файл не найден: " + ShowName(name)
    case FileTooLarge(name) => "Файл слишком большой: " + ShowName(name)
    case Expired(name) => "Истек срок: " + ShowName(name)
    case MissingDocuments(n) => "Недостает документов: " + Text.NatToString(n)
    case ReviewRequired(kind, n) =>
      var lead := match kind
        case Legal => "Требуется юридическая проверка ("
        case Financial => "Требуется финансовая проверка ("
        case _ => "Требуется утверждение руководителя (";
      lead + Text.NatToString(n) + " пунктов)"
  }

  /** What `check` does to a stage's state. */
  function CheckSpec(kind: StageKind, st: StageState, pkg: Package, now: string): StageState {
    if kind == Automatic then AutoSpec(st, pkg, now) else ManualSpec(kind, st, now)
  }

  /** The automatic check: issues from the package, items marked by what was found. */
  function AutoSpec(st: StageState, pkg: Package, now: string): StageState {
    var issues := AutoIssues(pkg);
    StageState(Resolve(issues), issues, Some(now), AutoItems(st.items, pkg, now))
  }

  /** The legal, financial and final checks: they read the checklist and leave it alone. */
  function ManualSpec(kind: StageKind, st: StageState, now: string): StageState {
    var n := |Unchecked(st.items)|;
    if n > 0 then StageState(Pending, [Issue(Info, ReviewRequired(kind, n))], Some(now), st.items)
    else if kind == Legal && HasCriticalUnchecked(st.items) then StageState(Failed, [], Some(now), st.items)
    else StageState(Passed, [], Some(now), st.items)
  }

  function ResultOf(name: string, st: StageState): StageResult {
    StageResult(name, st.status, st.issues, st.checkedAt, st.items)
  }

  /** The most severe status wins: failed, then warning, then pending, then passed. */
  function Rank(status: Status): nat {
    match status
    case Failed => 3
    case Warning => 2
    case Pending => 1
    case Passed => 0
  }

  function Overall(statuses: seq<Status>): (r: Status)
    ensures r == Passed || r in statuses
    ensures forall j :: 0 <= j < |statuses| ==> Rank(statuses[j]) <= Rank(r)
  {
    if Failed in statuses then Failed
    else if Status.Warning in statuses then Status.Warning
    else if Pending in statuses then Pending
    else Passed
  }

  function Statuses(results: seq<StageResult>): (r: seq<Status>)
    ensures |r| == |results|
    ensures forall j :: 0 <= j < |results| ==> r[j] == results[j].status
  {
    seq(|results|, j requires 0 <= j < |results| => results[j].status)
  }

  // ---------------------------------------------------------------------
  // Properties of the checks

  /** The automatic status: failed iff a blocker, else warning iff a critical issue, else passed. */
  lemma ResolveCases(issues: seq<Issue>)
    ensures Resolve(issues) == Failed <==> HasSeverity(issues, Blocker)
    ensures Resolve(issues) == Status.Warning <==> !HasSeverity(issues, Blocker) && HasSeverity(issues, Critical)
    ensures Resolve(issues) == Passed <==> !HasSeverity(issues, Blocker) && !HasSeverity(issues, Critical)
  {
  }

  lemma HasSeverityAppend(a: seq<Issue>, b: seq<Issue>, sev: Severity)
    ensures HasSeverity(a + b, sev) <==> HasSeverity(a, sev) || HasSeverity(b, sev)
  {
    if HasSeverity(a + b, sev) {
      var j :| 0 <= j < |a + b| && (a + b)[j].severity == sev;
      if j >= |a| { assert b[j - |a|].severity == sev; }
    }
    if HasSeverity(b, sev) {
      var j :| 0 <= j < |b| && b[j].severity == sev;
      assert (a + b)[|a| + j].severity == sev;
    }
    if HasSeverity(a, sev) {
      var j :| 0 <= j < |a| && a[j].severity == sev;
      assert (a + b)[j].severity == sev;
    }
  }

  lemma DocIssuesSeverities(d: PackageDoc)
    ensures HasSeverity(DocIssues(d), Blocker) <==> d.available && d.status == Some("expired")
    ensures HasSeverity(DocIssues(d), Critical) <==> !d.available
  {
    var b := DocIssues(d);
    if !d.available {
      assert b[0].severity == Critical;
    } else if d.status == Some("expired") {
      assert b[|b| - 1].severity == Blocker;
    }
  }

  /** The issue loop raises a blocker iff an existing file is expired, and a critical issue iff a file is missing. */
  lemma {:induction false} DocsIssuesSeverities(docs: seq<PackageDoc>)
    ensures HasSeverity(DocsIssues(docs), Blocker) <==> !AllValid(docs)
    ensures HasSeverity(DocsIssues(docs), Critical) <==> !AllAvailable(docs)
  {
    if docs != [] {
      var init, d := docs[..|docs| - 1], docs[|docs| - 1];
      DocsIssuesSeverities(init);
      DocIssuesSeverities(d);
      HasSeverityAppend(DocsIssues(init), DocIssues(d), Blocker);
      HasSeverityAppend(DocsIssues(init), DocIssues(d), Critical);
    }
  }

  /**
   * The automatic stage fails iff documents are short or an existing file is
   * expired; otherwise it warns iff some file is missing. Oversize files alone
   * leave it passed.
   */
  lemma AutomaticOutcome(st: StageState, pkg: Package, now: string)
    ensures var s := CheckSpec(Automatic, st, pkg, now).status;
      && (s == Failed <==> |pkg.documents| < pkg.requiredCount || !AllValid(pkg.documents))
      && (s == Status.Warning <==> s != Failed && !AllAvailable(pkg.documents))
      && (s == Passed <==> s != Failed && AllAvailable(pkg.documents))
  {
    var sh, di := ShortfallIssues(pkg), DocsIssues(pkg.documents);
    DocsIssuesSeverities(pkg.documents);
    HasSeverityAppend(sh, di, Blocker);
    HasSeverityAppend(sh, di, Critical);
    if |pkg.documents| < pkg.requiredCount {
      assert sh[0].severity == Blocker;
    }
  }

  /**
   * Automatic marking never unchecks, leaves alone every item whose id it
   * does not mark (auto_07 among them), and keeps the ids in place.
   */
  lemma AutoItemsMonotone(items: seq<ItemView>, pkg: Package, now: string)
    ensures var r := AutoItems(items, pkg, now);
      && |r| == |items|
      && (forall j :: 0 <= j < |items| ==> r[j].id == items[j].id)
      && (forall j :: 0 <= j < |items| && items[j].checked ==> r[j].checked)
      && (forall j :: 0 <= j < |items| && items[j].id !in AutoMarkedIds() ==> r[j] == items[j])
  {
    MarkFlagsMonotone(items, FlagsOf(pkg), now);
  }

  lemma MarkFlagsMonotone(items: seq<ItemView>, flags: Flags, now: string)
    ensures var r := MarkFlags(items, flags, now);
      && |r| == |items|
      && (forall j :: 0 <= j < |items| ==> r[j].id == items[j].id)
      && (forall j :: 0 <= j < |items| && items[j].checked ==> r[j].checked)
      && (forall j :: 0 <= j < |items| && items[j].id !in AutoMarkedIds() ==> r[j] == items[j])
  {
    var m1 := MarkIf(items, "auto_01", flags.enough, now);
    var m2 := MarkIf(m1, "auto_02", flags.formatsOk, now);
    var m3 := MarkIf(m2, "auto_03", flags.sizesOk, now);
    var m4 := MarkIf(m3, "auto_04", flags.valid, now);
    var m5 := MarkIf(m4, "auto_05", true, now);
    var m6 := MarkIf(m5, "auto_06", true, now);
    var r := MarkIf(m6, "auto_08", true, now);
    MarkIfKeeps(items, "auto_01", flags.enough, now);
    MarkIfKeeps(m1, "auto_02", flags.formatsOk, now);
    MarkIfKeeps(m2, "auto_03", flags.sizesOk, now);
    MarkIfKeeps(m3, "auto_04", flags.valid, now);
    MarkIfKeeps(m4, "auto_05", true, now);
    MarkIfKeeps(m5, "auto_06", true, now);
    MarkIfKeeps(m6, "auto_08", true, now);
    KeepsTrans(items, m1, m2);
    KeepsTrans(items, m2, m3);
    KeepsTrans(items, m3, m4);
    KeepsTrans(items, m4, m5);
    KeepsTrans(items, m5, m6);
    KeepsTrans(items, m6, r);
  }

  /** `b` keeps the ids of `a` in place, unchecks nothing and changes no item automatic marking leaves alone. */
  predicate Keeps(a: seq<ItemView>, b: seq<ItemView>) {
    && |a| == |b|
    && (forall j :: 0 <= j < |a| ==> b[j].id == a[j].id && (a[j].checked ==> b[j].checked))
    && (forall j :: 0 <= j < |a| && a[j].id !in AutoMarkedIds() ==> b[j] == a[j])
  }

  lemma MarkIfKeeps(items: seq<ItemView>, id: string, flag: bool, now: string)
    requires id in AutoMarkedIds()
    ensures Keeps(items, MarkIf(items, id, flag, now))
  {
    MarkIfMonotone(items, id, flag, now);
  }

  lemma KeepsTrans(a: seq<ItemView>, b: seq<ItemView>, c: seq<ItemView>)
    requires Keeps(a, b) && Keeps(b, c)
    ensures Keeps(a, c)
  {
  }

  function AutoMarkedIds(): set<string> {
    {"auto_01", "auto_02", "auto_03", "auto_04", "auto_05", "auto_06", "auto_08"}
  }

  lemma {:induction false} FirstWithIdSameIds(a: seq<ItemView>, b: seq<ItemView>, id: string)
    requires |a| == |b| && forall j :: 0 <= j < |a| ==> a[j].id == b[j].id
    ensures FirstWithId(a, id) == FirstWithId(b, id)
  {
    if a != [] && a[0].id != id {
      FirstWithIdSameIds(a[1..], b[1..], id);
    }
  }

  /** `b` keeps the ids of `a` in place and unchecks nothing. */
  predicate Grows(a: seq<ItemView>, b: seq<ItemView>) {
    |a| == |b| && forall j :: 0 <= j < |a| ==> b[j].id == a[j].id && (a[j].checked ==> b[j].checked)
  }

  lemma MarkIfGrows(items: seq<ItemView>, id: string, flag: bool, now: string)
    ensures Grows(items, MarkIf(items, id, flag, now))
  {
    MarkIfMonotone(items, id, flag, now);
  }

  /** Marking an id that occurs checks its first item, and the ids ahead keep it checked. */
  lemma MarkedStays(items: seq<ItemView>, id: string, now: string, after: seq<ItemView>)
    requires FirstWithId(items, id) >= 0
    requires Grows(MarkIf(items, id, true, now), after)
    ensures after[FirstWithId(items, id)].checked
  {
    UpdateFirstMatch(items, id, true, SystemUser, AutoComment, now);
  }

  lemma GrowsTrans(a: seq<ItemView>, b: seq<ItemView>, c: seq<ItemView>)
    requires Grows(a, b) && Grows(b, c)
    ensures Grows(a, c)
  {
  }

  /** Marking the first item with `id` and then growing keeps it checked, at the index `id` has in `a`. */
  lemma MarkedThenGrown(a: seq<ItemView>, b: seq<ItemView>, id: string, now: string, c: seq<ItemView>)
    requires Grows(a, b) && Grows(MarkIf(b, id, true, now), c)
    ensures FirstWithId(a, id) >= 0 ==> c[FirstWithId(a, id)].checked
  {
    FirstWithIdSameIds(a, b, id);
    if FirstWithId(a, id) >= 0 {
      MarkedStays(b, id, now, c);
    }
  }

  /** After an automatic check, the first auto_05, auto_06 and auto_08 items are checked. */
  lemma AutoAlwaysMarked(items: seq<ItemView>, pkg: Package, now: string)
    ensures var r := AutoItems(items, pkg, now);
      && (FirstWithId(items, "auto_05") >= 0 ==> r[FirstWithId(items, "auto_05")].checked)
      && (FirstWithId(items, "auto_06") >= 0 ==> r[FirstWithId(items, "auto_06")].checked)
      && (FirstWithId(items, "auto_08") >= 0 ==> r[FirstWithId(items, "auto_08")].checked)
  {
    var docs := pkg.documents;
    var m1 := MarkIf(items, "auto_01", |docs| >= pkg.requiredCount, now);
    var m2 := MarkIf(m1, "auto_02", AllAvailable(docs), now);
    var m3 := MarkIf(m2, "auto_03", AllSizesOk(docs), now);
    var m4 := MarkIf(m3, "auto_04", AllValid(docs), now);
    var m5 := MarkIf(m4, "auto_05", true, now);
    var m6 := MarkIf(m5, "auto_06", true, now);
    var m7 := MarkIf(m6, "auto_08", true, now);
    assert m7 == AutoItems(items, pkg, now);
    MarkIfGrows(items, "auto_01", |docs| >= pkg.requiredCount, now);
    MarkIfGrows(m1, "auto_02", AllAvailable(docs), now);
    MarkIfGrows(m2, "auto_03", AllSizesOk(docs), now);
    MarkIfGrows(m3, "auto_04", AllValid(docs), now);
    MarkIfGrows(m4, "auto_05", true, now);
    MarkIfGrows(m5, "auto_06", true, now);
    MarkIfGrows(m6, "auto_08", true, now);
    GrowsTrans(items, m1, m2);
    GrowsTrans(items, m2, m3);
    GrowsTrans(items, m3, m4);
    GrowsTrans(items, m4, m5);
    GrowsTrans(items, m5, m6);
    GrowsTrans(m5, m6, m7);
    MarkedThenGrown(items, m4, "auto_05", now, m7);
    MarkedThenGrown(items, m5, "auto_06", now, m7);
    MarkedThenGrown(items, m6, "auto_08", now, m7);
  }

  /**
   * Legal, financial and final checks look only at their own checklist:
   * pending with exactly one info issue iff some item is unchecked, passed
   * otherwise, so they never fail.
   */
  lemma {:induction false} ManualOutcome(kind: StageKind, st: StageState, pkg: Package, now: string)
    requires kind != Automatic
    ensures var r := CheckSpec(kind, st, pkg, now);
      && r.items == st.items
      && (r.status == Pending <==> exists j :: 0 <= j < |st.items| && !st.items[j].checked)
      && (r.status == Pending ==> |r.issues| == 1 && r.issues[0].severity == Info)
      && (r.status != Pending ==> r.status == Passed && r.issues == [])
  {
    if HasCriticalUnchecked(st.items) {
      var j :| 0 <= j < |st.items| && st.items[j].severity == Critical && !st.items[j].checked;
      assert !st.items[j].checked;
    }
    if exists j :: 0 <= j < |st.items| && !st.items[j].checked {
      var j :| 0 <= j < |st.items| && !st.items[j].checked;
      assert st.items[j] in Unchecked(st.items);
    }
    if |Unchecked(st.items)| > 0 {
      assert Unchecked(st.items)[0] in Unchecked(st.items);
    }
  }

  // ---------------------------------------------------------------------
  // The objects

  class ChecklistItem {
    const id: string
    const description: string
    const category: string
    const isAutomatic: bool
    const severity: Severity
    var checked: bool
    var checkedBy: Option<string>
    var checkedAt: Option<string>
    var comment: string

    function View(): ItemView
      reads this
    {
      ItemView(id, description, category, isAutomatic, checked, checkedBy, checkedAt, comment, severity)
    }

    constructor (v: ItemView)
      ensures View() == v
    {
      id, description, category, isAutomatic, severity := v.id, v.description, v.category, v.isAutomatic, v.severity;
      checked, checkedBy, checkedAt, comment := v.checked, v.checkedBy, v.checkedAt, v.comment;
    }

    method MarkChecked(user: string, comment: string, now: string)
      modifies this
      ensures View() == Marked(old(View()), user, comment, now)
    {
      checked := true;
      checkedBy := Some(user);
      checkedAt := Some(now);
      this.comment := comment;
    }

    method Uncheck()
      modifies this
      ensures View() == Unmarked(old(View()))
    {
      checked := false;
      checkedBy := None;
      checkedAt := None;
    }
  }

  /** Fresh, pairwise distinct items showing the given views. */
  method NewItems(views: seq<ItemView>) returns (items: seq<ChecklistItem>)
    ensures |items| == |views|
    ensures forall j :: 0 <= j < |items| ==> fresh(items[j]) && items[j].View() == views[j]
    ensures forall i, j :: 0 <= i < j < |items| ==> items[i] != items[j]
  {
    items := [];
    while |items| < |views|
      invariant |items| <= |views|
      invariant forall j :: 0 <= j < |items| ==> fresh(items[j]) && items[j].View() == views[j]
      invariant forall i, j :: 0 <= i < j < |items| ==> items[i] != items[j]
    {
      var item := new ChecklistItem(views[|items|]);
      items := items + [item];
    }
  }

  class ControlStage {
    const kind: StageKind
    const name: string
    const checklist: seq<ChecklistItem>
    var status: Status
    var issues: seq<Issue>
    var checkedAt: Option<string>

    /** The checklist holds distinct objects, so changing one item leaves the others alone. */
    predicate Valid() {
      name == StageName(kind)
      && forall i, j :: 0 <= i < j < |checklist| ==> checklist[i] != checklist[j]
    }

    function Items(): (r: seq<ItemView>)
      reads checklist
      ensures |r| == |checklist|
      ensures forall j :: 0 <= j < |checklist| ==> r[j] == checklist[j].View()
    {
      seq(|checklist|, j requires 0 <= j < |checklist| reads checklist => checklist[j].View())
    }

    function State(): StageState
      reads this, checklist
    {
      StageState(status, issues, checkedAt, Items())
    }

    /** `get_result`. */
    function Result(): StageResult
      reads this, checklist
    {
      ResultOf(name, State())
    }

    /** A stage with its checklist, all items fresh. */
    constructor (kind: StageKind)
      ensures Valid() && this.kind == kind
      ensures State() == Initial(kind)
      ensures fresh(ItemSet(checklist))
    {
      this.kind := kind;
      name := StageName(kind);
      var items := NewItems(Template(kind));
      checklist := items;
      status := Pending;
      issues := [];
      checkedAt := None;
    }

    /** The loop looking for the first item with the id. */
    method FindItem(id: string) returns (k: int)
      ensures k == FirstWithId(Items(), id)
    {
      k := 0;
      while k < |checklist|
        invariant 0 <= k <= |checklist|
        invariant forall j :: 0 <= j < k ==> checklist[j].id != id
      {
        if checklist[k].id == id {
          return;
        }
        k := k + 1;
      }
      k := -1;
    }

    /** `update_checklist_item`: only the first item with the id changes; nothing else does. */
    method UpdateChecklistItem(id: string, checked: bool, user: string, comment: string, now: string) returns (found: bool)
      requires Valid()
      modifies checklist
      ensures found <==> FirstWithId(old(Items()), id) >= 0
      ensures Items() == UpdateItems(old(Items()), id, checked, user, comment, now)
    {
      ghost var before := Items();
      var k := FindItem(id);
      found := k >= 0;
      if found {
        if checked {
          checklist[k].MarkChecked(user, comment, now);
        } else {
          checklist[k].Uncheck();
        }
        assert Items() == before[k := Items()[k]];
      }
    }

    /** `_mark_checklist_item`: mark the first item with the id when the flag holds, then stop. */
    method MarkChecklistItem(id: string, flag: bool, now: string)
      requires Valid()
      modifies checklist
      ensures Items() == MarkIf(old(Items()), id, flag, now)
    {
      ghost var before := Items();
      var k := FindItem(id);
      if k >= 0 && flag {
        checklist[k].MarkChecked(SystemUser, AutoComment, now);
        assert Items() == before[k := Items()[k]];
      }
    }

    /** `check`, dispatched on the kind of stage. */
    method Check(pkg: Package, now: string) returns (result: StageResult)
      requires Valid()
      modifies this, checklist
      ensures State() == CheckSpec(kind, old(State()), pkg, now)
      ensures result == Result()
    {
      if kind == Automatic {
        ghost var st := State();
        CheckAutomatic(pkg, now);
        assert State() == AutoSpec(st, pkg, now);
      } else {
        CheckManual(pkg, now);
      }
      result := Result();
    }

    /**
     * The automatic check. The source marks auto_01 before its document
     * loop; the loop does not look at the checklist, so marking it together
     * with the others afterwards ends in the same state.
     */
    method CheckAutomatic(pkg: Package, now: string)
      requires Valid() && kind == Automatic
      modifies this, checklist
      ensures Items() == AutoItems(old(Items()), pkg, now)
      ensures issues == AutoIssues(pkg) && status == Resolve(issues) && checkedAt == Some(now)
    {
      var found, flags := AutomaticFindings(pkg);
      MarkAutomatic(flags, now);
      label Marked:
      checkedAt := Some(now);
      issues := found;
      status := Resolve(found);
      ItemsUnchanged@Marked(this);
    }

    /** The seven markings of the automatic check, in order. */
    method MarkAutomatic(flags: Flags, now: string)
      requires Valid()
      modifies checklist
      ensures Items() == MarkFlags(old(Items()), flags, now)
    {
      MarkChecklistItem("auto_01", flags.enough, now);
      MarkChecklistItem("auto_02", flags.formatsOk, now);
      MarkChecklistItem("auto_03", flags.sizesOk, now);
      MarkChecklistItem("auto_04", flags.valid, now);
      MarkChecklistItem("auto_05", true, now);
      MarkChecklistItem("auto_06", true, now);
      MarkChecklistItem("auto_08", true, now);
    }

    /** The legal, financial and final checks: they look at their own checklist only. */
    method CheckManual(pkg: Package, now: string)
      requires Valid() && kind != Automatic
      modifies this
      ensures State() == ManualSpec(kind, old(State()), now)
    {
      var items := Items();
      checkedAt := Some(now);
      issues := [];
      var unchecked := Unchecked(items);
      if |unchecked| > 0 {
        status := Pending;
        issues := issues + [Issue(Info, ReviewRequired(kind, |unchecked|))];
      } else {
        status := if kind == Legal && HasCriticalUnchecked(items) then Failed else Passed;
      }
      assert Items() == items;
    }
  }

  /** A stage as it is created: pending, no issues, never checked, its template checklist. */
  function Initial(kind: StageKind): StageState {
    StageState(Pending, [], None, Template(kind))
  }

  /** The history entry a controller action appends. */
  function Entry(stageName: string, action: string, userId: string, userName: string, before: Status, after: Status,
                 comment: string, stamp: string, now: string): HistoryEntry {
    HistoryEntry("CHE-" + stamp, stageName, action, userId, userName, now, before, after, comment, 0)
  }

  /** The entry `execute_full_control` writes for one stage run. */
  function CheckEntry(name: string, before: Status, after: Status, userId: string, userName: string,
                      stamp: string, now: string): HistoryEntry {
    Entry(name, "check", userId, userName, before, after, CheckComment(name), stamp, now)
  }

  function CheckComment(stageName: string): string {
    "Автоматическая проверка этапа '" + stageName + "'"
  }

  function UpdateComment(id: string, checked: bool): string {
    "Обновлен пункт " + id + ": " + (if checked then "отмечен" else "снят")
  }

  /** `get_history(stage_name)`: all entries, or those of one stage when a non-empty name is given. */
  function FilterStage(entries: seq<HistoryEntry>, stageName: Option<string>): (r: seq<HistoryEntry>)
    ensures |r| <= |entries|
    ensures stageName.None? || stageName == Some("") ==> r == entries
    ensures stageName.Some? && stageName.value != "" ==>
      forall e :: e in r <==> e in entries && e.stageName == stageName.value
  {
    if stageName.None? || stageName.value == "" then entries
    else if entries == [] then []
    else
      var rest := FilterStage(entries[1..], stageName);
      assert forall e :: e in entries <==> e == entries[0] || e in entries[1..];
      if entries[0].stageName == stageName.value then [entries[0]] + rest else rest
  }

  function StageNames(entries: seq<HistoryEntry>): (r: seq<string>)
    ensures |r| == |entries| && forall j :: 0 <= j < |entries| ==> r[j] == entries[j].stageName
  {
    seq(|entries|, j requires 0 <= j < |entries| => entries[j].stageName)
  }

  function Actions(entries: seq<HistoryEntry>): (r: seq<string>)
    ensures |r| == |entries| && forall j :: 0 <= j < |entries| ==> r[j] == entries[j].action
  {
    seq(|entries|, j requires 0 <= j < |entries| => entries[j].action)
  }

  function TotalTime(entries: seq<HistoryEntry>): int {
    if entries == [] then 0 else TotalTime(entries[..|entries| - 1]) + entries[|entries| - 1].timeSpentMinutes
  }

  /** `get_statistics`; the average is derived from the total and the count. */
  function StatisticsOf(entries: seq<HistoryEntry>): Statistics {
    if entries == [] then NoEntries
    else
      Summary(|entries|, TotalTime(entries), Tally.Tally(StageNames(entries)), Tally.Tally(Actions(entries)))
  }

  /** Per-stage and per-action counts each add up to the number of entries, and count exactly the matching entries. */
  lemma StatisticsCounts(entries: seq<HistoryEntry>, name: string)
    requires entries != []
    ensures var st := StatisticsOf(entries);
      && Tally.Total(st.byStage) == st.totalEntries == |entries|
      && Tally.Total(st.byAction) == |entries|
      && Tally.Get(st.byStage, name) == Tally.Count(StageNames(entries), name)
      && Tally.Get(st.byAction, name) == Tally.Count(Actions(entries), name)
  {
    Tally.TallyTotal(StageNames(entries));
    Tally.TallyTotal(Actions(entries));
    Tally.TallyGet(StageNames(entries), name);
    Tally.TallyGet(Actions(entries), name);
  }

  /** One more entry adds its minutes to the total and bumps its stage and its action. */
  lemma StatisticsStep(entries: seq<HistoryEntry>, i: nat)
    requires i < |entries|
    ensures TotalTime(entries[..i + 1]) == TotalTime(entries[..i]) + entries[i].timeSpentMinutes
    ensures Tally.Tally(StageNames(entries[..i + 1])) == Tally.Bump(Tally.Tally(StageNames(entries[..i])), entries[i].stageName)
    ensures Tally.Tally(Actions(entries[..i + 1])) == Tally.Bump(Tally.Tally(Actions(entries[..i])), entries[i].action)
  {
    var next := entries[..i + 1];
    assert next[..i] == entries[..i];
    assert StageNames(next)[..i] == StageNames(entries[..i]);
    assert Actions(next)[..i] == Actions(entries[..i]);
  }

  class ControlHistory {
    var entries: seq<HistoryEntry>

    constructor ()
      ensures entries == []
    {
      entries := [];
    }

    /** `add_entry`: append exactly one entry and return it. */
    method AddEntry(stageName: string, action: string, userId: string, userName: string, statusBefore: Status,
                    statusAfter: Status, comment: string, timeSpentMinutes: int, stamp: string, now: string)
      returns (entry: HistoryEntry)
      modifies this
      ensures entry == HistoryEntry("CHE-" + stamp, stageName, action, userId, userName, now, statusBefore, statusAfter, comment, timeSpentMinutes)
      ensures entries == old(entries) + [entry]
    {
      entry := HistoryEntry("CHE-" + stamp, stageName, action, userId, userName, now, statusBefore, statusAfter, comment, timeSpentMinutes);
      entries := entries + [entry];
    }

    function GetHistory(stageName: Option<string>): seq<HistoryEntry>
      reads this
    {
      FilterStage(entries, stageName)
    }

    /** `get_statistics`: one pass over the entries counting per stage and per action. */
    method GetStatistics() returns (st: Statistics)
      ensures st == StatisticsOf(entries)
    {
      if entries == [] {
        return NoEntries;
      }
      var totalTime := 0;
      var byStage: seq<(string, nat)> := [];
      var byAction: seq<(string, nat)> := [];
      var i := 0;
      while i < |entries|
        invariant 0 <= i <= |entries|
        invariant totalTime == TotalTime(entries[..i])
        invariant byStage == Tally.Tally(StageNames(entries[..i]))
        invariant byAction == Tally.Tally(Actions(entries[..i]))
      {
        var e := entries[i];
        StatisticsStep(entries, i);
        totalTime := totalTime + e.timeSpentMinutes;
        byStage := Tally.Bump(byStage, e.stageName);
        byAction := Tally.Bump(byAction, e.action);
        i := i + 1;
      }
      assert entries[..i] == entries;
      st := Summary(|entries|, totalTime, byStage, byAction);
    }
  }

  /** The stages in the order the controller runs them. */
  function KindAt(i: nat): StageKind
    requires i < 4
  {
    if i == 0 then Automatic else if i == 1 then Legal else if i == 2 then Financial else Final
  }

  function ItemSet(a: seq<ChecklistItem>): set<ChecklistItem> {
    set x | x in a
  }

  predicate Disjoint(a: seq<ChecklistItem>, b: seq<ChecklistItem>) {
    ItemSet(a) !! ItemSet(b)
  }

  /** A stage none of whose objects changed keeps its state. */
  twostate lemma StageUnchanged(st: ControlStage)
    requires unchanged(st)
    requires forall j :: 0 <= j < |st.checklist| ==> unchanged(st.checklist[j])
    ensures st.State() == old(st.State())
  {
    ItemsUnchanged(st);
  }

  /** A stage none of whose items changed keeps its checklist views. */
  twostate lemma ItemsUnchanged(st: ControlStage)
    requires forall j :: 0 <= j < |st.checklist| ==> unchanged(st.checklist[j])
    ensures st.Items() == old(st.Items())
  {
    forall j | 0 <= j < |st.checklist|
      ensures st.checklist[j].View() == old(st.checklist[j].View())
    {
      assert unchanged(st.checklist[j]);
    }
  }

  class MultiStageController {
    const stages: seq<ControlStage>
    const history: ControlHistory

    /** Four stages in fixed order, with pairwise distinct stage and item objects. */
    predicate Valid() {
      |stages| == 4
      && stages[0].kind == Automatic && stages[1].kind == Legal
      && stages[2].kind == Financial && stages[3].kind == Final
      && (forall i :: 0 <= i < 4 ==> stages[i].Valid())
      && (forall i, j :: 0 <= i < j < 4 ==> stages[i] != stages[j])
      && (forall i, j :: 0 <= i < j < 4 ==> Disjoint(stages[i].checklist, stages[j].checklist))
    }

    /** Every checklist item of every stage. */
    function ItemObjects(): set<object> {
      set i, x | 0 <= i < |stages| && x in stages[i].checklist :: x
    }

    function States(): (r: seq<StageState>)
      requires |stages| == 4
      reads stages, stages[0].checklist, stages[1].checklist, stages[2].checklist, stages[3].checklist
      ensures |r| == 4
      ensures forall j :: 0 <= j < 4 ==> r[j] == stages[j].State()
    {
      [stages[0].State(), stages[1].State(), stages[2].State(), stages[3].State()]
    }

    /** The four stages in running order, each with its own fresh checklist, and an empty history. */
    constructor ()
      ensures Valid()
      ensures States() == [Initial(Automatic), Initial(Legal), Initial(Financial), Initial(Final)]
      ensures history.entries == []
    {
      history := new ControlHistory();
      var automatic, legal, financial, final := NewStages();
      FourApart(automatic, legal, financial, final);
      stages := [automatic, legal, financial, final];
      label Built:
      new;
      StageUnchanged@Built(automatic);
      StageUnchanged@Built(legal);
      StageUnchanged@Built(financial);
      StageUnchanged@Built(final);
    }

    /** The stages of the controller, created in running order. */
    static method NewStages() returns (automatic: ControlStage, legal: ControlStage, financial: ControlStage, final: ControlStage)
      ensures automatic.kind == Automatic && legal.kind == Legal && financial.kind == Financial && final.kind == Final
      ensures automatic.Valid() && legal.Valid() && financial.Valid() && final.Valid()
      ensures automatic.State() == Initial(Automatic) && legal.State() == Initial(Legal)
      ensures financial.State() == Initial(Financial) && final.State() == Initial(Final)
      ensures automatic != legal && automatic != financial && automatic != final
      ensures legal != financial && legal != final && financial != final
      ensures Disjoint(automatic.checklist, legal.checklist) && Disjoint(automatic.checklist, financial.checklist)
      ensures Disjoint(automatic.checklist, final.checklist) && Disjoint(legal.checklist, financial.checklist)
      ensures Disjoint(legal.checklist, final.checklist) && Disjoint(financial.checklist, final.checklist)
    {
      automatic := new ControlStage(Automatic);
      label A:
      legal := new ControlStage(Legal);
      label L:
      assert Disjoint(automatic.checklist, legal.checklist);
      financial := new ControlStage(Financial);
      label F:
      assert Disjoint(automatic.checklist, financial.checklist) && Disjoint(legal.checklist, financial.checklist);
      final := new ControlStage(Final);
      assert Disjoint(automatic.checklist, final.checklist) && Disjoint(legal.checklist, final.checklist)
          && Disjoint(financial.checklist, final.checklist);
      StageUnchanged@A(automatic);
      StageUnchanged@L(legal);
      StageUnchanged@F(financial);
    }

    /** Four distinct valid stages with disjoint checklists satisfy the quantified form of `Valid`. */
    static lemma FourApart(a: ControlStage, b: ControlStage, c: ControlStage, d: ControlStage)
      requires a.Valid() && b.Valid() && c.Valid() && d.Valid()
      requires a != b && a != c && a != d && b != c && b != d && c != d
      requires Disjoint(a.checklist, b.checklist) && Disjoint(a.checklist, c.checklist) && Disjoint(a.checklist, d.checklist)
      requires Disjoint(b.checklist, c.checklist) && Disjoint(b.checklist, d.checklist) && Disjoint(c.checklist, d.checklist)
      ensures var ss := [a, b, c, d];
        && (forall i :: 0 <= i < 4 ==> ss[i].Valid())
        && (forall i, j :: 0 <= i < j < 4 ==> ss[i] != ss[j])
        && (forall i, j :: 0 <= i < j < 4 ==> Disjoint(ss[i].checklist, ss[j].checklist))
    {
    }

    /** Check stage `i`; the other stages keep their state. */
    method CheckStage(i: nat, pkg: Package, now: string) returns (result: StageResult)
      requires Valid() && i < 4
      modifies stages[i], stages[i].checklist
      ensures States() == old(States())[i := CheckSpec(KindAt(i), old(States())[i], pkg, now)]
      ensures result == ResultOf(StageName(KindAt(i)), States()[i])
    {
      var stage := stages[i];
      ghost var olds := States();
      ObjectsApart(i);
      result := stage.Check(pkg, now);
      OthersUnchanged(i);
      UpdateAt(olds, States(), i, CheckSpec(KindAt(i), olds[i], pkg, now));
    }

    /** No object of another stage is stage `i` or one of its items. */
    lemma ObjectsApart(i: nat)
      requires Valid() && i < 4
      ensures forall j :: 0 <= j < 4 && j != i ==> stages[j] != stages[i]
      ensures forall j, k :: 0 <= j < 4 && j != i && 0 <= k < |stages[j].checklist| ==>
        stages[j].checklist[k] !in stages[i].checklist
    {
      forall j, k | 0 <= j < 4 && j != i && 0 <= k < |stages[j].checklist|
        ensures stages[j].checklist[k] !in stages[i].checklist
      {
        assert Disjoint(stages[j].checklist, stages[i].checklist) by {
          if j < i { } else { }
        }
        assert stages[j].checklist[k] in ItemSet(stages[j].checklist);
      }
    }

    /** Checking one stage touches no object of another stage. */
    twostate lemma OthersUnchanged(i: nat)
      requires Valid() && i < 4
      requires forall j :: 0 <= j < 4 && j != i ==> unchanged(stages[j])
      requires forall j, k :: 0 <= j < 4 && j != i && 0 <= k < |stages[j].checklist| ==> unchanged(stages[j].checklist[k])
      ensures forall j :: 0 <= j < 4 && j != i ==> stages[j].State() == old(stages[j].State())
    {
      forall j | 0 <= j < 4 && j != i
        ensures stages[j].State() == old(stages[j].State())
      {
        StageUnchanged(stages[j]);
      }
    }

    /** One step of `execute_full_control`: check stage `i` and log the run. */
    method RunStage(i: nat, pkg: Package, userId: string, userName: string, stamp: string, now: string)
      returns (result: StageResult)
      requires Valid() && i < 4
      modifies stages[i], stages[i].checklist, history
      ensures States() == old(States())[i := CheckSpec(KindAt(i), old(States())[i], pkg, now)]
      ensures result == ResultOf(StageName(KindAt(i)), States()[i])
      ensures history.entries == old(history.entries)
        + [CheckEntry(StageName(KindAt(i)), old(States())[i].status, States()[i].status, userId, userName, stamp, now)]
    {
      var stage := stages[i];
      assert stage.name == StageName(KindAt(i));
      var before := stage.status;
      result := CheckStage(i, pkg, now);
      var after := stage.status;
      assert after == States()[i].status;
      Log(stage.name, "check", userId, userName, before, after, CheckComment(stage.name), stamp, now);
    }

    /** `add_entry` as the controller calls it: the stages keep their state. */
    method Log(name: string, action: string, userId: string, userName: string, before: Status, after: Status,
               comment: string, stamp: string, now: string)
      requires Valid()
      modifies history
      ensures States() == old(States())
      ensures history.entries == old(history.entries) + [Entry(name, action, userId, userName, before, after, comment, stamp, now)]
    {
      label Before:
      var _ := history.AddEntry(name, action, userId, userName, before, after, comment, 0, stamp, now);
      StatesKept@Before();
    }

    /** A change to the history alone leaves every stage state as it was. */
    twostate lemma StatesKept()
      requires Valid()
      requires forall j :: 0 <= j < 4 ==> unchanged(stages[j])
      requires forall j, k :: 0 <= j < 4 && 0 <= k < |stages[j].checklist| ==> unchanged(stages[j].checklist[k])
      ensures States() == old(States())
    {
      StageUnchanged(stages[0]);
      StageUnchanged(stages[1]);
      StageUnchanged(stages[2]);
      StageUnchanged(stages[3]);
    }

    /**
     * `execute_full_control`: run the stages in order, one "check" history
     * entry per stage run, and stop after the first stage that fails.
     */
    method ExecuteFullControl(pkg: Package, userId: string, userName: string, stamp: string, now: string)
      returns (report: ControlReport)
      requires Valid()
      modifies stages, ItemObjects(), history
      ensures var r := FullRun(old(States()), old(history.entries), pkg, userId, userName, stamp, now);
        States() == r.states && history.entries == r.entries && report.stages == r.results
      ensures report.overallStatus == Overall(Statuses(report.stages))
      ensures report.completedAt == now && report.historyEntries == |history.entries|
    {
      ghost var final := FullRun(States(), history.entries, pkg, userId, userName, stamp, now);
      var results: seq<StageResult> := [];
      var i := 0;
      var stop := false;
      while i < 4 && !stop
        invariant 0 <= i <= 4
        invariant stop ==> Run(States(), history.entries, results) == final
        invariant !stop ==> RunLoop(Run(States(), history.entries, results), i, pkg, userId, userName, stamp, now) == final
      {
        assert forall x :: x in stages[i].checklist ==> x in ItemObjects();
        ghost var r := Run(States(), history.entries, results);
        var result := RunStage(i, pkg, userId, userName, stamp, now);
        results := results + [result];
        RunLoopStep(r, i, pkg, userId, userName, stamp, now);
        assert Run(States(), history.entries, results) == Step(Checks(pkg, now), r, i, userId, userName, stamp, now);
        stop := result.status == Failed;
        i := i + 1;
      }
      var overall := Overall(Statuses(results));
      report := ControlReport(overall, results, now, |history.entries|);
    }

    /** Set the status of stage `i`; nothing else changes. */
    method SetStatus(i: nat, status: Status)
      requires Valid() && i < 4
      modifies stages[i]
      ensures States() == old(States())[i := old(States())[i].(status := status)]
    {
      ghost var olds := States();
      ObjectsApart(i);
      stages[i].status := status;
      OthersUnchanged(i);
      ItemsUnchanged(stages[i]);
      UpdateAt(olds, States(), i, olds[i].(status := status));
    }

    /** Mark or unmark the first item with the id in stage `i`; nothing else changes. */
    method UpdateItem(i: nat, id: string, checked: bool, user: string, comment: string, now: string) returns (found: bool)
      requires Valid() && i < 4
      modifies stages[i].checklist
      ensures found <==> FirstWithId(old(States())[i].items, id) >= 0
      ensures States() == old(States())[i := old(States())[i].(items := UpdateItems(old(States())[i].items, id, checked, user, comment, now))]
      ensures history.entries == old(history.entries)
    {
      ghost var olds := States();
      ObjectsApart(i);
      var stage := stages[i];
      found := stage.UpdateChecklistItem(id, checked, user, comment, now);
      assert unchanged(stage);
      assert stage.State() == olds[i].(items := stage.Items());
      OthersUnchanged(i);
      UpdateAt(olds, States(), i, olds[i].(items := UpdateItems(olds[i].items, id, checked, user, comment, now)));
    }

    /**
     * `update_checklist_item` of the controller: false for an index out of
     * range or an unknown id; otherwise the item changes and exactly one
     * "checklist_update" entry is logged. No stage status changes.
     */
    method UpdateChecklistItem(i: int, id: string, checked: bool, userId: string, userName: string, comment: string,
                               stamp: string, now: string) returns (ok: bool)
      requires Valid()
      modifies ItemObjects(), history
      ensures ok <==> 0 <= i < 4 && exists j :: 0 <= j < |old(States())[i].items| && old(States())[i].items[j].id == id
      ensures 0 <= i < 4 ==>
        States() == old(States())[i := old(States())[i].(items := UpdateItems(old(States())[i].items, id, checked, userName, comment, now))]
      ensures !(0 <= i < 4) ==> States() == old(States())
      ensures forall j :: 0 <= j < 4 ==> States()[j].status == old(States())[j].status
      ensures ok ==> (history.entries == old(history.entries)
        + [Entry(StageName(KindAt(i)), "checklist_update", userId, userName, old(States())[i].status,
                 old(States())[i].status, UpdateComment(id, checked), stamp, now)])
      ensures !ok ==> history.entries == old(history.entries)
    {
      if 0 <= i < |stages| {
        ghost var olds := States();
        var stage := stages[i];
        var status := stage.status;
        assert status == olds[i].status && stage.name == StageName(KindAt(i));
        assert forall x :: x in stage.checklist ==> x in ItemObjects();
        ok := UpdateItem(i, id, checked, userName, comment, now);
        ghost var news := States();
        assert forall j :: 0 <= j < 4 ==> news[j].status == olds[j].status;
        if ok {
          Log(stage.name, "checklist_update", userId, userName, status, status, UpdateComment(id, checked), stamp, now);
        }
        assert States() == news;
      } else {
        ok := false;
      }
    }

    /**
     * `approve_stage`: refused (false, nothing changes) for an index out of
     * range or while a critical item is unchecked; otherwise the stage
     * passes and one "approve" entry is logged.
     */
    method ApproveStage(i: int, userId: string, userName: string, comment: string, stamp: string, now: string)
      returns (ok: bool)
      requires Valid()
      modifies stages, history
      ensures ok <==> 0 <= i < 4 && !HasCriticalUnchecked(old(States())[i].items)
      ensures ok ==> States() == old(States())[i := old(States())[i].(status := Passed)]
      ensures ok ==> (history.entries == old(history.entries)
        + [Entry(StageName(KindAt(i)), "approve", userId, userName, old(States())[i].status, Passed,
                 if comment == "" then "Этап утвержден" else comment, stamp, now)])
      ensures !ok ==> States() == old(States()) && history.entries == old(history.entries)
    {
      if 0 <= i < |stages| {
        var stage := stages[i];
        var before := stage.status;
        if HasCriticalUnchecked(stage.Items()) {
          return false;
        }
        SetStatus(i, Passed);
        Log(stage.name, "approve", userId, userName, before, Passed,
            if comment == "" then "Этап утвержден" else comment, stamp, now);
        ok := true;
      } else {
        ok := false;
      }
    }

    /** `reject_stage`: a stage in range always fails and one "reject" entry is logged. */
    method RejectStage(i: int, userId: string, userName: string, comment: string, stamp: string, now: string)
      returns (ok: bool)
      requires Valid()
      modifies stages, history
      ensures ok <==> 0 <= i < 4
      ensures ok ==> States() == old(States())[i := old(States())[i].(status := Failed)]
      ensures ok ==> (history.entries == old(history.entries)
        + [Entry(StageName(KindAt(i)), "reject", userId, userName, old(States())[i].status, Failed, comment, stamp, now)])
      ensures !ok ==> States() == old(States()) && history.entries == old(history.entries)
    {
      if 0 <= i < |stages| {
        var stage := stages[i];
        var before := stage.status;
        SetStatus(i, Failed);
        Log(stage.name, "reject", userId, userName, before, Failed, comment, stamp, now);
        ok := true;
      } else {
        ok := false;
      }
    }
  }

  /** A four-element sequence that differs from another one at most at `i`. */
  lemma UpdateAt(a: seq<StageState>, b: seq<StageState>, i: nat, x: StageState)
    requires |a| == |b| == 4 && i < 4
    requires b[i] == x && forall j :: 0 <= j < 4 && j != i ==> b[j] == a[j]
    ensures b == a[i := x]
  {
  }

  /** What a full control run has produced so far: stage states, history, stage reports. */
  datatype Run = Run(states: seq<StageState>, entries: seq<HistoryEntry>, results: seq<StageResult>)

  /** The check of the stage at position `j` of the running order, from state `s`. */
  function StageCheck(j: nat, s: StageState, pkg: Package, now: string): StageState {
    if j < 4 then CheckSpec(KindAt(j), s, pkg, now) else s
  }

  /**
   * The loop of `execute_full_control` from stage `i` on, with `check(j, s)`
   * the check of stage `j` from state `s`: check, report and log each stage,
   * and stop after the first one that fails.
   */
  function Loop(check: (nat, StageState) -> StageState, r: Run, i: nat, userId: string, userName: string,
                stamp: string, now: string): Run
    requires |r.states| == 4 && i <= 4
    decreases 4 - i
  {
    if i == 4 then r
    else
      var next := Step(check, r, i, userId, userName, stamp, now);
      if check(i, r.states[i]).status == Failed then next else Loop(check, next, i + 1, userId, userName, stamp, now)
  }

  /** One turn of the loop: check stage `i`, then report it and log it. */
  function Step(check: (nat, StageState) -> StageState, r: Run, i: nat, userId: string, userName: string,
                stamp: string, now: string): Run
    requires |r.states| == 4 && i < 4
  {
    var name := StageName(KindAt(i));
    var st := check(i, r.states[i]);
    Run(r.states[i := st],
        r.entries + [CheckEntry(name, r.states[i].status, st.status, userId, userName, stamp, now)],
        r.results + [ResultOf(name, st)])
  }

  /** The loop of `execute_full_control` on a package, from stage `i` on. */
  function RunLoop(r: Run, i: nat, pkg: Package, userId: string, userName: string, stamp: string, now: string): Run
    requires |r.states| == 4 && i <= 4
  {
    Loop(Checks(pkg, now), r, i, userId, userName, stamp, now)
  }

  /** One turn of the loop: stop after a failing stage, go on otherwise. */
  lemma RunLoopStep(r: Run, i: nat, pkg: Package, userId: string, userName: string, stamp: string, now: string)
    requires |r.states| == 4 && i < 4
    ensures var next := Step(Checks(pkg, now), r, i, userId, userName, stamp, now);
      && next.states[i] == StageCheck(i, r.states[i], pkg, now)
      && RunLoop(r, i, pkg, userId, userName, stamp, now)
         == if next.states[i].status == Failed then next else RunLoop(next, i + 1, pkg, userId, userName, stamp, now)
  {
    assert Checks(pkg, now)(i, r.states[i]) == StageCheck(i, r.states[i], pkg, now);
  }

  /** `execute_full_control` on the stage states and the history it starts from. */
  function FullRun(states: seq<StageState>, entries: seq<HistoryEntry>, pkg: Package, userId: string, userName: string,
                   stamp: string, now: string): Run
    requires |states| == 4
  {
    RunLoop(Run(states, entries, []), 0, pkg, userId, userName, stamp, now)
  }

  /** Legal, financial and final checks never fail. */
  lemma ManualNeverFails(kind: StageKind, st: StageState, pkg: Package, now: string)
    requires kind != Automatic
    ensures CheckSpec(kind, st, pkg, now).status != Failed
  {
    ManualOutcome(kind, st, pkg, now);
  }

  /** No stage from `i` on fails when checked from the state it is in. */
  predicate NoneFails(check: (nat, StageState) -> StageState, states: seq<StageState>, i: nat)
    requires |states| == 4
  {
    forall j :: i <= j < 4 ==> check(j, states[j]).status != Failed
  }

  /**
   * When no stage from `i` on fails, the loop runs every one of them: stage
   * `j` ends in its check from the state it had, and the stages before `i`
   * are left alone.
   */
  lemma {:induction false} LoopToEnd(check: (nat, StageState) -> StageState, r: Run, i: nat, userId: string, userName: string,
                                     stamp: string, now: string)
    requires |r.states| == 4 && i <= 4 && NoneFails(check, r.states, i)
    ensures var f := Loop(check, r, i, userId, userName, stamp, now);
      && |f.states| == 4
      && (forall j :: 0 <= j < i ==> f.states[j] == r.states[j])
      && (forall j :: i <= j < 4 ==> f.states[j] == check(j, r.states[j]))
    decreases 4 - i
  {
    if i < 4 {
      var next := Step(check, r, i, userId, userName, stamp, now);
      assert forall j :: i < j < 4 ==> next.states[j] == r.states[j];
      LoopToEnd(check, next, i + 1, userId, userName, stamp, now);
    }
  }

  /** The results a run from stage `i` on reports when no stage fails: one per stage, in order. */
  function CheckResults(check: (nat, StageState) -> StageState, states: seq<StageState>, i: nat): seq<StageResult>
    requires |states| == 4 && i <= 4
    decreases 4 - i
  {
    if i == 4 then [] else [ResultOf(StageName(KindAt(i)), check(i, states[i]))] + CheckResults(check, states, i + 1)
  }

  /** The "check" entries a run from stage `i` on logs when no stage fails: one per stage, in order. */
  function CheckEntries(check: (nat, StageState) -> StageState, states: seq<StageState>, i: nat, userId: string,
                        userName: string, stamp: string, now: string): seq<HistoryEntry>
    requires |states| == 4 && i <= 4
    decreases 4 - i
  {
    if i == 4 then []
    else [CheckEntry(StageName(KindAt(i)), states[i].status, check(i, states[i]).status, userId, userName, stamp, now)]
         + CheckEntries(check, states, i + 1, userId, userName, stamp, now)
  }

  /** Stage `i + k` is reported `k` places in, ... */
  lemma {:induction false} ResultsAt(check: (nat, StageState) -> StageState, states: seq<StageState>, i: nat)
    requires |states| == 4 && i <= 4
    ensures var rs := CheckResults(check, states, i);
      && |rs| == 4 - i
      && forall k :: 0 <= k < |rs| ==> rs[k] == ResultOf(StageName(KindAt(i + k)), check(i + k, states[i + k]))
    decreases 4 - i
  {
    if i < 4 {
      ResultsAt(check, states, i + 1);
      var rs := CheckResults(check, states, i);
      var tail := CheckResults(check, states, i + 1);
      assert rs == [ResultOf(StageName(KindAt(i)), check(i, states[i]))] + tail;
      forall k | 1 <= k < |rs|
        ensures rs[k] == ResultOf(StageName(KindAt(i + k)), check(i + k, states[i + k]))
      {
        assert rs[k] == tail[k - 1];
      }
    }
  }

  /** ... and logged `k` places in. */
  lemma {:induction false} EntriesAt(check: (nat, StageState) -> StageState, states: seq<StageState>, i: nat, userId: string,
                                     userName: string, stamp: string, now: string)
    requires |states| == 4 && i <= 4
    ensures var es := CheckEntries(check, states, i, userId, userName, stamp, now);
      && |es| == 4 - i
      && forall k :: 0 <= k < |es| ==>
           es[k] == CheckEntry(StageName(KindAt(i + k)), states[i + k].status, check(i + k, states[i + k]).status,
                               userId, userName, stamp, now)
    decreases 4 - i
  {
    if i < 4 {
      EntriesAt(check, states, i + 1, userId, userName, stamp, now);
      var es := CheckEntries(check, states, i, userId, userName, stamp, now);
      var tail := CheckEntries(check, states, i + 1, userId, userName, stamp, now);
      assert es == [CheckEntry(StageName(KindAt(i)), states[i].status, check(i, states[i]).status, userId, userName, stamp, now)] + tail;
      forall k | 1 <= k < |es|
        ensures es[k] == CheckEntry(StageName(KindAt(i + k)), states[i + k].status, check(i + k, states[i + k]).status,
                                    userId, userName, stamp, now)
      {
        assert es[k] == tail[k - 1];
      }
    }
  }

  /** Only the stages from `i` on matter to what those stages report and log. */
  lemma {:induction false} ChecksFromAgree(check: (nat, StageState) -> StageState, s1: seq<StageState>, s2: seq<StageState>,
                                           i: nat, userId: string, userName: string, stamp: string, now: string)
    requires |s1| == 4 && |s2| == 4 && i <= 4
    requires forall j :: i <= j < 4 ==> s1[j] == s2[j]
    ensures CheckResults(check, s1, i) == CheckResults(check, s2, i)
    ensures CheckEntries(check, s1, i, userId, userName, stamp, now) == CheckEntries(check, s2, i, userId, userName, stamp, now)
    decreases 4 - i
  {
    if i < 4 {
      ChecksFromAgree(check, s1, s2, i + 1, userId, userName, stamp, now);
    }
  }

  lemma AppendOne<T>(a: seq<T>, x: T, b: seq<T>)
    ensures (a + [x]) + b == a + ([x] + b)
  {
  }

  /** ... and appends every stage's result, in order, to those it started with, ... */
  lemma {:induction false} LoopToEndResults(check: (nat, StageState) -> StageState, r: Run, i: nat, userId: string,
                                            userName: string, stamp: string, now: string)
    requires |r.states| == 4 && i <= 4 && NoneFails(check, r.states, i)
    ensures Loop(check, r, i, userId, userName, stamp, now).results == r.results + CheckResults(check, r.states, i)
    decreases 4 - i
  {
    if i < 4 {
      var next := Step(check, r, i, userId, userName, stamp, now);
      var x := ResultOf(StageName(KindAt(i)), check(i, r.states[i]));
      assert forall j :: i < j < 4 ==> next.states[j] == r.states[j];
      LoopToEndResults(check, next, i + 1, userId, userName, stamp, now);
      ChecksFromAgree(check, next.states, r.states, i + 1, userId, userName, stamp, now);
      assert next.results == r.results + [x];
      assert CheckResults(check, r.states, i) == [x] + CheckResults(check, r.states, i + 1);
      AppendOne(r.results, x, CheckResults(check, r.states, i + 1));
    }
  }

  /** ... and its "check" entry, in order, after the entries it started with. */
  lemma {:induction false} LoopToEndEntries(check: (nat, StageState) -> StageState, r: Run, i: nat, userId: string,
                                            userName: string, stamp: string, now: string)
    requires |r.states| == 4 && i <= 4 && NoneFails(check, r.states, i)
    ensures Loop(check, r, i, userId, userName, stamp, now).entries
         == r.entries + CheckEntries(check, r.states, i, userId, userName, stamp, now)
    decreases 4 - i
  {
    if i < 4 {
      var next := Step(check, r, i, userId, userName, stamp, now);
      var e := CheckEntry(StageName(KindAt(i)), r.states[i].status, check(i, r.states[i]).status, userId, userName, stamp, now);
      assert forall j :: i < j < 4 ==> next.states[j] == r.states[j];
      LoopToEndEntries(check, next, i + 1, userId, userName, stamp, now);
      ChecksFromAgree(check, next.states, r.states, i + 1, userId, userName, stamp, now);
      assert next.entries == r.entries + [e];
      assert CheckEntries(check, r.states, i, userId, userName, stamp, now)
          == [e] + CheckEntries(check, r.states, i + 1, userId, userName, stamp, now);
      AppendOne(r.entries, e, CheckEntries(check, r.states, i + 1, userId, userName, stamp, now));
    }
  }

  /** The checks of `execute_full_control`, as `Loop` takes them. */
  function Checks(pkg: Package, now: string): (nat, StageState) -> StageState {
    (j: nat, s: StageState) => StageCheck(j, s, pkg, now)
  }

  lemma ManualStagesPass(pkg: Package, now: string)
    ensures forall j, s :: 1 <= j < 4 ==> Checks(pkg, now)(j, s).status != Failed
  {
    forall j, s | 1 <= j < 4
      ensures Checks(pkg, now)(j, s).status != Failed
    {
      ManualNeverFails(KindAt(j), s, pkg, now);
    }
  }

  /** When the automatic stage does not fail, no stage does. */
  lemma NoStageFails(states: seq<StageState>, pkg: Package, now: string)
    requires |states| == 4
    requires CheckSpec(Automatic, states[0], pkg, now).status != Failed
    ensures NoneFails(Checks(pkg, now), states, 0)
  {
    ManualStagesPass(pkg, now);
    assert Checks(pkg, now)(0, states[0]) == CheckSpec(Automatic, states[0], pkg, now);
  }

  /**
   * A full control run stops after the automatic stage when that stage
   * fails: one result and one "check" entry, and the other stages untouched.
   */
  lemma FullRunStops(states: seq<StageState>, entries: seq<HistoryEntry>, pkg: Package, userId: string, userName: string,
                     stamp: string, now: string)
    requires |states| == 4
    requires CheckSpec(Automatic, states[0], pkg, now).status == Failed
    ensures var f := FullRun(states, entries, pkg, userId, userName, stamp, now);
      var a := CheckSpec(Automatic, states[0], pkg, now);
      && f.states == states[0 := a]
      && f.entries == entries + [CheckEntry(AutomaticName, states[0].status, Failed, userId, userName, stamp, now)]
      && f.results == [ResultOf(AutomaticName, a)]
  {
    assert Checks(pkg, now)(0, states[0]) == CheckSpec(Automatic, states[0], pkg, now);
  }

  /** When the automatic stage does not fail, every stage runs once, from its own state, in order, ... */
  lemma FullRunCompletes(states: seq<StageState>, entries: seq<HistoryEntry>, pkg: Package, userId: string, userName: string,
                         stamp: string, now: string)
    requires |states| == 4
    requires CheckSpec(Automatic, states[0], pkg, now).status != Failed
    ensures var f := FullRun(states, entries, pkg, userId, userName, stamp, now);
      && |f.states| == 4
      && (forall j :: 0 <= j < 4 ==> f.states[j] == StageCheck(j, states[j], pkg, now))
  {
    NoStageFails(states, pkg, now);
    LoopToEnd(Checks(pkg, now), Run(states, entries, []), 0, userId, userName, stamp, now);
  }

  /** ... reporting stage `j` as result `j`, ... */
  lemma FullRunResults(states: seq<StageState>, entries: seq<HistoryEntry>, pkg: Package, userId: string, userName: string,
                       stamp: string, now: string)
    requires |states| == 4
    requires CheckSpec(Automatic, states[0], pkg, now).status != Failed
    ensures var f := FullRun(states, entries, pkg, userId, userName, stamp, now);
      && |f.results| == 4
      && forall j :: 0 <= j < 4 ==> f.results[j] == ResultOf(StageName(KindAt(j)), StageCheck(j, states[j], pkg, now))
  {
    NoStageFails(states, pkg, now);
    var check := Checks(pkg, now);
    LoopToEndResults(check, Run(states, entries, []), 0, userId, userName, stamp, now);
    ResultsAt(check, states, 0);
    var rs := CheckResults(check, states, 0);
    var f := FullRun(states, entries, pkg, userId, userName, stamp, now);
    assert f == Loop(check, Run(states, entries, []), 0, userId, userName, stamp, now);
    assert f.results == [] + rs == rs;
    forall j | 0 <= j < 4
      ensures f.results[j] == ResultOf(StageName(KindAt(j)), StageCheck(j, states[j], pkg, now))
    {
      assert rs[j] == ResultOf(StageName(KindAt(0 + j)), check(0 + j, states[0 + j]));
      assert check(j, states[j]) == StageCheck(j, states[j], pkg, now);
    }
  }

  /** ... and appending one "check" entry per stage after the entries it started with. */
  lemma FullRunEntries(states: seq<StageState>, entries: seq<HistoryEntry>, pkg: Package, userId: string, userName: string,
                       stamp: string, now: string)
    requires |states| == 4
    requires CheckSpec(Automatic, states[0], pkg, now).status != Failed
    ensures var f := FullRun(states, entries, pkg, userId, userName, stamp, now);
      && |f.entries| == |entries| + 4 && f.entries[..|entries|] == entries
      && forall j :: 0 <= j < 4 ==>
           f.entries[|entries| + j]
           == CheckEntry(StageName(KindAt(j)), states[j].status, StageCheck(j, states[j], pkg, now).status, userId, userName, stamp, now)
  {
    NoStageFails(states, pkg, now);
    var check := Checks(pkg, now);
    LoopToEndEntries(check, Run(states, entries, []), 0, userId, userName, stamp, now);
    EntriesAt(check, states, 0, userId, userName, stamp, now);
    var es := CheckEntries(check, states, 0, userId, userName, stamp, now);
    var f := FullRun(states, entries, pkg, userId, userName, stamp, now);
    assert f == Loop(check, Run(states, entries, []), 0, userId, userName, stamp, now);
    assert f.entries == entries + es;
    forall j | 0 <= j < 4
      ensures f.entries[|entries| + j]
           == CheckEntry(StageName(KindAt(j)), states[j].status, StageCheck(j, states[j], pkg, now).status, userId, userName, stamp, now)
    {
      assert f.entries[|entries| + j] == es[j];
      assert es[j] == CheckEntry(StageName(KindAt(0 + j)), states[0 + j].status, check(0 + j, states[0 + j]).status,
                                 userId, userName, stamp, now);
      assert check(j, states[j]) == StageCheck(j, states[j], pkg, now);
    }
  }

  /** One more document extends the issues and the three flags. */
  lemma ScanStep(docs: seq<PackageDoc>, i: nat)
    requires i < |docs|
    ensures DocsIssues(docs[..i + 1]) == DocsIssues(docs[..i]) + DocIssues(docs[i])
    ensures AllAvailable(docs[..i + 1]) == (AllAvailable(docs[..i]) && docs[i].available)
    ensures AllSizesOk(docs[..i + 1]) == (AllSizesOk(docs[..i]) && (docs[i].available ==> !TooLarge(docs[i].size)))
    ensures AllValid(docs[..i + 1]) == (AllValid(docs[..i]) && (docs[i].available ==> docs[i].status != Some("expired")))
  {
    assert docs[..i + 1][..i] == docs[..i];
  }

  /** The issues and flags of the automatic check: the shortfall first, then the document loop. */
  method AutomaticFindings(pkg: Package) returns (issues: seq<Issue>, flags: Flags)
    ensures issues == AutoIssues(pkg)
    ensures flags == FlagsOf(pkg)
  {
    issues := [];
    var docs := pkg.documents;
    var enough := true;
    if |docs| < pkg.requiredCount {
      issues := issues + [Issue(Blocker, MissingDocuments(pkg.requiredCount - |docs|))];
      enough := false;
    }
    var docIssues, allFormatsOk, allSizesOk, allValid := ScanDocuments(docs);
    issues := issues + docIssues;
    flags := Flags(enough, allFormatsOk, allSizesOk, allValid);
  }

  /** The checks on one document, in the order the loop makes them. */
  method ScanDocument(d: PackageDoc) returns (found: seq<Issue>, formatOk: bool, sizeOk: bool, valid: bool)
    ensures found == DocIssues(d)
    ensures formatOk == d.available
    ensures sizeOk == (d.available ==> !TooLarge(d.size))
    ensures valid == (d.available ==> d.status != Some("expired"))
  {
    found, formatOk, sizeOk, valid := [], true, true, true;
    if !d.available {
      found := [Issue(Critical, FileNotFound(d.name))];
      formatOk := false;
    } else {
      if TooLarge(d.size) {
        found := found + [Issue(Severity.Warning, FileTooLarge(d.name))];
        sizeOk := false;
      }
      if d.status == Some("expired") {
        found := found + [Issue(Blocker, Expired(d.name))];
        valid := false;
      }
    }
  }

  /** The document loop of the automatic check, with its three flags. */
  method ScanDocuments(docs: seq<PackageDoc>) returns (issues: seq<Issue>, allFormatsOk: bool, allSizesOk: bool, allValid: bool)
    ensures issues == DocsIssues(docs)
    ensures allFormatsOk == AllAvailable(docs)
    ensures allSizesOk == AllSizesOk(docs)
    ensures allValid == AllValid(docs)
  {
    issues := [];
    allFormatsOk, allSizesOk, allValid := true, true, true;
    var i := 0;
    while i < |docs|
      invariant 0 <= i <= |docs|
      invariant issues == DocsIssues(docs[..i])
      invariant allFormatsOk == AllAvailable(docs[..i])
      invariant allSizesOk == AllSizesOk(docs[..i])
      invariant allValid == AllValid(docs[..i])
    {
      ScanStep(docs, i);
      var found, formatOk, sizeOk, valid := ScanDocument(docs[i]);
      issues := issues + found;
      allFormatsOk := allFormatsOk && formatOk;
      allSizesOk := allSizesOk && sizeOk;
      allValid := allValid && valid;
      i := i + 1;
    }
    assert docs[..i] == docs;
  }
}
