/**
 * The forms extractor: how a field of a form is typed and judged
 * mandatory, how the fields a form's text yields are filtered,
 * de-duplicated and capped, how the forms of one section are
 * de-duplicated by name, how a form's name is read from its context,
 * and the summary over extracted forms. The regular expressions that
 * find forms, sections, fields and tables are not modelled: their
 * matches arrive as inputs.
 */
module FormsExtractor {
  import opened Wrappers
  import opened Text
  import opened Sequences
  import Tally

  const DateKeywords: seq<string> := ["дата", "date", "год"]
  const NumberKeywords: seq<string> := ["инн", "огрн", "кпп", "номер", "сумма", "цена"]
  const TextKeywords: seq<string> := ["адрес", "email", "телефон"]
  const CheckboxKeywords: seq<string> := ["да/нет", "согласен", "подтверждаю"]
  const OptionalMarkers: seq<string> := ["при наличии", "опционально", "по желанию", "(не обязательно)"]
  const FormWords: seq<string> := ["форма", "приложение", "анкета"]

  const UnnamedForm := "Форма без названия"
  const NoSection := "Не определено"

  const MinNameLength := 3
  const MaxNameLength := 100
  const MaxFields := 50
  const MaxRawText := 2000
  const MaxFormName := 100
  /** How far around a field's first occurrence optional markers are looked for. */
  const MarkerRadius := 50

  /** `any(kw in s for kw in kws)`. */
  predicate AnyIn(s: string, kws: seq<string>) {
    exists i :: 0 <= i < |kws| && Contains(s, kws[i])
  }

  // ---------------------------------------------------------------------
  // _detect_field_type
  // ---------------------------------------------------------------------

  /** `_detect_field_type`: keyword groups tried in order on the lower-cased name. */
  function DetectFieldType(name: string): (t: string)
    ensures t == "date" || t == "number" || t == "text" || t == "checkbox"
  {
    var low := Lower(name);
    if AnyIn(low, DateKeywords) then "date"
    else if AnyIn(low, NumberKeywords) then "number"
    else if AnyIn(low, TextKeywords) then "text"
    else if AnyIn(low, CheckboxKeywords) then "checkbox"
    else "text"
  }

  /**
   * The type chosen, keyword group by keyword group: a date keyword wins
   * over everything, a number keyword over the rest, and a checkbox keyword
   * counts only when no address, e-mail or phone keyword occurs.
   */
  lemma DetectFieldTypeMeaning(name: string)
    ensures var low := Lower(name);
      && (DetectFieldType(name) == "date" <==> AnyIn(low, DateKeywords))
      && (DetectFieldType(name) == "number" <==> !AnyIn(low, DateKeywords) && AnyIn(low, NumberKeywords))
      && (DetectFieldType(name) == "checkbox" <==>
            !AnyIn(low, DateKeywords) && !AnyIn(low, NumberKeywords) && !AnyIn(low, TextKeywords)
            && AnyIn(low, CheckboxKeywords))
      && (DetectFieldType(name) == "text" <==>
            !AnyIn(low, DateKeywords) && !AnyIn(low, NumberKeywords)
            && (AnyIn(low, TextKeywords) || !AnyIn(low, CheckboxKeywords)))
  {
  }

  /** The type does not depend on letter case. */
  lemma DetectFieldTypeIgnoresCase(name: string)
    ensures DetectFieldType(Lower(name)) == DetectFieldType(name)
  {
    LowerIsLowerCase(name);
    LowerOfLowerCase(Lower(name));
  }

  // ---------------------------------------------------------------------
  // _is_field_mandatory
  // ---------------------------------------------------------------------

  /** `context[max(0, pos - 50):pos + len(name) + 50]` around the first occurrence of the name. */
  function Window(name: string, context: string, pos: nat): (w: string)
    requires pos + |name| <= |context|
    ensures |w| <= |name| + 2 * MarkerRadius
  {
    var lo := if pos < MarkerRadius then 0 else pos - MarkerRadius;
    var hi := if pos + |name| + MarkerRadius > |context| then |context| else pos + |name| + MarkerRadius;
    context[lo..hi]
  }

  /** `_is_field_mandatory`: mandatory unless an optional marker occurs near the name's first occurrence. */
  function IsFieldMandatory(name: string, context: string): bool {
    var pos := Find(Lower(context), Lower(name));
    if pos == -1 then true
    else !AnyIn(Lower(Window(name, context, pos)), OptionalMarkers)
  }

  /**
   * The decision spelled out: a name absent from the context (in any letter
   * case) is mandatory, and for a present one the position searched around
   * is an occurrence. WindowHoldsName and MarkerFreeMandatory say more.
   */
  lemma MandatoryMeaning(name: string, context: string)
    ensures !Contains(Lower(context), Lower(name)) ==> IsFieldMandatory(name, context)
    ensures Contains(Lower(context), Lower(name)) ==>
      var pos := Find(Lower(context), Lower(name));
      && OccursAt(Lower(context), Lower(name), pos)
      && (IsFieldMandatory(name, context) <==> !AnyIn(Lower(Window(name, context, pos)), OptionalMarkers))
  {
  }

  /** The window the markers are looked for in holds the name's first occurrence. */
  lemma WindowHoldsName(name: string, context: string)
    requires Contains(Lower(context), Lower(name))
    ensures var pos := Find(Lower(context), Lower(name));
      Contains(Lower(Window(name, context, pos)), Lower(name))
  {
    var pos := Find(Lower(context), Lower(name));
    var lo := if pos < MarkerRadius then 0 else pos - MarkerRadius;
    var hi := if pos + |name| + MarkerRadius > |context| then |context| else pos + |name| + MarkerRadius;
    assert pos >= 0 && OccursAt(Lower(context), Lower(name), pos);
    assert Window(name, context, pos) == context[lo..hi];
    LowerSlice(context, lo, hi);
    OccursInSlice(Lower(context), Lower(name), pos, lo, hi);
  }

  /** A context that holds no optional marker anywhere makes every field mandatory. */
  lemma MarkerFreeMandatory(name: string, context: string)
    requires !AnyIn(Lower(context), OptionalMarkers)
    ensures IsFieldMandatory(name, context)
  {
    var pos := Find(Lower(context), Lower(name));
    if pos != -1 {
      var lo := if pos < MarkerRadius then 0 else pos - MarkerRadius;
      var hi := if pos + |name| + MarkerRadius > |context| then |context| else pos + |name| + MarkerRadius;
      assert Window(name, context, pos) == context[lo..hi];
      LowerSlice(context, lo, hi);
      if AnyIn(Lower(context)[lo..hi], OptionalMarkers) {
        AnyInSlice(Lower(context), lo, hi, OptionalMarkers);
      }
    }
  }

  lemma LowerSlice(s: string, lo: nat, hi: nat)
    requires lo <= hi <= |s|
    ensures Lower(s[lo..hi]) == Lower(s)[lo..hi]
  {
  }

  /** A keyword found in a slice is found in the whole string. */
  lemma AnyInSlice(s: string, lo: nat, hi: nat, kws: seq<string>)
    requires lo <= hi <= |s| && AnyIn(s[lo..hi], kws)
    ensures AnyIn(s, kws)
  {
    var i :| 0 <= i < |kws| && Contains(s[lo..hi], kws[i]);
    ContainsInSlice(s, lo, hi, kws[i]);
  }

  // ---------------------------------------------------------------------
  // parse_form_structure: the fields
  // ---------------------------------------------------------------------

  /** A field of a form, as the dict `{"name", "type", "mandatory"}`. */
  datatype FormField = FormField(name: string, fieldType: string, mandatory: bool)

  /**
   * The field name one match yields from its groups (all groups of the
   * field patterns take part in every match): the stripped second group
   * unless it is empty, else the stripped first; no groups, no field.
   */
  function FieldNameOf(groups: seq<string>): Option<string> {
    if |groups| >= 2 then Some(if groups[1] != "" then Strip(groups[1]) else Strip(groups[0]))
    else if |groups| == 1 then Some(Strip(groups[0]))
    else None
  }

  predicate NameLengthOk(name: string) {
    MinNameLength <= |name| <= MaxNameLength
  }

  /** The field a match becomes when its name passes the length filter. */
  function FieldOf(groups: seq<string>, formText: string): Option<FormField> {
    match FieldNameOf(groups)
    case Some(name) =>
      if NameLengthOk(name) then Some(FormField(name, DetectFieldType(name), IsFieldMandatory(name, formText)))
      else None
    case None => None
  }

  /** The fields the matches yield, before de-duplication. */
  function FieldCandidates(matches: seq<seq<string>>, formText: string): seq<FormField> {
    if matches == [] then []
    else
      var more := match FieldOf(matches[|matches| - 1], formText) { case Some(f) => [f] case None => [] };
      FieldCandidates(matches[..|matches| - 1], formText) + more
  }

  /** Fields are duplicates when their names agree ignoring case. */
  function LowerName(f: FormField): string {
    Lower(f.name)
  }

  /** `fields[:50]`. */
  function Capped(fields: seq<FormField>): (r: seq<FormField>)
    ensures |r| <= MaxFields && |r| <= |fields|
    ensures r == fields[..|r|]
  {
    if |fields| <= MaxFields then fields else fields[..MaxFields]
  }

  /** The field list `parse_form_structure` returns. */
  function FormFields(matches: seq<seq<string>>, formText: string): seq<FormField> {
    Capped(KeepFirst(FieldCandidates(matches, formText), LowerName))
  }

  /** Every candidate field has a name of 3 to 100 characters, typed and judged by that name. */
  lemma {:induction false} FieldCandidatesMeaning(matches: seq<seq<string>>, formText: string)
    ensures forall f :: f in FieldCandidates(matches, formText) ==>
      && NameLengthOk(f.name)
      && f.fieldType == DetectFieldType(f.name)
      && f.mandatory == IsFieldMandatory(f.name, formText)
  {
    if matches != [] {
      FieldCandidatesMeaning(matches[..|matches| - 1], formText);
    }
  }

  /**
   * `parse_form_structure`'s fields: at most 50, each with a name of 3 to
   * 100 characters typed and judged by that name, no two names equal
   * ignoring case, in match order.
   */
  lemma FormFieldsMeaning(matches: seq<seq<string>>, formText: string)
    ensures var r := FormFields(matches, formText);
      && |r| <= MaxFields
      && (forall f :: f in r ==>
            && NameLengthOk(f.name)
            && f.fieldType == DetectFieldType(f.name)
            && f.mandatory == IsFieldMandatory(f.name, formText))
      && KeysDistinct(r, LowerName)
      && Subsequence(r, FieldCandidates(matches, formText))
  {
    var cs := FieldCandidates(matches, formText);
    var kept := KeepFirst(cs, LowerName);
    var r := FormFields(matches, formText);
    FieldCandidatesMeaning(matches, formText);
    KeepFirstSubsequence(cs, LowerName);
    KeepFirstDistinct(cs, LowerName);
    SubsequencePrefix(kept, cs, |r|);
    SubsequenceMembers(r, cs);
    assert KeysDistinct(r, LowerName) by {
      forall i, j | 0 <= i < j < |r| ensures LowerName(r[i]) != LowerName(r[j]) {
        assert r[i] == kept[i] && r[j] == kept[j];
      }
    }
  }

  /**
   * Of the fields sharing a name ignoring case, the first matched is the
   * one kept; below the cap every name matched is represented.
   */
  lemma FormFieldsFirstWins(matches: seq<seq<string>>, formText: string)
    ensures var cs := FieldCandidates(matches, formText);
      forall i :: 0 <= i < |cs| && (forall j :: 0 <= j < i ==> LowerName(cs[j]) != LowerName(cs[i])) ==>
        cs[i] in KeepFirst(cs, LowerName)
    ensures var cs := FieldCandidates(matches, formText);
      |KeepFirst(cs, LowerName)| <= MaxFields ==>
        forall f :: f in cs ==> HasKey(FormFields(matches, formText), LowerName, LowerName(f))
  {
    var cs := FieldCandidates(matches, formText);
    KeepFirstCovers(cs, LowerName);
    forall i | 0 <= i < |cs| && (forall j :: 0 <= j < i ==> LowerName(cs[j]) != LowerName(cs[i]))
      ensures cs[i] in KeepFirst(cs, LowerName)
    {
      KeepFirstFirst(cs, LowerName, i);
    }
  }

  /** One more match extends the de-duplicated candidates by its field, if it has one with a new name. */
  lemma FieldsStep(matches: seq<seq<string>>, i: nat, formText: string)
    requires i < |matches|
    ensures var kept := KeepFirst(FieldCandidates(matches[..i], formText), LowerName);
      KeepFirst(FieldCandidates(matches[..i + 1], formText), LowerName) ==
        match FieldOf(matches[i], formText)
        case Some(f) => if HasKey(kept, LowerName, LowerName(f)) then kept else kept + [f]
        case None => kept
  {
    var prefix := matches[..i + 1];
    assert prefix[..i] == matches[..i];
    var cs := FieldCandidates(matches[..i], formText);
    match FieldOf(matches[i], formText)
    case Some(f) =>
      assert FieldCandidates(prefix, formText) == cs + [f];
      assert (cs + [f])[..|cs|] == cs;
    case None =>
      assert FieldCandidates(prefix, formText) == cs + [];
      assert cs + [] == cs;
  }

  /** The de-duplicating loop of `parse_form_structure`, then the cap. */
  method ParseFields(matches: seq<seq<string>>, formText: string) returns (fields: seq<FormField>)
    ensures fields == FormFields(matches, formText)
  {
    var found: seq<FormField> := [];
    for i := 0 to |matches|
      invariant found == KeepFirst(FieldCandidates(matches[..i], formText), LowerName)
    {
      FieldsStep(matches, i, formText);
      var name := FieldNameOf(matches[i]);
      if name.Some? && NameLengthOk(name.value) {
        var field := FormField(name.value, DetectFieldType(name.value), IsFieldMandatory(name.value, formText));
        if !HasKey(found, LowerName, Lower(name.value)) {
          found := found + [field];
        }
      }
    }
    assert matches[..|matches|] == matches;
    fields := if |found| <= MaxFields then found else found[..MaxFields];
  }

  /** What `parse_form_structure` returns; the table count and the signature and date flags come from regular expressions. */
  datatype Structure = Structure(fields: Option<seq<FormField>>, tablesCount: nat, hasSignature: bool, hasDate: bool)

  /** `parse_form_structure`. */
  method ParseFormStructure(matches: seq<seq<string>>, formText: string, tablesCount: nat, hasSignature: bool, hasDate: bool)
    returns (s: Structure)
    ensures s == Structure(Some(FormFields(matches, formText)), tablesCount, hasSignature, hasDate)
  {
    var fields := ParseFields(matches, formText);
    s := Structure(Some(fields), tablesCount, hasSignature, hasDate);
  }

  // ---------------------------------------------------------------------
  // _find_forms_in_section and _extract_form_name
  // ---------------------------------------------------------------------

  /** An extracted form, as its dict. */
  datatype Form = Form(
    formId: string,
    formName: string,
    formNumber: Option<string>,
    sourceSection: Option<string>,
    structure: Option<Structure>,
    rawText: string,
    templateMatch: Option<map<string, string>>)

  /** What one form match yields: a fresh id, the number group, the name, the form's text and its structure. */
  datatype FormHit = FormHit(formId: string, formNumber: Option<string>, formName: string, rawText: string, structure: Structure)

  /** The dict built for one match of a section. */
  function FormOf(hit: FormHit, sectionName: string): Form {
    Form(hit.formId, hit.formName, hit.formNumber,
         Some(if sectionName == "" then NoSection else sectionName),
         Some(hit.structure), Take(hit.rawText, MaxRawText), None)
  }

  function FormsOf(hits: seq<FormHit>, sectionName: string): (forms: seq<Form>)
    ensures |forms| == |hits|
    ensures forall i :: 0 <= i < |hits| ==> forms[i] == FormOf(hits[i], sectionName)
  {
    if hits == [] then [] else FormsOf(hits[..|hits| - 1], sectionName) + [FormOf(hits[|hits| - 1], sectionName)]
  }

  function NameOf(f: Form): string {
    f.formName
  }

  /** The forms `_find_forms_in_section` returns for its matches, in pattern and match order. */
  function SectionForms(hits: seq<FormHit>, sectionName: string): seq<Form> {
    KeepFirst(FormsOf(hits, sectionName), NameOf)
  }

  /** `_find_forms_in_section` with the matches given. */
  method FindFormsInSection(hits: seq<FormHit>, sectionName: string) returns (forms: seq<Form>)
    ensures forms == SectionForms(hits, sectionName)
  {
    forms := [];
    for i := 0 to |hits|
      invariant forms == KeepFirst(FormsOf(hits[..i], sectionName), NameOf)
    {
      assert hits[..i + 1][..i] == hits[..i];
      var form := FormOf(hits[i], sectionName);
      if !HasKey(forms, NameOf, form.formName) {
        forms := forms + [form];
      }
    }
    assert hits[..|hits|] == hits;
  }

  /**
   * The forms of a section carry distinct names, the first match of each
   * name winning, every name matched represented; each form names a
   * section, holds at most 2000 characters of text and no template match.
   */
  lemma SectionFormsMeaning(hits: seq<FormHit>, sectionName: string)
    ensures KeysDistinct(SectionForms(hits, sectionName), NameOf)
    ensures forall h :: h in hits ==> HasKey(SectionForms(hits, sectionName), NameOf, h.formName)
    ensures forall i :: 0 <= i < |hits| && (forall j :: 0 <= j < i ==> hits[j].formName != hits[i].formName) ==>
      FormOf(hits[i], sectionName) in SectionForms(hits, sectionName)
    ensures forall f :: f in SectionForms(hits, sectionName) ==>
      && |f.rawText| <= MaxRawText
      && f.sourceSection.Some? && f.sourceSection.value != ""
      && f.templateMatch.None?
  {
    var forms := FormsOf(hits, sectionName);
    KeepFirstDistinct(forms, NameOf);
    KeepFirstCovers(forms, NameOf);
    KeepFirstSubsequence(forms, NameOf);
    SubsequenceMembers(KeepFirst(forms, NameOf), forms);
    forall h | h in hits ensures HasKey(SectionForms(hits, sectionName), NameOf, h.formName) {
      var i :| 0 <= i < |hits| && hits[i] == h;
      assert forms[i] in forms;
    }
    forall i | 0 <= i < |hits| && (forall j :: 0 <= j < i ==> hits[j].formName != hits[i].formName)
      ensures FormOf(hits[i], sectionName) in SectionForms(hits, sectionName)
    {
      KeepFirstFirst(forms, NameOf, i);
    }
  }

  /** `re.search(r'(?i)форма|приложение|анкета', line)`. */
  predicate MentionsForm(line: string) {
    AnyIn(Lower(line), FormWords)
  }

  /**
   * A line gives a form's name when, stripped, it mentions a form and
   * removing the form word and number (`stripNumber`, a regular-expression
   * substitution) leaves something.
   */
  predicate GivesName(line: string, stripNumber: string -> string) {
    MentionsForm(Strip(line)) && stripNumber(Strip(line)) != ""
  }

  /** The name such a line gives: what is left, stripped and cut to 100 characters. */
  function NameOfLine(line: string, stripNumber: string -> string): (name: string)
    ensures |name| <= MaxFormName
  {
    Take(Strip(stripNumber(Strip(line))), MaxFormName)
  }

  /** The name the lines of the context give: that of the first line giving one. */
  function NameFromLines(lines: seq<string>, stripNumber: string -> string): (name: string)
    ensures |name| <= MaxFormName
  {
    if lines == [] then UnnamedForm
    else if GivesName(lines[0], stripNumber) then NameOfLine(lines[0], stripNumber)
    else NameFromLines(lines[1..], stripNumber)
  }

  /** No line gives a name: the name is "Форма без названия". */
  lemma {:induction false} NameFromLinesFallback(lines: seq<string>, stripNumber: string -> string)
    requires forall i :: 0 <= i < |lines| ==> !GivesName(lines[i], stripNumber)
    ensures NameFromLines(lines, stripNumber) == UnnamedForm
  {
    if lines != [] {
      assert forall i :: 0 <= i < |lines[1..]| ==> lines[1..][i] == lines[i + 1];
      NameFromLinesFallback(lines[1..], stripNumber);
    }
  }

  /** The first line that gives a name decides it, whatever follows. */
  lemma {:induction false} NameFromLinesFirst(lines: seq<string>, stripNumber: string -> string, k: nat)
    requires k < |lines| && GivesName(lines[k], stripNumber)
    requires forall i :: 0 <= i < k ==> !GivesName(lines[i], stripNumber)
    ensures NameFromLines(lines, stripNumber) == NameOfLine(lines[k], stripNumber)
  {
    if k > 0 {
      var rest := lines[1..];
      assert !GivesName(lines[0], stripNumber);
      forall i | 0 <= i < k - 1 ensures !GivesName(rest[i], stripNumber) {
        assert rest[i] == lines[i + 1];
      }
      assert rest[k - 1] == lines[k];
      NameFromLinesFirst(rest, stripNumber, k - 1);
    }
  }

  /** `text[max(0, start - 50):min(len(text), end + 200)]`, the context a form's name is read from. */
  function NameContext(text: string, start: nat, end: nat): string
    requires start <= end <= |text|
  {
    var lo := if start < 50 then 0 else start - 50;
    var hi := if end + 200 > |text| then |text| else end + 200;
    text[lo..hi]
  }

  /** `_extract_form_name`: the first line of the context that gives a name, else the fallback. */
  method ExtractFormName(text: string, start: nat, end: nat, stripNumber: string -> string) returns (name: string)
    requires start <= end <= |text|
    ensures name == NameFromLines(SplitOn(NameContext(text, start, end), '\n'), stripNumber)
    ensures |name| <= MaxFormName
  {
    var lines := SplitOn(NameContext(text, start, end), '\n');
    for i := 0 to |lines|
      invariant NameFromLines(lines, stripNumber) == NameFromLines(lines[i..], stripNumber)
    {
      var line := Strip(lines[i]);
      if MentionsForm(line) {
        var rest := stripNumber(line);
        if rest != "" {
          return Take(Strip(rest), MaxFormName);
        }
      }
      assert lines[i..][0] == lines[i] && lines[i..][1..] == lines[i + 1..];
    }
    return UnnamedForm;
  }

  // ---------------------------------------------------------------------
  // get_forms_summary and _group_by_section
  // ---------------------------------------------------------------------

  /** `len(f.get("structure", {}).get("fields", []))`. */
  function FieldCount(f: Form): nat {
    match f.structure
    case None => 0
    case Some(s) => |s.fields.GetOr([])|
  }

  function TotalFields(forms: seq<Form>): nat {
    if forms == [] then 0 else TotalFields(forms[..|forms| - 1]) + FieldCount(forms[|forms| - 1])
  }

  /** `f.get("template_match")` is truthy: present and not an empty dict. */
  predicate HasTemplate(f: Form) {
    f.templateMatch.Some? && f.templateMatch.value != map[]
  }

  /** `form.get("source_section", "Не определено")`. */
  function SectionOf(f: Form): string {
    f.sourceSection.GetOr(NoSection)
  }

  function SectionsOf(forms: seq<Form>): (sections: seq<string>)
    ensures |sections| == |forms|
  {
    if forms == [] then [] else SectionsOf(forms[..|forms| - 1]) + [SectionOf(forms[|forms| - 1])]
  }

  /** The summary dict. */
  datatype Summary = Summary(totalForms: nat, totalFields: nat, withTemplate: nat, withoutTemplate: int, bySection: seq<(string, nat)>)

  /** `_group_by_section`. */
  method GroupBySection(forms: seq<Form>) returns (bySection: seq<(string, nat)>)
    ensures bySection == Tally.Tally(SectionsOf(forms))
  {
    bySection := [];
    for i := 0 to |forms|
      invariant bySection == Tally.Tally(SectionsOf(forms[..i]))
    {
      SectionsStep(forms, i);
      bySection := Tally.Bump(bySection, SectionOf(forms[i]));
    }
    assert forms[..|forms|] == forms;
  }

  lemma SectionsStep(forms: seq<Form>, i: nat)
    requires i < |forms|
    ensures Tally.Tally(SectionsOf(forms[..i + 1])) == Tally.Bump(Tally.Tally(SectionsOf(forms[..i])), SectionOf(forms[i]))
  {
    var prefix := forms[..i + 1];
    assert prefix[..i] == forms[..i];
    var sections := SectionsOf(forms[..i]);
    assert SectionsOf(prefix) == sections + [SectionOf(forms[i])];
    assert (sections + [SectionOf(forms[i])])[..i] == sections;
  }

  /** `get_forms_summary`. */
  method GetFormsSummary(forms: seq<Form>) returns (s: Summary)
    ensures s == Summary(|forms|, TotalFields(forms), CountIf(forms, HasTemplate),
                         |forms| - CountIf(forms, HasTemplate), Tally.Tally(SectionsOf(forms)))
  {
    var bySection := GroupBySection(forms);
    var withTemplate := CountIf(forms, HasTemplate);
    s := Summary(|forms|, TotalFields(forms), withTemplate, |forms| - withTemplate, bySection);
  }

  /**
   * The forms with and without a template match add up to the forms, and
   * the per-section counts add up to the forms with one count per form of
   * that section.
   */
  lemma SummaryCounts(forms: seq<Form>)
    ensures 0 <= |forms| - CountIf(forms, HasTemplate) <= |forms|
    ensures Tally.Total(Tally.Tally(SectionsOf(forms))) == |forms|
    ensures forall k :: Tally.Get(Tally.Tally(SectionsOf(forms)), k) == Tally.Count(SectionsOf(forms), k)
    ensures Tally.DistinctKeys(Tally.Tally(SectionsOf(forms)))
  {
    Tally.TallyTotal(SectionsOf(forms));
    forall k ensures Tally.Get(Tally.Tally(SectionsOf(forms)), k) == Tally.Count(SectionsOf(forms), k) {
      Tally.TallyGet(SectionsOf(forms), k);
    }
    Tally.TallyDistinct(SectionsOf(forms));
  }

  /** The total number of fields is additive over lists of forms. */
  lemma {:induction false} TotalFieldsAppend(a: seq<Form>, b: seq<Form>)
    ensures TotalFields(a + b) == TotalFields(a) + TotalFields(b)
    decreases |b|
  {
    if b == [] {
      assert a + b == a;
    } else {
      TotalFieldsAppend(a, b[..|b| - 1]);
      assert (a + b)[..|a + b| - 1] == a + b[..|b| - 1];
    }
  }

  /** Two forms, of three fields and of two fields with a template match: two forms, five fields, one with a template. */
  lemma SummaryExample(f1: Form, f2: Form)
    requires f1.structure == Some(Structure(Some([FormField("a", "text", true), FormField("b", "text", true), FormField("c", "text", true)]), 0, false, false))
    requires f2.structure == Some(Structure(Some([FormField("d", "text", true), FormField("e", "text", true)]), 0, false, false))
    requires f1.templateMatch.None? && f2.templateMatch == Some(map["template_id" := "T1"])
    ensures TotalFields([f1, f2]) == 5
    ensures CountIf([f1, f2], HasTemplate) == 1 && |[f1, f2]| - CountIf([f1, f2], HasTemplate) == 1
  {
    assert [f1, f2][..1] == [f1];
    assert [f1][..0] == [];
    assert FieldCount(f1) == 3 && FieldCount(f2) == 2;
    assert TotalFields([f1]) == TotalFields([]) + FieldCount(f1);
    assert "template_id" in map["template_id" := "T1"];
  }
}
