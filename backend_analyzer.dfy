/**
 * The document analyzer of the backend service (backend/analyzer.py): it
 * turns the language model's output, either a pipe table or JSON, into a
 * list of required documents, removes duplicates by normalised name and
 * caps the list at 50 entries.
 *
 * The model call and the timeout alarm are inputs (`Generation`), the JSON
 * decoder is an uninterpreted `parse` function (`None` for a
 * `JSONDecodeError`) and `SequenceMatcher.ratio` an uninterpreted `ratio`
 * function; no symmetry is assumed of it.
 */
module BackendAnalyzer {
  import opened Wrappers
  import opened Text
  import opened Sequences

  const MaxDocuments: nat := 50
  const SimilarityThreshold: real := 0.85

  /**
   * A document dict as the pipeline reads it; `None` is an absent key (or,
   * for `validity`, the JSON null the text parser stores).
   */
  datatype Record = Record(
    id: Option<string>,
    name: Option<string>,
    mandatory: Option<bool>,
    format: Option<string>,
    validity: Option<string>,
    sourceReference: Option<string>)

  /** One element of `required_documents`: a dict, or any other JSON value. */
  datatype Entry = Dict(rec: Record) | NotDict

  /** `procurement_info`: the three keys the text parser may set. */
  datatype Info = Info(number: Option<string>, customer: Option<string>, procedureType: Option<string>)

  const NoInfo := Info(None, None, None)

  /** The dict the two parsers return. */
  datatype Parsed = Parsed(info: Info, documents: seq<Entry>)

  const EmptyParsed := Parsed(NoInfo, [])

  /**
   * What a parser hands to the rest of the analysis. `Analysis` is a dict
   * whose `required_documents` is a list or absent (a string or dict there
   * is iterated as elements that are not dicts). `Unusable` is a JSON value
   * the analysis cannot read, with the message of the exception it raises:
   * a value that is not a dict (its `.get` raises `AttributeError`) or a
   * dict whose `required_documents` is null, a number or a boolean
   * (iterating it raises `TypeError`).
   */
  datatype Decoded = Analysis(parsed: Parsed) | Unusable(message: string)

  // ---------------------------------------------------------------------
  // _deduplicate_documents
  // ---------------------------------------------------------------------

  /** `name.lower().strip()` followed by `re.sub(r'\s+', ' ', ...)`. */
  function NormalizeName(name: string): (r: string)
    ensures IsLowerCase(r) && OnlyBlanks(r)
    ensures r == [] <==> AllSpace(name)
  {
    LowerIsLowerCase(name);
    StripKeepsLowerCase(Lower(name));
    CollapseChars(Strip(Lower(name)));
    StripEmptyIffAllSpace(Lower(name));
    assert AllSpace(Lower(name)) <==> AllSpace(name);
    CollapseSpaces(Strip(Lower(name)))
  }

  /** Case does not matter to the normalised name. */
  lemma {:induction false} NormalizeNameIgnoresCase(name: string)
    ensures NormalizeName(Lower(name)) == NormalizeName(name)
  {
    LowerIsLowerCase(name);
  }

  /**
   * The normalised name of an entry the loop considers, or `None` for the
   * entries it skips: a non-dict, a dict without "name", a name that is
   * empty once normalised.
   */
  function Candidate(e: Entry, norm: string -> string): (r: Option<string>)
    ensures r.Some? ==> r.value != [] && e.Dict? && e.rec.name.Some?
  {
    if e.Dict? && e.rec.name.Some? && norm(e.rec.name.value) != [] then Some(norm(e.rec.name.value)) else None
  }

  /** Some key already seen is more than 0.85 similar to `n` (`ratio(n, existing)`). */
  predicate SimilarToSeen(n: string, seen: seq<string>, ratio: (string, string) -> real) {
    exists k :: 0 <= k < |seen| && ratio(n, seen[k]) > SimilarityThreshold
  }

  /** The entries kept so far, and the keys of `seen` in insertion order. */
  datatype DedupState = DedupState(unique: seq<Entry>, seen: seq<string>)

  /** One turn of the loop. */
  function DedupStep(st: DedupState, e: Entry, norm: string -> string, ratio: (string, string) -> real): DedupState {
    match Candidate(e, norm)
    case None => st
    case Some(n) =>
      if n in st.seen || SimilarToSeen(n, st.seen, ratio) then st
      else DedupState(st.unique + [e], st.seen + [n])
  }

  /** The state after the loop has gone through `es`. */
  function Deduplicated(es: seq<Entry>, norm: string -> string, ratio: (string, string) -> real): DedupState
    decreases |es|
  {
    if es == [] then DedupState([], [])
    else DedupStep(Deduplicated(es[..|es| - 1], norm, ratio), es[|es| - 1], norm, ratio)
  }

  /** The inner loop over `seen.keys()`, which breaks at the first similar key. */
  method FindSimilarName(n: string, seen: seq<string>, ratio: (string, string) -> real) returns (found: bool)
    ensures found <==> SimilarToSeen(n, seen, ratio)
  {
    found := false;
    var k := 0;
    while k < |seen| && !found
      invariant 0 <= k <= |seen|
      invariant found <==> exists j :: 0 <= j < k && ratio(n, seen[j]) > SimilarityThreshold
    {
      found := ratio(n, seen[k]) > SimilarityThreshold;
      k := k + 1;
    }
  }

  /** One turn of the loop, as keeping or skipping the entry. */
  lemma DedupStepIs(st: DedupState, e: Entry, norm: string -> string, ratio: (string, string) -> real, kept: bool)
    requires kept <==> (Candidate(e, norm).Some? && Candidate(e, norm).value !in st.seen
      && !SimilarToSeen(Candidate(e, norm).value, st.seen, ratio))
    ensures DedupStep(st, e, norm, ratio) ==
      if kept then DedupState(st.unique + [e], st.seen + [Candidate(e, norm).value]) else st
  {
  }

  /** `_deduplicate_documents`. */
  method DeduplicateDocuments(documents: seq<Entry>, ratio: (string, string) -> real) returns (unique: seq<Entry>)
    ensures unique == Deduplicated(documents, NormalizeName, ratio).unique
  {
    unique := [];
    var seen: seq<string> := [];
    var i := 0;
    while i < |documents|
      invariant 0 <= i <= |documents|
      invariant DedupState(unique, seen) == Deduplicated(documents[..i], NormalizeName, ratio)
    {
      var doc := documents[i];
      assert documents[..i + 1][..i] == documents[..i];
      ghost var before := DedupState(unique, seen);
      if doc.Dict? && doc.rec.name.Some? {
        var n := NormalizeName(doc.rec.name.value);
        if n != [] && n !in seen {
          var similar := FindSimilarName(n, seen, ratio);
          DedupStepIs(before, doc, NormalizeName, ratio, !similar);
          if !similar {
            seen := seen + [n];
            unique := unique + [doc];
          }
        } else {
          DedupStepIs(before, doc, NormalizeName, ratio, false);
        }
      } else {
        DedupStepIs(before, doc, NormalizeName, ratio, false);
      }
      i := i + 1;
    }
    assert documents[..i] == documents;
  }

  /** The keys of `seen` are the normalised names of the kept entries, position by position. */
  lemma {:induction false} DedupKeys(es: seq<Entry>, norm: string -> string, ratio: (string, string) -> real)
    ensures var st := Deduplicated(es, norm, ratio);
      |st.seen| == |st.unique| && forall k :: 0 <= k < |st.unique| ==> Candidate(st.unique[k], norm) == Some(st.seen[k])
    decreases |es|
  {
    if es != [] {
      DedupKeys(es[..|es| - 1], norm, ratio);
    }
  }

  /** Only dicts with a name that is non-empty once normalised are kept. */
  lemma {:induction false} DedupKeepsNamedDicts(es: seq<Entry>, norm: string -> string, ratio: (string, string) -> real)
    ensures forall e :: e in Deduplicated(es, norm, ratio).unique ==>
      e.Dict? && e.rec.name.Some? && norm(e.rec.name.value) != []
  {
    var st := Deduplicated(es, norm, ratio);
    DedupKeys(es, norm, ratio);
    forall e | e in st.unique
      ensures e.Dict? && e.rec.name.Some? && norm(e.rec.name.value) != []
    {
      var k :| 0 <= k < |st.unique| && st.unique[k] == e;
      assert Candidate(st.unique[k], norm).Some?;
    }
  }

  /** The output keeps input entries unchanged and in their order. */
  lemma {:induction false} DedupSubsequence(es: seq<Entry>, norm: string -> string, ratio: (string, string) -> real)
    ensures Subsequence(Deduplicated(es, norm, ratio).unique, es)
    decreases |es|
  {
    if es != [] {
      var init := es[..|es| - 1];
      var e := es[|es| - 1];
      DedupSubsequence(init, norm, ratio);
      SubsequenceSnoc(Deduplicated(init, norm, ratio).unique, init, e);
      assert init + [e] == es;
    }
  }

  /** No name is more than 0.85 similar (`ratio(later, earlier)`) to a name before it. */
  predicate NoSimilarPairs(s: seq<string>, ratio: (string, string) -> real) {
    forall i, j :: 0 <= i < j < |s| ==> ratio(s[j], s[i]) <= SimilarityThreshold
  }

  /** No two kept entries share a normalised name. */
  lemma {:induction false} DedupDistinct(es: seq<Entry>, norm: string -> string, ratio: (string, string) -> real)
    ensures Distinct(Deduplicated(es, norm, ratio).seen)
    decreases |es|
  {
    if es != [] {
      var before := Deduplicated(es[..|es| - 1], norm, ratio);
      DedupDistinct(es[..|es| - 1], norm, ratio);
      var after := Deduplicated(es, norm, ratio);
      assert after == DedupStep(before, es[|es| - 1], norm, ratio);
      var c := Candidate(es[|es| - 1], norm);
      if c.Some? && !(c.value in before.seen || SimilarToSeen(c.value, before.seen, ratio)) {
        assert after.seen == before.seen + [c.value];
        forall i, j | 0 <= i < j < |after.seen|
          ensures after.seen[i] != after.seen[j]
        {
          assert after.seen[i] == before.seen[i];
          if j < |before.seen| {
            assert after.seen[j] == before.seen[j];
          } else {
            assert before.seen[i] in before.seen;
          }
        }
      } else {
        assert after == before;
      }
    }
  }

  /** A kept name is at most 0.85 similar to every name kept before it. */
  lemma {:induction false} DedupNotSimilar(es: seq<Entry>, norm: string -> string, ratio: (string, string) -> real)
    ensures NoSimilarPairs(Deduplicated(es, norm, ratio).seen, ratio)
    decreases |es|
  {
    if es != [] {
      var before := Deduplicated(es[..|es| - 1], norm, ratio);
      DedupNotSimilar(es[..|es| - 1], norm, ratio);
      var after := Deduplicated(es, norm, ratio);
      assert after == DedupStep(before, es[|es| - 1], norm, ratio);
      var c := Candidate(es[|es| - 1], norm);
      if c.Some? && !(c.value in before.seen || SimilarToSeen(c.value, before.seen, ratio)) {
        assert after.seen == before.seen + [c.value];
        forall i, j | 0 <= i < j < |after.seen|
          ensures ratio(after.seen[j], after.seen[i]) <= SimilarityThreshold
        {
          assert after.seen[i] == before.seen[i];
          if j < |before.seen| {
            assert after.seen[j] == before.seen[j];
          } else {
            assert ratio(c.value, before.seen[i]) <= SimilarityThreshold;
          }
        }
      } else {
        assert after == before;
      }
    }
  }

  /** Why an entry with key `n` was dropped, or that it was kept. */
  predicate Explained(n: string, seen: seq<string>, ratio: (string, string) -> real) {
    n in seen || SimilarToSeen(n, seen, ratio)
  }

  lemma ExplainedGrows(n: string, seen: seq<string>, m: string, ratio: (string, string) -> real)
    requires Explained(n, seen, ratio)
    ensures Explained(n, seen + [m], ratio)
  {
    if !(n in seen) {
      var k :| 0 <= k < |seen| && ratio(n, seen[k]) > SimilarityThreshold;
      assert (seen + [m])[k] == seen[k];
    }
  }

  /** Every entry with a usable name was either kept or dropped for a kept name equal or similar to its own. */
  lemma {:induction false} DedupCovers(es: seq<Entry>, norm: string -> string, ratio: (string, string) -> real)
    ensures forall i :: 0 <= i < |es| && Candidate(es[i], norm).Some? ==>
      Explained(Candidate(es[i], norm).value, Deduplicated(es, norm, ratio).seen, ratio)
    decreases |es|
  {
    if es != [] {
      var init := es[..|es| - 1];
      var e := es[|es| - 1];
      var before := Deduplicated(init, norm, ratio);
      var after := Deduplicated(es, norm, ratio);
      DedupCovers(init, norm, ratio);
      forall i | 0 <= i < |es| && Candidate(es[i], norm).Some?
        ensures Explained(Candidate(es[i], norm).value, after.seen, ratio)
      {
        var n := Candidate(es[i], norm).value;
        if i < |es| - 1 {
          assert es[i] == init[i];
          if after != before {
            ExplainedGrows(n, before.seen, Candidate(e, norm).value, ratio);
          }
        } else if after == before {
          assert Explained(n, before.seen, ratio);
        } else {
          assert after.seen[|after.seen| - 1] == n;
        }
      }
    }
  }

  /** The position of the first entry whose key is `n`, or `|es|` when there is none. */
  function FirstWithKey(es: seq<Entry>, n: string, norm: string -> string): (i: nat)
    ensures i <= |es|
    ensures i < |es| ==> Candidate(es[i], norm) == Some(n)
    ensures forall j :: 0 <= j < i ==> Candidate(es[j], norm) != Some(n)
    decreases |es|
  {
    if es == [] then 0
    else if Candidate(es[0], norm) == Some(n) then 0
    else 1 + FirstWithKey(es[1..], n, norm)
  }

  lemma {:induction false} FirstWithKeySnoc(es: seq<Entry>, e: Entry, n: string, norm: string -> string)
    ensures FirstWithKey(es + [e], n, norm) ==
      if FirstWithKey(es, n, norm) < |es| then FirstWithKey(es, n, norm) else |es| + (if Candidate(e, norm) == Some(n) then 0 else 1)
    decreases |es|
  {
    if es != [] {
      FirstWithKeySnoc(es[1..], e, n, norm);
      assert (es + [e])[1..] == es[1..] + [e];
    }
  }

  /**
   * Of all the entries with one normalised name, the first one is the one
   * kept: case and whitespace variants collapse to their first occurrence.
   */
  lemma {:induction false} DedupFirstWins(es: seq<Entry>, norm: string -> string, ratio: (string, string) -> real)
    ensures var st := Deduplicated(es, norm, ratio);
      |st.seen| == |st.unique| && forall k :: 0 <= k < |st.unique| ==>
        FirstWithKey(es, st.seen[k], norm) < |es| && es[FirstWithKey(es, st.seen[k], norm)] == st.unique[k]
    decreases |es|
  {
    if es != [] {
      var init := es[..|es| - 1];
      var e := es[|es| - 1];
      assert es == init + [e];
      var before := Deduplicated(init, norm, ratio);
      var after := Deduplicated(es, norm, ratio);
      DedupFirstWins(init, norm, ratio);
      DedupKeys(init, norm, ratio);
      DedupKeys(es, norm, ratio);
      DedupCovers(init, norm, ratio);
      forall k | 0 <= k < |after.unique|
        ensures FirstWithKey(es, after.seen[k], norm) < |es| && es[FirstWithKey(es, after.seen[k], norm)] == after.unique[k]
      {
        FirstWithKeySnoc(init, e, after.seen[k], norm);
        if k < |before.unique| {
          assert after.seen[k] == before.seen[k] && after.unique[k] == before.unique[k];
          assert es[FirstWithKey(init, before.seen[k], norm)] == init[FirstWithKey(init, before.seen[k], norm)];
        } else {
          var n := Candidate(e, norm).value;
          assert after.seen[k] == n && after.unique[k] == e;
          if FirstWithKey(init, n, norm) < |init| {
            assert false;
          }
        }
      }
    }
  }

  // ---------------------------------------------------------------------
  // _parse_text_output
  // ---------------------------------------------------------------------

  const EndMarker := "КОНЕЦ СПИСКА"

  lemma ContainsChar(line: string, p: string, k: nat)
    requires Contains(line, p) && k < |p|
    ensures Contains(line, [p[k]])
  {
    var i := Find(line, p);
    assert line[i + k..i + k + 1] == [p[k]];
    assert OccursAt(line, [p[k]], i + k);
  }

  /** `line.split(":", 1)[1].strip()`: the text after the line's first colon. */
  function AfterFirstColon(line: string): (r: string)
    requires Contains(line, ":")
    ensures |r| < |line|
  {
    Strip(line[Find(line, ":") + 1..])
  }

  /**
   * The `if`/`elif` chain on the info keys: the first keyword that occurs in
   * the line decides which one field is set, and the other two are kept.
   */
  function InfoUpdate(info: Info, line: string): (r: Info)
    ensures Contains(line, "Номер:") ==> r.customer == info.customer && r.procedureType == info.procedureType
    ensures !Contains(line, "Номер:") ==> r.number == info.number
    ensures !Contains(line, "Номер:") && Contains(line, "Заказчик:") ==> r.procedureType == info.procedureType
    ensures !Contains(line, "Номер:") && !Contains(line, "Заказчик:") ==> r.customer == info.customer
    ensures !Contains(line, "Номер:") && !Contains(line, "Заказчик:") && !Contains(line, "Тип процедуры:") ==> r == info
  {
    if Contains(line, "Номер:") then
      ContainsChar(line, "Номер:", 5);
      info.(number := Some(AfterFirstColon(line)))
    else if Contains(line, "Заказчик:") then
      ContainsChar(line, "Заказчик:", 8);
      info.(customer := Some(AfterFirstColon(line)))
    else if Contains(line, "Тип процедуры:") then
      ContainsChar(line, "Тип процедуры:", 13);
      info.(procedureType := Some(AfterFirstColon(line)))
    else info
  }

  /** A line the table branch looks at: it has a `|` and is not the header or a rule. */
  predicate IsTableLine(line: string) {
    Contains(line, "|") && !Contains(line, "Название") && !Contains(line, "===")
  }

  /** `[p.strip() for p in line.split("|")]`. */
  function Cells(line: string): (parts: seq<string>)
    ensures |parts| == |SplitOn(line, '|')|
  {
    var raw := SplitOn(line, '|');
    seq(|raw|, i requires 0 <= i < |raw| => Strip(raw[i]))
  }

  lemma TableLineHasTwoCells(line: string)
    requires Contains(line, "|")
    ensures |Cells(line)| >= 2
  {
    assert "|" == ['|'];
  }

  /** `str.isdigit`: non-empty and made of digits. */
  predicate IsNumber(s: string) {
    |s| > 0 && forall i :: 0 <= i < |s| ==> IsAsciiDigit(s[i])
  }

  /** The number cell with every `№` removed and stripped. */
  function RowNumber(parts: seq<string>): string
    requires |parts| >= 1
  {
    Strip(RemoveChar(parts[0], '№'))
  }

  function DocId(k: nat): string {
    "doc_" + NatToString(k)
  }

  /** The record for an accepted row, with the defaults for missing columns. */
  function RowRecord(parts: seq<string>, position: nat): (r: Record)
    requires |parts| >= 2
    ensures r.id == Some(DocId(position)) && r.name == Some(parts[1])
    ensures r.mandatory == Some(|parts| <= 2 || Contains(Lower(parts[2]), "да"))
    ensures r.format == Some(if |parts| > 3 then parts[3] else "Копия")
    ensures r.validity == (if |parts| > 4 then Some(parts[4]) else None)
    ensures r.sourceReference == Some(if |parts| > 5 then parts[5] else "Не указано")
  {
    Record(
      Some(DocId(position)),
      Some(parts[1]),
      Some(if |parts| > 2 then Contains(Lower(parts[2]), "да") else true),
      Some(if |parts| > 3 then parts[3] else "Копия"),
      if |parts| > 4 then Some(parts[4]) else None,
      Some(if |parts| > 5 then parts[5] else "Не указано"))
  }

  /** The document a (stripped) line adds when `count` documents are already listed. */
  function RowOf(line: string, count: nat): (r: Option<Record>)
    ensures r.Some? <==> IsTableLine(line) && IsNumber(RowNumber(Cells(line)))
    ensures r.Some? ==> r.value.id == Some(DocId(count + 1))
  {
    if IsTableLine(line) then
      var parts := Cells(line);
      TableLineHasTwoCells(line);
      if |parts| >= 2 && IsNumber(RowNumber(parts)) then Some(RowRecord(parts, count + 1)) else None
    else None
  }

  /** The documents a (stripped) line adds: its row, or nothing. */
  function RowEntries(line: string, count: nat): (r: seq<Entry>)
    ensures |r| <= 1
    ensures forall k :: 0 <= k < |r| ==> r[k].Dict? && r[k].rec.id == Some(DocId(count + 1))
  {
    var row := RowOf(line, count);
    if row.Some? then [Dict(row.value)] else []
  }

  /** The rows a raw line adds once stripped. */
  function LineRows(raw: string, count: nat): seq<Entry> {
    RowEntries(Strip(raw), count)
  }

  /** What one line does to the parse: it is stripped, then read for info and for a row. */
  function LineStep(st: Parsed, raw: string): Parsed {
    Parsed(InfoUpdate(st.info, Strip(raw)), st.documents + LineRows(raw, |st.documents|))
  }

  /** The line after which the loop breaks. */
  predicate IsEndLine(raw: string) {
    Contains(Strip(raw), EndMarker)
  }

  /**
   * `for line in lines:` with the body `step`, breaking right after the
   * first line that `stop` accepts.
   */
  function Scan<S>(st: S, lines: seq<string>, step: (S, string) -> S, stop: string -> bool): S
    decreases |lines|
  {
    if lines == [] then st
    else if stop(lines[0]) then step(st, lines[0])
    else Scan(step(st, lines[0]), lines[1..], step, stop)
  }

  function ParsedText(text: string): Parsed {
    Scan(EmptyParsed, SplitOn(text, '\n'), LineStep, IsEndLine)
  }

  /** One turn of the scan. */
  lemma ScanOnce<S>(st: S, lines: seq<string>, step: (S, string) -> S, stop: string -> bool)
    requires lines != []
    ensures Scan(st, lines, step, stop) ==
      if stop(lines[0]) then step(st, lines[0]) else Scan(step(st, lines[0]), lines[1..], step, stop)
  {
  }

  /** The step on a line, written as the loop performs it. */
  lemma LineStepParts(st: Parsed, raw: string, row: Option<Record>)
    requires row == RowOf(Strip(raw), |st.documents|)
    ensures LineStep(st, raw) ==
      Parsed(InfoUpdate(st.info, Strip(raw)), if row.Some? then st.documents + [Dict(row.value)] else st.documents)
  {
  }

  /** `_parse_text_output`. */
  method ParseTextOutput(text: string) returns (result: Parsed)
    ensures result == ParsedText(text)
  {
    var lines := SplitOn(text, '\n');
    var documents: seq<Entry> := [];
    var info := NoInfo;
    var i := 0;
    while i < |lines|
      invariant 0 <= i <= |lines|
      invariant Scan(Parsed(info, documents), lines[i..], LineStep, IsEndLine) == ParsedText(text)
    {
      ghost var before := Parsed(info, documents);
      ScanOnce(before, lines[i..], LineStep, IsEndLine);
      assert lines[i..][0] == lines[i] && lines[i..][1..] == lines[i + 1..];
      var line := Strip(lines[i]);
      info := InfoUpdate(info, line);
      var row := RowOf(line, |documents|);
      LineStepParts(before, lines[i], row);
      if row.Some? {
        documents := documents + [Dict(row.value)];
      }
      if Contains(line, EndMarker) {
        assert IsEndLine(lines[i]);
        return Parsed(info, documents);
      }
      i := i + 1;
    }
    result := Parsed(info, documents);
  }

  /** Nothing after the first line that stops the scan is read. */
  lemma {:induction false} ScanStops<S>(st: S, lines: seq<string>, more: seq<string>, step: (S, string) -> S, stop: string -> bool)
    requires exists i :: 0 <= i < |lines| && stop(lines[i])
    ensures Scan(st, lines + more, step, stop) == Scan(st, lines, step, stop)
    decreases |lines|
  {
    TailOfAppend(lines, more);
    if !stop(lines[0]) {
      var i :| 0 <= i < |lines| && stop(lines[i]);
      assert lines[1..][i - 1] == lines[i];
      ScanStops(step(st, lines[0]), lines[1..], more, step, stop);
    }
  }

  /** Text after the line holding the end marker does not change the parse. */
  lemma ParseStopsAtMarker(lines: seq<string>, more: seq<string>)
    requires exists i :: 0 <= i < |lines| && Contains(Strip(lines[i]), EndMarker)
    ensures Scan(EmptyParsed, lines + more, LineStep, IsEndLine) == Scan(EmptyParsed, lines, LineStep, IsEndLine)
  {
    var i :| 0 <= i < |lines| && Contains(Strip(lines[i]), EndMarker);
    assert IsEndLine(lines[i]);
    ScanStops(EmptyParsed, lines, more, LineStep, IsEndLine);
  }

  /** A step that appends the rows of its line (`rows`), and nothing else, to the documents. */
  ghost predicate AddsRows(step: (Parsed, string) -> Parsed, rows: (string, nat) -> seq<Entry>) {
    (forall raw, n :: |rows(raw, n)| <= 1)
    && forall st, raw :: step(st, raw).documents == st.documents + rows(raw, |st.documents|)
  }

  /**
   * A scan keeps the documents it started with and appends, for each
   * position k, the row of one of the lines, numbered `doc_{k+1}`.
   */
  lemma {:induction false} ScanRows(st: Parsed, lines: seq<string>, step: (Parsed, string) -> Parsed, stop: string -> bool,
                                   rows: (string, nat) -> seq<Entry>)
    requires AddsRows(step, rows)
    ensures var r := Scan(st, lines, step, stop);
      |st.documents| <= |r.documents| && r.documents[..|st.documents|] == st.documents
      && forall k :: |st.documents| <= k < |r.documents| ==>
        exists i :: 0 <= i < |lines| && rows(lines[i], k) == [r.documents[k]]
    decreases |lines|
  {
    if lines != [] {
      var next := step(st, lines[0]);
      var r := Scan(st, lines, step, stop);
      assert next.documents == st.documents + rows(lines[0], |st.documents|);
      if stop(lines[0]) {
        assert r == next;
        forall k | |st.documents| <= k < |r.documents|
          ensures exists i :: 0 <= i < |lines| && rows(lines[i], k) == [r.documents[k]]
        {
          assert k == |st.documents| && |rows(lines[0], k)| == 1;
          assert rows(lines[0], k) == [r.documents[k]];
        }
      } else {
        assert r == Scan(next, lines[1..], step, stop);
        ScanRows(next, lines[1..], step, stop, rows);
        forall k | |st.documents| <= k < |r.documents|
          ensures exists i :: 0 <= i < |lines| && rows(lines[i], k) == [r.documents[k]]
        {
          if k < |next.documents| {
            assert r.documents[k] == next.documents[k];
            assert k == |st.documents| && |rows(lines[0], k)| == 1;
            assert rows(lines[0], k) == [r.documents[k]];
          } else {
            var i :| 0 <= i < |lines[1..]| && rows(lines[1..][i], k) == [r.documents[k]];
            assert lines[1..][i] == lines[i + 1];
          }
        }
        assert r.documents[..|next.documents|] == next.documents;
        assert r.documents[..|st.documents|] == next.documents[..|st.documents|];
      }
    }
  }

  lemma LineStepAddsRows()
    ensures AddsRows(LineStep, LineRows)
  {
  }

  lemma RowEntryOf(line: string, k: nat, e: Entry)
    requires RowEntries(line, k) == [e]
    ensures e.Dict? && e.rec.id == Some(DocId(k + 1)) && RowOf(line, k) == Some(e.rec)
  {
  }

  /**
   * Every document of a text parse is the row of one of the lines, and the
   * documents are dicts numbered doc_1, doc_2, ... in order.
   */
  lemma ParsedRows(lines: seq<string>)
    ensures var docs := Scan(EmptyParsed, lines, LineStep, IsEndLine).documents;
      forall k :: 0 <= k < |docs| ==>
        docs[k].Dict? && docs[k].rec.id == Some(DocId(k + 1))
        && exists i :: 0 <= i < |lines| && RowOf(Strip(lines[i]), k) == Some(docs[k].rec)
  {
    var docs := Scan(EmptyParsed, lines, LineStep, IsEndLine).documents;
    LineStepAddsRows();
    ScanRows(EmptyParsed, lines, LineStep, IsEndLine, LineRows);
    forall k | 0 <= k < |docs|
      ensures docs[k].Dict? && docs[k].rec.id == Some(DocId(k + 1))
        && exists i :: 0 <= i < |lines| && RowOf(Strip(lines[i]), k) == Some(docs[k].rec)
    {
      var i :| 0 <= i < |lines| && LineRows(lines[i], k) == [docs[k]];
      RowEntryOf(Strip(lines[i]), k, docs[k]);
    }
  }

  // ---------------------------------------------------------------------
  // _parse_json_output
  // ---------------------------------------------------------------------

  /**
   * `re.search(r'```json\s*(.*?)\s*```', text, re.DOTALL).group(1)`: the
   * text between the first "```json" and the next "```", without the
   * whitespace around it; `None` when there is no such pair.
   */
  function FencedJson(text: string): Option<string> {
    var i := Find(text, "```json");
    if i < 0 then None
    else
      var q := FindFrom(text, "```", i + 7);
      if q < 0 then None else Some(Strip(text[i + 7..q]))
  }

  /** A fenced block at the start of the text is found, whatever follows it. */
  lemma FencedJsonAtStart(body: string, rest: string)
    requires forall k :: 0 <= k < |body| ==> body[k] != '`'
    ensures FencedJson("```json" + body + "```" + rest) == Some(Strip(body))
  {
    var text := "```json" + body + "```" + rest;
    assert text[..7] == "```json";
    assert OccursAt(text, "```json", 0);
    assert text[7 + |body|..7 + |body| + 3] == "```";
    assert OccursAt(text, "```", 7 + |body|);
    forall j | 7 <= j < 7 + |body|
      ensures !OccursAt(text, "```", j)
    {
      assert text[j] == body[j - 7] != '`';
      assert j + 3 <= |text| ==> text[j..j + 3][0] == text[j];
    }
    assert FindFrom(text, "```", 7) == 7 + |body|;
    assert text[7..7 + |body|] == body;
  }

  /** `text[:text.rfind('"}') + 2] + ']}'`, when `"}` occurs. */
  function TruncatedJson(text: string): Option<string> {
    var last := RFind(text, "\"}");
    if last == -1 then None else Some(text[..last + 2] + "]}")
  }

  /**
   * The fallback chain once the fenced block and the truncated text are
   * known: the first of the direct text, the fenced block and the truncated
   * text that decodes, else the empty analysis.
   */
  function Fallback(text: string, fenced: Option<string>, truncated: Option<string>, parse: string -> Option<Decoded>): (r: Decoded)
    ensures parse(text).Some? ==> r == parse(text).value
  {
    if parse(text).Some? then parse(text).value
    else if fenced.Some? && parse(fenced.value).Some? then parse(fenced.value).value
    else if truncated.Some? && parse(truncated.value).Some? then parse(truncated.value).value
    else Analysis(EmptyParsed)
  }

  /** `_parse_json_output`: the fallback chain, which never fails. */
  function ParseJsonOutput(text: string, parse: string -> Option<Decoded>): (r: Decoded)
    ensures parse(text).Some? ==> r == parse(text).value
  {
    Fallback(text, FencedJson(text), TruncatedJson(text), parse)
  }

  function OptionList(o: Option<string>): seq<string> {
    match o
    case Some(x) => [x]
    case None => []
  }

  /** The texts the chain hands to the decoder, in order. */
  function AttemptList(text: string, fenced: Option<string>, truncated: Option<string>): (cs: seq<string>)
    ensures 1 <= |cs| <= 3 && cs[0] == text
  {
    [text] + OptionList(fenced) + OptionList(truncated)
  }

  function Attempts(text: string): seq<string> {
    AttemptList(text, FencedJson(text), TruncatedJson(text))
  }

  /** The first attempt the decoder accepts. */
  function FirstDecoded(cs: seq<string>, parse: string -> Option<Decoded>): Option<Decoded> {
    if cs == [] then None
    else if parse(cs[0]).Some? then parse(cs[0])
    else FirstDecoded(cs[1..], parse)
  }

  lemma FirstDecodedCons(c: string, rest: seq<string>, parse: string -> Option<Decoded>)
    ensures FirstDecoded([c] + rest, parse) == if parse(c).Some? then parse(c) else FirstDecoded(rest, parse)
  {
    assert ([c] + rest)[1..] == rest;
  }

  lemma {:induction false} FallbackFirst(text: string, fenced: Option<string>, truncated: Option<string>, parse: string -> Option<Decoded>)
    ensures Fallback(text, fenced, truncated, parse) == FirstDecoded(AttemptList(text, fenced, truncated), parse).GetOr(Analysis(EmptyParsed))
  {
    var rest := OptionList(fenced) + OptionList(truncated);
    assert AttemptList(text, fenced, truncated) == [text] + rest;
    FirstDecodedCons(text, rest, parse);
    if fenced.Some? {
      FirstDecodedCons(fenced.value, OptionList(truncated), parse);
    }
    if truncated.Some? {
      FirstDecodedCons(truncated.value, [], parse);
    }
  }

  /**
   * The chain returns the decoding of the first attempt that decodes, and
   * the empty analysis when none does.
   */
  lemma ParseJsonOutputFirstAttempt(text: string, parse: string -> Option<Decoded>)
    ensures ParseJsonOutput(text, parse) == FirstDecoded(Attempts(text), parse).GetOr(Analysis(EmptyParsed))
  {
    FallbackFirst(text, FencedJson(text), TruncatedJson(text), parse);
  }

  // ---------------------------------------------------------------------
  // analyze_documentation (post-processing)
  // ---------------------------------------------------------------------

  /** What the language model call produced: its text, or the exception it raised. */
  datatype Generation = Generated(output: string) | TimedOut(message: string) | Crashed(message: string)

  /**
   * The returned dict: a completed analysis, or an error dict whose
   * `required_documents` is the empty list.
   */
  datatype Outcome =
    | Completed(info: Info, documents: seq<Entry>, totalCount: nat, analysisTime: real, modelSize: string)
    | Failed(error: string, message: string)
  {
    function RequiredDocuments(): seq<Entry> {
      if Completed? then documents else []
    }
  }

  /** The text path is taken for text output or a small model. */
  predicate UsesTextFormat(outputFormat: string, modelSize: string) {
    outputFormat == "text" || modelSize == "small"
  }

  /** The parse of the model's output along the chosen path. */
  function ParseOutput(output: string, outputFormat: string, modelSize: string, parse: string -> Option<Decoded>): (r: Decoded)
    ensures UsesTextFormat(outputFormat, modelSize) ==> r == Analysis(ParsedText(output))
    ensures !UsesTextFormat(outputFormat, modelSize) && parse(output).Some? ==> r == parse(output).value
  {
    if UsesTextFormat(outputFormat, modelSize) then Analysis(ParsedText(output)) else ParseJsonOutput(output, parse)
  }

  /** `docs[:50]`. */
  function Capped(docs: seq<Entry>): (r: seq<Entry>)
    ensures |r| == if |docs| > MaxDocuments then MaxDocuments else |docs|
    ensures r == docs[..|r|]
  {
    if |docs| > MaxDocuments then docs[..MaxDocuments] else docs
  }

  /** The part after the parse: deduplicate, cap at 50, count, stamp. */
  function Finish(parsed: Parsed, elapsed: real, modelSize: string, ratio: (string, string) -> real): (r: Outcome)
    ensures r.Completed? && r.totalCount == |r.documents| <= MaxDocuments && r.info == parsed.info
  {
    var capped := Capped(Deduplicated(parsed.documents, NormalizeName, ratio).unique);
    Completed(parsed.info, capped, |capped|, elapsed, modelSize)
  }

  /**
   * `analyze_documentation`: blank input short-cuts to an empty analysis;
   * otherwise the parse is deduplicated, cut to its first 50 documents and
   * counted. `elapsed` stands for the measured time.
   */
  function AnalyzeDocumentation(docText: string, outputFormat: string, modelSize: string, generation: Generation,
                                elapsed: real, parse: string -> Option<Decoded>, ratio: (string, string) -> real): (r: Outcome)
    ensures AllSpace(docText) ==> r == Completed(NoInfo, [], 0, 0.0, modelSize)
    ensures r.Completed? ==> r.totalCount == |r.documents| <= MaxDocuments
    ensures r.Failed? <==> (!AllSpace(docText)
      && (!generation.Generated? || ParseOutput(generation.output, outputFormat, modelSize, parse).Unusable?))
    ensures !AllSpace(docText) && generation.TimedOut? ==> r == Failed("timeout", generation.message)
    ensures !AllSpace(docText) && generation.Crashed? ==> r == Failed("analysis_failed", generation.message)
    ensures !AllSpace(docText) && generation.Generated? ==>
      var d := ParseOutput(generation.output, outputFormat, modelSize, parse);
      d.Unusable? ==> r == Failed("analysis_failed", d.message)
  {
    StripEmptyIffAllSpace(docText);
    if Strip(docText) == [] then Completed(NoInfo, [], 0, 0.0, modelSize)
    else
      match generation
      case TimedOut(message) => Failed("timeout", message)
      case Crashed(message) => Failed("analysis_failed", message)
      case Generated(output) =>
        match ParseOutput(output, outputFormat, modelSize, parse)
        case Analysis(parsed) => Finish(parsed, elapsed, modelSize, ratio)
        case Unusable(message) => Failed("analysis_failed", message)
  }

  /**
   * With a generated output the analysis reads, it lists the first 50
   * documents of the deduplicated parse, in order, with the parse's
   * procurement info.
   */
  lemma AnalyzedDocuments(docText: string, outputFormat: string, modelSize: string, output: string,
                          elapsed: real, parse: string -> Option<Decoded>, ratio: (string, string) -> real)
    requires !AllSpace(docText)
    ensures var r := AnalyzeDocumentation(docText, outputFormat, modelSize, Generated(output), elapsed, parse, ratio);
      var d := ParseOutput(output, outputFormat, modelSize, parse);
      d.Analysis? ==>
        var unique := Deduplicated(d.parsed.documents, NormalizeName, ratio).unique;
        r.Completed? && r.info == d.parsed.info && r.modelSize == modelSize
        && |r.documents| == (if |unique| > MaxDocuments then MaxDocuments else |unique|)
        && r.documents == unique[..|r.documents|]
  {
    StripEmptyIffAllSpace(docText);
  }

  /**
   * The text parser always yields a dict, so on the text path generated
   * output always gives a completed analysis.
   */
  lemma TextPathCompletes(docText: string, outputFormat: string, modelSize: string, output: string,
                          elapsed: real, parse: string -> Option<Decoded>, ratio: (string, string) -> real)
    requires UsesTextFormat(outputFormat, modelSize)
    ensures AnalyzeDocumentation(docText, outputFormat, modelSize, Generated(output), elapsed, parse, ratio).Completed?
  {
    assert ParseOutput(output, outputFormat, modelSize, parse).Analysis?;
  }

  /**
   * Any prefix of the deduplicated list holds only dicts with usable names,
   * pairwise distinct once normalised.
   */
  lemma {:induction false} DedupPrefixShape(es: seq<Entry>, n: nat, norm: string -> string, ratio: (string, string) -> real)
    requires n <= |Deduplicated(es, norm, ratio).unique|
    ensures var p := Deduplicated(es, norm, ratio).unique[..n];
      (forall e :: e in p ==> e.Dict? && e.rec.name.Some? && norm(e.rec.name.value) != [])
      && forall i, j :: 0 <= i < j < n ==> norm(p[i].rec.name.value) != norm(p[j].rec.name.value)
  {
    var st := Deduplicated(es, norm, ratio);
    var p := st.unique[..n];
    DedupKeepsNamedDicts(es, norm, ratio);
    DedupKeys(es, norm, ratio);
    DedupDistinct(es, norm, ratio);
    forall e | e in p
      ensures e.Dict? && e.rec.name.Some? && norm(e.rec.name.value) != []
    {
      var k :| 0 <= k < n && p[k] == e;
      assert e == st.unique[k] && st.unique[k] in st.unique;
    }
    forall i, j | 0 <= i < j < n
      ensures norm(p[i].rec.name.value) != norm(p[j].rec.name.value)
    {
      assert p[i] == st.unique[i] && p[j] == st.unique[j];
      assert Candidate(st.unique[i], norm) == Some(st.seen[i]);
      assert Candidate(st.unique[j], norm) == Some(st.seen[j]);
    }
  }

  /**
   * Whatever the outcome, `required_documents` lists at most 50 dicts with
   * usable names, no two with the same normalised name.
   */
  lemma AnalyzedDocumentsShape(docText: string, outputFormat: string, modelSize: string, output: string,
                               elapsed: real, parse: string -> Option<Decoded>, ratio: (string, string) -> real)
    ensures var docs := AnalyzeDocumentation(docText, outputFormat, modelSize, Generated(output), elapsed, parse, ratio).RequiredDocuments();
      |docs| <= MaxDocuments
      && (forall e :: e in docs ==> e.Dict? && e.rec.name.Some? && NormalizeName(e.rec.name.value) != [])
      && forall i, j :: 0 <= i < j < |docs| ==>
        NormalizeName(docs[i].rec.name.value) != NormalizeName(docs[j].rec.name.value)
  {
    var r := AnalyzeDocumentation(docText, outputFormat, modelSize, Generated(output), elapsed, parse, ratio);
    var d := ParseOutput(output, outputFormat, modelSize, parse);
    if !AllSpace(docText) && d.Analysis? {
      AnalyzedDocuments(docText, outputFormat, modelSize, output, elapsed, parse, ratio);
      DedupPrefixShape(d.parsed.documents, |r.documents|, NormalizeName, ratio);
    }
  }
}
