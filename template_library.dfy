/**
 * The catalogue of standard templates of src/template_library.py: a file
 * name is typed by keyword and split into keywords, the templates are
 * indexed under their ids, their keywords and their types, counted by type
 * and extension, and searched with a confidence score whose best ten
 * results are returned.
 *
 * Scanning the catalogue directory, hashing and copying files are I/O: the
 * scanned templates are a parameter, and so are the clock's ISO text and
 * `difflib.SequenceMatcher(None, a, b).ratio()`.
 */
module TemplateLibrary {
  import opened Wrappers
  import opened Text
  import opened Sequences
  import Tally
  import Ranking

  /** `DOCUMENT_KEYWORDS`, in declaration order. */
  const DocumentKeywords: seq<(string, seq<string>)> := [
    ("form", ["форма", "анкета", "заявка", "приложение"]),
    ("certificate", ["сертификат", "свидетельство", "аттестат"]),
    ("license", ["лицензия", "разрешение", "допуск"]),
    ("extract", ["выписка", "справка", "егрюл", "егрип"]),
    ("charter", ["устав", "учредительный"]),
    ("contract", ["договор", "контракт", "соглашение"]),
    ("declaration", ["декларация", "гарантийное письмо"]),
    ("financial", ["баланс", "отчетность", "бухгалтерский"]),
    ("sro", ["сро", "саморегулируемая"])
  ]

  const OtherType := "other"

  /** The type of the first row having a keyword that occurs in `name`, else "other". */
  function FirstTypeIn(name: string, table: seq<(string, seq<string>)>): string {
    if table == [] then OtherType
    else if exists kw :: kw in table[0].1 && Contains(name, kw) then table[0].0
    else FirstTypeIn(name, table[1..])
  }

  predicate RowMatches(name: string, row: (string, seq<string>)) {
    exists kw :: kw in row.1 && Contains(name, kw)
  }

  /** `_detect_document_type`. */
  function DetectDocumentType(fileName: string): string {
    FirstTypeIn(Lower(fileName), DocumentKeywords)
  }

  /** The row chosen is the first whose keywords occur in the name; "other" when none does. */
  lemma {:induction false} FirstTypeInMeaning(name: string, table: seq<(string, seq<string>)>)
    ensures var r := FirstTypeIn(name, table);
      || (exists i :: 0 <= i < |table| && RowMatches(name, table[i]) && r == table[i].0
            && forall j :: 0 <= j < i ==> !RowMatches(name, table[j]))
      || (r == OtherType && forall j :: 0 <= j < |table| ==> !RowMatches(name, table[j]))
  {
    if table != [] && !RowMatches(name, table[0]) {
      FirstTypeInMeaning(name, table[1..]);
      var r := FirstTypeIn(name, table[1..]);
      if exists i :: 0 <= i < |table[1..]| && RowMatches(name, table[1..][i]) && r == table[1..][i].0
                     && forall j :: 0 <= j < i ==> !RowMatches(name, table[1..][j]) {
        var i :| 0 <= i < |table[1..]| && RowMatches(name, table[1..][i]) && r == table[1..][i].0
                 && forall j :: 0 <= j < i ==> !RowMatches(name, table[1..][j]);
        assert RowMatches(name, table[i + 1]) && r == table[i + 1].0;
        forall j | 0 <= j < i + 1 ensures !RowMatches(name, table[j]) {
          if j > 0 { assert table[j] == table[1..][j - 1]; }
        }
      } else {
        forall j | 0 <= j < |table| ensures !RowMatches(name, table[j]) {
          if j > 0 { assert table[j] == table[1..][j - 1]; }
        }
      }
    }
  }

  /** A separator of `re.split(r'[\s_\-\.]+', ...)`. */
  predicate IsSeparator(c: char) {
    IsSpace(c) || c == '_' || c == '-' || c == '.'
  }

  /** The path component ".", which names the current directory. */
  predicate IsCurrentDir(s: string) {
    |s| == 1 && s[0] == '.'
  }

  /**
   * `Path(path).name` for a POSIX path: the last component once the path is
   * split at '/' and its empty and "." components are dropped, or "" when
   * none is left.
   */
  function BaseName(path: string): (r: string)
    ensures forall k :: 0 <= k < |r| ==> r[k] != '/'
    ensures !IsCurrentDir(r) && |r| <= |path|
    decreases |path|
  {
    var i := LastIndexOf(path, '/');
    if i < 0 then (if IsCurrentDir(path) then [] else path)
    else if path[i + 1..] != [] && !IsCurrentDir(path[i + 1..]) then path[i + 1..]
    else BaseName(path[..i])
  }

  /**
   * `Path(path).stem`: the name without its final suffix, a suffix being
   * a dot that is neither the first nor the last character of the name.
   */
  function Stem(path: string): (r: string)
    ensures forall k :: 0 <= k < |r| ==> r[k] != '/'
    ensures var name := BaseName(path);
      || r == name
      || (0 < |r| < |name| - 1 && r == name[..|r|] && name[|r|] == '.'
          && forall k :: |r| < k < |name| ==> name[k] != '.')
  {
    var name := BaseName(path);
    var i := LastIndexOf(name, '.');
    if 0 < i < |name| - 1 then name[..i] else name
  }

  /** A name that holds no '/' and is not "." is its own `Path(...).name`. */
  lemma BaseNamePlain(name: string)
    requires forall k :: 0 <= k < |name| ==> name[k] != '/'
    requires !IsCurrentDir(name)
    ensures BaseName(name) == name
  {
  }

  /** Only the last non-empty component of a path counts: `Path(dir + "/" + name).name == name`. */
  lemma BaseNameLast(dir: string, name: string)
    requires forall k :: 0 <= k < |name| ==> name[k] != '/'
    requires name != "" && !IsCurrentDir(name)
    ensures BaseName(dir + "/" + name) == name
  {
    var path := dir + "/" + name;
    forall k | |dir| < k < |path| ensures path[k] != '/' {
      assert path[k] == name[k - |dir| - 1];
    }
    assert path[|dir|] == '/';
    assert LastIndexOf(path, '/') == |dir|;
    assert path[|dir| + 1..] == name;
  }

  /** A trailing '/' changes nothing: `Path(path + "/").name == Path(path).name`. */
  lemma BaseNameTrailingSlash(path: string)
    ensures BaseName(path + "/") == BaseName(path)
  {
    var p := path + "/";
    assert LastIndexOf(p, '/') == |path|;
    assert p[|path| + 1..] == [];
    assert p[..|path|] == path;
  }

  /** The leading run of characters that are not separators. */
  function TakeRun(s: string): (w: string)
    ensures |w| <= |s| && w == s[..|w|]
    ensures forall k :: 0 <= k < |w| ==> !IsSeparator(w[k])
    ensures |w| == |s| || IsSeparator(s[|w|])
  {
    if |s| > 0 && !IsSeparator(s[0]) then [s[0]] + TakeRun(s[1..]) else []
  }

  /**
   * The pieces `re.split` produces between runs of separators, without the
   * empty pieces a leading or trailing run adds (the length filter drops
   * those in any case).
   */
  function Runs(s: string): (ws: seq<string>)
    ensures forall k :: 0 <= k < |ws| ==> ws[k] != [] && forall m :: 0 <= m < |ws[k]| ==> !IsSeparator(ws[k][m])
    decreases |s|
  {
    if s == [] then []
    else if IsSeparator(s[0]) then Runs(s[1..])
    else
      var w := TakeRun(s);
      [w] + Runs(s[|w|..])
  }

  /** `_extract_keywords`. */
  function ExtractKeywords(fileName: string): seq<string> {
    Filter(Runs(Lower(Stem(fileName))), (w: string) => |w| > 2)
  }

  /** Only the last component of a path is split into keywords. */
  lemma KeywordsOfLastComponent(dir: string, name: string)
    requires forall k :: 0 <= k < |name| ==> name[k] != '/'
    requires name != "" && !IsCurrentDir(name)
    ensures ExtractKeywords(dir + "/" + name) == ExtractKeywords(name)
  {
    BaseNameLast(dir, name);
    BaseNamePlain(name);
  }

  /** Every piece of `Runs(s)` occurs in `s`. */
  lemma {:induction false} RunsOccur(s: string)
    ensures forall w :: w in Runs(s) ==> Contains(s, w)
    decreases |s|
  {
    if s != [] {
      if IsSeparator(s[0]) {
        RunsOccur(s[1..]);
        forall w | w in Runs(s[1..]) ensures Contains(s, w) {
          ContainsInSuffix(s, 1, w);
        }
      } else {
        var w := TakeRun(s);
        RunsOccur(s[|w|..]);
        assert OccursAt(s, w, 0);
        forall v | v in Runs(s[|w|..]) ensures Contains(s, v) {
          ContainsInSuffix(s, |w|, v);
        }
      }
    }
  }

  /** Lower-case input gives lower-case pieces. */
  lemma {:induction false} RunsLowerCase(s: string)
    requires IsLowerCase(s)
    ensures forall w :: w in Runs(s) ==> IsLowerCase(w)
    decreases |s|
  {
    if s != [] {
      if IsSeparator(s[0]) {
        LowerCaseSlice(s, 1, |s|);
        RunsLowerCase(s[1..]);
      } else {
        var w := TakeRun(s);
        LowerCaseSlice(s, 0, |w|);
        LowerCaseSlice(s, |w|, |s|);
        RunsLowerCase(s[|w|..]);
      }
    }
  }

  /**
   * Each keyword is longer than two characters, holds no separator, is
   * lower-case and occurs in the lower-cased name without its extension.
   */
  lemma KeywordsMeaning(fileName: string)
    ensures forall w :: w in ExtractKeywords(fileName) ==>
      && |w| > 2
      && (forall m :: 0 <= m < |w| ==> !IsSeparator(w[m]))
      && IsLowerCase(w)
      && Contains(Lower(Stem(fileName)), w)
  {
    var s := Lower(Stem(fileName));
    LowerIsLowerCase(Stem(fileName));
    RunsOccur(s);
    RunsLowerCase(s);
    FilterMeaning(Runs(s), (w: string) => |w| > 2);
  }

  /** A template's metadata dict: the keys the library reads, and the others as they are. */
  datatype Template = Template(
    templateId: string,
    fileName: Option<string>,
    extension: Option<string>,
    documentType: Option<string>,
    keywords: Option<seq<string>>,
    fileSize: Option<nat>,
    other: map<string, string>)

  /** A value of the index: a template, or the list of template ids filed under a keyword or type key. */
  datatype Entry = TemplateEntry(template: Template) | IdList(ids: seq<string>)

  /** The index dict: its keys in insertion order and what each maps to. */
  datatype Index = Index(keys: seq<string>, entries: map<string, Entry>)

  /** Every listed key is stored, and no key maps to an empty id list: lists are created holding one id. */
  ghost predicate WellFormed(ix: Index) {
    && (forall k :: k in ix.keys ==> k in ix.entries)
    && (forall k :: k in ix.entries && ix.entries[k].IdList? ==> ix.entries[k].ids != [])
  }

  const EmptyIndex := Index([], map[])

  /** `f"kw:{keyword}"`. */
  function KwKey(keyword: string): (k: string)
    ensures IsIndexKey(k)
  {
    assert ("kw:" + keyword)[..3] == "kw:";
    "kw:" + keyword
  }

  /** `f"type:{doc_type}"`. */
  function TypeKey(docType: string): (k: string)
    ensures IsIndexKey(k)
  {
    assert ("type:" + docType)[..5] == "type:";
    "type:" + docType
  }

  /** A key of the shape the index files id lists under. */
  predicate IsIndexKey(k: string) {
    (|k| >= 3 && k[..3] == "kw:") || (|k| >= 5 && k[..5] == "type:")
  }

  /** `index[k] = e`: a new key goes last, an existing one keeps its place. */
  function Put(ix: Index, k: string, e: Entry): (r: Index)
    ensures r.entries == ix.entries[k := e]
    ensures r.keys == if k in ix.entries then ix.keys else ix.keys + [k]
  {
    if k in ix.entries then ix.(entries := ix.entries[k := e]) else Index(ix.keys + [k], ix.entries[k := e])
  }

  /** The statements that append `id` to the list under `key`, creating it, unless a template sits there. */
  function AddId(ix: Index, key: string, id: string): Index
  {
    if key !in ix.entries then Put(ix, key, IdList([id]))
    else if ix.entries[key].IdList? then Put(ix, key, IdList(ix.entries[key].ids + [id]))
    else ix
  }

  /** `AddId` for each key in turn. */
  function AddIds(ix: Index, keys: seq<string>, id: string): Index
  {
    if keys == [] then ix else AddId(AddIds(ix, keys[..|keys| - 1], id), keys[|keys| - 1], id)
  }

  /** The keys a template's id is filed under: its keywords, then its type. */
  function IndexKeys(t: Template): (ks: seq<string>)
    ensures forall k :: k in ks ==> IsIndexKey(k)
  {
    seq(|t.keywords.GetOr([])|, i requires 0 <= i < |t.keywords.GetOr([])| => KwKey(t.keywords.GetOr([])[i]))
    + [TypeKey(t.documentType.GetOr(OtherType))]
  }

  /** One iteration of the loop of `index_documents`. */
  function AddTemplate(ix: Index, t: Template): Index
  {
    AddIds(Put(ix, t.templateId, TemplateEntry(t)), IndexKeys(t), t.templateId)
  }

  /** The index `index_documents(ts)` builds. */
  function IndexOf(ts: seq<Template>): Index
  {
    if ts == [] then EmptyIndex else AddTemplate(IndexOf(ts[..|ts| - 1]), ts[|ts| - 1])
  }

  /** The template stored under `k`, if any. */
  function TemplateAt(ix: Index, k: string): Option<Template> {
    if k in ix.entries && ix.entries[k].TemplateEntry? then Some(ix.entries[k].template) else None
  }

  /** The id list stored under `k`, empty if there is none. */
  function IdsAt(ix: Index, k: string): seq<string> {
    if k in ix.entries && ix.entries[k].IdList? then ix.entries[k].ids else []
  }

  /** The templates stored under the keys `keys`, in that order. */
  function TemplatesAt(ix: Index, keys: seq<string>): seq<Template> {
    if keys == [] then []
    else
      var last := match TemplateAt(ix, keys[|keys| - 1]) { case Some(t) => [t] case None => [] };
      TemplatesAt(ix, keys[..|keys| - 1]) + last
  }

  /** `get_all_templates` on an index: the values that are templates, in key order. */
  function AllTemplates(ix: Index): seq<Template> {
    TemplatesAt(ix, ix.keys)
  }

  /** The last template of `ts` with id `k`: the one the index keeps. */
  function TemplateFor(ts: seq<Template>, k: string): Option<Template> {
    if ts == [] then None
    else if ts[|ts| - 1].templateId == k then Some(ts[|ts| - 1])
    else TemplateFor(ts[..|ts| - 1], k)
  }

  /** `[id] * n`. */
  function Repeat(id: string, n: nat): (r: seq<string>)
    ensures |r| == n && forall i :: 0 <= i < n ==> r[i] == id
  {
    seq(n, _ => id)
  }

  lemma RepeatSnoc(id: string, n: nat)
    ensures Repeat(id, n + 1) == Repeat(id, n) + [id]
  {
  }

  /** The ids filed under `k` by indexing `ts`: each template's id once per occurrence of `k` among its keys. */
  function IdsFor(ts: seq<Template>, k: string): seq<string> {
    if ts == [] then []
    else IdsFor(ts[..|ts| - 1], k) + Repeat(ts[|ts| - 1].templateId, Tally.Count(IndexKeys(ts[|ts| - 1]), k))
  }

  /** Each template's id differs from the ids before it and does not look like a keyword or type key. */
  predicate NoClash(ts: seq<Template>) {
    ts == [] ||
      var last := ts[|ts| - 1].templateId;
      && NoClash(ts[..|ts| - 1])
      && !IsIndexKey(last)
      && forall i :: 0 <= i < |ts| - 1 ==> ts[i].templateId != last
  }

  /** `NoClash` holds exactly for distinct ids none of which looks like an index key. */
  lemma {:induction false} NoClashMeaning(ts: seq<Template>)
    ensures NoClash(ts) <==>
      && (forall i, j :: 0 <= i < j < |ts| ==> ts[i].templateId != ts[j].templateId)
      && (forall i :: 0 <= i < |ts| ==> !IsIndexKey(ts[i].templateId))
  {
    if ts != [] {
      var init := ts[..|ts| - 1];
      NoClashMeaning(init);
      assert forall i :: 0 <= i < |init| ==> init[i] == ts[i];
    }
  }

  /** Appending ids changes no template, and existing keys keep their places. */
  lemma {:induction false} AddIdsTemplates(ix: Index, keys: seq<string>, id: string)
    ensures var r := AddIds(ix, keys, id);
      && (forall k :: TemplateAt(r, k) == TemplateAt(ix, k))
      && |r.keys| >= |ix.keys| && r.keys[..|ix.keys|] == ix.keys
      && (forall i :: |ix.keys| <= i < |r.keys| ==> TemplateAt(r, r.keys[i]).None?)
      && (WellFormed(ix) ==> WellFormed(r))
  {
    if keys != [] {
      AddIdsTemplates(ix, keys[..|keys| - 1], id);
    }
  }

  /** Appending an id under several keys, one key at a time: each key's list grows by one id per occurrence. */
  lemma {:induction false} AddIdsLists(ix: Index, keys: seq<string>, id: string, k: string)
    requires forall key :: key in keys ==> TemplateAt(ix, key).None?
    ensures IdsAt(AddIds(ix, keys, id), k) == IdsAt(ix, k) + Repeat(id, Tally.Count(keys, k))
  {
    if keys != [] {
      var init, last := keys[..|keys| - 1], keys[|keys| - 1];
      AddIdsLists(ix, init, id, k);
      AddIdsTemplates(ix, init, id);
      var mid := AddIds(ix, init, id);
      assert TemplateAt(mid, last).None?;
      if k == last {
        assert IdsAt(AddIds(ix, keys, id), k) == IdsAt(mid, k) + [id];
        RepeatSnoc(id, Tally.Count(init, k));
        AppendAssoc(IdsAt(ix, k), Repeat(id, Tally.Count(init, k)), [id]);
      } else {
        assert IdsAt(AddIds(ix, keys, id), k) == IdsAt(mid, k);
      }
    } else {
      assert IdsAt(ix, k) + [] == IdsAt(ix, k);
    }
  }

  /** Keys appended after `ix.keys` that hold no template add nothing to the templates listed. */
  lemma {:induction false} TemplatesAtExtended(ix: Index, r: Index, keys: seq<string>, extra: seq<string>)
    requires forall k :: k in keys ==> TemplateAt(r, k) == TemplateAt(ix, k)
    requires forall k :: k in extra ==> TemplateAt(r, k).None?
    ensures TemplatesAt(r, keys + extra) == TemplatesAt(ix, keys)
    decreases |keys| + |extra|
  {
    if extra != [] {
      TemplatesAtExtended(ix, r, keys, extra[..|extra| - 1]);
      assert (keys + extra)[..|keys + extra| - 1] == keys + extra[..|extra| - 1];
    } else {
      assert keys + extra == keys;
      if keys != [] {
        TemplatesAtExtended(ix, r, keys[..|keys| - 1], []);
        assert keys[..|keys| - 1] + [] == keys[..|keys| - 1];
      }
    }
  }

  /** Indexing stores under each key the last template carrying that id. */
  lemma {:induction false} IndexOfTemplates(ts: seq<Template>)
    ensures forall k :: TemplateAt(IndexOf(ts), k) == TemplateFor(ts, k)
  {
    if ts != [] {
      var init, t := ts[..|ts| - 1], ts[|ts| - 1];
      IndexOfTemplates(init);
      var put := Put(IndexOf(init), t.templateId, TemplateEntry(t));
      AddIdsTemplates(put, IndexKeys(t), t.templateId);
    }
  }

  /** The template about to be added has an id the index does not hold yet. */
  lemma FreshId(ts: seq<Template>)
    requires NoClash(ts) && ts != []
    ensures ts[|ts| - 1].templateId !in IndexOf(ts[..|ts| - 1]).entries
  {
    var init, id := ts[..|ts| - 1], ts[|ts| - 1].templateId;
    assert NoClash(init);
    IndexOfTemplates(init);
    TemplateForAbsent(init, id);
    IndexOfLists(init, id);
    IdsForIndexKeys(init, id);
    IndexOfWellFormed(init);
  }

  lemma {:induction false} IndexOfWellFormed(ts: seq<Template>)
    ensures WellFormed(IndexOf(ts))
  {
    if ts != [] {
      var init, t := ts[..|ts| - 1], ts[|ts| - 1];
      IndexOfWellFormed(init);
      AddIdsTemplates(Put(IndexOf(init), t.templateId, TemplateEntry(t)), IndexKeys(t), t.templateId);
    }
  }

  /** Adding a template whose id is no index key, over keys holding no template, appends its id to each list. */
  lemma AddTemplateLists(ix: Index, t: Template, k: string)
    requires !IsIndexKey(t.templateId) && IdsAt(ix, t.templateId) == []
    requires forall key :: key in IndexKeys(t) ==> TemplateAt(ix, key).None?
    ensures IdsAt(AddTemplate(ix, t), k) == IdsAt(ix, k) + Repeat(t.templateId, Tally.Count(IndexKeys(t), k))
  {
    var put := Put(ix, t.templateId, TemplateEntry(t));
    forall key | key in IndexKeys(t) ensures TemplateAt(put, key).None? {
      assert key != t.templateId;
    }
    AddIdsLists(put, IndexKeys(t), t.templateId, k);
    if k == t.templateId {
      assert k !in IndexKeys(t);
      assert Tally.Count(IndexKeys(t), k) == 0;
    }
  }

  /** Indexing files under each key the ids of the templates carrying it, in template order. */
  lemma {:induction false} IndexOfLists(ts: seq<Template>, k: string)
    requires NoClash(ts)
    ensures IdsAt(IndexOf(ts), k) == IdsFor(ts, k)
  {
    if ts != [] {
      var init, t := ts[..|ts| - 1], ts[|ts| - 1];
      NoClashInit(ts);
      IndexOfLists(init, k);
      IndexOfLists(init, t.templateId);
      IdsForIndexKeys(init, t.templateId);
      IndexOfTemplates(init);
      forall key | key in IndexKeys(t) ensures TemplateAt(IndexOf(init), key).None? {
        TemplateForIds(init, key);
      }
      AddTemplateLists(IndexOf(init), t, k);
    }
  }

  /** Dropping the last template keeps the ids distinct and clear of index keys. */
  lemma NoClashInit(ts: seq<Template>)
    requires NoClash(ts) && ts != []
    ensures NoClash(ts[..|ts| - 1]) && !IsIndexKey(ts[|ts| - 1].templateId)
  {
  }

  /** The keys appending ids adds hold no template. */
  lemma AddedKeysHoldNoTemplate(ix: Index, keys: seq<string>, id: string)
    ensures var r := AddIds(ix, keys, id);
      |ix.keys| <= |r.keys| && forall k :: k in r.keys[|ix.keys|..] ==> TemplateAt(r, k).None?
  {
    AddIdsTemplates(ix, keys, id);
    var r := AddIds(ix, keys, id);
    var extra := r.keys[|ix.keys|..];
    forall k | k in extra ensures TemplateAt(r, k).None? {
      var i :| 0 <= i < |extra| && extra[i] == k;
      assert r.keys[|ix.keys| + i] == k;
    }
  }

  /** Adding a template under a new id lists it after the templates already there. */
  lemma AddTemplateAppends(ix: Index, t: Template)
    requires WellFormed(ix) && t.templateId !in ix.entries
    ensures AllTemplates(AddTemplate(ix, t)) == AllTemplates(ix) + [t]
  {
    var put := Put(ix, t.templateId, TemplateEntry(t));
    AddIdsTemplates(put, IndexKeys(t), t.templateId);
    var r := AddIds(put, IndexKeys(t), t.templateId);
    var extra := r.keys[|put.keys|..];
    SplitAt(r.keys, |put.keys|);
    AddedKeysHoldNoTemplate(put, IndexKeys(t), t.templateId);
    TemplatesAtExtended(put, r, ix.keys + [t.templateId], extra);
    TemplatesAtExtended(ix, put, ix.keys, []);
    assert ix.keys + [] == ix.keys;
  }

  /** Reading the templates back from the index gives the list indexed. */
  lemma {:induction false} IndexOfAll(ts: seq<Template>)
    requires NoClash(ts)
    ensures AllTemplates(IndexOf(ts)) == ts
  {
    if ts != [] {
      var init, t := ts[..|ts| - 1], ts[|ts| - 1];
      NoClashInit(ts);
      IndexOfAll(init);
      IndexOfAppends(ts);
      InitAndLast(ts);
    }
  }

  /** Indexing one more template with a fresh id lists it last. */
  lemma IndexOfAppends(ts: seq<Template>)
    requires NoClash(ts) && ts != []
    ensures AllTemplates(IndexOf(ts)) == AllTemplates(IndexOf(ts[..|ts| - 1])) + [ts[|ts| - 1]]
  {
    var init := ts[..|ts| - 1];
    FreshId(ts);
    IndexOfWellFormed(init);
    AddTemplateAppends(IndexOf(init), ts[|ts| - 1]);
  }

  /** A stored template sits under its own id, which is not a keyword or type key. */
  lemma {:induction false} TemplateForIds(ts: seq<Template>, k: string)
    requires NoClash(ts)
    ensures TemplateFor(ts, k).Some? ==> TemplateFor(ts, k).value.templateId == k && !IsIndexKey(k)
    ensures |ts| > 0 ==> TemplateFor(ts[..|ts| - 1], ts[|ts| - 1].templateId).None?
  {
    if ts != [] {
      var init := ts[..|ts| - 1];
      assert NoClash(init);
      TemplateForIds(init, k);
      TemplateForAbsent(init, ts[|ts| - 1].templateId);
    }
  }

  /** An id that no template of `ts` carries finds nothing. */
  lemma {:induction false} TemplateForAbsent(ts: seq<Template>, k: string)
    requires forall i :: 0 <= i < |ts| ==> ts[i].templateId != k
    ensures TemplateFor(ts, k).None?
  {
    if ts != [] {
      TemplateForAbsent(ts[..|ts| - 1], k);
    }
  }

  /** Only keyword and type keys receive ids. */
  lemma {:induction false} IdsForIndexKeys(ts: seq<Template>, k: string)
    requires !IsIndexKey(k)
    ensures IdsFor(ts, k) == []
  {
    if ts != [] {
      IdsForIndexKeys(ts[..|ts| - 1], k);
      assert k !in IndexKeys(ts[|ts| - 1]);
    }
  }

  /**
   * `index_documents` over templates with distinct ids that do not look
   * like index keys: every template is stored under its id, each key lists
   * the ids of the templates carrying it in template order, and the
   * templates read back from the index are the list indexed.
   */
  lemma IndexOfMeaning(ts: seq<Template>)
    requires NoClash(ts)
    ensures forall i :: 0 <= i < |ts| ==> TemplateAt(IndexOf(ts), ts[i].templateId) == Some(ts[i])
    ensures forall k :: IdsAt(IndexOf(ts), k) == IdsFor(ts, k)
    ensures AllTemplates(IndexOf(ts)) == ts
  {
    IndexOfTemplates(ts);
    forall k ensures IdsAt(IndexOf(ts), k) == IdsFor(ts, k) {
      IndexOfLists(ts, k);
    }
    IndexOfAll(ts);
    forall i | 0 <= i < |ts| ensures TemplateFor(ts, ts[i].templateId) == Some(ts[i]) {
      TemplateForLast(ts, i);
    }
  }

  lemma {:induction false} TemplateForLast(ts: seq<Template>, i: nat)
    requires NoClash(ts) && i < |ts|
    ensures TemplateFor(ts, ts[i].templateId) == Some(ts[i])
  {
    if i < |ts| - 1 {
      assert NoClash(ts[..|ts| - 1]);
      TemplateForLast(ts[..|ts| - 1], i);
    }
  }

  /** A type key lists, in order, the ids of the templates of that type. */
  lemma {:induction false} TypeKeyLists(ts: seq<Template>, docType: string)
    ensures IdsFor(ts, TypeKey(docType))
         == seq(|Filter(ts, (t: Template) => t.documentType.GetOr(OtherType) == docType)|,
                i requires 0 <= i < |Filter(ts, (t: Template) => t.documentType.GetOr(OtherType) == docType)|
                  => Filter(ts, (t: Template) => t.documentType.GetOr(OtherType) == docType)[i].templateId)
  {
    if ts != [] {
      TypeKeyLists(ts[..|ts| - 1], docType);
      var t := ts[|ts| - 1];
      var kws := t.keywords.GetOr([]);
      var ks := IndexKeys(t);
      assert ks[..|ks| - 1] == seq(|kws|, i requires 0 <= i < |kws| => KwKey(kws[i]));
      assert TypeKey(docType) !in ks[..|ks| - 1] by {
        forall i | 0 <= i < |kws| ensures KwKey(kws[i]) != TypeKey(docType) {
          assert KwKey(kws[i])[0] == 'k' && TypeKey(docType)[0] == 't';
        }
      }
      assert TypeKey(t.documentType.GetOr(OtherType)) == TypeKey(docType) <==> t.documentType.GetOr(OtherType) == docType by {
        if TypeKey(t.documentType.GetOr(OtherType)) == TypeKey(docType) {
          assert TypeKey(t.documentType.GetOr(OtherType))[5..] == t.documentType.GetOr(OtherType);
          assert TypeKey(docType)[5..] == docType;
        }
      }
      assert Tally.Count(ks, TypeKey(docType)) == Tally.Count(ks[..|ks| - 1], TypeKey(docType))
        + (if ks[|ks| - 1] == TypeKey(docType) then 1 else 0);
    }
  }

  /** A search result: the template with its confidence added. */
  datatype Scored = Scored(template: Template, confidence: real)

  function Max(a: real, b: real): real { if a >= b then a else b }
  function Min(a: real, b: real): real { if a <= b then a else b }

  /**
   * The score of one template in the loop of `search_template`, before
   * rounding to two decimals, from the lower-cased name and the name's
   * keywords computed before the loop.
   */
  function Score(nameLower: string, nameKeywords: seq<string>, documentType: Option<string>, t: Template,
                 ratio: (string, string) -> real): (c: real)
    ensures 0.0 <= c <= 1.0
  {
    var byName := Max(0.0, ratio(nameLower, Lower(t.fileName.GetOr(""))) * 0.8);
    var templateKeywords := set k | k in t.keywords.GetOr([]);
    var byKeywords :=
      if nameKeywords != [] && templateKeywords != {} then
        var matched := |(set k | k in nameKeywords) * templateKeywords|;
        Max(byName, matched as real / (if |nameKeywords| >= 1 then |nameKeywords| else 1) as real * 0.7)
      else byName;
    var withType :=
      if documentType.Some? && documentType.value != "" && t.documentType == documentType then byKeywords + 0.2
      else byKeywords;
    Min(withType, 1.0)
  }

  /** The confidence `search_template` gives a template for a document name, before rounding. */
  function Confidence(documentName: string, documentType: Option<string>, t: Template, ratio: (string, string) -> real): (c: real)
    ensures 0.0 <= c <= 1.0
  {
    Score(Lower(documentName), ExtractKeywords(documentName), documentType, t, ratio)
  }

  /** The results the loop collects from `ts`, given the name as the loop sees it. */
  function Collected(ts: seq<Template>, nameLower: string, nameKeywords: seq<string>, documentType: Option<string>,
                     minConfidence: real, ratio: (string, string) -> real): (r: seq<Scored>)
    ensures forall i :: 0 <= i < |r| ==> minConfidence <= r[i].confidence <= 1.0 && r[i].template in ts
  {
    if ts == [] then []
    else
      var t := ts[|ts| - 1];
      var c := Score(nameLower, nameKeywords, documentType, t, ratio);
      Collected(ts[..|ts| - 1], nameLower, nameKeywords, documentType, minConfidence, ratio)
        + (if c >= minConfidence then [Scored(t, c)] else [])
  }

  /** The results the loop of `search_template` collects: the templates reaching `minConfidence`, in index order. */
  function Candidates(ts: seq<Template>, documentName: string, documentType: Option<string>, minConfidence: real,
                      ratio: (string, string) -> real): (r: seq<Scored>)
    ensures forall i :: 0 <= i < |r| ==> minConfidence <= r[i].confidence <= 1.0 && r[i].template in ts
  {
    Collected(ts, Lower(documentName), ExtractKeywords(documentName), documentType, minConfidence, ratio)
  }

  /** A result's place in the ranking: its confidence. */
  function ByConfidence(x: Scored): real {
    x.confidence
  }

  /**
   * `results.sort(key=lambda x: x["confidence"], reverse=True)` and
   * `results[:10]`; the sort is stable, so ties keep index order.
   */
  function TopTen(candidates: seq<Scored>): seq<Scored> {
    Ranking.Top(candidates, 10, ByConfidence)
  }

  /** Every result of a search reaches the threshold and is at most 1. */
  lemma TopTenBounds(ts: seq<Template>, documentName: string, documentType: Option<string>, minConfidence: real,
                     ratio: (string, string) -> real)
    ensures forall x :: x in TopTen(Candidates(ts, documentName, documentType, minConfidence, ratio)) ==>
      minConfidence <= x.confidence <= 1.0 && x.template in ts
  {
    var cs := Candidates(ts, documentName, documentType, minConfidence, ratio);
    Ranking.TopSplit(cs, 10, ByConfidence);
    forall x | x in TopTen(cs) ensures minConfidence <= x.confidence <= 1.0 && x.template in ts {
      assert x in multiset(TopTen(cs));
      assert x in multiset(cs);
    }
  }

  /** What `get_statistics` returns, less the rounded size in megabytes and the catalogue path. */
  datatype Statistics = Statistics(
    totalTemplates: nat,
    byType: seq<(string, nat)>,
    byExtension: seq<(string, nat)>,
    totalSizeBytes: nat,
    indexedAt: Option<string>)

  function TypeOf(t: Template): string { t.documentType.GetOr(OtherType) }
  function ExtensionOf(t: Template): string { t.extension.GetOr("unknown") }

  /** The type of each template, in order. */
  function TypesOf(ts: seq<Template>): (r: seq<string>)
    ensures |r| == |ts|
  {
    if ts == [] then [] else TypesOf(ts[..|ts| - 1]) + [TypeOf(ts[|ts| - 1])]
  }

  /** The extension of each template, in order. */
  function ExtensionsOf(ts: seq<Template>): (r: seq<string>)
    ensures |r| == |ts|
  {
    if ts == [] then [] else ExtensionsOf(ts[..|ts| - 1]) + [ExtensionOf(ts[|ts| - 1])]
  }

  /** The sum of `template.get("file_size", 0)`. */
  function TotalSize(ts: seq<Template>): nat {
    if ts == [] then 0 else TotalSize(ts[..|ts| - 1]) + ts[|ts| - 1].fileSize.GetOr(0)
  }

  /** The counts by type and by extension each add up to the number of templates, one count per occurrence. */
  lemma StatisticsCounts(ts: seq<Template>)
    ensures Tally.Total(Tally.Tally(TypesOf(ts))) == |ts| && Tally.Total(Tally.Tally(ExtensionsOf(ts))) == |ts|
    ensures forall k :: Tally.Get(Tally.Tally(TypesOf(ts)), k) == Tally.Count(TypesOf(ts), k)
    ensures forall k :: Tally.Get(Tally.Tally(ExtensionsOf(ts)), k) == Tally.Count(ExtensionsOf(ts), k)
    ensures Tally.DistinctKeys(Tally.Tally(TypesOf(ts))) && Tally.DistinctKeys(Tally.Tally(ExtensionsOf(ts)))
  {
    Tally.TallyTotal(TypesOf(ts));
    Tally.TallyTotal(ExtensionsOf(ts));
    forall k ensures Tally.Get(Tally.Tally(TypesOf(ts)), k) == Tally.Count(TypesOf(ts), k) {
      Tally.TallyGet(TypesOf(ts), k);
    }
    forall k ensures Tally.Get(Tally.Tally(ExtensionsOf(ts)), k) == Tally.Count(ExtensionsOf(ts), k) {
      Tally.TallyGet(ExtensionsOf(ts), k);
    }
    Tally.TallyDistinct(TypesOf(ts));
    Tally.TallyDistinct(ExtensionsOf(ts));
  }

  /** The loop of `get_all_templates`: the values of the index that are templates, in key order. */
  method TemplatesOf(ix: Index) returns (templates: seq<Template>)
    ensures templates == AllTemplates(ix)
  {
    var keys := ix.keys;
    templates := [];
    for i := 0 to |keys|
      invariant templates == TemplatesAt(ix, keys[..i])
    {
      assert keys[..i + 1][..i] == keys[..i];
      var key := keys[i];
      if key in ix.entries && ix.entries[key].TemplateEntry? {
        templates := templates + [ix.entries[key].template];
      }
    }
    assert keys[..|keys|] == keys;
  }

  /** The counting loop of `get_statistics`. */
  method CountTemplates(templates: seq<Template>) returns (byType: seq<(string, nat)>, byExtension: seq<(string, nat)>, totalSize: nat)
    ensures byType == Tally.Tally(TypesOf(templates))
    ensures byExtension == Tally.Tally(ExtensionsOf(templates))
    ensures totalSize == TotalSize(templates)
  {
    byType, byExtension, totalSize := [], [], 0;
    for i := 0 to |templates|
      invariant byType == Tally.Tally(TypesOf(templates[..i]))
      invariant byExtension == Tally.Tally(ExtensionsOf(templates[..i]))
      invariant totalSize == TotalSize(templates[..i])
    {
      CountStep(templates, i);
      byType := Tally.Bump(byType, TypeOf(templates[i]));
      byExtension := Tally.Bump(byExtension, ExtensionOf(templates[i]));
      totalSize := totalSize + templates[i].fileSize.GetOr(0);
    }
    assert templates[..|templates|] == templates;
  }

  /** One more template bumps its type and its extension and adds its size. */
  lemma CountStep(ts: seq<Template>, i: nat)
    requires i < |ts|
    ensures Tally.Tally(TypesOf(ts[..i + 1])) == Tally.Bump(Tally.Tally(TypesOf(ts[..i])), TypeOf(ts[i]))
    ensures Tally.Tally(ExtensionsOf(ts[..i + 1])) == Tally.Bump(Tally.Tally(ExtensionsOf(ts[..i])), ExtensionOf(ts[i]))
    ensures TotalSize(ts[..i + 1]) == TotalSize(ts[..i]) + ts[i].fileSize.GetOr(0)
  {
    var prefix := ts[..i + 1];
    assert prefix[..i] == ts[..i];
    var types, extensions := TypesOf(ts[..i]), ExtensionsOf(ts[..i]);
    assert TypesOf(prefix) == types + [TypeOf(ts[i])];
    assert ExtensionsOf(prefix) == extensions + [ExtensionOf(ts[i])];
    assert (types + [TypeOf(ts[i])])[..i] == types;
    assert (extensions + [ExtensionOf(ts[i])])[..i] == extensions;
  }

  /** The scoring loop of `search_template`, with the name lower-cased and split into keywords once, before it. */
  method CollectCandidates(templates: seq<Template>, documentName: string, documentType: Option<string>,
                           minConfidence: real, ratio: (string, string) -> real)
    returns (found: seq<Scored>)
    ensures found == Candidates(templates, documentName, documentType, minConfidence, ratio)
  {
    var nameLower := Lower(documentName);
    var nameKeywords := ExtractKeywords(documentName);
    found := [];
    for i := 0 to |templates|
      invariant found == Collected(templates[..i], nameLower, nameKeywords, documentType, minConfidence, ratio)
    {
      assert templates[..i + 1][..i] == templates[..i];
      var confidence := Score(nameLower, nameKeywords, documentType, templates[i], ratio);
      if confidence >= minConfidence {
        found := found + [Scored(templates[i], confidence)];
      }
    }
    assert templates[..|templates|] == templates;
  }

  /** The template library and its index. */
  class Library {
    var index: Index
    var indexedAt: Option<string>

    constructor ()
      ensures index == EmptyIndex && indexedAt == None
    {
      index := EmptyIndex;
      indexedAt := None;
    }

    /** `index_documents(documents)`: the index is rebuilt from nothing. */
    method IndexDocuments(documents: seq<Template>, stamp: string)
      modifies this
      ensures index == IndexOf(documents) && indexedAt == Some(stamp)
    {
      index := EmptyIndex;
      for i := 0 to |documents|
        invariant index == IndexOf(documents[..i])
      {
        var doc := documents[i];
        assert documents[..i + 1][..i] == documents[..i];
        var id := doc.templateId;
        var next := Put(index, id, TemplateEntry(doc));
        var stored := next;
        var keywords := doc.keywords.GetOr([]);
        var keys := IndexKeys(doc);
        for j := 0 to |keywords|
          invariant next == AddIds(stored, keys[..j], id)
        {
          assert keys[..j + 1][..j] == keys[..j];
          next := AddId(next, KwKey(keywords[j]), id);
        }
        assert keys[..|keys|][..|keywords|] == keys[..|keywords|];
        next := AddId(next, TypeKey(doc.documentType.GetOr(OtherType)), id);
        assert keys[..|keys|] == keys;
        index := next;
      }
      assert documents[..|documents|] == documents;
      indexedAt := Some(stamp);
    }

    /** `if not self.index: self.index_documents()`, the scan of the catalogue being `scanned`. */
    method EnsureIndexed(scanned: seq<Template>, stamp: string)
      modifies this
      ensures old(index).keys == [] ==> index == IndexOf(scanned) && indexedAt == Some(stamp)
      ensures old(index).keys != [] ==> index == old(index) && indexedAt == old(indexedAt)
    {
      if index.keys == [] {
        IndexDocuments(scanned, stamp);
      }
    }

    /** `get_all_templates`. */
    method GetAllTemplates(scanned: seq<Template>, stamp: string) returns (templates: seq<Template>)
      modifies this
      ensures old(index).keys == [] ==> index == IndexOf(scanned) && indexedAt == Some(stamp)
      ensures old(index).keys != [] ==> index == old(index) && indexedAt == old(indexedAt)
      ensures templates == AllTemplates(index)
    {
      EnsureIndexed(scanned, stamp);
      templates := TemplatesOf(index);
    }

    /** `get_statistics`. */
    method GetStatistics(scanned: seq<Template>, stamp: string) returns (stats: Statistics)
      modifies this
      ensures old(index).keys == [] ==> index == IndexOf(scanned) && indexedAt == Some(stamp)
      ensures old(index).keys != [] ==> index == old(index) && indexedAt == old(indexedAt)
      ensures var ts := AllTemplates(index);
        stats == Statistics(|ts|, Tally.Tally(TypesOf(ts)), Tally.Tally(ExtensionsOf(ts)), TotalSize(ts), indexedAt)
    {
      var templates := GetAllTemplates(scanned, stamp);
      var byType, byExtension, totalSize := CountTemplates(templates);
      stats := Statistics(|templates|, byType, byExtension, totalSize, indexedAt);
    }

    /** `search_template`, with confidences kept exact rather than rounded to two decimals. */
    method SearchTemplate(documentName: string, documentType: Option<string>, minConfidence: real,
                          ratio: (string, string) -> real, scanned: seq<Template>, stamp: string)
      returns (results: seq<Scored>)
      modifies this
      ensures old(index).keys == [] ==> index == IndexOf(scanned) && indexedAt == Some(stamp)
      ensures old(index).keys != [] ==> index == old(index) && indexedAt == old(indexedAt)
      ensures results == TopTen(Candidates(AllTemplates(index), documentName, documentType, minConfidence, ratio))
    {
      var templates := GetAllTemplates(scanned, stamp);
      var found := CollectCandidates(templates, documentName, documentType, minConfidence, ratio);
      results := TopTen(found);
    }
  }
}
