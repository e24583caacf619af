/**
 * The document deduplicator of the command-line pipeline
 * (src/utils/deduplicator.py): names are normalised by case, whitespace,
 * punctuation and four stop words; a document is dropped when its
 * normalised name was seen already or is at least `threshold` similar to
 * the name of a document already kept. There is no cap, no id renumbering
 * and a name that normalises to "" is not a reason to drop a document.
 *
 * `SequenceMatcher.ratio` is an uninterpreted `similarity` function; no
 * symmetry and no range is assumed of it.
 */
module UtilsDeduplicator {
  import opened Wrappers
  import opened Text
  import opened Sequences

  /** The default of the constructor's `similarity_threshold`. */
  const DefaultThreshold: real := 0.85

  const StopWords: seq<string> := ["копия", "оригинал", "заверенная", "нотариальная"]

  /** A document dict; only "name" is read, the other keys are carried along untouched. */
  datatype Document = Document(name: Option<string>, otherKeys: seq<(string, string)>)

  /** `doc.get("name", "")`. */
  function NameOf(d: Document): string {
    d.name.GetOr("")
  }

  // ---------------------------------------------------------------------
  // _normalize_document_name
  // ---------------------------------------------------------------------

  /**
   * `re.sub(r'[^\w\sа-яё]', '', s)`: keeps word characters and whitespace
   * (the Cyrillic range а-яё lies inside the `\w` class already).
   */
  function KeepWordChars(s: string): (r: string)
    ensures forall i :: 0 <= i < |r| ==> IsWordChar(r[i]) || IsSpace(r[i])
  {
    if s == [] then []
    else
      var head := if IsWordChar(s[0]) || IsSpace(s[0]) then [s[0]] else [];
      head + KeepWordChars(s[1..])
  }

  /** `[w for w in words if w not in stop_words]`. */
  function DropStopWords(ws: seq<string>): (r: seq<string>)
    ensures forall k :: 0 <= k < |r| ==> r[k] in ws && r[k] !in StopWords
  {
    if ws == [] then []
    else
      var head := if ws[0] in StopWords then [] else [ws[0]];
      var rest := DropStopWords(ws[1..]);
      assert forall k :: 0 <= k < |rest| ==> rest[k] in ws;
      head + rest
  }

  /** The words the normalised name is joined from. */
  function Tokens(name: string): seq<string> {
    DropStopWords(Words(KeepWordChars(CollapseSpaces(Strip(Lower(name))))))
  }

  /** `_normalize_document_name`. */
  function NormalizeDocumentName(name: string): (r: string)
    ensures IsNormalForm(r)
  {
    TokensShape(name);
    JoinNormalForm(Tokens(name));
    Join(Tokens(name), " ")
  }

  /** A lower-case word made of `\w` characters only. */
  predicate IsToken(w: string) {
    w != [] && forall i :: 0 <= i < |w| ==> IsWordChar(w[i]) && LowerChar(w[i]) == w[i]
  }

  /**
   * Lower-case word characters separated by single blanks, with no blank at
   * either end.
   */
  predicate IsNormalForm(r: string) {
    (forall i :: 0 <= i < |r| ==> r[i] == ' ' || (IsWordChar(r[i]) && LowerChar(r[i]) == r[i]))
    && (r != [] ==> r[0] != ' ' && r[|r| - 1] != ' ')
    && (forall i :: 0 <= i < |r| - 1 && r[i] == ' ' ==> r[i + 1] != ' ')
  }

  lemma {:induction false} KeepWordCharsLower(s: string)
    requires IsLowerCase(s)
    ensures IsLowerCase(KeepWordChars(s))
    decreases |s|
  {
    if s != [] {
      assert IsLowerCase(s[1..]) by {
        LowerCaseSlice(s, 1, |s|);
      }
      KeepWordCharsLower(s[1..]);
    }
  }

  lemma {:induction false} TakeWordChars(s: string)
    requires forall i :: 0 <= i < |s| ==> IsSpace(s[i]) || (IsWordChar(s[i]) && LowerChar(s[i]) == s[i])
    ensures forall i :: 0 <= i < |TakeWord(s)| ==> IsWordChar(TakeWord(s)[i]) && LowerChar(TakeWord(s)[i]) == TakeWord(s)[i]
  {
    var w := TakeWord(s);
    forall i | 0 <= i < |w|
      ensures IsWordChar(w[i]) && LowerChar(w[i]) == w[i]
    {
      assert w[i] == s[i] && !IsSpace(w[i]);
    }
  }

  /** Splitting a string of lower-case word characters and whitespace gives tokens. */
  lemma {:induction false} WordsAreTokens(s: string)
    requires forall i :: 0 <= i < |s| ==> IsSpace(s[i]) || (IsWordChar(s[i]) && LowerChar(s[i]) == s[i])
    ensures forall k :: 0 <= k < |Words(s)| ==> IsToken(Words(s)[k])
    decreases |s|
  {
    if s != [] {
      if IsSpace(s[0]) {
        WordsAreTokens(s[1..]);
      } else {
        var w := TakeWord(s);
        TakeWordChars(s);
        WordsAreTokens(s[|w|..]);
        assert Words(s) == [w] + Words(s[|w|..]);
      }
    }
  }

  /** Every word of a normalised name is a token and no stop word. */
  lemma TokensShape(name: string)
    ensures forall k :: 0 <= k < |Tokens(name)| ==> IsToken(Tokens(name)[k]) && Tokens(name)[k] !in StopWords
  {
    var s := Strip(Lower(name));
    LowerIsLowerCase(name);
    StripKeepsLowerCase(Lower(name));
    CollapseChars(s);
    KeepWordCharsLower(CollapseSpaces(s));
    var kept := KeepWordChars(CollapseSpaces(s));
    WordsAreTokens(kept);
  }

  /** Joining tokens with one blank gives the normal form. */
  lemma {:induction false} JoinNormalForm(ts: seq<string>)
    requires forall k :: 0 <= k < |ts| ==> IsToken(ts[k])
    ensures IsNormalForm(Join(ts, " "))
    ensures ts != [] ==> Join(ts, " ") != []
    decreases |ts|
  {
    if |ts| >= 2 {
      var a, rest := ts[0], Join(ts[1..], " ");
      JoinNormalForm(ts[1..]);
      var r := a + " " + rest;
      assert Join(ts, " ") == r;
      assert rest != [] && rest[0] != ' ';
      forall i | 0 <= i < |r| - 1 && r[i] == ' '
        ensures r[i + 1] != ' '
      {
        if i > |a| {
          assert r[i] == rest[i - |a| - 1] && r[i + 1] == rest[i - |a|];
        }
      }
      forall i | 0 <= i < |r|
        ensures r[i] == ' ' || (IsWordChar(r[i]) && LowerChar(r[i]) == r[i])
      {
        if i < |a| {
          assert r[i] == a[i];
        } else if i > |a| {
          assert r[i] == rest[i - |a| - 1];
        }
      }
    }
  }

  // ---------------------------------------------------------------------
  // Normalising twice
  // ---------------------------------------------------------------------

  lemma NormalFormLower(r: string)
    requires IsNormalForm(r)
    ensures Lower(r) == r
  {
    assert IsLowerCase(r);
    LowerOfLowerCase(r);
  }

  lemma NormalFormStrip(r: string)
    requires IsNormalForm(r)
    ensures Strip(r) == r
  {
    assert TrimStart(r) == r;
    assert TrimEnd(r) == r;
  }

  /** A string whose whitespace is single blanks is left alone by the collapse. */
  lemma {:induction false} CollapseSingleBlanks(s: string)
    requires forall i :: 0 <= i < |s| ==> s[i] == ' ' || !IsSpace(s[i])
    requires forall i :: 0 <= i < |s| - 1 && s[i] == ' ' ==> !IsSpace(s[i + 1])
    ensures CollapseSpaces(s) == s
    decreases |s|
  {
    if s != [] {
      var t := s[1..];
      if IsSpace(s[0]) {
        assert s[0] == ' ';
        assert t == [] || !IsSpace(t[0]);
        assert TrimStart(t) == t;
        CollapseSingleBlanks(t);
        assert CollapseSpaces(s) == " " + CollapseSpaces(t);
        assert s == " " + t;
      } else {
        CollapseSingleBlanks(s[1..]);
        assert s == [s[0]] + s[1..];
      }
    }
  }

  lemma {:induction false} KeepWordCharsIdentity(s: string)
    requires forall i :: 0 <= i < |s| ==> IsWordChar(s[i]) || IsSpace(s[i])
    ensures KeepWordChars(s) == s
    decreases |s|
  {
    if s != [] {
      KeepWordCharsIdentity(s[1..]);
      assert s == [s[0]] + s[1..];
    }
  }

  lemma {:induction false} TakeWordOf(w: string, rest: string)
    requires NoSpace(w) && (rest == [] || IsSpace(rest[0]))
    ensures TakeWord(w + rest) == w
    decreases |w|
  {
    if w != [] {
      TakeWordOf(w[1..], rest);
      assert (w + rest)[1..] == w[1..] + rest;
    } else {
      assert w + rest == rest;
    }
  }

  /** Splitting the blank-joined tokens gives the tokens back. */
  lemma {:induction false} WordsOfJoin(ts: seq<string>)
    requires forall k :: 0 <= k < |ts| ==> IsToken(ts[k])
    ensures Words(Join(ts, " ")) == ts
    decreases |ts|
  {
    if |ts| == 1 {
      TakeWordOf(ts[0], []);
      assert ts[0] + [] == ts[0];
      assert ts[0][|ts[0]|..] == [];
    } else if |ts| >= 2 {
      var a, rest := ts[0], Join(ts[1..], " ");
      var r := a + (" " + rest);
      assert Join(ts, " ") == r;
      TakeWordOf(a, " " + rest);
      assert r[|a|..] == " " + rest;
      assert (" " + rest)[1..] == rest;
      WordsOfJoin(ts[1..]);
      assert ts == [a] + ts[1..];
    }
  }

  lemma {:induction false} DropNoStopWords(ts: seq<string>)
    requires forall k :: 0 <= k < |ts| ==> ts[k] !in StopWords
    ensures DropStopWords(ts) == ts
    decreases |ts|
  {
    if ts != [] {
      DropNoStopWords(ts[1..]);
      assert ts == [ts[0]] + ts[1..];
    }
  }

  /** The character-level steps leave a normal form unchanged. */
  lemma NormalFormFixed(r: string)
    requires IsNormalForm(r)
    ensures KeepWordChars(CollapseSpaces(Strip(Lower(r)))) == r
  {
    NormalFormLower(r);
    NormalFormStrip(r);
    CollapseSingleBlanks(r);
    KeepWordCharsIdentity(r);
  }

  /** The word-level steps give the joined tokens back. */
  lemma JoinedTokensFixed(ts: seq<string>)
    requires forall k :: 0 <= k < |ts| ==> IsToken(ts[k]) && ts[k] !in StopWords
    ensures DropStopWords(Words(Join(ts, " "))) == ts
  {
    WordsOfJoin(ts);
    DropNoStopWords(ts);
  }

  /** Normalising an already normalised name changes nothing. */
  lemma NormalizeIdempotent(name: string)
    ensures NormalizeDocumentName(NormalizeDocumentName(name)) == NormalizeDocumentName(name)
  {
    var ts := Tokens(name);
    var r := NormalizeDocumentName(name);
    assert r == Join(ts, " ");
    TokensShape(name);
    NormalFormFixed(r);
    JoinedTokensFixed(ts);
    assert Tokens(r) == ts;
  }

  /** The words of a normalised name are its tokens: none is a stop word. */
  lemma NormalizedWords(name: string)
    ensures Words(NormalizeDocumentName(name)) == Tokens(name)
    ensures forall k :: 0 <= k < |Tokens(name)| ==> Tokens(name)[k] !in StopWords && IsToken(Tokens(name)[k])
  {
    TokensShape(name);
    WordsOfJoin(Tokens(name));
  }

  // ---------------------------------------------------------------------
  // deduplicate
  // ---------------------------------------------------------------------

  /** The key a document is compared by: its name, normalised. */
  function NameKey(d: Document): string {
    NormalizeDocumentName(NameOf(d))
  }

  /**
   * The inner loop's test: some kept document's key is at least `threshold`
   * similar to `n`, measured as `similarity(n, key(kept))`.
   */
  predicate AnySimilar<D>(n: string, kept: seq<D>, key: D -> string, similarity: (string, string) -> real, threshold: real) {
    kept != [] && (similarity(n, key(kept[0])) >= threshold || AnySimilar(n, kept[1..], key, similarity, threshold))
  }

  lemma {:induction false} AnySimilarIff<D>(n: string, kept: seq<D>, key: D -> string, similarity: (string, string) -> real, threshold: real)
    ensures AnySimilar(n, kept, key, similarity, threshold) <==>
      exists k :: 0 <= k < |kept| && similarity(n, key(kept[k])) >= threshold
    decreases |kept|
  {
    if kept != [] {
      AnySimilarIff(n, kept[1..], key, similarity, threshold);
      if AnySimilar(n, kept[1..], key, similarity, threshold) {
        var k :| 0 <= k < |kept[1..]| && similarity(n, key(kept[1..][k])) >= threshold;
        assert kept[1..][k] == kept[k + 1];
      }
      if exists k :: 0 <= k < |kept| && similarity(n, key(kept[k])) >= threshold {
        var k :| 0 <= k < |kept| && similarity(n, key(kept[k])) >= threshold;
        if k > 0 {
          assert kept[k] == kept[1..][k - 1];
        }
      }
    }
  }

  lemma {:induction false} AnySimilarSnoc<D>(n: string, kept: seq<D>, d: D, key: D -> string, similarity: (string, string) -> real, threshold: real)
    requires AnySimilar(n, kept, key, similarity, threshold)
    ensures AnySimilar(n, kept + [d], key, similarity, threshold)
    decreases |kept|
  {
    assert (kept + [d])[0] == kept[0];
    if !(similarity(n, key(kept[0])) >= threshold) {
      AnySimilarSnoc(n, kept[1..], d, key, similarity, threshold);
      assert (kept + [d])[1..] == kept[1..] + [d];
    }
  }

  /** The documents kept so far and the set `seen_names`, in insertion order. */
  datatype DedupState<D> = DedupState(unique: seq<D>, seen: seq<string>)

  /** One turn of the outer loop. */
  function DedupStep<D>(st: DedupState<D>, d: D, key: D -> string, similarity: (string, string) -> real, threshold: real): DedupState<D> {
    var n := key(d);
    if n in st.seen || AnySimilar(n, st.unique, key, similarity, threshold) then st
    else DedupState(st.unique + [d], st.seen + [n])
  }

  /** The state after the outer loop has gone through `ds`. */
  function Deduplicated<D>(ds: seq<D>, key: D -> string, similarity: (string, string) -> real, threshold: real): DedupState<D>
    decreases |ds|
  {
    if ds == [] then DedupState([], [])
    else DedupStep(Deduplicated(ds[..|ds| - 1], key, similarity, threshold), ds[|ds| - 1], key, similarity, threshold)
  }

  lemma DeduplicatedSnoc<D>(ds: seq<D>, i: nat, key: D -> string, similarity: (string, string) -> real, threshold: real)
    requires i < |ds|
    ensures Deduplicated(ds[..i + 1], key, similarity, threshold)
      == DedupStep(Deduplicated(ds[..i], key, similarity, threshold), ds[i], key, similarity, threshold)
  {
    assert ds[..i + 1][..i] == ds[..i];
  }

  /** The loop over `unique_docs`, re-normalising each kept name, that breaks at the first similar one. */
  method FindSimilar(n: string, unique: seq<Document>, similarity: (string, string) -> real, threshold: real)
    returns (isDuplicate: bool)
    ensures isDuplicate == AnySimilar(n, unique, NameKey, similarity, threshold)
  {
    isDuplicate := false;
    var k := 0;
    while k < |unique| && !isDuplicate
      invariant 0 <= k <= |unique|
      invariant AnySimilar(n, unique, NameKey, similarity, threshold)
        == (isDuplicate || AnySimilar(n, unique[k..], NameKey, similarity, threshold))
    {
      assert unique[k..][1..] == unique[k + 1..];
      var existingName := NormalizeDocumentName(NameOf(unique[k]));
      isDuplicate := similarity(n, existingName) >= threshold;
      k := k + 1;
    }
  }

  /** `deduplicate`: the kept documents, unchanged and in input order. */
  method Deduplicate(documents: seq<Document>, similarity: (string, string) -> real, threshold: real)
    returns (unique: seq<Document>)
    ensures unique == Deduplicated(documents, NameKey, similarity, threshold).unique
  {
    if documents == [] {
      return [];
    }
    unique := [];
    var seen: seq<string> := [];
    for i := 0 to |documents|
      invariant DedupState(unique, seen) == Deduplicated(documents[..i], NameKey, similarity, threshold)
    {
      var doc := documents[i];
      var normalizedName := NormalizeDocumentName(NameOf(doc));
      DeduplicatedSnoc(documents, i, NameKey, similarity, threshold);
      if normalizedName in seen {
        continue;
      }
      var isDuplicate := FindSimilar(normalizedName, unique, similarity, threshold);
      if !isDuplicate {
        unique := unique + [doc];
        seen := seen + [normalizedName];
      }
    }
    assert documents[..|documents|] == documents;
  }

  // ---------------------------------------------------------------------
  // Properties of deduplicate
  // ---------------------------------------------------------------------

  /** The keys of `seen_names` are the keys of the kept documents, position by position. */
  lemma {:induction false} DedupKeys<D>(ds: seq<D>, key: D -> string, similarity: (string, string) -> real, threshold: real)
    ensures var st := Deduplicated(ds, key, similarity, threshold);
      |st.seen| == |st.unique| && forall k :: 0 <= k < |st.unique| ==> st.seen[k] == key(st.unique[k])
    decreases |ds|
  {
    if ds != [] {
      DedupKeys(ds[..|ds| - 1], key, similarity, threshold);
    }
  }

  /** The output keeps input documents unchanged and in their order; nothing is capped. */
  lemma {:induction false} DedupSubsequence<D>(ds: seq<D>, key: D -> string, similarity: (string, string) -> real, threshold: real)
    ensures Subsequence(Deduplicated(ds, key, similarity, threshold).unique, ds)
    decreases |ds|
  {
    if ds != [] {
      var init, d := ds[..|ds| - 1], ds[|ds| - 1];
      DedupSubsequence(init, key, similarity, threshold);
      SubsequenceSnoc(Deduplicated(init, key, similarity, threshold).unique, init, d);
      assert init + [d] == ds;
    }
  }

  /**
   * The first document is always kept, whatever its name, even one that
   * normalises to "" or a missing name.
   */
  lemma {:induction false} DedupKeepsFirst<D>(ds: seq<D>, key: D -> string, similarity: (string, string) -> real, threshold: real)
    requires ds != []
    ensures var u := Deduplicated(ds, key, similarity, threshold).unique;
      u != [] && u[0] == ds[0]
    decreases |ds|
  {
    if |ds| > 1 {
      var init := ds[..|ds| - 1];
      DedupKeepsFirst(init, key, similarity, threshold);
      assert init[0] == ds[0];
    } else {
      assert ds[..0] == [];
    }
  }

  /** No two kept documents have the same normalised name. */
  lemma {:induction false} DedupDistinct<D>(ds: seq<D>, key: D -> string, similarity: (string, string) -> real, threshold: real)
    ensures Distinct(Deduplicated(ds, key, similarity, threshold).seen)
    decreases |ds|
  {
    if ds != [] {
      var before := Deduplicated(ds[..|ds| - 1], key, similarity, threshold);
      DedupDistinct(ds[..|ds| - 1], key, similarity, threshold);
      var after := Deduplicated(ds, key, similarity, threshold);
      var n := key(ds[|ds| - 1]);
      if after != before {
        assert after.seen == before.seen + [n] && n !in before.seen;
        forall i, j | 0 <= i < j < |after.seen|
          ensures after.seen[i] != after.seen[j]
        {
          assert after.seen[i] == before.seen[i];
          if j < |before.seen| {
            assert after.seen[j] == before.seen[j];
          } else {
            assert before.seen[i] in before.seen;
          }
        }
      }
    }
  }

  /** A kept name is less than `threshold` similar to every name kept before it. */
  predicate NoSimilarPairs<D>(unique: seq<D>, key: D -> string, similarity: (string, string) -> real, threshold: real) {
    forall i, j :: 0 <= i < j < |unique| ==> similarity(key(unique[j]), key(unique[i])) < threshold
  }

  lemma {:induction false} DedupNotSimilar<D>(ds: seq<D>, key: D -> string, similarity: (string, string) -> real, threshold: real)
    ensures NoSimilarPairs(Deduplicated(ds, key, similarity, threshold).unique, key, similarity, threshold)
    decreases |ds|
  {
    if ds != [] {
      var before := Deduplicated(ds[..|ds| - 1], key, similarity, threshold);
      DedupNotSimilar(ds[..|ds| - 1], key, similarity, threshold);
      var after := Deduplicated(ds, key, similarity, threshold);
      var d := ds[|ds| - 1];
      if after != before {
        assert after.unique == before.unique + [d];
        assert !AnySimilar(key(d), before.unique, key, similarity, threshold);
        AnySimilarIff(key(d), before.unique, key, similarity, threshold);
        forall i, j | 0 <= i < j < |after.unique|
          ensures similarity(key(after.unique[j]), key(after.unique[i])) < threshold
        {
          assert after.unique[i] == before.unique[i];
          if j < |before.unique| {
            assert after.unique[j] == before.unique[j];
          }
        }
      }
    }
  }

  /** Why a document was dropped: its key was seen, or it is similar to a kept document. */
  predicate Explained<D>(n: string, st: DedupState<D>, key: D -> string, similarity: (string, string) -> real, threshold: real) {
    n in st.seen || AnySimilar(n, st.unique, key, similarity, threshold)
  }

  /** Every input document was kept, or dropped for a kept document with an equal or similar name. */
  lemma {:induction false} DedupCovers<D>(ds: seq<D>, key: D -> string, similarity: (string, string) -> real, threshold: real)
    ensures forall i :: 0 <= i < |ds| ==>
      Explained(key(ds[i]), Deduplicated(ds, key, similarity, threshold), key, similarity, threshold)
    decreases |ds|
  {
    if ds != [] {
      var init, d := ds[..|ds| - 1], ds[|ds| - 1];
      var before := Deduplicated(init, key, similarity, threshold);
      var after := Deduplicated(ds, key, similarity, threshold);
      DedupCovers(init, key, similarity, threshold);
      forall i | 0 <= i < |ds|
        ensures Explained(key(ds[i]), after, key, similarity, threshold)
      {
        var n := key(ds[i]);
        if i < |ds| - 1 {
          assert ds[i] == init[i];
          assert Explained(n, before, key, similarity, threshold);
          if after != before && n !in before.seen {
            AnySimilarSnoc(n, before.unique, d, key, similarity, threshold);
          }
        } else if after != before {
          assert after.seen[|after.seen| - 1] == n;
        }
      }
    }
  }

  /** The position of the first document whose key is `n`, or `|ds|` when there is none. */
  function FirstWithKey<D>(ds: seq<D>, n: string, key: D -> string): (i: nat)
    ensures i <= |ds|
    ensures i < |ds| ==> key(ds[i]) == n
    ensures forall j :: 0 <= j < i ==> key(ds[j]) != n
    decreases |ds|
  {
    if ds == [] then 0
    else if key(ds[0]) == n then 0
    else 1 + FirstWithKey(ds[1..], n, key)
  }

  lemma {:induction false} FirstWithKeySnoc<D>(ds: seq<D>, d: D, n: string, key: D -> string)
    ensures FirstWithKey(ds + [d], n, key) ==
      if FirstWithKey(ds, n, key) < |ds| then FirstWithKey(ds, n, key) else |ds| + (if key(d) == n then 0 else 1)
    decreases |ds|
  {
    if ds != [] {
      FirstWithKeySnoc(ds[1..], d, n, key);
      assert (ds + [d])[1..] == ds[1..] + [d];
    }
  }

  /** Of all the documents with one normalised name, the first one is the one kept. */
  lemma {:induction false} DedupFirstWins<D>(ds: seq<D>, key: D -> string, similarity: (string, string) -> real, threshold: real)
    ensures var u := Deduplicated(ds, key, similarity, threshold).unique;
      forall k :: 0 <= k < |u| ==> FirstWithKey(ds, key(u[k]), key) < |ds| && ds[FirstWithKey(ds, key(u[k]), key)] == u[k]
    decreases |ds|
  {
    if ds != [] {
      var init, d := ds[..|ds| - 1], ds[|ds| - 1];
      assert ds == init + [d];
      var before := Deduplicated(init, key, similarity, threshold);
      var after := Deduplicated(ds, key, similarity, threshold);
      DedupFirstWins(init, key, similarity, threshold);
      DedupKeys(init, key, similarity, threshold);
      DedupCovers(init, key, similarity, threshold);
      forall k | 0 <= k < |after.unique|
        ensures FirstWithKey(ds, key(after.unique[k]), key) < |ds| && ds[FirstWithKey(ds, key(after.unique[k]), key)] == after.unique[k]
      {
        var n := key(after.unique[k]);
        FirstWithKeySnoc(init, d, n, key);
        if k < |before.unique| {
          assert after.unique[k] == before.unique[k];
          assert ds[FirstWithKey(init, n, key)] == init[FirstWithKey(init, n, key)];
        } else {
          assert after.unique[k] == d && n == key(d);
          if FirstWithKey(init, n, key) < |init| {
            assert false;
          }
        }
      }
    }
  }
}
