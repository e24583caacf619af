/**
 * The guard against looping language-model output in
 * src/backend/utils/deduplication.py: name normalisation with canonical
 * Russian phrases, token-set Jaccard similarity, the duplicate test, the
 * capped deduplication pass with its running statistics, and the repair of
 * a JSON answer that was cut off in the middle of the document list.
 */
module BackendDeduplication {
  import opened Wrappers
  import opened Text
  import opened Sequences
  import Percentages

  /** The hard cap on the number of documents kept. */
  const MaxDocuments: nat := 50

  /** A required document as the language model returns it: only `id` and `name` are looked at. */
  datatype Doc = Doc(id: Option<string>, name: Option<string>)

  /** The statistics dictionary; a copy of it is attached to the analysis. */
  datatype Stats = Stats(totalInput: nat, duplicatesRemoved: nat, totalOutput: nat, truncatedByLimit: bool)

  /** An analysis: its `required_documents` list and its `deduplication_stats` entry, either possibly absent. */
  datatype Analysis = Analysis(documents: Option<seq<Doc>>, stats: Option<Stats>)

  // ---------------------------------------------------------------------------
  // normalize_name
  // ---------------------------------------------------------------------------

  /** What `re.sub(r'[^\w\s\-/]', '', s)` keeps. */
  predicate KeptByFilter(c: char) {
    IsWordChar(c) || IsSpace(c) || c == '-' || c == '/'
  }

  /** Removes every character outside word characters, whitespace, '-' and '/'. */
  function DropPunctuation(s: string): (r: string)
    ensures |r| <= |s|
    ensures forall i :: 0 <= i < |r| ==> KeptByFilter(r[i])
    ensures (forall i :: 0 <= i < |s| ==> KeptByFilter(s[i])) ==> r == s
  {
    if s == [] then []
    else if KeptByFilter(s[0]) then [s[0]] + DropPunctuation(s[1..])
    else DropPunctuation(s[1..])
  }

  /** A rule `\b<word>\s+<mid>\s+` -> `repl`. */
  datatype Phrase = Phrase(word: string, mid: string, repl: string)

  /** The canonicalisations, applied one after the other. */
  const Phrases: seq<Phrase> := [
    Phrase("справка", "о", "справка_"),
    Phrase("выписка", "из", "выписка_"),
    Phrase("сведения", "о", "сведения_"),
    Phrase("договор", "нр", "договор_")
  ]

  predicate StartsWith(s: string, p: string) {
    |p| <= |s| && s[..|p|] == p
  }

  /** The number of leading whitespace characters: what a greedy `\s+` takes, if anything. */
  function SpaceRun(s: string): (n: nat)
    ensures n <= |s|
  {
    if s != [] && IsSpace(s[0]) then 1 + SpaceRun(s[1..]) else 0
  }

  /**
   * The length of the match of `<word>\s+<mid>\s+` at the start of `s`, if
   * there is one. Both runs of whitespace are taken whole: the character
   * after the first run must begin `mid`, which is not whitespace, so
   * backtracking into the run cannot help.
   */
  function MatchAt(s: string, p: Phrase): (r: Option<nat>)
    ensures r.Some? ==> |p.word| < r.value <= |s|
  {
    if !StartsWith(s, p.word) then None
    else
      var a := s[|p.word|..];
      var g1 := SpaceRun(a);
      if g1 == 0 || !StartsWith(a[g1..], p.mid) then None
      else
        var c := a[g1..][|p.mid|..];
        var g2 := SpaceRun(c);
        if g2 == 0 then None else Some(|p.word| + g1 + |p.mid| + g2)
  }

  /**
   * `re.sub(r'\b<word>\s+<mid>\s+', repl, s)`, scanning left to right;
   * `afterWord` says whether the character before `s` is a word character,
   * in which case `\b` does not hold in front of the word.
   */
  function Sub(s: string, p: Phrase, afterWord: bool): string
    decreases |s|
  {
    if s == [] then []
    else if !afterWord && MatchAt(s, p).Some? then
      p.repl + Sub(s[MatchAt(s, p).value..], p, false)
    else [s[0]] + Sub(s[1..], p, IsWordChar(s[0]))
  }

  /** The four rules in order. */
  function ReplacePhrases(s: string): string {
    Sub(Sub(Sub(Sub(s, Phrases[0], false), Phrases[1], false), Phrases[2], false), Phrases[3], false)
  }

  /** `normalize_name`: lower, strip, collapse whitespace, drop punctuation, canonicalise phrases. */
  function NormalizeName(name: string): (r: string)
    ensures name == [] ==> r == []
  {
    if name == [] then []
    else ReplacePhrases(DropPunctuation(CollapseSpaces(Strip(Lower(name)))))
  }

  /** A character a normalised name may hold: a lower-case word character, a blank, '-' or '/'. */
  predicate NormChar(c: char) {
    (IsWordChar(c) || c == ' ' || c == '-' || c == '/') && LowerChar(c) == c
  }

  predicate AllNorm(s: string) {
    forall i :: 0 <= i < |s| ==> NormChar(s[i])
  }

  lemma {:induction false} DropPunctuationNorm(s: string)
    requires IsLowerCase(s) && OnlyBlanks(s)
    ensures AllNorm(DropPunctuation(s))
    decreases |s|
  {
    if s != [] {
      assert forall i :: 0 <= i < |s[1..]| ==> s[1..][i] == s[i + 1];
      DropPunctuationNorm(s[1..]);
    }
  }

  lemma AllNormSuffix(s: string, n: nat)
    requires AllNorm(s) && n <= |s|
    ensures AllNorm(s[n..])
  {
    assert forall i :: 0 <= i < |s[n..]| ==> s[n..][i] == s[n + i];
  }

  lemma AllNormConcat(a: string, b: string)
    requires AllNorm(a) && AllNorm(b)
    ensures AllNorm(a + b)
  {
    assert forall i :: 0 <= i < |a + b| ==> (a + b)[i] == if i < |a| then a[i] else b[i - |a|];
  }

  /** Replacing a phrase keeps the characters normal when the replacement is. */
  lemma {:induction false} SubNorm(s: string, p: Phrase, afterWord: bool)
    requires AllNorm(s) && AllNorm(p.repl)
    ensures AllNorm(Sub(s, p, afterWord))
    decreases |s|
  {
    if s == [] {
    } else if !afterWord && MatchAt(s, p).Some? {
      var n := MatchAt(s, p).value;
      AllNormSuffix(s, n);
      SubNorm(s[n..], p, false);
      AllNormConcat(p.repl, Sub(s[n..], p, false));
    } else {
      AllNormSuffix(s, 1);
      SubNorm(s[1..], p, IsWordChar(s[0]));
      assert NormChar(s[0]);
      AllNormConcat([s[0]], Sub(s[1..], p, IsWordChar(s[0])));
    }
  }

  /**
   * A normalised name is lower-case and holds only word characters, blanks,
   * '-' and '/'.
   */
  lemma NormalizeNameChars(name: string)
    ensures AllNorm(NormalizeName(name))
    ensures IsLowerCase(NormalizeName(name))
  {
    if name != [] {
      var c := CollapseSpaces(Strip(Lower(name)));
      CleanedNorm(name);
      ReplacePhrasesNorm(DropPunctuation(c));
    }
  }

  /** The first four stages leave lower-case word characters, blanks, '-' and '/'. */
  lemma CleanedNorm(name: string)
    ensures AllNorm(DropPunctuation(CollapseSpaces(Strip(Lower(name)))))
  {
    LowerIsLowerCase(name);
    StripKeepsLowerCase(Lower(name));
    CollapseChars(Strip(Lower(name)));
    DropPunctuationNorm(CollapseSpaces(Strip(Lower(name))));
  }

  /** The canonical forms are themselves normal. */
  lemma ReplacementsNorm()
    ensures AllNorm(Phrases[0].repl) && AllNorm(Phrases[1].repl)
    ensures AllNorm(Phrases[2].repl) && AllNorm(Phrases[3].repl)
  {
  }

  lemma {:induction false} ReplacePhrasesNorm(d: string)
    requires AllNorm(d)
    ensures AllNorm(ReplacePhrases(d)) && IsLowerCase(ReplacePhrases(d))
  {
    ReplacementsNorm();
    var d1 := Sub(d, Phrases[0], false);
    SubNorm(d, Phrases[0], false);
    var d2 := Sub(d1, Phrases[1], false);
    SubNorm(d1, Phrases[1], false);
    var d3 := Sub(d2, Phrases[2], false);
    SubNorm(d2, Phrases[2], false);
    SubNorm(d3, Phrases[3], false);
  }

  /** A rule whose words do not start with whitespace; all four rules are such. */
  predicate WellFormedPhrase(p: Phrase) {
    p.word != [] && p.mid != [] && !IsSpace(p.word[0]) && !IsSpace(p.mid[0])
  }

  lemma PhrasesWellFormed()
    ensures forall k :: 0 <= k < |Phrases| ==> WellFormedPhrase(Phrases[k])
  {
  }

  lemma SpaceRunOne(x: string)
    requires x == [] || !IsSpace(x[0])
    ensures SpaceRun(" " + x) == 1
  {
    assert (" " + x)[1..] == x;
    assert SpaceRun(x) == 0;
  }

  lemma StartsWithPrefix(w: string, rest: string)
    ensures StartsWith(w + rest, w) && (w + rest)[|w|..] == rest
  {
    assert (w + rest)[..|w|] == w;
  }

  /** The phrase written with single blanks matches in full. */
  lemma {:induction false} MatchSingleBlanks(p: Phrase, t: string)
    requires WellFormedPhrase(p)
    requires t == [] || !IsSpace(t[0])
    ensures MatchAt(p.word + (" " + (p.mid + (" " + t))), p) == Some(|p.word| + 1 + |p.mid| + 1)
    ensures (p.word + (" " + (p.mid + (" " + t))))[|p.word| + 1 + |p.mid| + 1..] == t
  {
    var a := " " + (p.mid + (" " + t));
    StartsWithPrefix(p.word, a);
    SpaceRunOne(p.mid + (" " + t));
    assert a[1..] == p.mid + (" " + t);
    StartsWithPrefix(p.mid, " " + t);
    SpaceRunOne(t);
  }

  /**
   * A phrase at a word boundary, written with single blanks and followed by
   * a non-blank, becomes its canonical form, and the scan goes on after it.
   */
  lemma {:induction false} PhraseCanonical(p: Phrase, t: string)
    requires WellFormedPhrase(p)
    requires t == [] || !IsSpace(t[0])
    ensures Sub(p.word + (" " + (p.mid + (" " + t))), p, false) == p.repl + Sub(t, p, false)
  {
    MatchSingleBlanks(p, t);
    SubAtMatch(p.word + (" " + (p.mid + (" " + t))), p, |p.word| + 1 + |p.mid| + 1, t);
  }

  /** Where the rule matches, the match is replaced and the scan resumes after it. */
  lemma SubAtMatch(s: string, p: Phrase, n: nat, rest: string)
    requires MatchAt(s, p) == Some(n) && n <= |s| && s[n..] == rest
    ensures Sub(s, p, false) == p.repl + Sub(rest, p, false)
  {
  }

  lemma ContainsTail(s: string, w: string)
    requires s != [] && Contains(s[1..], w)
    ensures Contains(s, w)
  {
    var i := Find(s[1..], w);
    assert s[1..][i..i + |w|] == s[i + 1..i + 1 + |w|];
    assert OccursAt(s, w, i + 1);
  }

  /** Text in which the phrase's first word does not occur is left as it is. */
  lemma {:induction false} SubWithoutWord(s: string, p: Phrase, afterWord: bool)
    requires !Contains(s, p.word)
    ensures Sub(s, p, afterWord) == s
    decreases |s|
  {
    if s != [] {
      assert !OccursAt(s, p.word, 0);
      if Contains(s[1..], p.word) {
        ContainsTail(s, p.word);
      }
      SubWithoutWord(s[1..], p, IsWordChar(s[0]));
    }
  }

  // ---------------------------------------------------------------------------
  // calculate_similarity and is_duplicate
  // ---------------------------------------------------------------------------

  /** `set(s.split())`. */
  function TokenSet(s: string): set<string> {
    set w | w in Words(s)
  }

  /** |x ∩ y| / |x ∪ y|, and 0 for two empty sets. */
  function Jaccard(x: set<string>, y: set<string>): real {
    if |x + y| > 0 then |x * y| as real / |x + y| as real else 0.0
  }

  /** The Jaccard coefficient of the token sets; 0 when either string is empty. */
  function Similarity(a: string, b: string): real {
    if a == [] || b == [] then 0.0 else Jaccard(TokenSet(a), TokenSet(b))
  }

  lemma SimilaritySymmetric(a: string, b: string)
    ensures Similarity(a, b) == Similarity(b, a)
  {
    var sa, sb := TokenSet(a), TokenSet(b);
    assert sa + sb == sb + sa && sa * sb == sb * sa;
  }

  lemma IntersectionWithinUnion<T>(x: set<T>, y: set<T>)
    ensures |x * y| <= |x + y|
    ensures |x * y| == |x + y| ==> x == y
  {
    var d := (x + y) - (x * y);
    assert x + y == (x * y) + d;
    assert |x + y| == |x * y| + |d|;
    if |x * y| == |x + y| {
      assert x + y <= x * y;
      assert x <= y && y <= x;
    }
  }

  lemma JaccardBounds(x: set<string>, y: set<string>)
    ensures 0.0 <= Jaccard(x, y) <= 1.0
    ensures Jaccard(x, y) == 1.0 <==> x == y && x != {}
  {
    IntersectionWithinUnion(x, y);
    if |x + y| > 0 {
      Percentages.Fraction(|x * y|, |x + y|);
      if x == y && x != {} {
        assert x * y == x + y;
      }
    } else {
      assert x == {};
    }
  }

  /** The coefficient lies in [0, 1], and it is 1 exactly when both strings carry the same non-empty token set. */
  lemma SimilarityBounds(a: string, b: string)
    ensures 0.0 <= Similarity(a, b) <= 1.0
    ensures Similarity(a, b) == 1.0 <==> a != [] && b != [] && TokenSet(a) == TokenSet(b) && TokenSet(a) != {}
  {
    if a != [] && b != [] {
      JaccardBounds(TokenSet(a), TokenSet(b));
    }
  }

  /** A string with at least one token is fully similar to itself. */
  lemma SelfSimilarity(a: string)
    requires Words(a) != []
    ensures Similarity(a, a) == 1.0
  {
    assert Words(a)[0] in TokenSet(a);
    SimilarityBounds(a, a);
  }

  /** The name a document is compared by: `normalize_name(doc.get("name", ""))`. */
  function NameOf(d: Doc): string {
    NormalizeName(d.name.GetOr(""))
  }

  /** `is_duplicate`: equal normalised names, or a Jaccard coefficient of at least the threshold. */
  predicate IsDuplicate(d1: Doc, d2: Doc, threshold: real) {
    NameOf(d1) == NameOf(d2) || Similarity(NameOf(d1), NameOf(d2)) >= threshold
  }

  lemma IsDuplicateSymmetric(d1: Doc, d2: Doc, threshold: real)
    ensures IsDuplicate(d1, d2, threshold) <==> IsDuplicate(d2, d1, threshold)
  {
    SimilaritySymmetric(NameOf(d1), NameOf(d2));
  }

  /** With a threshold of at most 1, documents whose names have the same non-empty token set are duplicates. */
  lemma SameTokensDuplicate(d1: Doc, d2: Doc, threshold: real)
    requires threshold <= 1.0
    requires NameOf(d1) != [] && NameOf(d2) != []
    requires TokenSet(NameOf(d1)) == TokenSet(NameOf(d2)) != {}
    ensures IsDuplicate(d1, d2, threshold)
  {
    SimilarityBounds(NameOf(d1), NameOf(d2));
  }

  /** `is_duplicate` of a deduplicator with the given threshold, as a function value. */
  function DuplicateTest(threshold: real): (Doc, Doc) -> bool {
    (d1: Doc, d2: Doc) => IsDuplicate(d1, d2, threshold)
  }

  // ---------------------------------------------------------------------------
  // deduplicate: the pass as a specification
  // ---------------------------------------------------------------------------
  // The pass is stated for any naming function `key` and duplicate test `dup`;
  // the deduplicator runs it with NameOf and DuplicateTest(threshold).

  /** The loop state: the accepted documents, their names, and the two running counters. */
  datatype Pass = Pass(unique: seq<Doc>, seen: set<string>, removed: nat, truncated: bool)

  predicate SimilarToAny(d: Doc, unique: seq<Doc>, dup: (Doc, Doc) -> bool) {
    exists k :: 0 <= k < |unique| && dup(d, unique[k])
  }

  /** One document below the cap: skipped if its name is empty, counted if an exact or similar duplicate, else accepted. */
  function Step(p: Pass, d: Doc, key: Doc -> string, dup: (Doc, Doc) -> bool): Pass {
    var n := key(d);
    if n == [] then p
    else if n in p.seen || SimilarToAny(d, p.unique, dup) then p.(removed := p.removed + 1)
    else p.(unique := p.unique + [d], seen := p.seen + {n})
  }

  /** The loop over the documents: reaching a document with the cap full sets the flag and ends the loop. */
  function Run(p: Pass, docs: seq<Doc>, key: Doc -> string, dup: (Doc, Doc) -> bool): Pass
    decreases |docs|
  {
    if docs == [] then p
    else if |p.unique| >= MaxDocuments then p.(truncated := true)
    else Run(Step(p, docs[0], key, dup), docs[1..], key, dup)
  }

  /** How many documents the loop looks at before it ends. */
  function Consumed(p: Pass, docs: seq<Doc>, key: Doc -> string, dup: (Doc, Doc) -> bool): (n: nat)
    ensures n <= |docs|
    decreases |docs|
  {
    if docs == [] || |p.unique| >= MaxDocuments then 0
    else 1 + Consumed(Step(p, docs[0], key, dup), docs[1..], key, dup)
  }

  /** The names of a list of documents. */
  function Names(us: seq<Doc>, key: Doc -> string): set<string> {
    if us == [] then {} else Names(us[..|us| - 1], key) + {key(us[|us| - 1])}
  }

  lemma NamesAppend(us: seq<Doc>, d: Doc, key: Doc -> string)
    ensures Names(us + [d], key) == Names(us, key) + {key(d)}
  {
    assert (us + [d])[..|us|] == us;
  }

  lemma {:induction false} NamesMember(us: seq<Doc>, n: string, key: Doc -> string)
    ensures n in Names(us, key) <==> exists k :: 0 <= k < |us| && key(us[k]) == n
  {
    if us != [] {
      var init := us[..|us| - 1];
      NamesMember(init, n, key);
      if n in Names(init, key) {
        var k :| 0 <= k < |init| && key(init[k]) == n;
        assert us[k] == init[k];
      }
      if exists k :: 0 <= k < |us| && key(us[k]) == n {
        var k :| 0 <= k < |us| && key(us[k]) == n;
        if k < |init| { assert init[k] == us[k]; }
      }
    }
  }

  /**
   * What holds of the accepted list throughout: `seen` is the set of its
   * names, no name is empty, and no document is a duplicate of an earlier one
   * or has an earlier one's name.
   */
  predicate Consistent(p: Pass, key: Doc -> string, dup: (Doc, Doc) -> bool) {
    && p.seen == Names(p.unique, key)
    && (forall k :: 0 <= k < |p.unique| ==> key(p.unique[k]) != [])
    && (forall i, j :: 0 <= i < j < |p.unique| ==>
          key(p.unique[j]) != key(p.unique[i]) && !dup(p.unique[j], p.unique[i]))
  }

  lemma StepConsistent(p: Pass, d: Doc, key: Doc -> string, dup: (Doc, Doc) -> bool)
    requires Consistent(p, key, dup)
    ensures Consistent(Step(p, d, key, dup), key, dup)
  {
    var q := Step(p, d, key, dup);
    if q.unique != p.unique {
      NamesAppend(p.unique, d, key);
      forall i | 0 <= i < |p.unique|
        ensures key(d) != key(p.unique[i])
      {
        NamesMember(p.unique, key(p.unique[i]), key);
      }
      forall i, j | 0 <= i < j < |q.unique|
        ensures key(q.unique[j]) != key(q.unique[i]) && !dup(q.unique[j], q.unique[i])
      {
        if j == |p.unique| {
          assert q.unique[j] == d && q.unique[i] == p.unique[i];
        } else {
          assert q.unique[j] == p.unique[j] && q.unique[i] == p.unique[i];
        }
      }
    }
  }

  /** A step accepts the document or leaves the list alone. */
  lemma StepShape(p: Pass, d: Doc, key: Doc -> string, dup: (Doc, Doc) -> bool)
    ensures Step(p, d, key, dup).unique in {p.unique, p.unique + [d]}
  {
  }

  /**
   * The pass keeps what was accepted before (nothing is ever evicted) and
   * never goes over the cap.
   */
  lemma {:induction false} RunGrows(p: Pass, docs: seq<Doc>, key: Doc -> string, dup: (Doc, Doc) -> bool)
    ensures var r := Run(p, docs, key, dup);
      |p.unique| <= |r.unique| && r.unique[..|p.unique|] == p.unique
      && (|p.unique| <= MaxDocuments ==> |r.unique| <= MaxDocuments)
    decreases |docs|
  {
    if docs != [] && |p.unique| < MaxDocuments {
      var q := Step(p, docs[0], key, dup);
      StepShape(p, docs[0], key, dup);
      RunGrows(q, docs[1..], key, dup);
      var r := Run(q, docs[1..], key, dup);
      assert r.unique[..|q.unique|][..|p.unique|] == r.unique[..|p.unique|];
    }
  }

  /** What the pass adds is an order-preserving subsequence of the input. */
  lemma {:induction false} RunSubsequence(p: Pass, docs: seq<Doc>, key: Doc -> string, dup: (Doc, Doc) -> bool)
    ensures |p.unique| <= |Run(p, docs, key, dup).unique|
    ensures Subsequence(Run(p, docs, key, dup).unique[|p.unique|..], docs)
    decreases |docs|
  {
    RunGrows(p, docs, key, dup);
    var r := Run(p, docs, key, dup);
    if docs == [] || |p.unique| >= MaxDocuments {
      assert r.unique[|p.unique|..] == [];
    } else {
      var q := Step(p, docs[0], key, dup);
      StepShape(p, docs[0], key, dup);
      RunSubsequence(q, docs[1..], key, dup);
      RunGrows(q, docs[1..], key, dup);
      if q.unique != p.unique {
        var added := r.unique[|p.unique|..];
        assert r.unique[..|q.unique|] == p.unique + [docs[0]];
        assert added[0] == docs[0];
        assert added[1..] == r.unique[|q.unique|..];
      }
    }
  }

  /** The pass keeps the accepted list consistent. */
  lemma {:induction false} RunConsistent(p: Pass, docs: seq<Doc>, key: Doc -> string, dup: (Doc, Doc) -> bool)
    requires Consistent(p, key, dup)
    ensures Consistent(Run(p, docs, key, dup), key, dup)
    decreases |docs|
  {
    if docs != [] && |p.unique| < MaxDocuments {
      StepConsistent(p, docs[0], key, dup);
      RunConsistent(Step(p, docs[0], key, dup), docs[1..], key, dup);
    }
  }

  /** The number of documents whose name is empty. */
  function EmptyNames(docs: seq<Doc>, key: Doc -> string): nat {
    if docs == [] then 0 else (if key(docs[0]) == [] then 1 else 0) + EmptyNames(docs[1..], key)
  }

  /**
   * Every document the loop looks at is accepted, counted as a duplicate, or
   * skipped for its empty name; empty names do not count as duplicates.
   */
  lemma {:induction false} RunAccounting(p: Pass, docs: seq<Doc>, key: Doc -> string, dup: (Doc, Doc) -> bool)
    ensures var r := Run(p, docs, key, dup);
      var c := Consumed(p, docs, key, dup);
      r.removed + |r.unique| + EmptyNames(docs[..c], key) == p.removed + |p.unique| + c
    decreases |docs|
  {
    if docs != [] && |p.unique| < MaxDocuments {
      var q := Step(p, docs[0], key, dup);
      RunAccounting(q, docs[1..], key, dup);
      var c := Consumed(q, docs[1..], key, dup);
      assert docs[..c + 1] == [docs[0]] + docs[1..][..c];
      assert ([docs[0]] + docs[1..][..c])[1..] == docs[1..][..c];
    } else {
      assert docs[..0] == [];
    }
  }

  /**
   * The flag is set by a pass exactly when the loop ends early, that is when
   * a document is reached with the cap full; the documents after that point
   * are discarded, so more input changes nothing.
   */
  lemma {:induction false} RunTruncation(p: Pass, docs: seq<Doc>, key: Doc -> string, dup: (Doc, Doc) -> bool, more: seq<Doc>)
    requires |p.unique| <= MaxDocuments
    ensures var r := Run(p, docs, key, dup);
      var c := Consumed(p, docs, key, dup);
      && (r.truncated <==> p.truncated || c < |docs|)
      && (c < |docs| ==> |r.unique| == MaxDocuments)
      && (c < |docs| ==> Run(p, docs + more, key, dup) == r)
    decreases |docs|
  {
    if docs != [] && |p.unique| < MaxDocuments {
      var q := Step(p, docs[0], key, dup);
      assert (docs + more)[0] == docs[0] && (docs + more)[1..] == docs[1..] + more;
      RunTruncation(q, docs[1..], key, dup, more);
    } else if docs != [] {
      assert (docs + more)[0] == docs[0];
    }
  }

  // ---------------------------------------------------------------------------
  // deduplicate: renumbering and the object with its statistics
  // ---------------------------------------------------------------------------

  /** `f"doc_{k}"`. */
  function DocId(k: nat): string {
    "doc_" + NatToString(k)
  }

  /** `doc["id"] = f"doc_{idx}"` for every accepted document, counting from 1. */
  function Renumbered(docs: seq<Doc>): (r: seq<Doc>)
    ensures |r| == |docs|
    ensures forall k :: 0 <= k < |docs| ==> r[k] == docs[k].(id := Some(DocId(k + 1)))
  {
    seq(|docs|, k requires 0 <= k < |docs| => docs[k].(id := Some(DocId(k + 1))))
  }

  /** The documents of an analysis, `analysis.get("required_documents", [])`. */
  function DocsOf(a: Analysis): seq<Doc> {
    a.documents.GetOr([])
  }

  /** The inner loop of `deduplicate`: is `d` a duplicate, by `dup`, of some accepted document? */
  method FindSimilar(d: Doc, unique: seq<Doc>, dup: (Doc, Doc) -> bool) returns (found: bool)
    ensures found <==> SimilarToAny(d, unique, dup)
  {
    found := false;
    var k := 0;
    while k < |unique|
      invariant 0 <= k <= |unique|
      invariant forall j :: 0 <= j < k ==> !dup(d, unique[j])
    {
      if dup(d, unique[k]) {
        found := true;
        return;
      }
      k := k + 1;
    }
  }

  /**
   * The main loop of `deduplicate`, for the naming function `key` and the
   * duplicate test `dup`, starting from the object's counters.
   */
  method DeduplicationLoop(documents: seq<Doc>, removed0: nat, truncated0: bool, key: Doc -> string, dup: (Doc, Doc) -> bool)
    returns (unique: seq<Doc>, removed: nat, truncated: bool)
    ensures var r := Run(Pass([], {}, removed0, truncated0), documents, key, dup);
      unique == r.unique && removed == r.removed && truncated == r.truncated
  {
    unique, removed, truncated := [], removed0, truncated0;
    var seen: set<string> := {};
    var i := 0;
    while i < |documents|
      invariant 0 <= i <= |documents|
      invariant Run(Pass(unique, seen, removed, truncated), documents[i..], key, dup)
             == Run(Pass([], {}, removed0, truncated0), documents, key, dup)
    {
      if |unique| >= MaxDocuments {
        truncated := true;
        break;
      }
      var name := key(documents[i]);
      assert documents[i..][0] == documents[i] && documents[i..][1..] == documents[i + 1..];
      if name == [] {
        i := i + 1;
        continue;
      }
      if name in seen {
        removed := removed + 1;
        i := i + 1;
        continue;
      }
      var similar := FindSimilar(documents[i], unique, dup);
      if similar {
        removed := removed + 1;
      } else {
        seen := seen + {name};
        unique := unique + [documents[i]];
      }
      i := i + 1;
    }
  }

  /** The renumbering loop: each document gets the id of its position, counting from 1. */
  method Renumber(docs: seq<Doc>) returns (r: seq<Doc>)
    ensures r == Renumbered(docs)
  {
    r := docs;
    var idx := 0;
    while idx < |r|
      invariant 0 <= idx <= |r| == |docs|
      invariant r[..idx] == Renumbered(docs)[..idx]
      invariant r[idx..] == docs[idx..]
    {
      r := r[idx := r[idx].(id := Some(DocId(idx + 1)))];
      idx := idx + 1;
    }
    assert r == r[..idx];
  }

  class Deduplicator {
    const threshold: real
    var totalInput: nat
    var duplicatesRemoved: nat
    var totalOutput: nat
    var truncatedByLimit: bool

    function StatsNow(): Stats
      reads this
    {
      Stats(totalInput, duplicatesRemoved, totalOutput, truncatedByLimit)
    }

    constructor (similarityThreshold: real)
      ensures threshold == similarityThreshold
      ensures StatsNow() == Stats(0, 0, 0, false)
    {
      threshold := similarityThreshold;
      totalInput, duplicatesRemoved, totalOutput, truncatedByLimit := 0, 0, 0, false;
    }

    /**
     * `deduplicate`. The statistics live on the object: `total_input` is set
     * by every call, while `duplicates_removed` and `truncated_by_limit` carry
     * on from earlier calls. An analysis without documents is returned as it
     * is; otherwise its list becomes the accepted documents, renumbered, and
     * a copy of the statistics is attached.
     */
    method Deduplicate(analysis: Analysis) returns (result: Analysis)
      modifies this
      ensures totalInput == |DocsOf(analysis)|
      ensures DocsOf(analysis) == [] ==>
        && result == analysis
        && duplicatesRemoved == old(duplicatesRemoved) && totalOutput == old(totalOutput)
        && truncatedByLimit == old(truncatedByLimit)
      ensures DocsOf(analysis) != [] ==>
        var r := Run(Pass([], {}, old(duplicatesRemoved), old(truncatedByLimit)), DocsOf(analysis), NameOf, DuplicateTest(threshold));
        && duplicatesRemoved == r.removed && truncatedByLimit == r.truncated
        && totalOutput == |r.unique|
        && result == analysis.(documents := Some(Renumbered(r.unique)), stats := Some(StatsNow()))
    {
      var documents := DocsOf(analysis);
      totalInput := |documents|;
      if documents == [] {
        return analysis;
      }
      var unique, removed, truncated := DeduplicationLoop(documents, duplicatesRemoved, truncatedByLimit, NameOf, DuplicateTest(threshold));
      duplicatesRemoved, truncatedByLimit := removed, truncated;
      var renumbered := Renumber(unique);
      totalOutput := |unique|;
      result := analysis.(documents := Some(renumbered), stats := Some(StatsNow()));
    }
  }

  /** A duplicate test that does not depend on the order of its arguments. */
  ghost predicate Symmetric(dup: (Doc, Doc) -> bool) {
    forall d1, d2 :: dup(d1, d2) == dup(d2, d1)
  }

  lemma DuplicateTestSymmetric(threshold: real)
    ensures Symmetric(DuplicateTest(threshold))
  {
    forall d1, d2 ensures DuplicateTest(threshold)(d1, d2) == DuplicateTest(threshold)(d2, d1) {
      IsDuplicateSymmetric(d1, d2, threshold);
    }
  }

  /** No name is empty, and no two documents share a name or are duplicates in either order. */
  predicate NoDuplicatePairs(us: seq<Doc>, key: Doc -> string, dup: (Doc, Doc) -> bool) {
    && (forall k :: 0 <= k < |us| ==> key(us[k]) != [])
    && (forall i, j :: 0 <= i < j < |us| ==>
          key(us[i]) != key(us[j]) && !dup(us[i], us[j]) && !dup(us[j], us[i]))
  }

  lemma ConsistentPairs(p: Pass, key: Doc -> string, dup: (Doc, Doc) -> bool)
    requires Consistent(p, key, dup) && Symmetric(dup)
    ensures NoDuplicatePairs(p.unique, key, dup)
  {
  }

  /**
   * The documents a call keeps: a subsequence of the input in input order, at
   * most 50 of them, none with an empty name, no two with the same name or
   * duplicates of each other in either order.
   */
  lemma DeduplicatedShape(docs: seq<Doc>, removed: nat, truncated: bool, threshold: real)
    ensures var r := Run(Pass([], {}, removed, truncated), docs, NameOf, DuplicateTest(threshold));
      && |r.unique| <= MaxDocuments
      && Subsequence(r.unique, docs)
      && NoDuplicatePairs(r.unique, NameOf, DuplicateTest(threshold))
  {
    var p := Pass([], {}, removed, truncated);
    var dup := DuplicateTest(threshold);
    RunGrows(p, docs, NameOf, dup);
    RunSubsequence(p, docs, NameOf, dup);
    RunConsistent(p, docs, NameOf, dup);
    DuplicateTestSymmetric(threshold);
    ConsistentPairs(Run(p, docs, NameOf, dup), NameOf, dup);
    assert Run(p, docs, NameOf, dup).unique[0..] == Run(p, docs, NameOf, dup).unique;
  }

  // ---------------------------------------------------------------------------
  // fix_incomplete_json
  // ---------------------------------------------------------------------------

  /** The closing text appended after the last complete document. */
  const ClosingFields: string :=
    ",\"document_verification\":{\"provided\":[],\"missing_critical\":[],\"missing_optional\":[],\"issues\":[]},"
    + "\"completeness_score\":0,\"critical_warnings\":[]}"

  /**
   * `fix_incomplete_json`, with `wellFormed` standing for `json.loads`
   * succeeding: well-formed input is returned as it is; otherwise the text is
   * cut after the last `"}` that is followed by a comma, the document array
   * is closed when `"required_documents"` occurs in what is kept, the fixed
   * fields are appended, and the result is kept only if it is well-formed.
   */
  function FixIncompleteJson(s: string, wellFormed: string -> bool): (r: string)
    ensures wellFormed(s) ==> r == s
    ensures r == [] || wellFormed(r)
    ensures !wellFormed(s) && RFind(s, "\"},") < 0 ==> r == []
    ensures !wellFormed(s) && r != [] ==>
      var k := RFind(s, "\"},");
      && 0 <= k
      && r == s[..k + 2] + (if Contains(s[..k + 2], "\"required_documents\"") then "]" else "") + ClosingFields
  {
    if wellFormed(s) then s
    else
      var k := RFind(s, "\"},");
      if k < 0 then []
      else
        var kept := s[..k + 2];
        var closed := (if Contains(kept, "\"required_documents\"") then kept + "]" else kept) + ClosingFields;
        if wellFormed(closed) then closed else []
  }

  /** The repaired text ends a complete document: what is kept of the input ends with `"}`. */
  lemma RepairKeepsCompleteDocument(s: string, wellFormed: string -> bool)
    requires !wellFormed(s) && FixIncompleteJson(s, wellFormed) != []
    ensures var k := RFind(s, "\"},");
      0 <= k && s[k..k + 2] == "\"}" && FixIncompleteJson(s, wellFormed)[..k + 2] == s[..k + 2]
  {
    var k := RFind(s, "\"},");
    assert s[k..k + 3] == "\"},";
    assert s[k..k + 2] == s[k..k + 3][..2];
  }
}
