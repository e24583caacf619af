/** Order-preserving selection from a list, as the deduplication and filtering loops perform it. */
module Sequences {

  /** `xs` is `ys` with some elements left out and the rest kept in their order. */
  predicate Subsequence<T(==)>(xs: seq<T>, ys: seq<T>)
    decreases |ys|
  {
    xs == [] || (ys != [] && ((xs[0] == ys[0] && Subsequence(xs[1..], ys[1..])) || Subsequence(xs, ys[1..])))
  }

  /** No element occurs twice. */
  predicate Distinct<T(==)>(s: seq<T>) {
    forall i, j :: 0 <= i < j < |s| ==> s[i] != s[j]
  }

  /** `sum(1 for x in s if p(x))`, which is also `len([x for x in s if p(x)])`. */
  function CountIf<T>(s: seq<T>, p: T -> bool): (n: nat)
    ensures n <= |s|
  {
    if s == [] then 0 else CountIf(s[..|s| - 1], p) + (if p(s[|s| - 1]) then 1 else 0)
  }

  /** Counting over a concatenation. */
  lemma {:induction false} CountIfAppend<T>(a: seq<T>, b: seq<T>, p: T -> bool)
    ensures CountIf(a + b, p) == CountIf(a, p) + CountIf(b, p)
    decreases |b|
  {
    if b != [] {
      CountIfAppend(a, b[..|b| - 1], p);
      assert (a + b)[..|a + b| - 1] == a + b[..|b| - 1];
    } else {
      assert a + b == a;
    }
  }

  /** The count is the length exactly when every element passes, and 0 exactly when none does. */
  lemma {:induction false} CountIfAll<T>(s: seq<T>, p: T -> bool)
    ensures CountIf(s, p) == |s| <==> forall k :: 0 <= k < |s| ==> p(s[k])
    ensures CountIf(s, p) == 0 <==> forall k :: 0 <= k < |s| ==> !p(s[k])
  {
    if s != [] {
      var init := s[..|s| - 1];
      CountIfAll(init, p);
      if !p(s[|s| - 1]) {
        assert CountIf(init, p) < |s|;
      }
      if forall k :: 0 <= k < |init| ==> p(init[k]) {
        if p(s[|s| - 1]) {
          forall k | 0 <= k < |s| ensures p(s[k]) {
            if k < |init| { assert s[k] == init[k]; }
          }
        }
      } else {
        var k :| 0 <= k < |init| && !p(init[k]);
        assert s[k] == init[k];
      }
      if forall k :: 0 <= k < |init| ==> !p(init[k]) {
        if !p(s[|s| - 1]) {
          forall k | 0 <= k < |s| ensures !p(s[k]) {
            if k < |init| { assert s[k] == init[k]; }
          }
        }
      } else {
        var k :| 0 <= k < |init| && p(init[k]);
        assert s[k] == init[k];
      }
    }
  }

  /** `[x for x in s if p(x)]`. */
  function Filter<T>(s: seq<T>, p: T -> bool): (r: seq<T>)
    ensures |r| <= |s|
  {
    if s == [] then [] else Filter(s[..|s| - 1], p) + (if p(s[|s| - 1]) then [s[|s| - 1]] else [])
  }

  /** The comprehension keeps exactly the elements that pass, in their order. */
  lemma {:induction false} FilterMeaning<T>(s: seq<T>, p: T -> bool)
    ensures Subsequence(Filter(s, p), s)
    ensures forall x :: x in Filter(s, p) <==> x in s && p(x)
    ensures |Filter(s, p)| == CountIf(s, p)
  {
    if s != [] {
      var init, x := s[..|s| - 1], s[|s| - 1];
      FilterMeaning(init, p);
      assert s == init + [x];
      SubsequenceSnoc(Filter(init, p), init, x);
      if p(x) {
        assert Filter(s, p) == Filter(init, p) + [x];
      } else {
        assert Filter(s, p) == Filter(init, p);
      }
      forall y ensures y in Filter(s, p) <==> y in s && p(y) {
        assert y in s <==> y in init || y == x;
      }
    }
  }

  /** A test every element passes keeps the whole list. */
  lemma {:induction false} FilterKeepsAll<T>(s: seq<T>, p: T -> bool)
    requires forall k :: 0 <= k < |s| ==> p(s[k])
    ensures Filter(s, p) == s
  {
    if s != [] {
      FilterKeepsAll(s[..|s| - 1], p);
      assert s == s[..|s| - 1] + [s[|s| - 1]];
    }
  }

  /** Filtering a concatenation. */
  lemma {:induction false} FilterAppend<T>(a: seq<T>, b: seq<T>, p: T -> bool)
    ensures Filter(a + b, p) == Filter(a, p) + Filter(b, p)
    decreases |b|
  {
    if b != [] {
      FilterAppend(a, b[..|b| - 1], p);
      assert (a + b)[..|a + b| - 1] == a + b[..|b| - 1];
    } else {
      assert a + b == a;
    }
  }

  /** Two tests that agree on every element select the same elements. */
  lemma {:induction false} FilterSame<T>(s: seq<T>, p: T -> bool, q: T -> bool)
    requires forall k :: 0 <= k < |s| ==> p(s[k]) == q(s[k])
    ensures Filter(s, p) == Filter(s, q)
  {
    if s != [] {
      FilterSame(s[..|s| - 1], p, q);
    }
  }

  /** Two successive comprehensions are one comprehension with both tests. */
  lemma {:induction false} FilterTwice<T>(s: seq<T>, p: T -> bool, q: T -> bool, both: T -> bool)
    requires forall x :: both(x) == (p(x) && q(x))
    ensures Filter(Filter(s, p), q) == Filter(s, both)
  {
    if s != [] {
      var init, x := s[..|s| - 1], s[|s| - 1];
      FilterTwice(init, p, q, both);
      FilterAppend(Filter(init, p), if p(x) then [x] else [], q);
      assert Filter([x], q) == Filter([], q) + (if q(x) then [x] else []);
    }
  }

  /** Every element of a subsequence comes from the list. */
  lemma {:induction false} SubsequenceMembers<T>(xs: seq<T>, ys: seq<T>)
    requires Subsequence(xs, ys)
    ensures forall x :: x in xs ==> x in ys
    ensures |xs| <= |ys|
    decreases |ys|
  {
    if xs != [] {
      if xs[0] == ys[0] && Subsequence(xs[1..], ys[1..]) {
        SubsequenceMembers(xs[1..], ys[1..]);
        assert xs == [xs[0]] + xs[1..];
      } else {
        SubsequenceMembers(xs, ys[1..]);
      }
    }
  }

  /** `ys[:n]` is a subsequence of `ys`. */
  lemma {:induction false} PrefixSubsequence<T>(ys: seq<T>, n: nat)
    requires n <= |ys|
    ensures Subsequence(ys[..n], ys)
    decreases n
  {
    if n > 0 {
      PrefixSubsequence(ys[1..], n - 1);
      assert ys[..n][1..] == ys[1..][..n - 1];
    }
  }

  /** A prefix of a subsequence is a subsequence. */
  lemma {:induction false} SubsequencePrefix<T>(xs: seq<T>, ys: seq<T>, n: nat)
    requires Subsequence(xs, ys) && n <= |xs|
    ensures Subsequence(xs[..n], ys)
    decreases |ys|
  {
    if n > 0 {
      if xs[0] == ys[0] && Subsequence(xs[1..], ys[1..]) {
        SubsequencePrefix(xs[1..], ys[1..], n - 1);
        assert xs[..n][1..] == xs[1..][..n - 1];
      } else {
        SubsequencePrefix(xs, ys[1..], n);
      }
    }
  }

  /** Keeping or dropping one more element at the end keeps the relation. */
  lemma {:induction false} SubsequenceSnoc<T>(xs: seq<T>, ys: seq<T>, y: T)
    requires Subsequence(xs, ys)
    ensures Subsequence(xs + [y], ys + [y])
    ensures Subsequence(xs, ys + [y])
    decreases |ys|
  {
    if xs == [] {
      if ys != [] {
        SubsequenceSnoc(xs, ys[1..], y);
        assert (ys + [y])[1..] == ys[1..] + [y];
      }
    } else {
      assert (ys + [y])[1..] == ys[1..] + [y];
      if xs[0] == ys[0] && Subsequence(xs[1..], ys[1..]) {
        SubsequenceSnoc(xs[1..], ys[1..], y);
        assert (xs + [y])[1..] == xs[1..] + [y];
      } else {
        SubsequenceSnoc(xs, ys[1..], y);
      }
    }
  }

  /** `any(key(y) == k for y in s)`. */
  predicate HasKey<T(==), K(==)>(s: seq<T>, key: T -> K, k: K) {
    exists y :: y in s && key(y) == k
  }

  /**
   * The list a loop `if not any(key(y) == key(x) for y in kept): kept.append(x)`
   * builds over `xs`: the first element of each key, in order.
   */
  function KeepFirst<T(==), K(==)>(xs: seq<T>, key: T -> K): (r: seq<T>)
    ensures |r| <= |xs|
  {
    if xs == [] then []
    else
      var kept := KeepFirst(xs[..|xs| - 1], key);
      if HasKey(kept, key, key(xs[|xs| - 1])) then kept else kept + [xs[|xs| - 1]]
  }

  /** What is kept comes from the list, in its order. */
  lemma {:induction false} KeepFirstSubsequence<T, K>(xs: seq<T>, key: T -> K)
    ensures Subsequence(KeepFirst(xs, key), xs)
  {
    if xs != [] {
      var init, x := xs[..|xs| - 1], xs[|xs| - 1];
      KeepFirstSubsequence(init, key);
      SubsequenceSnoc(KeepFirst(init, key), init, x);
      InitAndLast(xs);
    }
  }

  /** No two elements share a key. */
  predicate KeysDistinct<T, K(==)>(s: seq<T>, key: T -> K) {
    forall i, j :: 0 <= i < j < |s| ==> key(s[i]) != key(s[j])
  }

  /** No two elements kept share a key. */
  lemma {:induction false} KeepFirstDistinct<T, K>(xs: seq<T>, key: T -> K)
    ensures KeysDistinct(KeepFirst(xs, key), key)
  {
    if xs != [] {
      var init, x := xs[..|xs| - 1], xs[|xs| - 1];
      KeepFirstDistinct(init, key);
      var kept := KeepFirst(init, key);
      if !HasKey(kept, key, key(x)) {
        var r := kept + [x];
        forall i, j | 0 <= i < j < |r| ensures key(r[i]) != key(r[j]) {
          assert r[i] == kept[i];
          if j == |kept| {
            assert r[j] == x && kept[i] in kept;
          } else {
            assert r[j] == kept[j];
            assert key(kept[i]) != key(kept[j]);
          }
        }
      }
    }
  }

  /** Every key of the list has an element kept. */
  lemma {:induction false} KeepFirstCovers<T, K>(xs: seq<T>, key: T -> K)
    ensures forall x :: x in xs ==> HasKey(KeepFirst(xs, key), key, key(x))
  {
    if xs != [] {
      var init, last := xs[..|xs| - 1], xs[|xs| - 1];
      KeepFirstCovers(init, key);
      var kept := KeepFirst(init, key);
      var r := KeepFirst(xs, key);
      forall x | x in xs ensures HasKey(r, key, key(x)) {
        if x != last {
          InitAndLast(xs);
          assert x in init;
          var y :| y in kept && key(y) == key(x);
          assert y in r;
        } else if !HasKey(kept, key, key(x)) {
          assert r[|r| - 1] == x;
        }
      }
    }
  }

  /** The first element of each key is the one kept. */
  lemma {:induction false} KeepFirstFirst<T, K>(xs: seq<T>, key: T -> K, i: nat)
    requires i < |xs| && forall j :: 0 <= j < i ==> key(xs[j]) != key(xs[i])
    ensures xs[i] in KeepFirst(xs, key)
  {
    var init, last := xs[..|xs| - 1], xs[|xs| - 1];
    var kept := KeepFirst(init, key);
    if i < |xs| - 1 {
      assert forall j :: 0 <= j < i ==> init[j] == xs[j];
      KeepFirstFirst(init, key, i);
    } else {
      KeepFirstSubsequence(init, key);
      SubsequenceMembers(kept, init);
      forall y | y in kept ensures key(y) != key(last) {
        var j :| 0 <= j < |init| && init[j] == y;
        assert xs[j] == y;
      }
    }
  }

  /** The head and tail of a concatenation whose left part is not empty. */
  lemma TailOfAppend<T>(a: seq<T>, b: seq<T>)
    requires |a| > 0
    ensures (a + b)[0] == a[0] && (a + b)[1..] == a[1..] + b
  {
  }

  lemma AppendAssoc<T>(a: seq<T>, b: seq<T>, c: seq<T>)
    ensures (a + b) + c == a + (b + c)
  {
  }

  /** Splitting at any point and joining back. */
  lemma SplitAt<T>(a: seq<T>, n: nat)
    requires n <= |a|
    ensures a[..n] + a[n..] == a
  {
  }

  /** Splitting off the last element. */
  lemma InitAndLast<T>(a: seq<T>)
    requires |a| > 0
    ensures a[..|a| - 1] + [a[|a| - 1]] == a
  {
  }
}
