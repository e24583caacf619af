/**
 * Counting into a dictionary, as `d[k] = d.get(k, 0) + 1` does in a loop:
 * the keys stay in first-occurrence order (a Python dict keeps insertion
 * order) and the counts add up to the number of items counted.
 */
module Tally {

  /** The number of occurrences of `k` in `ks`. */
  function Count<K(==)>(ks: seq<K>, k: K): (n: nat)
    ensures n <= |ks|
    ensures n == 0 <==> k !in ks
  {
    if ks == [] then 0 else Count(ks[..|ks| - 1], k) + (if ks[|ks| - 1] == k then 1 else 0)
  }

  /** The keys of a tally, in order. */
  function Keys<K>(t: seq<(K, nat)>): (ks: seq<K>)
    ensures |ks| == |t|
    ensures forall i :: 0 <= i < |t| ==> ks[i] == t[i].0
  {
    seq(|t|, i requires 0 <= i < |t| => t[i].0)
  }

  predicate DistinctKeys<K(==)>(t: seq<(K, nat)>) {
    forall i, j :: 0 <= i < j < |t| ==> t[i].0 != t[j].0
  }

  /** `d.get(k, 0)`. */
  function Get<K(==)>(t: seq<(K, nat)>, k: K): nat {
    if t == [] then 0 else if t[0].0 == k then t[0].1 else Get(t[1..], k)
  }

  /** The sum of the counts. */
  function Total<K>(t: seq<(K, nat)>): nat {
    if t == [] then 0 else t[0].1 + Total(t[1..])
  }

  /** `d[k] = d.get(k, 0) + 1`: bump an existing key in place, or append it with count 1. */
  function Bump<K(==)>(t: seq<(K, nat)>, k: K): (r: seq<(K, nat)>)
    ensures Keys(r) == if k in Keys(t) then Keys(t) else Keys(t) + [k]
  {
    if t == [] then [(k, 1)]
    else if t[0].0 == k then [(k, t[0].1 + 1)] + t[1..]
    else
      assert Keys(t) == [t[0].0] + Keys(t[1..]);
      var rest := Bump(t[1..], k);
      assert Keys([t[0]] + rest) == [t[0].0] + Keys(rest);
      [t[0]] + rest
  }

  /** The dictionary a counting loop over `ks` builds. */
  function Tally<K(==)>(ks: seq<K>): seq<(K, nat)> {
    if ks == [] then [] else Bump(Tally(ks[..|ks| - 1]), ks[|ks| - 1])
  }

  lemma {:induction false} BumpTotal<K>(t: seq<(K, nat)>, k: K)
    ensures Total(Bump(t, k)) == Total(t) + 1
  {
    if t != [] && t[0].0 != k {
      BumpTotal(t[1..], k);
      assert Bump(t, k)[1..] == Bump(t[1..], k);
    }
  }

  lemma {:induction false} BumpGet<K>(t: seq<(K, nat)>, k: K, x: K)
    ensures Get(Bump(t, k), x) == Get(t, x) + (if x == k then 1 else 0)
  {
    if t != [] && t[0].0 != k {
      BumpGet(t[1..], k, x);
      assert Bump(t, k)[1..] == Bump(t[1..], k);
    }
  }

  lemma {:induction false} BumpDistinct<K>(t: seq<(K, nat)>, k: K)
    requires DistinctKeys(t)
    ensures DistinctKeys(Bump(t, k))
  {
    var r := Bump(t, k);
    forall i, j | 0 <= i < j < |r| ensures r[i].0 != r[j].0 {
      assert Keys(r)[i] == r[i].0 && Keys(r)[j] == r[j].0;
      if k !in Keys(t) && j == |t| {
        assert Keys(t)[i] == t[i].0;
      } else {
        assert Keys(t)[i] == t[i].0 && Keys(t)[j] == t[j].0;
      }
    }
  }

  /** The counts add up to the number of items counted. */
  lemma {:induction false} TallyTotal<K>(ks: seq<K>)
    ensures Total(Tally(ks)) == |ks|
  {
    if ks != [] {
      TallyTotal(ks[..|ks| - 1]);
      BumpTotal(Tally(ks[..|ks| - 1]), ks[|ks| - 1]);
    }
  }

  /** Each key's count is its number of occurrences, and a key is present iff it occurs. */
  lemma {:induction false} TallyGet<K>(ks: seq<K>, k: K)
    ensures Get(Tally(ks), k) == Count(ks, k)
    ensures k in Keys(Tally(ks)) <==> k in ks
  {
    if ks != [] {
      var init := ks[..|ks| - 1];
      TallyGet(init, k);
      BumpGet(Tally(init), ks[|ks| - 1], k);
      assert ks == init + [ks[|ks| - 1]];
    }
  }

  /** Every key appears once. */
  lemma {:induction false} TallyDistinct<K>(ks: seq<K>)
    ensures DistinctKeys(Tally(ks))
  {
    if ks != [] {
      TallyDistinct(ks[..|ks| - 1]);
      BumpDistinct(Tally(ks[..|ks| - 1]), ks[|ks| - 1]);
    }
  }

  /** Counting one more item is one more bump. */
  lemma TallySnoc<K>(ks: seq<K>, k: K)
    ensures Tally(ks + [k]) == Bump(Tally(ks), k)
  {
    assert (ks + [k])[..|ks|] == ks;
  }

  /** Every count of a tally is at least one. */
  predicate Positive<K>(t: seq<(K, nat)>) {
    forall i :: 0 <= i < |t| ==> t[i].1 >= 1
  }

  lemma {:induction false} BumpPositive<K>(t: seq<(K, nat)>, k: K)
    requires Positive(t)
    ensures Positive(Bump(t, k))
  {
    if t != [] && t[0].0 != k {
      assert Positive(t[1..]) by {
        forall i | 0 <= i < |t[1..]| ensures t[1..][i].1 >= 1 {
          assert t[1..][i] == t[i + 1];
        }
      }
      BumpPositive(t[1..], k);
    }
  }

  /** Only keys that occur are counted. */
  lemma {:induction false} TallyPositive<K>(ks: seq<K>)
    ensures Positive(Tally(ks))
  {
    if ks != [] {
      TallyPositive(ks[..|ks| - 1]);
      BumpPositive(Tally(ks[..|ks| - 1]), ks[|ks| - 1]);
    }
  }

  /** With distinct keys, the count stored beside a key is the one `Get` finds. */
  lemma {:induction false} GetOfMember<K>(t: seq<(K, nat)>, k: K, c: nat)
    requires DistinctKeys(t) && (k, c) in t
    ensures Get(t, k) == c
  {
    if t[0] != (k, c) {
      var i :| 0 <= i < |t| && t[i] == (k, c);
      assert t[0].0 != k by {
        assert 0 < i;
      }
      assert t[1..][i - 1] == (k, c);
      assert DistinctKeys(t[1..]) by {
        forall a, b | 0 <= a < b < |t[1..]| ensures t[1..][a].0 != t[1..][b].0 {
          assert t[1..][a] == t[a + 1] && t[1..][b] == t[b + 1];
        }
      }
      GetOfMember(t[1..], k, c);
    }
  }
}
