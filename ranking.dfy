/**
 * Python's `sorted(xs, key=rank, reverse=True)[:n]`: a stable sort, best
 * first, then the first `n`. Written once over any element type and any
 * ranking, and used for the template search results and for the most
 * often missing documents.
 */
module Ranking {
  import opened Sequences

  /** Best first: no element ranks above one before it. */
  predicate NonIncreasing<T>(s: seq<T>, rank: T -> real) {
    forall i, j :: 0 <= i < j < |s| ==> rank(s[i]) >= rank(s[j])
  }

  /** Inserting behind every element ranked at least as high, so that ties keep their order. */
  function Insert<T>(sorted: seq<T>, x: T, rank: T -> real): seq<T> {
    if sorted == [] then [x]
    else if rank(sorted[|sorted| - 1]) >= rank(x) then sorted + [x]
    else Insert(sorted[..|sorted| - 1], x, rank) + [sorted[|sorted| - 1]]
  }

  /** Insertion adds exactly the one element. */
  lemma {:induction false} InsertCounts<T>(sorted: seq<T>, x: T, rank: T -> real)
    ensures multiset(Insert(sorted, x, rank)) == multiset(sorted) + multiset{x}
  {
    if sorted != [] && rank(sorted[|sorted| - 1]) < rank(x) {
      var init, last := sorted[..|sorted| - 1], sorted[|sorted| - 1];
      InitAndLast(sorted);
      InsertCounts(init, x, rank);
    }
  }

  /** Every element ranks at least `b`. */
  predicate AllAtLeast<T>(s: seq<T>, b: real, rank: T -> real) {
    forall k :: 0 <= k < |s| ==> rank(s[k]) >= b
  }

  /** A sorted list stays sorted when an element ranked no higher than all of it is appended. */
  lemma AppendSorted<T>(s: seq<T>, x: T, rank: T -> real)
    requires NonIncreasing(s, rank) && AllAtLeast(s, rank(x), rank)
    ensures NonIncreasing(s + [x], rank)
  {
    var r := s + [x];
    forall i, j | 0 <= i < j < |r| ensures rank(r[i]) >= rank(r[j]) {
      assert r[i] == s[i];
      if j < |s| {
        assert r[j] == s[j];
      }
    }
  }

  /** Insertion keeps a lower bound that the inserted element meets. */
  lemma {:induction false} InsertBounded<T>(sorted: seq<T>, x: T, rank: T -> real, b: real)
    requires AllAtLeast(sorted, b, rank) && rank(x) >= b
    ensures AllAtLeast(Insert(sorted, x, rank), b, rank)
  {
    if sorted != [] && rank(sorted[|sorted| - 1]) < rank(x) {
      var init, last := sorted[..|sorted| - 1], sorted[|sorted| - 1];
      assert AllAtLeast(init, b, rank) by {
        forall k | 0 <= k < |init| ensures rank(init[k]) >= b {
          assert init[k] == sorted[k];
        }
      }
      InsertBounded(init, x, rank, b);
      var front := Insert(init, x, rank);
      forall k | 0 <= k < |front| + 1 ensures rank((front + [last])[k]) >= b {
        if k < |front| {
          assert (front + [last])[k] == front[k];
        }
      }
    }
  }

  /** Insertion into a list sorted best first keeps it sorted. */
  lemma {:induction false} InsertSorted<T>(sorted: seq<T>, x: T, rank: T -> real)
    requires NonIncreasing(sorted, rank)
    ensures NonIncreasing(Insert(sorted, x, rank), rank)
  {
    if sorted == [] {
    } else {
      var init, last := sorted[..|sorted| - 1], sorted[|sorted| - 1];
      if rank(last) >= rank(x) {
        assert AllAtLeast(sorted, rank(x), rank) by {
          forall k | 0 <= k < |sorted| ensures rank(sorted[k]) >= rank(x) {
            if k < |sorted| - 1 {
              assert rank(sorted[k]) >= rank(last);
            }
          }
        }
        AppendSorted(sorted, x, rank);
      } else {
        assert NonIncreasing(init, rank) by {
          forall i, j | 0 <= i < j < |init| ensures rank(init[i]) >= rank(init[j]) {
            assert init[i] == sorted[i] && init[j] == sorted[j];
          }
        }
        assert AllAtLeast(init, rank(last), rank) by {
          forall k | 0 <= k < |init| ensures rank(init[k]) >= rank(last) {
            assert init[k] == sorted[k];
          }
        }
        InsertSorted(init, x, rank);
        InsertBounded(init, x, rank, rank(last));
        AppendSorted(Insert(init, x, rank), last, rank);
      }
    }
  }

  /** `sorted(s, key=rank, reverse=True)`, which is stable. */
  function SortDesc<T>(s: seq<T>, rank: T -> real): seq<T> {
    if s == [] then [] else Insert(SortDesc(s[..|s| - 1], rank), s[|s| - 1], rank)
  }

  /** The sort orders best first. */
  lemma {:induction false} SortDescSorted<T>(s: seq<T>, rank: T -> real)
    ensures NonIncreasing(SortDesc(s, rank), rank)
  {
    if s != [] {
      SortDescSorted(s[..|s| - 1], rank);
      InsertSorted(SortDesc(s[..|s| - 1], rank), s[|s| - 1], rank);
    }
  }

  /** The sort keeps every element, as often as it occurs. */
  lemma {:induction false} SortDescCounts<T>(s: seq<T>, rank: T -> real)
    ensures multiset(SortDesc(s, rank)) == multiset(s)
  {
    if s != [] {
      var init, last := s[..|s| - 1], s[|s| - 1];
      SortDescCounts(init, rank);
      InsertCounts(SortDesc(init, rank), last, rank);
      InitAndLast(s);
    }
  }

  /** `sorted(...)[:n]`. */
  function Top<T>(s: seq<T>, n: nat, rank: T -> real): seq<T> {
    var sorted := SortDesc(s, rank);
    if |sorted| <= n then sorted else sorted[..n]
  }

  /** What `[:n]` leaves out: the elements sorted after the first `n`. */
  function Rest<T>(s: seq<T>, n: nat, rank: T -> real): seq<T> {
    var sorted := SortDesc(s, rank);
    if |sorted| <= n then [] else sorted[n..]
  }

  /** At most `n` elements, exactly `n` when there are that many, best first. */
  lemma TopSorted<T>(s: seq<T>, n: nat, rank: T -> real)
    ensures |Top(s, n, rank)| == if |s| <= n then |s| else n
    ensures NonIncreasing(Top(s, n, rank), rank)
  {
    SortDescSorted(s, rank);
    SortDescCounts(s, rank);
    assert |multiset(SortDesc(s, rank))| == |multiset(s)|;
  }

  /** The elements kept and those left out make up all the elements. */
  lemma TopSplit<T>(s: seq<T>, n: nat, rank: T -> real)
    ensures multiset(Top(s, n, rank)) + multiset(Rest(s, n, rank)) == multiset(s)
  {
    var sorted := SortDesc(s, rank);
    SortDescCounts(s, rank);
    if |sorted| > n {
      SplitHere(sorted, n);
    } else {
      assert sorted + [] == sorted;
    }
  }

  lemma SplitHere<T>(a: seq<T>, n: nat)
    requires n <= |a|
    ensures multiset(a[..n]) + multiset(a[n..]) == multiset(a)
  {
    SplitAt(a, n);
  }

  /** No element left out ranks above any element kept. */
  lemma TopBest<T>(s: seq<T>, n: nat, rank: T -> real)
    ensures forall x, y :: x in Rest(s, n, rank) && y in Top(s, n, rank) ==> rank(x) <= rank(y)
  {
    var sorted := SortDesc(s, rank);
    SortDescSorted(s, rank);
    var top, rest := Top(s, n, rank), Rest(s, n, rank);
    if |sorted| > n {
      forall x, y | x in rest && y in top
        ensures rank(x) <= rank(y)
      {
        var i :| 0 <= i < |rest| && rest[i] == x;
        var j :| 0 <= j < |top| && top[j] == y;
        assert sorted[j] == y && sorted[n + i] == x;
      }
    }
  }

  /** Only elements of the list are kept. */
  lemma TopMembers<T>(s: seq<T>, n: nat, rank: T -> real)
    ensures forall x :: x in Top(s, n, rank) ==> x in s
  {
    TopSplit(s, n, rank);
    forall x | x in Top(s, n, rank) ensures x in s {
      assert x in multiset(Top(s, n, rank));
      assert x in multiset(s);
    }
  }
}
