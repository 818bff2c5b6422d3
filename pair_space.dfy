/**
  The space the two samplers draw from. The edge sampler collects keys of
  unordered pairs of distinct vertex indices below n; there are n(n-1)/2 of
  them, which is the bound the request validation enforces. The loop sampler
  collects vertex indices below n. This module counts both spaces and proves
  that, while fewer keys (indices) than that have been collected, a fresh one
  still exists, so the rejection loops can always make progress.
 */
module PairSpace {
  import opened Keys

  /** The number of unordered pairs of distinct vertices among n. */
  function Pairs(n: nat): nat
  {
    n * (n - 1) / 2
  }

  /** The keys of the pairs (i, j) with i < m. */
  function KeysWith(j: nat, m: nat): set<string>
  {
    if m == 0 then {} else KeysWith(j, m - 1) + {Key(m - 1, j)}
  }

  /** The keys of all unordered pairs of distinct indices below n. */
  function PairKeys(n: nat): set<string>
  {
    if n == 0 then {} else PairKeys(n - 1) + KeysWith(n - 1, n - 1)
  }

  lemma {:induction false} KeysWithMembers(j: nat, m: nat, k: string)
    ensures k in KeysWith(j, m) <==> exists i: nat :: i < m && Key(i, j) == k
  {
    if m > 0 {
      KeysWithMembers(j, m - 1, k);
    }
  }

  lemma {:induction false} PairKeysMembers(n: nat, k: string)
    ensures k in PairKeys(n) <==> exists i: nat, j: nat :: i < j < n && Key(i, j) == k
  {
    if n > 0 {
      PairKeysMembers(n - 1, k);
      KeysWithMembers(n - 1, n - 1, k);
    }
  }

  /** The key of every pair of distinct indices below n, in either order, is one of PairKeys(n). */
  lemma KeyInPairKeys(s: nat, e: nat, n: nat)
    requires s < n && e < n && s != e
    ensures Key(s, e) in PairKeys(n)
  {
    KeySymmetric(s, e);
    if s < e {
      PairKeysMembers(n, Key(s, e));
    } else {
      PairKeysMembers(n, Key(e, s));
    }
  }

  lemma {:induction false} KeysWithCount(j: nat, m: nat)
    requires m <= j
    ensures |KeysWith(j, m)| == m
  {
    if m > 0 {
      KeysWithCount(j, m - 1);
      if Key(m - 1, j) in KeysWith(j, m - 1) {
        KeysWithMembers(j, m - 1, Key(m - 1, j));
        var i: nat :| i < m - 1 && Key(i, j) == Key(m - 1, j);
        KeyInjective(i, j, m - 1, j);
      }
    }
  }

  lemma PairsStep(n: nat)
    requires n > 0
    ensures Pairs(n) == Pairs(n - 1) + (n - 1)
  {
    assert n * (n - 1) == (n - 1) * (n - 2) + 2 * (n - 1);
  }

  /** There are exactly n(n-1)/2 edge keys among n vertices. */
  lemma {:induction false} PairKeysCount(n: nat)
    ensures |PairKeys(n)| == Pairs(n)
  {
    if n > 0 {
      var m := n - 1;
      var prev, last := PairKeys(m), KeysWith(m, m);
      PairKeysCount(m);
      KeysWithCount(m, m);
      forall k | k in prev
        ensures k !in last
      {
        PairKeysMembers(m, k);
        var i: nat, j: nat :| i < j < m && Key(i, j) == k;
        forall i': nat | i' < m ensures Key(i', m) != k {
          KeyIdentifiesPair(i', m, i, j);
        }
        KeysWithMembers(m, m, k);
      }
      assert prev * last == {};
      PairsStep(n);
    }
  }

  /**
    While fewer than n(n-1)/2 keys have been collected, some pair of distinct
    indices below n still has a key that is not among them.
   */
  lemma FreshPairExists(n: nat, seen: set<string>)
    requires seen <= PairKeys(n)
    requires |seen| < Pairs(n)
    ensures exists i: nat, j: nat :: i < j < n && Key(i, j) !in seen
  {
    PairKeysCount(n);
    var rest := PairKeys(n) - seen;
    assert |rest| > 0;
    var k :| k in rest;
    PairKeysMembers(n, k);
  }

  /** The vertex indices below n. */
  function Indices(n: nat): set<nat>
  {
    if n == 0 then {} else Indices(n - 1) + {n - 1}
  }

  lemma {:induction false} IndicesMembers(n: nat, i: nat)
    ensures i in Indices(n) <==> i < n
  {
    if n > 0 {
      IndicesMembers(n - 1, i);
    }
  }

  lemma {:induction false} IndicesCount(n: nat)
    ensures |Indices(n)| == n
  {
    if n > 0 {
      IndicesCount(n - 1);
      IndicesMembers(n - 1, n - 1);
    }
  }

  /** While fewer than n indices have been collected, some index below n is still fresh. */
  lemma FreshIndexExists(n: nat, seen: set<nat>)
    requires forall i :: i in seen ==> i < n
    requires |seen| < n
    ensures exists i: nat :: i < n && i !in seen
  {
    IndicesCount(n);
    forall i | i in seen ensures i in Indices(n) { IndicesMembers(n, i); }
    var rest := Indices(n) - seen;
    assert |rest| > 0;
    var i :| i in rest;
    IndicesMembers(n, i);
  }
}
