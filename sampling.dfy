/**
  The sampling of graph.js: how generateVertices, generateEdges and
  generateLoops turn a stream of random draws into a graph.

  Math.random is modelled as a supplied stream `draws` of reals in [0, 1).
  Each sampler is a rejection loop: it redraws until a candidate is
  acceptable. The source's loops have no bound on their attempts; on a finite
  stream a loop stops when the stream runs out, and the lemmas here state
  that this is the only way it can stop short.

  Every loop is written as the source runs it (PlaceVertices, RunEdges,
  RunLoops). The edge and loop samplers are also written as an independent
  reference on index pairs and indices, AcceptedPairs and AcceptedIndices,
  and each is proved equal to that reference. Vertex placement's facts are
  proved about PlaceVertices directly.
 */
module Sampling {
  import opened Keys
  import opened PairSpace

  const MinDistance: real := 50.0
  const Margin: real := 50.0
  const CanvasHeight: real := 600.0
  const MaxCanvasWidth: real := 800.0

  datatype Vertex = Vertex(x: real, y: real, id: int)

  /** An edge keeps both vertices in the order they were drawn; the order is the arrow's direction. */
  datatype Edge = Edge(startVertex: Vertex, endVertex: Vertex)

  function Min(a: real, b: real): real { if a <= b then a else b }

  // ---------------------------------------------------------------- random draws

  predicate IsUnit(r: real) { 0.0 <= r < 1.0 }

  /** What Math.random promises of every draw. */
  predicate AllUnit(draws: seq<real>) { forall k :: 0 <= k < |draws| ==> IsUnit(draws[k]) }

  lemma AllUnitSuffix(draws: seq<real>, from: nat)
    requires AllUnit(draws) && from <= |draws|
    ensures AllUnit(draws[from..])
  {
    forall k | 0 <= k < |draws| - from ensures IsUnit(draws[from..][k]) {
      assert draws[from..][k] == draws[from + k];
    }
  }

  lemma ScaleBounds(r: real, w: real)
    requires IsUnit(r) && w >= 0.0
    ensures 0.0 <= r * w <= w
    ensures w > 0.0 ==> r * w < w
  {
  }

  /** `Math.floor(Math.random() * n)`: an index below n (0 when n is 0). */
  function RandomIndex(r: real, n: nat): (k: nat)
    requires IsUnit(r)
    ensures n > 0 ==> k < n
    ensures n == 0 ==> k == 0
  {
    ScaleBounds(r, n as real);
    (r * n as real).Floor
  }

  /** The index pair drawn by the edge sampler's attempt t (two draws per attempt). */
  function Attempt(draws: seq<real>, n: nat, t: nat): (p: (nat, nat))
    requires AllUnit(draws) && 2 * t + 1 < |draws|
    ensures n > 0 ==> p.0 < n && p.1 < n
  {
    (RandomIndex(draws[2 * t], n), RandomIndex(draws[2 * t + 1], n))
  }

  ghost predicate PairDrawn(draws: seq<real>, n: nat, i: nat, j: nat)
    requires AllUnit(draws)
  {
    exists t: nat :: 2 * t + 1 < |draws| && SamePair(Attempt(draws, n, t).0, Attempt(draws, n, t).1, i, j)
  }

  /** Some attempt of the stream hits every unordered pair of distinct indices below n. */
  ghost predicate EveryPairDrawn(draws: seq<real>, n: nat)
    requires AllUnit(draws)
  {
    forall i: nat, j: nat :: i < j < n ==> PairDrawn(draws, n, i, j)
  }

  ghost predicate IndexDrawn(draws: seq<real>, n: nat, i: nat)
    requires AllUnit(draws)
  {
    exists t: nat :: t < |draws| && RandomIndex(draws[t], n) == i
  }

  /** Some draw of the stream hits every index below n. */
  ghost predicate EveryIndexDrawn(draws: seq<real>, n: nat)
    requires AllUnit(draws)
  {
    forall i: nat :: i < n ==> IndexDrawn(draws, n, i)
  }

  // ---------------------------------------------------------------- what rejection sampling accepts

  /** No pair of `picks` is the unordered pair {p.0, p.1}. */
  predicate Unpaired(picks: seq<(nat, nat)>, p: (nat, nat))
  {
    forall k :: 0 <= k < |picks| ==> !SamePair(picks[k].0, picks[k].1, p.0, p.1)
  }

  /**
    The index pairs the edge sampler keeps from its first T attempts: an
    attempt is kept when its two indices differ and its unordered pair has not
    been kept before. This is stated on unordered pairs, not on string keys.
   */
  ghost function AcceptedPairs(draws: seq<real>, n: nat, T: nat): seq<(nat, nat)>
    requires AllUnit(draws) && 2 * T <= |draws|
  {
    if T == 0 then []
    else
      var prev := AcceptedPairs(draws, n, T - 1);
      var p := Attempt(draws, n, T - 1);
      if p.0 != p.1 && Unpaired(prev, p) then prev + [p] else prev
  }

  /** The vertex indices the loop sampler keeps from its first T draws: each index the first time it is drawn. */
  ghost function AcceptedIndices(draws: seq<real>, n: nat, T: nat): seq<nat>
    requires AllUnit(draws) && T <= |draws|
  {
    if T == 0 then []
    else
      var prev := AcceptedIndices(draws, n, T - 1);
      var i := RandomIndex(draws[T - 1], n);
      if i !in prev then prev + [i] else prev
  }

  /** The keys of a sequence of index pairs. */
  function KeysOf(picks: seq<(nat, nat)>): set<string>
  {
    if picks == [] then {} else KeysOf(picks[..|picks| - 1]) + {Key(picks[|picks| - 1].0, picks[|picks| - 1].1)}
  }

  lemma KeysOfAppend(picks: seq<(nat, nat)>, p: (nat, nat))
    ensures KeysOf(picks + [p]) == KeysOf(picks) + {Key(p.0, p.1)}
  {
    assert (picks + [p])[..|picks|] == picks;
  }

  lemma {:induction false} KeysOfMembers(picks: seq<(nat, nat)>, s: string)
    ensures s in KeysOf(picks) <==> exists k :: 0 <= k < |picks| && Key(picks[k].0, picks[k].1) == s
  {
    if picks != [] {
      var init := picks[..|picks| - 1];
      KeysOfMembers(init, s);
      assert forall k :: 0 <= k < |init| ==> init[k] == picks[k];
    }
  }

  /** The edges between vertices of vs that index pairs give, in order. */
  function EdgesOf(vs: seq<Vertex>, picks: seq<(nat, nat)>): (es: seq<Edge>)
    requires forall k :: 0 <= k < |picks| ==> picks[k].0 < |vs| && picks[k].1 < |vs|
    ensures |es| == |picks|
  {
    if picks == [] then []
    else
      var p := picks[|picks| - 1];
      EdgesOf(vs, picks[..|picks| - 1]) + [Edge(vs[p.0], vs[p.1])]
  }

  lemma {:induction false} EdgesOfAt(vs: seq<Vertex>, picks: seq<(nat, nat)>, k: nat)
    requires forall k :: 0 <= k < |picks| ==> picks[k].0 < |vs| && picks[k].1 < |vs|
    requires k < |picks|
    ensures EdgesOf(vs, picks)[k] == Edge(vs[picks[k].0], vs[picks[k].1])
  {
    if k < |picks| - 1 {
      EdgesOfAt(vs, picks[..|picks| - 1], k);
    }
  }

  /** Each pair joins two different indices below n, and no two pairs are the same unordered pair. */
  predicate SimplePicks(picks: seq<(nat, nat)>, n: nat)
  {
    && (forall k :: 0 <= k < |picks| ==> picks[k].0 < n && picks[k].1 < n && picks[k].0 != picks[k].1)
    && (forall k, l :: 0 <= k < l < |picks| ==> !SamePair(picks[k].0, picks[k].1, picks[l].0, picks[l].1))
  }

  lemma SimplePicksAppend(picks: seq<(nat, nat)>, p: (nat, nat), n: nat)
    requires SimplePicks(picks, n)
    requires p.0 < n && p.1 < n && p.0 != p.1 && Unpaired(picks, p)
    ensures SimplePicks(picks + [p], n)
  {
    var q := picks + [p];
    assert forall k :: 0 <= k < |picks| ==> q[k] == picks[k];
  }

  /** The pairs AcceptedPairs keeps join two different indices below n, and no two are the same unordered pair. */
  lemma {:induction false} AcceptedPairsAreSimple(draws: seq<real>, n: nat, T: nat)
    requires AllUnit(draws) && 2 * T <= |draws|
    ensures SimplePicks(AcceptedPairs(draws, n, T), n)
  {
    if T > 0 {
      AcceptedPairsAreSimple(draws, n, T - 1);
      var prev, p := AcceptedPairs(draws, n, T - 1), Attempt(draws, n, T - 1);
      if p.0 != p.1 && Unpaired(prev, p) {
        SimplePicksAppend(prev, p, n);
      }
    }
  }

  /** Indices below n, pairwise different. */
  predicate DistinctPicks(picks: seq<nat>, n: nat)
  {
    && (forall k :: 0 <= k < |picks| ==> picks[k] < n)
    && (forall k, l :: 0 <= k < l < |picks| ==> picks[k] != picks[l])
  }

  lemma DistinctPicksAppend(picks: seq<nat>, i: nat, n: nat)
    requires DistinctPicks(picks, n)
    requires i < n && i !in picks
    ensures DistinctPicks(picks + [i], n)
  {
    var q := picks + [i];
    assert forall k :: 0 <= k < |picks| ==> q[k] == picks[k];
  }

  /** With a vertex to draw from, the indices AcceptedIndices keeps are below n and pairwise different. */
  lemma {:induction false} AcceptedIndicesAreDistinct(draws: seq<real>, n: nat, T: nat)
    requires AllUnit(draws) && T <= |draws|
    requires n > 0 || T == 0
    ensures DistinctPicks(AcceptedIndices(draws, n, T), n)
  {
    if T > 0 {
      AcceptedIndicesAreDistinct(draws, n, T - 1);
      var prev, i := AcceptedIndices(draws, n, T - 1), RandomIndex(draws[T - 1], n);
      if i !in prev {
        DistinctPicksAppend(prev, i, n);
      }
    }
  }

  /** The loop vertices that indices give, in order. */
  function LoopsOf(vs: seq<Vertex>, picks: seq<nat>): (ls: seq<Vertex>)
    requires forall k :: 0 <= k < |picks| ==> picks[k] < |vs|
    ensures |ls| == |picks|
  {
    if picks == [] then [] else LoopsOf(vs, picks[..|picks| - 1]) + [vs[picks[|picks| - 1]]]
  }

  lemma {:induction false} LoopsOfAt(vs: seq<Vertex>, picks: seq<nat>, k: nat)
    requires forall k :: 0 <= k < |picks| ==> picks[k] < |vs|
    requires k < |picks|
    ensures LoopsOf(vs, picks)[k] == vs[picks[k]]
  {
    if k < |picks| - 1 {
      LoopsOfAt(vs, picks[..|picks| - 1], k);
    }
  }

  lemma EdgesOfAppend(vs: seq<Vertex>, picks: seq<(nat, nat)>, p: (nat, nat))
    requires forall k :: 0 <= k < |picks| ==> picks[k].0 < |vs| && picks[k].1 < |vs|
    requires p.0 < |vs| && p.1 < |vs|
    ensures EdgesOf(vs, picks + [p]) == EdgesOf(vs, picks) + [Edge(vs[p.0], vs[p.1])]
  {
    assert (picks + [p])[..|picks|] == picks;
  }

  lemma LoopsOfAppend(vs: seq<Vertex>, picks: seq<nat>, i: nat)
    requires forall k :: 0 <= k < |picks| ==> picks[k] < |vs|
    requires i < |vs|
    ensures LoopsOf(vs, picks + [i]) == LoopsOf(vs, picks) + [vs[i]]
  {
    assert (picks + [i])[..|picks|] == picks;
  }

  /** The set of a sequence of indices. */
  function IndexSet(picks: seq<nat>): set<nat>
  {
    if picks == [] then {} else IndexSet(picks[..|picks| - 1]) + {picks[|picks| - 1]}
  }

  lemma {:induction false} IndexSetMembers(picks: seq<nat>, i: nat)
    ensures i in IndexSet(picks) <==> i in picks
  {
    if picks != [] {
      IndexSetMembers(picks[..|picks| - 1], i);
      assert picks == picks[..|picks| - 1] + [picks[|picks| - 1]];
    }
  }

  /** A pair's key is new to KeysOf(picks) exactly when the pair is new to picks. */
  lemma FreshKeyIsFreshPair(picks: seq<(nat, nat)>, p: (nat, nat))
    ensures Key(p.0, p.1) !in KeysOf(picks) <==> Unpaired(picks, p)
  {
    KeysOfMembers(picks, Key(p.0, p.1));
    forall k | 0 <= k < |picks|
      ensures Key(picks[k].0, picks[k].1) == Key(p.0, p.1) <==> SamePair(picks[k].0, picks[k].1, p.0, p.1)
    {
      KeyIdentifiesPair(picks[k].0, picks[k].1, p.0, p.1);
    }
  }

  // ---------------------------------------------------------------- geometry

  /** `Math.random() * (extent - 100) + 50`. */
  function Coordinate(r: real, extent: real): real
  {
    r * (extent - 2.0 * Margin) + Margin
  }

  /** Between the two 50-unit margins of an axis (the margins cross over on a canvas under 100 wide). */
  predicate WithinMargins(c: real, extent: real)
  {
    if extent >= 2.0 * Margin then Margin <= c <= extent - Margin else extent - Margin <= c <= Margin
  }

  lemma ScaleNegativeBounds(r: real, d: real)
    requires IsUnit(r) && d <= 0.0
    ensures d <= r * d <= 0.0
  {
  }

  lemma CoordinateWithinMargins(r: real, extent: real)
    requires IsUnit(r)
    ensures WithinMargins(Coordinate(r, extent), extent)
  {
    var d := extent - 2.0 * Margin;
    assert Coordinate(r, extent) == r * d + Margin;
    if d >= 0.0 {
      ScaleBounds(r, d);
      assert r * d <= d;
    } else {
      ScaleNegativeBounds(r, d);
      assert d <= r * d;
    }
  }

  /**
    `Math.sqrt((x - v.x) ** 2 + (y - v.y) ** 2) >= minDistance`, over the reals,
    where a square root is at least 50 exactly when its argument is at least 2500.
   */
  predicate FarFrom(x: real, y: real, v: Vertex)
  {
    (x - v.x) * (x - v.x) + (y - v.y) * (y - v.y) >= MinDistance * MinDistance
  }

  /** `vertices.every(...)` of the placement loop. */
  predicate FarFromAll(x: real, y: real, vs: seq<Vertex>)
  {
    forall k :: 0 <= k < |vs| ==> FarFrom(x, y, vs[k])
  }

  // ---------------------------------------------------------------- the graph invariants

  /** The vertex at index k has id k + 1. */
  predicate IdsSequential(vs: seq<Vertex>)
  {
    forall k :: 0 <= k < |vs| ==> vs[k].id == k + 1
  }

  /** Every vertex is at least MinDistance from every vertex placed before it. */
  predicate Spaced(vs: seq<Vertex>)
  {
    forall i, j :: 0 <= i < j < |vs| ==> FarFrom(vs[j].x, vs[j].y, vs[i])
  }

  predicate SameEnds(a: Edge, b: Edge)
  {
    (a.startVertex == b.startVertex && a.endVertex == b.endVertex) ||
    (a.startVertex == b.endVertex && a.endVertex == b.startVertex)
  }

  /** Every edge joins two different vertices of vs, and no two edges join the same two vertices. */
  predicate SimpleEdges(vs: seq<Vertex>, es: seq<Edge>)
  {
    && (forall k :: 0 <= k < |es| ==>
          es[k].startVertex in vs && es[k].endVertex in vs && es[k].startVertex != es[k].endVertex)
    && (forall k, l :: 0 <= k < l < |es| ==> !SameEnds(es[k], es[l]))
  }

  /** Every loop sits on a vertex of vs, and no vertex has two loops. */
  predicate DistinctLoops(vs: seq<Vertex>, ls: seq<Vertex>)
  {
    && (forall k :: 0 <= k < |ls| ==> ls[k] in vs)
    && (forall k, l :: 0 <= k < l < |ls| ==> ls[k] != ls[l])
  }

  /** Ids 1..n in order, vertices spaced apart, simple edges and at most one loop per vertex. */
  predicate WellFormed(vs: seq<Vertex>, es: seq<Edge>, ls: seq<Vertex>)
  {
    IdsSequential(vs) && Spaced(vs) && SimpleEdges(vs, es) && DistinctLoops(vs, ls)
  }

  /** With ids 1..n, the edges of pairs of distinct indices join distinct vertices, and distinct pairs give distinct edges. */
  lemma PicksMakeSimpleEdges(vs: seq<Vertex>, picks: seq<(nat, nat)>)
    requires IdsSequential(vs)
    requires SimplePicks(picks, |vs|)
    ensures SimpleEdges(vs, EdgesOf(vs, picks))
  {
    var es := EdgesOf(vs, picks);
    forall k | 0 <= k < |es|
      ensures es[k] == Edge(vs[picks[k].0], vs[picks[k].1])
    {
      EdgesOfAt(vs, picks, k);
    }
    forall k, l | 0 <= k < l < |es| ensures !SameEnds(es[k], es[l]) {
      var p, q := picks[k], picks[l];
      assert vs[p.0].id == p.0 + 1 && vs[p.1].id == p.1 + 1;
      assert vs[q.0].id == q.0 + 1 && vs[q.1].id == q.1 + 1;
    }
    forall k | 0 <= k < |es| ensures es[k].startVertex != es[k].endVertex {
      assert vs[picks[k].0].id == picks[k].0 + 1 && vs[picks[k].1].id == picks[k].1 + 1;
    }
  }

  /** With ids 1..n, the loops of distinct indices sit on distinct vertices. */
  lemma PicksMakeDistinctLoops(vs: seq<Vertex>, picks: seq<nat>)
    requires IdsSequential(vs)
    requires DistinctPicks(picks, |vs|)
    ensures DistinctLoops(vs, LoopsOf(vs, picks))
  {
    var ls := LoopsOf(vs, picks);
    forall k | 0 <= k < |ls| ensures ls[k] == vs[picks[k]] {
      LoopsOfAt(vs, picks, k);
    }
    forall k, l | 0 <= k < l < |ls| ensures ls[k] != ls[l] {
      assert vs[picks[k]].id == picks[k] + 1 && vs[picks[l]].id == picks[l] + 1;
    }
  }

  // ---------------------------------------------------------------- completeness of the samplers

  /** Attempt t, if its indices differ, has its key in `seen`. */
  ghost predicate AttemptSeen(draws: seq<real>, n: nat, t: nat, seen: set<string>)
    requires AllUnit(draws) && 2 * t + 1 < |draws|
  {
    var p := Attempt(draws, n, t);
    p.0 != p.1 ==> Key(p.0, p.1) in seen
  }

  /** Each of the first T attempts is seen. */
  ghost predicate AttemptsSeen(draws: seq<real>, n: nat, T: nat, seen: set<string>)
    requires AllUnit(draws) && 2 * T <= |draws|
  {
    T > 0 ==> AttemptsSeen(draws, n, T - 1, seen) && AttemptSeen(draws, n, T - 1, seen)
  }

  lemma {:induction false} AttemptsSeenGrow(draws: seq<real>, n: nat, T: nat, seen: set<string>, more: set<string>)
    requires AllUnit(draws) && 2 * T <= |draws|
    requires AttemptsSeen(draws, n, T, seen) && seen <= more
    ensures AttemptsSeen(draws, n, T, more)
  {
    if T > 0 {
      AttemptsSeenGrow(draws, n, T - 1, seen, more);
    }
  }

  lemma {:induction false} AttemptsSeenAt(draws: seq<real>, n: nat, T: nat, seen: set<string>, t: nat)
    requires AllUnit(draws) && 2 * T <= |draws|
    requires AttemptsSeen(draws, n, T, seen) && t < T
    ensures AttemptSeen(draws, n, t, seen)
  {
    if t < T - 1 {
      AttemptsSeenAt(draws, n, T - 1, seen, t);
    }
  }

  lemma AttemptsSeenStep(draws: seq<real>, n: nat, T: nat, seen: set<string>)
    requires AllUnit(draws) && 2 * T + 1 < |draws|
    requires AttemptsSeen(draws, n, T, seen) && AttemptSeen(draws, n, T, seen)
    ensures AttemptsSeen(draws, n, T + 1, seen)
  {
  }

  /** What the edge loop has after some attempts: the pairs it kept, the edges they gave, and edgeSet. */
  datatype EdgeRun = EdgeRun(picks: seq<(nat, nat)>, added: seq<Edge>, edgeSet: set<string>)

  /**
    The edge loop of generateEdges over its first T attempts on vertices vs,
    as the source runs it: an attempt is kept when its two indices differ and
    its string key is not yet in edgeSet.
   */
  ghost function RunEdges(draws: seq<real>, vs: seq<Vertex>, T: nat): EdgeRun
    requires AllUnit(draws) && 2 * T <= |draws|
  {
    if T == 0 then EdgeRun([], [], {})
    else
      var r := RunEdges(draws, vs, T - 1);
      var p := Attempt(draws, |vs|, T - 1);
      if p.0 != p.1 && Key(p.0, p.1) !in r.edgeSet then
        EdgeRun(r.picks + [p], r.added + [Edge(vs[p.0], vs[p.1])], r.edgeSet + {Key(p.0, p.1)})
      else r
  }

  lemma RunEdgesKeep(draws: seq<real>, vs: seq<Vertex>, T: nat, s: nat, e: nat)
    requires AllUnit(draws) && 2 * T + 2 <= |draws|
    requires Attempt(draws, |vs|, T) == (s, e) && s != e && Key(s, e) !in RunEdges(draws, vs, T).edgeSet
    ensures var r := RunEdges(draws, vs, T);
      RunEdges(draws, vs, T + 1) == EdgeRun(r.picks + [(s, e)], r.added + [Edge(vs[s], vs[e])], r.edgeSet + {Key(s, e)})
  {
  }

  lemma RunEdgesSkip(draws: seq<real>, vs: seq<Vertex>, T: nat, s: nat, e: nat)
    requires AllUnit(draws) && 2 * T + 2 <= |draws|
    requires Attempt(draws, |vs|, T) == (s, e) && (s == e || Key(s, e) in RunEdges(draws, vs, T).edgeSet)
    ensures RunEdges(draws, vs, T + 1) == RunEdges(draws, vs, T)
  {
  }

  /**
    The key-based loop keeps exactly the pairs of the pair-based reference
    AcceptedPairs; its edges are the edges of those pairs, edgeSet holds one
    key per kept pair, and every attempt's key is in edgeSet.
   */
  lemma {:induction false} RunEdgesFacts(draws: seq<real>, vs: seq<Vertex>, T: nat)
    requires AllUnit(draws) && 2 * T <= |draws|
    ensures var r := RunEdges(draws, vs, T);
      && r.picks == AcceptedPairs(draws, |vs|, T)
      && SimplePicks(r.picks, |vs|)
      && r.added == EdgesOf(vs, r.picks)
      && r.edgeSet == KeysOf(r.picks) && |r.edgeSet| == |r.picks|
      && AttemptsSeen(draws, |vs|, T, r.edgeSet)
  {
    RunEdgesKeys(draws, vs, T);
    RunEdgesPicks(draws, vs, T);
    AcceptedPairsAreSimple(draws, |vs|, T);
    RunEdgesAdded(draws, vs, T);
    RunEdgesCount(draws, vs, T);
    RunEdgesSeen(draws, vs, T);
  }

  lemma {:induction false} RunEdgesKeys(draws: seq<real>, vs: seq<Vertex>, T: nat)
    requires AllUnit(draws) && 2 * T <= |draws|
    ensures RunEdges(draws, vs, T).edgeSet == KeysOf(RunEdges(draws, vs, T).picks)
  {
    if T > 0 {
      RunEdgesKeys(draws, vs, T - 1);
      KeysOfAppend(RunEdges(draws, vs, T - 1).picks, Attempt(draws, |vs|, T - 1));
    }
  }

  lemma {:induction false} RunEdgesPicks(draws: seq<real>, vs: seq<Vertex>, T: nat)
    requires AllUnit(draws) && 2 * T <= |draws|
    ensures RunEdges(draws, vs, T).picks == AcceptedPairs(draws, |vs|, T)
  {
    if T > 0 {
      RunEdgesPicks(draws, vs, T - 1);
      RunEdgesKeys(draws, vs, T - 1);
      FreshKeyIsFreshPair(RunEdges(draws, vs, T - 1).picks, Attempt(draws, |vs|, T - 1));
    }
  }

  lemma {:induction false} RunEdgesAdded(draws: seq<real>, vs: seq<Vertex>, T: nat)
    requires AllUnit(draws) && 2 * T <= |draws|
    requires SimplePicks(RunEdges(draws, vs, T).picks, |vs|)
    ensures RunEdges(draws, vs, T).added == EdgesOf(vs, RunEdges(draws, vs, T).picks)
  {
    if T > 0 {
      var r, p := RunEdges(draws, vs, T - 1), Attempt(draws, |vs|, T - 1);
      var picks := RunEdges(draws, vs, T).picks;
      assert SimplePicks(r.picks, |vs|) by {
        if p.0 != p.1 && Key(p.0, p.1) !in r.edgeSet {
          assert forall k :: 0 <= k < |r.picks| ==> r.picks[k] == picks[k];
        }
      }
      RunEdgesAdded(draws, vs, T - 1);
      if p.0 != p.1 && Key(p.0, p.1) !in r.edgeSet {
        EdgesOfAppend(vs, r.picks, p);
      }
    }
  }

  lemma {:induction false} RunEdgesCount(draws: seq<real>, vs: seq<Vertex>, T: nat)
    requires AllUnit(draws) && 2 * T <= |draws|
    ensures |RunEdges(draws, vs, T).edgeSet| == |RunEdges(draws, vs, T).picks|
  {
    if T > 0 {
      RunEdgesCount(draws, vs, T - 1);
    }
  }

  lemma {:induction false} RunEdgesSeen(draws: seq<real>, vs: seq<Vertex>, T: nat)
    requires AllUnit(draws) && 2 * T <= |draws|
    ensures AttemptsSeen(draws, |vs|, T, RunEdges(draws, vs, T).edgeSet)
  {
    if T > 0 {
      var r := RunEdges(draws, vs, T - 1);
      RunEdgesSeen(draws, vs, T - 1);
      AttemptsSeenGrow(draws, |vs|, T - 1, r.edgeSet, RunEdges(draws, vs, T).edgeSet);
      AttemptsSeenStep(draws, |vs|, T - 1, RunEdges(draws, vs, T).edgeSet);
    }
  }

  /** If every attempt of the stream was seen and every pair was drawn, every pair's key was seen. */
  lemma AllPairKeysSeen(draws: seq<real>, n: nat, T: nat, seen: set<string>)
    requires AllUnit(draws) && 2 * T <= |draws| < 2 * T + 2
    requires AttemptsSeen(draws, n, T, seen)
    requires EveryPairDrawn(draws, n)
    ensures |seen| >= Pairs(n)
  {
    forall k | k in PairKeys(n) ensures k in seen {
      PairKeysMembers(n, k);
      var i: nat, j: nat :| i < j < n && Key(i, j) == k;
      assert PairDrawn(draws, n, i, j);
      var t: nat :| 2 * t + 1 < |draws| && SamePair(Attempt(draws, n, t).0, Attempt(draws, n, t).1, i, j);
      AttemptsSeenAt(draws, n, T, seen, t);
      KeyIdentifiesPair(Attempt(draws, n, t).0, Attempt(draws, n, t).1, i, j);
    }
    PairKeysCount(n);
    SubsetCount(PairKeys(n), seen);
  }

  /** Every key in edgeSet is the key of a pair of distinct vertex indices. */
  lemma RunEdgesKeysInPairSpace(draws: seq<real>, vs: seq<Vertex>, T: nat)
    requires AllUnit(draws) && 2 * T <= |draws|
    ensures RunEdges(draws, vs, T).edgeSet <= PairKeys(|vs|)
  {
    var r := RunEdges(draws, vs, T);
    RunEdgesFacts(draws, vs, T);
    forall s | s in r.edgeSet ensures s in PairKeys(|vs|) {
      KeysOfMembers(r.picks, s);
      var k :| 0 <= k < |r.picks| && Key(r.picks[k].0, r.picks[k].1) == s;
      KeyInPairKeys(r.picks[k].0, r.picks[k].1, |vs|);
    }
  }

  /**
    While the edge loop has fewer edges than a target of at most n(n-1)/2,
    some pair of distinct vertices still has a key outside edgeSet, so the
    loop can still make progress.
   */
  lemma EdgeProgress(draws: seq<real>, vs: seq<Vertex>, T: nat, target: int)
    requires AllUnit(draws) && 2 * T <= |draws|
    requires |RunEdges(draws, vs, T).added| < target <= Pairs(|vs|)
    ensures exists i: nat, j: nat :: i < j < |vs| && Key(i, j) !in RunEdges(draws, vs, T).edgeSet
  {
    RunEdgesFacts(draws, vs, T);
    RunEdgesKeysInPairSpace(draws, vs, T);
    FreshPairExists(|vs|, RunEdges(draws, vs, T).edgeSet);
  }

  /** Each of the first T draws of the loop sampler has its index in `seen`. */
  ghost predicate DrawsSeen(draws: seq<real>, n: nat, T: nat, seen: set<nat>)
    requires AllUnit(draws) && T <= |draws|
  {
    T > 0 ==> DrawsSeen(draws, n, T - 1, seen) && RandomIndex(draws[T - 1], n) in seen
  }

  lemma {:induction false} DrawsSeenGrow(draws: seq<real>, n: nat, T: nat, seen: set<nat>, more: set<nat>)
    requires AllUnit(draws) && T <= |draws|
    requires DrawsSeen(draws, n, T, seen) && seen <= more
    ensures DrawsSeen(draws, n, T, more)
  {
    if T > 0 {
      DrawsSeenGrow(draws, n, T - 1, seen, more);
    }
  }

  lemma {:induction false} DrawsSeenAt(draws: seq<real>, n: nat, T: nat, seen: set<nat>, t: nat)
    requires AllUnit(draws) && T <= |draws|
    requires DrawsSeen(draws, n, T, seen) && t < T
    ensures RandomIndex(draws[t], n) in seen
  {
    if t < T - 1 {
      DrawsSeenAt(draws, n, T - 1, seen, t);
    }
  }

  lemma DrawsSeenStep(draws: seq<real>, n: nat, T: nat, seen: set<nat>)
    requires AllUnit(draws) && T < |draws|
    requires DrawsSeen(draws, n, T, seen) && RandomIndex(draws[T], n) in seen
    ensures DrawsSeen(draws, n, T + 1, seen)
  {
  }

  /** If every draw of the stream was seen and every index was drawn, every index was seen. */
  lemma AllIndicesSeen(draws: seq<real>, n: nat, seen: set<nat>)
    requires AllUnit(draws)
    requires DrawsSeen(draws, n, |draws|, seen)
    requires EveryIndexDrawn(draws, n)
    ensures |seen| >= n
  {
    forall i | i in Indices(n) ensures i in seen {
      IndicesMembers(n, i);
      assert IndexDrawn(draws, n, i);
      var t: nat :| t < |draws| && RandomIndex(draws[t], n) == i;
      DrawsSeenAt(draws, n, |draws|, seen, t);
    }
    IndicesCount(n);
    SubsetCount(Indices(n), seen);
  }

  /** What the loop sampler has after some draws: the indices it kept, the loops they gave, and loopSet. */
  datatype LoopRun = LoopRun(picks: seq<nat>, added: seq<Vertex>, loopSet: set<nat>)

  /**
    The loop of generateLoops over its first T draws on vertices vs, as the
    source runs it: a drawn index is kept when it is not yet in loopSet. It
    draws only when there is a vertex.
   */
  ghost function RunLoops(draws: seq<real>, vs: seq<Vertex>, T: nat): LoopRun
    requires AllUnit(draws) && T <= |draws|
    requires |vs| > 0 || T == 0
  {
    if T == 0 then LoopRun([], [], {})
    else
      var r := RunLoops(draws, vs, T - 1);
      var i := RandomIndex(draws[T - 1], |vs|);
      if i !in r.loopSet then LoopRun(r.picks + [i], r.added + [vs[i]], r.loopSet + {i}) else r
  }

  /**
    The set-based loop keeps exactly the indices of the reference
    AcceptedIndices; its loops sit on the vertices of those indices, loopSet
    holds one entry per kept index, and every draw's index is in loopSet.
   */
  lemma {:induction false} RunLoopsFacts(draws: seq<real>, vs: seq<Vertex>, T: nat)
    requires AllUnit(draws) && T <= |draws|
    requires |vs| > 0 || T == 0
    ensures var r := RunLoops(draws, vs, T);
      && r.picks == AcceptedIndices(draws, |vs|, T)
      && DistinctPicks(r.picks, |vs|)
      && r.added == LoopsOf(vs, r.picks)
      && r.loopSet == IndexSet(r.picks) && |r.loopSet| == |r.picks|
      && DrawsSeen(draws, |vs|, T, r.loopSet)
  {
    RunLoopsSet(draws, vs, T);
    RunLoopsPicks(draws, vs, T);
    AcceptedIndicesAreDistinct(draws, |vs|, T);
    RunLoopsAdded(draws, vs, T);
    RunLoopsCount(draws, vs, T);
    RunLoopsSeen(draws, vs, T);
  }

  /**
    While the loop sampler has fewer loops than a target of at most n, some
    vertex index is still outside loopSet, so the loop can still make progress.
   */
  lemma LoopProgress(draws: seq<real>, vs: seq<Vertex>, T: nat, target: int)
    requires AllUnit(draws) && T <= |draws| && |vs| > 0
    requires |RunLoops(draws, vs, T).added| < target <= |vs|
    ensures exists i: nat :: i < |vs| && i !in RunLoops(draws, vs, T).loopSet
  {
    var r := RunLoops(draws, vs, T);
    RunLoopsFacts(draws, vs, T);
    forall i | i in r.loopSet ensures i < |vs| {
      IndexSetMembers(r.picks, i);
    }
    FreshIndexExists(|vs|, r.loopSet);
  }

  lemma {:induction false} RunLoopsSet(draws: seq<real>, vs: seq<Vertex>, T: nat)
    requires AllUnit(draws) && T <= |draws|
    requires |vs| > 0 || T == 0
    ensures RunLoops(draws, vs, T).loopSet == IndexSet(RunLoops(draws, vs, T).picks)
  {
    if T > 0 {
      var r, i := RunLoops(draws, vs, T - 1), RandomIndex(draws[T - 1], |vs|);
      RunLoopsSet(draws, vs, T - 1);
      assert (r.picks + [i])[..|r.picks|] == r.picks;
    }
  }

  lemma {:induction false} RunLoopsPicks(draws: seq<real>, vs: seq<Vertex>, T: nat)
    requires AllUnit(draws) && T <= |draws|
    requires |vs| > 0 || T == 0
    ensures RunLoops(draws, vs, T).picks == AcceptedIndices(draws, |vs|, T)
  {
    if T > 0 {
      var r, i := RunLoops(draws, vs, T - 1), RandomIndex(draws[T - 1], |vs|);
      var prev := AcceptedIndices(draws, |vs|, T - 1);
      RunLoopsPicks(draws, vs, T - 1);
      RunLoopsSet(draws, vs, T - 1);
      IndexSetMembers(r.picks, i);
      assert (i in r.loopSet) == (i in prev);
    }
  }

  lemma {:induction false} RunLoopsAdded(draws: seq<real>, vs: seq<Vertex>, T: nat)
    requires AllUnit(draws) && T <= |draws|
    requires |vs| > 0 || T == 0
    requires DistinctPicks(RunLoops(draws, vs, T).picks, |vs|)
    ensures RunLoops(draws, vs, T).added == LoopsOf(vs, RunLoops(draws, vs, T).picks)
  {
    if T > 0 {
      var r, i := RunLoops(draws, vs, T - 1), RandomIndex(draws[T - 1], |vs|);
      var picks := RunLoops(draws, vs, T).picks;
      assert DistinctPicks(r.picks, |vs|) by {
        if i !in r.loopSet {
          assert forall k :: 0 <= k < |r.picks| ==> r.picks[k] == picks[k];
        }
      }
      RunLoopsAdded(draws, vs, T - 1);
      if i !in r.loopSet {
        LoopsOfAppend(vs, r.picks, i);
      }
    }
  }

  lemma {:induction false} RunLoopsCount(draws: seq<real>, vs: seq<Vertex>, T: nat)
    requires AllUnit(draws) && T <= |draws|
    requires |vs| > 0 || T == 0
    ensures |RunLoops(draws, vs, T).loopSet| == |RunLoops(draws, vs, T).picks|
  {
    if T > 0 {
      RunLoopsCount(draws, vs, T - 1);
    }
  }

  lemma {:induction false} RunLoopsSeen(draws: seq<real>, vs: seq<Vertex>, T: nat)
    requires AllUnit(draws) && T <= |draws|
    requires |vs| > 0 || T == 0
    ensures DrawsSeen(draws, |vs|, T, RunLoops(draws, vs, T).loopSet)
  {
    if T > 0 {
      var r := RunLoops(draws, vs, T - 1);
      RunLoopsSeen(draws, vs, T - 1);
      DrawsSeenGrow(draws, |vs|, T - 1, r.loopSet, RunLoops(draws, vs, T).loopSet);
      DrawsSeenStep(draws, |vs|, T - 1, RunLoops(draws, vs, T).loopSet);
    }
  }

  lemma SubsetCount<T>(a: set<T>, b: set<T>)
    requires a <= b
    ensures |a| <= |b|
  {
    assert b == a + (b - a);
  }

  lemma AppendAssociates<T>(a: seq<T>, b: seq<T>, c: T)
    ensures a + (b + [c]) == (a + b) + [c]
  {
  }

  // ---------------------------------------------------------------- vertex placement

  /** Where the placement loop of one vertex stops: at a point, with the next unused draw, or where the stream ran out. */
  datatype Placement = Found(x: real, y: real, next: nat) | Exhausted(next: nat)

  /**
    The placement loop of one vertex next to the vertices vs: redraw (x, y)
    from draws[from..], two draws at a time, until the point is at least
    MinDistance from every vertex of vs.
   */
  ghost function NextPosition(draws: seq<real>, vs: seq<Vertex>, width: real, height: real, from: nat): (p: Placement)
    requires AllUnit(draws) && from <= |draws|
    ensures p.Found? ==> from + 2 <= p.next <= |draws|
    ensures p.Found? ==> FarFromAll(p.x, p.y, vs) && WithinMargins(p.x, width) && WithinMargins(p.y, height)
    ensures p.Exhausted? ==> from <= p.next <= |draws| < p.next + 2
    decreases |draws| - from
  {
    if from + 2 > |draws| then Exhausted(from)
    else
      var x, y := Coordinate(draws[from], width), Coordinate(draws[from + 1], height);
      CoordinateWithinMargins(draws[from], width);
      CoordinateWithinMargins(draws[from + 1], height);
      if FarFromAll(x, y, vs) then Found(x, y, from + 2) else NextPosition(draws, vs, width, height, from + 2)
  }

  /**
    generateVertices on vertices `base`, after it has already appended
    `added`: it appends vertices with the next ids until it has `count` of
    them or the stream runs out. The result is every vertex it appended and
    the draw where it stopped.
   */
  ghost function PlaceVertices(draws: seq<real>, base: seq<Vertex>, added: seq<Vertex>, count: int, width: real, height: real, from: nat): (seq<Vertex>, nat)
    requires AllUnit(draws) && from <= |draws|
    decreases |draws| - from
  {
    if |added| >= count then (added, from)
    else
      match NextPosition(draws, base + added, width, height, from)
      case Exhausted(next) => (added, next)
      case Found(x, y, next) => PlaceVertices(draws, base, added + [Vertex(x, y, |added| + 1)], count, width, height, next)
  }

  /** Vertices appended after base: ids from 1, inside the margins, each far enough from every vertex before it. */
  predicate Placements(base: seq<Vertex>, added: seq<Vertex>, width: real, height: real)
  {
    forall k :: 0 <= k < |added| ==>
      && added[k].id == k + 1
      && WithinMargins(added[k].x, width) && WithinMargins(added[k].y, height)
      && FarFromAll(added[k].x, added[k].y, base + added[..k])
  }

  lemma PlacementsAppend(base: seq<Vertex>, added: seq<Vertex>, v: Vertex, width: real, height: real)
    requires Placements(base, added, width, height)
    requires v.id == |added| + 1 && WithinMargins(v.x, width) && WithinMargins(v.y, height)
    requires FarFromAll(v.x, v.y, base + added)
    ensures Placements(base, added + [v], width, height)
  {
    var q := added + [v];
    assert q[..|added|] == added;
    forall k | 0 <= k < |added| ensures q[k] == added[k] && q[..k] == added[..k] {
    }
  }

  /**
    generateVertices keeps what it appended so far, appends only well-placed
    vertices with the next ids, never more than asked for, and stops short
    only when fewer than two draws are left.
   */
  lemma {:induction false} PlaceVerticesFacts(draws: seq<real>, base: seq<Vertex>, added: seq<Vertex>, count: int, width: real, height: real, from: nat)
    requires AllUnit(draws) && from <= |draws|
    requires Placements(base, added, width, height)
    ensures var r := PlaceVertices(draws, base, added, count, width, height, from);
      && Placements(base, r.0, width, height)
      && |added| <= |r.0| && r.0[..|added|] == added
      && (|r.0| > |added| ==> |r.0| <= count)
      && from <= r.1 <= |draws|
      && (|r.0| < count ==> |draws| - r.1 < 2)
    decreases |draws| - from
  {
    if |added| < count {
      match NextPosition(draws, base + added, width, height, from)
      case Exhausted(next) =>
      case Found(x, y, next) =>
        var v := Vertex(x, y, |added| + 1);
        PlacementsAppend(base, added, v, width, height);
        PlaceVerticesFacts(draws, base, added + [v], count, width, height, next);
        var r := PlaceVertices(draws, base, added + [v], count, width, height, next);
        assert r.0[..|added|] == r.0[..|added| + 1][..|added|];
        assert (added + [v])[..|added|] == added;
    }
  }

  /** Vertices placed on an empty graph have ids 1..n in order and are spaced apart. */
  lemma PlacementsAreSpaced(vs: seq<Vertex>, width: real, height: real)
    requires Placements([], vs, width, height)
    ensures IdsSequential(vs) && Spaced(vs)
  {
    forall i, j | 0 <= i < j < |vs| ensures FarFrom(vs[j].x, vs[j].y, vs[i]) {
      assert FarFromAll(vs[j].x, vs[j].y, [] + vs[..j]);
      assert ([] + vs[..j])[i] == vs[i];
    }
  }

  // ---------------------------------------------------------------- how long each sampler runs

  /** The number of attempts the edge loop makes: until it has `target` edges or fewer than two draws are left. */
  ghost function EdgeAttempts(draws: seq<real>, vs: seq<Vertex>, target: int, T: nat): (t: nat)
    requires AllUnit(draws) && 2 * T <= |draws|
    ensures T <= t && 2 * t <= |draws|
    decreases |draws| - 2 * T
  {
    if |RunEdges(draws, vs, T).added| >= target || 2 * T + 2 > |draws| then T
    else EdgeAttempts(draws, vs, target, T + 1)
  }

  lemma EdgeAttemptsNext(draws: seq<real>, vs: seq<Vertex>, target: int, T: nat)
    requires AllUnit(draws) && 2 * T + 2 <= |draws|
    requires |RunEdges(draws, vs, T).added| < target
    ensures EdgeAttempts(draws, vs, target, T + 1) == EdgeAttempts(draws, vs, target, T)
  {
  }

  lemma EdgeAttemptsDone(draws: seq<real>, vs: seq<Vertex>, target: int, T: nat)
    requires AllUnit(draws) && 2 * T <= |draws|
    requires |RunEdges(draws, vs, T).added| >= target || 2 * T + 2 > |draws|
    ensures EdgeAttempts(draws, vs, target, T) == T
  {
  }

  lemma {:induction false} EdgeAttemptsStop(draws: seq<real>, vs: seq<Vertex>, target: int, T: nat)
    requires AllUnit(draws) && 2 * T <= |draws|
    requires target <= 0 ==> T == 0
    requires target > 0 ==> |RunEdges(draws, vs, T).added| <= target
    ensures var t := EdgeAttempts(draws, vs, target, T);
      && (target <= 0 ==> t == 0)
      && (target > 0 ==> |RunEdges(draws, vs, t).added| <= target)
      && (|RunEdges(draws, vs, t).added| < target ==> |draws| - 2 * t < 2)
    decreases |draws| - 2 * T
  {
    if !(|RunEdges(draws, vs, T).added| >= target || 2 * T + 2 > |draws|) {
      assert |RunEdges(draws, vs, T + 1).added| <= |RunEdges(draws, vs, T).added| + 1;
      EdgeAttemptsStop(draws, vs, target, T + 1);
    }
  }

  /**
    generateEdges asked for `target` more edges keeps exactly the pairs of the
    reference AcceptedPairs: distinct endpoints, no unordered pair twice. It
    never adds more than asked for, stops short only when fewer than two draws
    are left, and reaches the target when the target is at most n(n-1)/2 and
    every pair is drawn.
   */
  lemma EdgeSamplingFacts(draws: seq<real>, vs: seq<Vertex>, target: int)
    requires AllUnit(draws)
    ensures var T := EdgeAttempts(draws, vs, target, 0);
      var r := RunEdges(draws, vs, T);
      && r.picks == AcceptedPairs(draws, |vs|, T) && SimplePicks(r.picks, |vs|)
      && r.added == EdgesOf(vs, r.picks)
      && (target <= 0 ==> r.added == [])
      && (target > 0 ==> |r.added| <= target)
      && (|r.added| < target ==> |draws| - 2 * T < 2)
      && (target <= Pairs(|vs|) && EveryPairDrawn(draws, |vs|) ==> |r.added| >= target)
  {
    var T := EdgeAttempts(draws, vs, target, 0);
    var r := RunEdges(draws, vs, T);
    EdgeAttemptsStop(draws, vs, target, 0);
    RunEdgesFacts(draws, vs, T);
    if target <= Pairs(|vs|) && EveryPairDrawn(draws, |vs|) && 2 * T + 2 > |draws| {
      AllPairKeysSeen(draws, |vs|, T, r.edgeSet);
    }
  }

  /** The number of draws the loop sampler makes: until it has `target` loops or the stream runs out. */
  ghost function LoopDraws(draws: seq<real>, vs: seq<Vertex>, target: int, T: nat): (t: nat)
    requires AllUnit(draws) && T <= |draws|
    requires |vs| > 0 || T == 0
    requires |vs| > 0 || target <= 0
    ensures T <= t <= |draws|
    decreases |draws| - T
  {
    if |RunLoops(draws, vs, T).added| >= target || T >= |draws| then T
    else LoopDraws(draws, vs, target, T + 1)
  }

  lemma LoopDrawsNext(draws: seq<real>, vs: seq<Vertex>, target: int, T: nat)
    requires AllUnit(draws) && T < |draws| && |vs| > 0
    requires |RunLoops(draws, vs, T).added| < target
    ensures LoopDraws(draws, vs, target, T + 1) == LoopDraws(draws, vs, target, T)
  {
  }

  lemma LoopDrawsDone(draws: seq<real>, vs: seq<Vertex>, target: int, T: nat)
    requires AllUnit(draws) && T <= |draws|
    requires |vs| > 0 || (T == 0 && target <= 0)
    requires |RunLoops(draws, vs, T).added| >= target || T >= |draws|
    ensures LoopDraws(draws, vs, target, T) == T
  {
  }

  lemma {:induction false} LoopDrawsStop(draws: seq<real>, vs: seq<Vertex>, target: int, T: nat)
    requires AllUnit(draws) && T <= |draws|
    requires |vs| > 0 || T == 0
    requires |vs| > 0 || target <= 0
    requires target <= 0 ==> T == 0
    requires target > 0 ==> |RunLoops(draws, vs, T).added| <= target
    ensures var t := LoopDraws(draws, vs, target, T);
      && (target <= 0 ==> t == 0)
      && (target > 0 ==> |RunLoops(draws, vs, t).added| <= target)
      && (|RunLoops(draws, vs, t).added| < target ==> t == |draws|)
    decreases |draws| - T
  {
    if !(|RunLoops(draws, vs, T).added| >= target || T >= |draws|) {
      assert |RunLoops(draws, vs, T + 1).added| <= |RunLoops(draws, vs, T).added| + 1;
      LoopDrawsStop(draws, vs, target, T + 1);
    }
  }

  /**
    generateLoops asked for `target` more loops keeps exactly the indices of
    the reference AcceptedIndices: each vertex at most once. It never adds
    more than asked for, stops short only when the stream runs out, and
    reaches the target when the target is at most n and every index is drawn.
   */
  lemma LoopSamplingFacts(draws: seq<real>, vs: seq<Vertex>, target: int)
    requires AllUnit(draws)
    requires |vs| > 0 || target <= 0
    ensures var T := LoopDraws(draws, vs, target, 0);
      var r := RunLoops(draws, vs, T);
      && r.picks == AcceptedIndices(draws, |vs|, T) && DistinctPicks(r.picks, |vs|)
      && r.added == LoopsOf(vs, r.picks)
      && (target <= 0 ==> r.added == [])
      && (target > 0 ==> |r.added| <= target)
      && (|r.added| < target ==> T == |draws|)
      && (target <= |vs| && EveryIndexDrawn(draws, |vs|) ==> |r.added| >= target)
  {
    var T := LoopDraws(draws, vs, target, 0);
    var r := RunLoops(draws, vs, T);
    LoopDrawsStop(draws, vs, target, 0);
    RunLoopsFacts(draws, vs, T);
    if target <= |vs| && EveryIndexDrawn(draws, |vs|) && T == |draws| {
      AllIndicesSeen(draws, |vs|, r.loopSet);
    }
  }

  // ---------------------------------------------------------------- one generation pass

  /** What one generation pass builds, and how many draws it takes. */
  datatype Sample = Sample(vertices: seq<Vertex>, edges: seq<Edge>, loops: seq<Vertex>, used: nat)

  /** The pass built exactly the requested numbers of vertices, edges and loops. */
  predicate Complete(s: Sample, vertexCount: nat, edgeCount: nat, loopCount: nat)
  {
    |s.vertices| == vertexCount && |s.edges| == edgeCount && |s.loops| == loopCount
  }

  /**
    generateEdges and then, when every edge was placed and loops are wanted,
    generateLoops, run on the vertices vs with no edges or loops yet, the
    loop sampler taking the draws the edge sampler left.
   */
  ghost function Connected(vs: seq<Vertex>, edgeCount: nat, loopCount: nat, draws: seq<real>): Sample
    requires AllUnit(draws)
    requires loopCount <= |vs|
  {
    var T := EdgeAttempts(draws, vs, edgeCount, 0);
    var es := RunEdges(draws, vs, T).added;
    if |es| < edgeCount || loopCount == 0 then Sample(vs, es, [], 2 * T)
    else
      AllUnitSuffix(draws, 2 * T);
      var last := draws[2 * T..];
      var U := LoopDraws(last, vs, loopCount, 0);
      Sample(vs, es, RunLoops(last, vs, U).added, 2 * T + U)
  }

  /**
    generateVertices, generateEdges and, when loops are wanted,
    generateLoops, run from an empty graph on one stream of draws, each
    sampler taking the draws the one before it left. A sampler that runs out
    of draws ends the pass. The direction of the graph is not an input.
   */
  ghost function Sampled(vertexCount: nat, edgeCount: nat, loopCount: nat, draws: seq<real>, width: real, height: real): Sample
    requires AllUnit(draws)
    requires vertexCount >= 1 && loopCount <= vertexCount
  {
    PlaceVerticesFacts(draws, [], [], vertexCount, width, height, 0);
    var pv := PlaceVertices(draws, [], [], vertexCount, width, height, 0);
    if |pv.0| < vertexCount then Sample(pv.0, [], [], pv.1)
    else
      AllUnitSuffix(draws, pv.1);
      var c := Connected(pv.0, edgeCount, loopCount, draws[pv.1..]);
      c.(used := pv.1 + c.used)
  }

  /**
    A generation pass builds a well-formed graph (ids 1..n, spaced vertices,
    simple edges, at most one loop per vertex) with every vertex inside the
    margins and no more than was asked for; it builds all of it unless fewer
    than two draws are left.
   */
  lemma SampledFacts(vertexCount: nat, edgeCount: nat, loopCount: nat, draws: seq<real>, width: real, height: real)
    requires AllUnit(draws)
    requires vertexCount >= 1 && loopCount <= vertexCount
    ensures var s := Sampled(vertexCount, edgeCount, loopCount, draws, width, height);
      && WellFormed(s.vertices, s.edges, s.loops)
      && (forall k :: 0 <= k < |s.vertices| ==> WithinMargins(s.vertices[k].x, width) && WithinMargins(s.vertices[k].y, height))
      && |s.vertices| <= vertexCount && |s.edges| <= edgeCount && |s.loops| <= loopCount
      && s.used <= |draws|
      && (Complete(s, vertexCount, edgeCount, loopCount) || |draws| - s.used < 2)
  {
    var s := Sampled(vertexCount, edgeCount, loopCount, draws, width, height);
    PlaceVerticesFacts(draws, [], [], vertexCount, width, height, 0);
    var pv := PlaceVertices(draws, [], [], vertexCount, width, height, 0);
    var vs := pv.0;
    PlacementsAreSpaced(vs, width, height);
    assert s.vertices == vs;
    if |vs| == vertexCount {
      AllUnitSuffix(draws, pv.1);
      var rest := draws[pv.1..];
      var T := EdgeAttempts(rest, vs, edgeCount, 0);
      EdgeSamplingFacts(rest, vs, edgeCount);
      var r := RunEdges(rest, vs, T);
      PicksMakeSimpleEdges(vs, r.picks);
      assert s.edges == r.added;
      if |r.added| == edgeCount && loopCount > 0 {
        AllUnitSuffix(rest, 2 * T);
        var last := rest[2 * T..];
        var U := LoopDraws(last, vs, loopCount, 0);
        LoopSamplingFacts(last, vs, loopCount);
        PicksMakeDistinctLoops(vs, RunLoops(last, vs, U).picks);
      }
    }
  }
}
