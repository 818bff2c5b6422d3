/**
  The graph-generation page of graph.js.

  The page keeps three module-level arrays, `vertices`, `edges` and `loops`,
  and the flag `isDirected`. Three buttons drive them: generate validates the
  three counts and regenerates everything, clear empties the arrays, and
  toggle flips `isDirected` and then regenerates from the same inputs.

  Here the module-level state is one `Session` object. Math.random is a
  supplied stream `draws` of reals in [0, 1), and each sampler says how many
  draws it took. The canvas is the list of draw calls painted since it was
  last cleared; the geometry of the painting is not modelled.
 */
module Graph {
  import opened Keys
  import opened Validation
  import opened Sampling

  /** One call of drawVertex, drawEdge or drawLoop; an edge records whether it got an arrowhead. */
  datatype DrawCall =
    | DrawVertex(x: real, y: real, id: int)
    | DrawEdge(from: Vertex, to: Vertex, arrowhead: bool)
    | DrawLoop(at: Vertex)

  datatype GraphState = GraphState(vertices: seq<Vertex>, edges: seq<Edge>, loops: seq<Vertex>, isDirected: bool)

  // ---------------------------------------------------------------- rendering

  /** The drawVertex calls for vs, in order. */
  function VertexCalls(vs: seq<Vertex>): seq<DrawCall>
  {
    seq(|vs|, k requires 0 <= k < |vs| => DrawVertex(vs[k].x, vs[k].y, vs[k].id))
  }

  /** The drawEdge calls for es, in order, each with an arrowhead exactly when the graph is directed. */
  function EdgeCalls(es: seq<Edge>, directed: bool): seq<DrawCall>
  {
    seq(|es|, k requires 0 <= k < |es| => DrawEdge(es[k].startVertex, es[k].endVertex, directed))
  }

  /** The drawLoop calls for ls, in order. */
  function LoopCalls(ls: seq<Vertex>): seq<DrawCall>
  {
    seq(|ls|, k requires 0 <= k < |ls| => DrawLoop(ls[k]))
  }

  lemma VertexCallsConcat(a: seq<Vertex>, b: seq<Vertex>)
    ensures VertexCalls(a + b) == VertexCalls(a) + VertexCalls(b)
  {
  }

  lemma EdgeCallsConcat(a: seq<Edge>, b: seq<Edge>, directed: bool)
    ensures EdgeCalls(a + b, directed) == EdgeCalls(a, directed) + EdgeCalls(b, directed)
  {
  }

  lemma LoopCallsConcat(a: seq<Vertex>, b: seq<Vertex>)
    ensures LoopCalls(a + b) == LoopCalls(a) + LoopCalls(b)
  {
  }

  /** Appending vertices to a graph with no edges or loops yet appends their calls to its rendering. */
  lemma RenderAddVertices(g: GraphState, added: seq<Vertex>)
    requires g.edges == [] && g.loops == []
    ensures Render(g) + VertexCalls(added) == Render(g.(vertices := g.vertices + added))
  {
    VertexCallsConcat(g.vertices, added);
    assert EdgeCalls([], g.isDirected) == [] && LoopCalls([]) == [];
  }

  /** Appending edges to a graph with no loops yet appends their calls to its rendering. */
  lemma RenderAddEdges(g: GraphState, added: seq<Edge>)
    requires g.loops == []
    ensures Render(g) + EdgeCalls(added, g.isDirected) == Render(g.(edges := g.edges + added))
  {
    EdgeCallsConcat(g.edges, added, g.isDirected);
    assert LoopCalls([]) == [];
  }

  /** Appending loops to a graph appends their calls to its rendering. */
  lemma RenderAddLoops(g: GraphState, added: seq<Vertex>)
    ensures Render(g) + LoopCalls(added) == Render(g.(loops := g.loops + added))
  {
    LoopCallsConcat(g.loops, added);
  }

  /** The draw calls of one generation pass: every vertex, then every edge, then every loop, in generation order. */
  function Render(g: GraphState): seq<DrawCall>
  {
    VertexCalls(g.vertices) + EdgeCalls(g.edges, g.isDirected) + LoopCalls(g.loops)
  }

  /**
    An accepted request whose loop count is missing, zero or negative builds
    no loops: the pass runs generateLoops only for a positive count.
   */
  lemma NoLoopsUnlessRequested(vertexInput: Option<int>, edgeInput: Option<int>, loopInput: Option<int>,
                               draws: seq<real>, width: real, height: real)
    requires AllUnit(draws)
    requires Validate(vertexInput, edgeInput, loopInput).Accept?
    requires loopInput.None? || loopInput.value <= 0
    ensures var v := Validate(vertexInput, edgeInput, loopInput);
      Sampled(v.vertexCount, v.edgeCount, LoopTarget(v.loopCount), draws, width, height).loops == []
  {
    var v := Validate(vertexInput, edgeInput, loopInput);
    SampledFacts(v.vertexCount, v.edgeCount, LoopTarget(v.loopCount), draws, width, height);
  }

  // ---------------------------------------------------------------- the session

  class Session {
    var vertices: seq<Vertex>
    var edges: seq<Edge>
    var loops: seq<Vertex>
    var isDirected: bool
    /** The draw calls painted since the canvas was last cleared. */
    var canvas: seq<DrawCall>
    const width: real
    const height: real

    /**
      The page load: empty collections, an undirected graph, a canvas at most
      800 wide and 600 high. `canvas.width` is an unsigned integer attribute,
      so the assigned width is stored truncated to a whole number.
     */
    constructor (innerWidth: real)
      requires innerWidth >= 0.0
      ensures width == Min(innerWidth * 0.9, MaxCanvasWidth).Floor as real && height == CanvasHeight
      ensures width <= Min(innerWidth * 0.9, MaxCanvasWidth) < width + 1.0
      ensures vertices == [] && edges == [] && loops == [] && !isDirected && canvas == []
      ensures Valid()
    {
      width := Min(innerWidth * 0.9, MaxCanvasWidth).Floor as real;
      height := CanvasHeight;
      vertices, edges, loops := [], [], [];
      isDirected := false;
      canvas := [];
    }

    function State(): GraphState
      reads this
    {
      GraphState(vertices, edges, loops, isDirected)
    }

    /** The session invariant: a well-formed graph whose vertices lie inside the canvas margins. */
    predicate Valid()
      reads this
    {
      && WellFormed(vertices, edges, loops)
      && forall k :: 0 <= k < |vertices| ==> WithinMargins(vertices[k].x, width) && WithinMargins(vertices[k].y, height)
    }

    /**
      generateVertices(vertexCount): append vertices with ids 1..vertexCount,
      each placed by redrawing a position until it is far enough from every
      vertex already there, and draw each one.
     */
    method GenerateVertices(vertexCount: int, draws: seq<real>) returns (used: nat)
      requires AllUnit(draws)
      modifies this`vertices, this`canvas
      ensures var r := PlaceVertices(draws, old(vertices), [], vertexCount, width, height, 0);
        && vertices == old(vertices) + r.0 && used == r.1
        && canvas == old(canvas) + VertexCalls(r.0)
      ensures used <= |draws|
    {
      ghost var base := vertices;
      ghost var added: seq<Vertex> := [];
      ghost var result := PlaceVertices(draws, base, [], vertexCount, width, height, 0);
      used := 0;
      var i := 1;
      while i <= vertexCount
        invariant used <= |draws| && |added| == i - 1
        invariant vertices == base + added && canvas == old(canvas) + VertexCalls(added)
        invariant PlaceVertices(draws, base, added, vertexCount, width, height, used) == result
        decreases vertexCount - i
      {
        ghost var start := used;
        var x, y := 0.0, 0.0;
        var validPosition := false;
        while !validPosition && used + 2 <= |draws|
          invariant start <= used <= |draws|
          invariant !validPosition ==> NextPosition(draws, vertices, width, height, used) == NextPosition(draws, vertices, width, height, start)
          invariant validPosition ==> NextPosition(draws, vertices, width, height, start) == Found(x, y, used)
          decreases |draws| - used, if validPosition then 0 else 1
        {
          x := Coordinate(draws[used], width);
          y := Coordinate(draws[used + 1], height);
          used := used + 2;
          validPosition := FarFromAll(x, y, vertices);
        }
        if !validPosition {
          assert result == (added, used);
          break;
        }
        var v := Vertex(x, y, i);
        vertices := vertices + [v];
        canvas := canvas + [DrawVertex(x, y, i)];
        VertexCallsConcat(added, [v]);
        AppendAssociates(base, added, v);
        AppendAssociates(old(canvas), VertexCalls(added), DrawVertex(x, y, i));
        added := added + [v];
        i := i + 1;
      }
    }

    /**
      generateEdges(edgeCount): draw index pairs until there are edgeCount
      edges, skipping a pair whose indices coincide or whose key
      `[s, e].sort().join("-")` is already in the local edgeSet, and draw each
      edge kept, with an arrowhead when the graph is directed.
     */
    method GenerateEdges(edgeCount: int, draws: seq<real>) returns (used: nat)
      requires AllUnit(draws)
      modifies this`edges, this`canvas
      ensures var T := EdgeAttempts(draws, vertices, edgeCount - |old(edges)|, 0);
        && used == 2 * T
        && edges == old(edges) + RunEdges(draws, vertices, T).added
        && canvas == old(canvas) + EdgeCalls(RunEdges(draws, vertices, T).added, isDirected)
    {
      ghost var base, shown := edges, canvas;
      ghost var added: seq<Edge> := [];
      ghost var picks: seq<(nat, nat)> := [];
      ghost var attempts: nat := 0;
      var vs, directed := vertices, isDirected;
      var n := |vs|;
      ghost var target := edgeCount - |base|;
      var edgeSet: set<string> := {};
      used := 0;
      while |edges| < edgeCount && used + 2 <= |draws|
        invariant used == 2 * attempts && used <= |draws|
        invariant RunEdges(draws, vs, attempts) == EdgeRun(picks, added, edgeSet)
        invariant EdgeAttempts(draws, vs, target, attempts) == EdgeAttempts(draws, vs, target, 0)
        invariant edges == base + added
        invariant canvas == shown + EdgeCalls(added, directed)
        decreases |draws| - used
      {
        EdgeAttemptsNext(draws, vs, target, attempts);
        var startIndex := RandomIndex(draws[used], n);
        var endIndex := RandomIndex(draws[used + 1], n);
        assert Attempt(draws, n, attempts) == (startIndex, endIndex);
        used := used + 2;
        if startIndex != endIndex {
          var edgeKey := Key(startIndex, endIndex);
          if edgeKey !in edgeSet {
            RunEdgesKeep(draws, vs, attempts, startIndex, endIndex);
            edgeSet := edgeSet + {edgeKey};
            var startVertex := vs[startIndex];
            var endVertex := vs[endIndex];
            var edge := Edge(startVertex, endVertex);
            PushEdge(edge, directed, base, shown, added);
            picks := picks + [(startIndex, endIndex)];
            added := added + [edge];
          } else {
            RunEdgesSkip(draws, vs, attempts, startIndex, endIndex);
          }
        } else {
          RunEdgesSkip(draws, vs, attempts, startIndex, endIndex);
        }
        attempts := attempts + 1;
      }
      EdgeAttemptsDone(draws, vs, target, attempts);
    }

    /** `edges.push(edge)` and `drawEdge(...)` for one kept edge. */
    method PushEdge(edge: Edge, directed: bool, ghost base: seq<Edge>, ghost shown: seq<DrawCall>, ghost added: seq<Edge>)
      requires edges == base + added && canvas == shown + EdgeCalls(added, directed)
      modifies this`edges, this`canvas
      ensures edges == base + (added + [edge]) && canvas == shown + EdgeCalls(added + [edge], directed)
    {
      edges := edges + [edge];
      canvas := canvas + [DrawEdge(edge.startVertex, edge.endVertex, directed)];
      EdgeCallsConcat(added, [edge], directed);
      AppendAssociates(base, added, edge);
      AppendAssociates(shown, EdgeCalls(added, directed), DrawEdge(edge.startVertex, edge.endVertex, directed));
    }

    /**
      generateLoops(loopCount): draw vertex indices until there are loopCount
      loops, skipping an index already in the local loopSet, and draw each
      loop kept. The source dereferences the drawn vertex, so it needs a
      vertex to exist whenever a loop is still wanted.
     */
    method GenerateLoops(loopCount: int, draws: seq<real>) returns (used: nat)
      requires AllUnit(draws)
      requires |vertices| > 0 || loopCount <= |loops|
      modifies this`loops, this`canvas
      ensures var T := LoopDraws(draws, vertices, loopCount - |old(loops)|, 0);
        && used == T
        && loops == old(loops) + RunLoops(draws, vertices, T).added
        && canvas == old(canvas) + LoopCalls(RunLoops(draws, vertices, T).added)
    {
      ghost var base := loops;
      ghost var added: seq<Vertex> := [];
      ghost var picks: seq<nat> := [];
      var vs := vertices;
      var n := |vs|;
      ghost var target := loopCount - |base|;
      var loopSet: set<nat> := {};
      used := 0;
      while |loops| < loopCount && used < |draws|
        invariant used <= |draws| && (n > 0 || used == 0)
        invariant RunLoops(draws, vs, used) == LoopRun(picks, added, loopSet)
        invariant LoopDraws(draws, vs, target, used) == LoopDraws(draws, vs, target, 0)
        invariant loops == base + added
        invariant canvas == old(canvas) + LoopCalls(added)
        decreases |draws| - used
      {
        var vertexIndex := RandomIndex(draws[used], n);
        if vertexIndex !in loopSet {
          loopSet := loopSet + {vertexIndex};
          var vertex := vs[vertexIndex];
          loops := loops + [vertex];
          canvas := canvas + [DrawLoop(vertex)];
          LoopCallsConcat(added, [vertex]);
          AppendAssociates(base, added, vertex);
          AppendAssociates(old(canvas), LoopCalls(added), DrawLoop(vertex));
          picks := picks + [vertexIndex];
          added := added + [vertex];
        }
        used := used + 1;
      }
    }

    /**
      The generate button and generateGraph, which do the same: validate the
      three counts; on an alert change nothing; otherwise empty the graph and
      the canvas and run the samplers on the draws, each on what the one
      before it left. What is built does not depend on isDirected.
     */
    method GenerateGraph(vertexInput: Option<int>, edgeInput: Option<int>, loopInput: Option<int>, draws: seq<real>)
      returns (alert: Option<Alert>, used: nat)
      requires AllUnit(draws)
      requires Valid()
      modifies this`vertices, this`edges, this`loops, this`canvas
      ensures Valid()
      ensures Validate(vertexInput, edgeInput, loopInput).Reject? ==>
        && alert == Some(Validate(vertexInput, edgeInput, loopInput).alert)
        && vertices == old(vertices) && edges == old(edges) && loops == old(loops)
        && canvas == old(canvas) && used == 0
      ensures Validate(vertexInput, edgeInput, loopInput).Accept? ==>
        var v := Validate(vertexInput, edgeInput, loopInput);
        var s := Sampled(v.vertexCount, v.edgeCount, LoopTarget(v.loopCount), draws, width, height);
        && alert == None
        && vertices == s.vertices && edges == s.edges && loops == s.loops && used == s.used
        && canvas == Render(State())
        && Valid()
    {
      var verdict := Validate(vertexInput, edgeInput, loopInput);
      if verdict.Reject? {
        return Some(verdict.alert), 0;
      }
      var loopCount := LoopTarget(verdict.loopCount);
      used := Regenerate(verdict.vertexCount, verdict.edgeCount, loopCount, draws);
      SampledFacts(verdict.vertexCount, verdict.edgeCount, loopCount, draws, width, height);
      alert := None;
    }

    /** The accepted branch of a generation: empty the graph and the canvas, then run the samplers in turn. */
    method Regenerate(vertexCount: nat, edgeCount: nat, loopCount: nat, draws: seq<real>) returns (used: nat)
      requires AllUnit(draws)
      requires vertexCount >= 1 && loopCount <= vertexCount
      modifies this`vertices, this`edges, this`loops, this`canvas
      ensures var s := Sampled(vertexCount, edgeCount, loopCount, draws, width, height);
        && vertices == s.vertices && edges == s.edges && loops == s.loops && used == s.used
        && canvas == Render(State())
    {
      vertices, edges, loops := [], [], [];
      canvas := [];
      assert canvas == Render(State());
      ghost var empty := State();
      used := GenerateVertices(vertexCount, draws);
      ghost var pv := PlaceVertices(draws, [], [], vertexCount, width, height, 0);
      ghost var vs := pv.0;
      assert [] + vs == vs;
      assert vertices == vs && used == pv.1;
      RenderAddVertices(empty, vs);
      if |vertices| < vertexCount {
        assert Sampled(vertexCount, edgeCount, loopCount, draws, width, height) == Sample(vs, [], [], pv.1);
      } else {
        AllUnitSuffix(draws, used);
        var more := Connect(edgeCount, loopCount, draws[used..]);
        used := used + more;
      }
    }

    /** The edge and loop stages of an accepted generation, on the vertices just placed. */
    method Connect(edgeCount: nat, loopCount: nat, draws: seq<real>) returns (used: nat)
      requires AllUnit(draws)
      requires loopCount <= |vertices| && edges == [] && loops == []
      requires canvas == Render(State())
      modifies this`edges, this`loops, this`canvas
      ensures var c := Connected(vertices, edgeCount, loopCount, draws);
        && edges == c.edges && loops == c.loops && used == c.used
        && canvas == Render(State())
    {
      ghost var vs := vertices;
      ghost var bare := State();
      used := GenerateEdges(edgeCount, draws);
      ghost var T := EdgeAttempts(draws, vs, edgeCount, 0);
      ghost var es := RunEdges(draws, vs, T).added;
      assert [] + es == es;
      assert edges == es && used == 2 * T;
      RenderAddEdges(bare, es);
      if |edges| < edgeCount || loopCount == 0 {
        assert Connected(vs, edgeCount, loopCount, draws) == Sample(vs, es, [], used);
      } else {
        AllUnitSuffix(draws, used);
        var last := draws[used..];
        ghost var linked := State();
        var loopDraws := GenerateLoops(loopCount, last);
        ghost var U := LoopDraws(last, vs, loopCount, 0);
        ghost var ls := RunLoops(last, vs, U).added;
        assert [] + ls == ls;
        assert loops == ls && loopDraws == U;
        RenderAddLoops(linked, ls);
        used := used + loopDraws;
        assert Connected(vs, edgeCount, loopCount, draws) == Sample(vs, es, ls, used);
      }
    }

    /** The clear button: empty the graph and the canvas; the direction stays. */
    method Clear()
      modifies this`vertices, this`edges, this`loops, this`canvas
      ensures vertices == [] && edges == [] && loops == [] && canvas == []
      ensures isDirected == old(isDirected)
      ensures Valid()
    {
      vertices, edges, loops := [], [], [];
      canvas := [];
    }

    /**
      The toggle button: flip isDirected, clear the canvas, then generate
      from the same inputs. The canvas is cleared before the inputs are
      validated, so on an alert the graph is kept but nothing is painted.
     */
    method ToggleDirected(vertexInput: Option<int>, edgeInput: Option<int>, loopInput: Option<int>, draws: seq<real>)
      returns (alert: Option<Alert>, used: nat)
      requires AllUnit(draws)
      requires Valid()
      modifies this
      ensures Valid()
      ensures isDirected == !old(isDirected)
      ensures Validate(vertexInput, edgeInput, loopInput).Reject? ==>
        && alert == Some(Validate(vertexInput, edgeInput, loopInput).alert)
        && vertices == old(vertices) && edges == old(edges) && loops == old(loops)
        && canvas == [] && used == 0
      ensures Validate(vertexInput, edgeInput, loopInput).Accept? ==>
        var v := Validate(vertexInput, edgeInput, loopInput);
        var s := Sampled(v.vertexCount, v.edgeCount, LoopTarget(v.loopCount), draws, width, height);
        && alert == None
        && vertices == s.vertices && edges == s.edges && loops == s.loops && used == s.used
        && canvas == Render(State())
        && Valid()
    {
      isDirected := !isDirected;
      canvas := [];
      alert, used := GenerateGraph(vertexInput, edgeInput, loopInput, draws);
    }
  }
}
