# A verified model of the graph generator in graph.js

graph.js is a single-page random graph generator. The page holds three
module-level arrays and a flag:

- `vertices`: points with ids;
- `edges`: pairs of vertices, in the order they were drawn;
- `loops`: vertices that carry a self-loop;
- `isDirected`.

Three buttons change this state:

- **generate** (the same code as `generateGraph`) validates the vertex, edge
  and loop counts. A rejected request raises an alert and changes nothing.
  An accepted one empties the graph and the canvas, then runs
  `generateVertices`, `generateEdges` and, when the loop count is positive,
  `generateLoops`.
- **clear** empties the graph and the canvas.
- **toggle** flips `isDirected`, clears the canvas and runs `generateGraph`
  on the same inputs.

Each sampler is a rejection loop driven by `Math.random`:

- vertex placement redraws a position until the point is at least 50 units
  from every vertex already placed;
- the edge sampler redraws an index pair until its two indices differ and
  its key `[s, e].sort().join("-")` is new;
- the loop sampler redraws a vertex index until it is new.

The project consists of five modules:

- `Keys` (keys.dfy) models the edge key exactly, including the string order
  that `sort()` uses on numbers. It proves that the key depends only on the
  unordered pair and tells different pairs apart.
- `PairSpace` (pair_space.dfy) counts the key space: n vertices have
  n(n-1)/2 keys. It proves that while fewer keys than that have been
  collected, a fresh pair still exists. The same holds for vertex indices.
- `Validation` (validation.dfy) is the all-or-nothing request check.
- `Sampling` (sampling.dfy) gives each rejection loop as a recursive
  specification function, as the source runs it:
  - `PlaceVertices` / `NextPosition`;
  - `RunEdges` with its string keys;
  - `RunLoops` with its index set.

  The edge and loop samplers are each proved equal to an independent
  reference: `RunEdges` to `AcceptedPairs` on unordered pairs, `RunLoops`
  to `AcceptedIndices` on indices. Vertex placement has no separate
  reference; its facts are proved about `PlaceVertices` directly. This
  yields the graph invariants:
  - ids 1..n;
  - spaced vertices inside the margins;
  - no self-edge and no unordered pair twice;
  - at most one loop per vertex;
  - never more than asked for.

  `Sampled` is one whole generation pass.
- `Graph` (graph.dfy) holds the session as a class, `Session`:
  - its fields are the module-level arrays, the flag and the list of draw
    calls painted on the canvas;
  - each sampler is a method with the source's `while` loop;
  - each method's postcondition ties the new fields to the specification
    function of `Sampling`.

`Math.random` is a parameter: a finite stream `draws` of reals in [0, 1).
The source's loops have no bound on their attempts. A loop here also stops
when the stream runs out, and the lemmas show that this is the only way it
ends short. A sampler that runs out ends the generation pass. When every
pair (every index) occurs somewhere in the stream, the edge (loop) sampler
reaches its target.

A rejected toggle flips the flag and keeps the arrays, but the canvas stays
blank, because graph.js:69 clears it before `generateGraph` validates.
`Graph.Session.ToggleDirected` states exactly that.

## Model

| member | source | states |
|---|---|---|
| `Keys.Decimal` | graph.js:110 | The string form of a number is a non-empty run of digits, with at least two digits from 10 up. |
| `Keys.DecimalInjective` | graph.js:110 | Different numbers have different string forms. |
| `Keys.KeySymmetric` | graph.js:110 | The key of (s, e) equals the key of (e, s). |
| `Keys.KeyInjective` | graph.js:110 | Equal keys come from the same unordered pair. |
| `Keys.KeyIdentifiesPair` | graph.js:110 | Two index pairs have the same key if and only if they are the same unordered pair. |
| `Keys.KeyOrderIsNotNumeric` | graph.js:110 | The key orders by strings, not by numbers: (9, 10) and (10, 9) both give "10-9"; (2, 3) gives "2-3". |
| `PairSpace.PairKeysCount` | graph.js:30 | There are exactly n(n-1)/2 keys of pairs of distinct indices below n, the bound that validation uses. |
| `PairSpace.FreshPairExists` | graph.js:105-112 | While fewer than n(n-1)/2 keys are in a set of such keys, some pair i < j < n has a key outside it. |
| `PairSpace.FreshIndexExists` | graph.js:126-130 | While fewer than n indices below n have been collected, some index below n is still fresh. |
| `Validation.RealBoundIsPairs` | graph.js:30 | With JavaScript's real division, `e > n*(n-1)/2` holds exactly when e exceeds the integer n(n-1)/2. |
| `Validation.Validate` | graph.js:25-38 | A request is accepted if and only if both counts are present, 1 <= vertices, 0 <= edges <= n(n-1)/2, and any present loop count is at most n. It returns InvalidCounts exactly for a missing count, vertices <= 0 or edges < 0. The alerts come in the source's order. |
| `Validation.ThreeVerticesFourEdgesRejected` | graph.js:30-33 | Four edges on three vertices raise the too-many-edges alert. |
| `Validation.FourVerticesFiveLoopsRejected` | graph.js:35-38 | Five loops on four vertices raise the too-many-loops alert, whatever the valid edge count. |
| `Validation.MissingOrNegativeLoopsAccepted` | graph.js:35-54 | A missing or negative loop count is no rejection and asks for no loops. |
| `Sampling.RandomIndex` | graph.js:106-107 | `Math.floor(Math.random() * n)` is an index below n, or 0 when there are no vertices. |
| `Sampling.Attempt` | graph.js:106-107 | Each edge attempt takes two draws and gives two indices below n. |
| `Sampling.CoordinateWithinMargins` | graph.js:88-89 | `Math.random() * (extent - 100) + 50` lies between the two 50-unit margins. |
| `Sampling.NextPosition` | graph.js:84-94 | The placement loop of one vertex either finds a point inside the margins, at least 50 from every existing vertex, after at least one attempt, or stops with fewer than two draws left. |
| `Sampling.PlaceVerticesFacts` | graph.js:83-98 | generateVertices only appends. Each new vertex has the next id from 1, lies inside the margins and is far enough from every earlier vertex. It never appends more than asked, and ends short only when fewer than two draws remain. |
| `Sampling.PlacementsAreSpaced` | graph.js:83-98 | Vertices placed on an empty graph have ids 1..n in index order and are pairwise at least 50 apart. |
| `Sampling.FreshKeyIsFreshPair` | graph.js:109-111 | A drawn pair's key is absent from the keys of the kept pairs exactly when no kept pair is the same unordered pair. |
| `Sampling.PicksMakeSimpleEdges` | graph.js:109-115 | Kept pairs of distinct indices turn into edges between two different vertices of `vertices`, no two on the same unordered pair. |
| `Sampling.PicksMakeDistinctLoops` | graph.js:129-132 | Kept distinct indices turn into loops on vertices of `vertices`, no vertex twice. |
| `Sampling.RunEdgesFacts` | graph.js:103-119 | The key-based edge loop keeps exactly the pairs of the pair-based reference: no self-pair and no unordered pair twice. Its edges are those pairs' vertices in drawn order. `edgeSet` is exactly the keys of the kept edges and has one key per edge. Every attempt's key is in `edgeSet`. |
| `Sampling.RunEdgesKeysInPairSpace` | graph.js:103-112 | Every key in edgeSet is the key of a pair of distinct vertex indices. |
| `Sampling.EdgeProgress` | graph.js:105-112 | While the edge loop has fewer edges than a target of at most n(n-1)/2, which validation at graph.js:30 guarantees, some pair i < j < n still has a key outside edgeSet. |
| `Sampling.AllPairKeysSeen` | graph.js:105-119 | If every attempt's key was recorded and every pair occurs in the stream, at least n(n-1)/2 keys were recorded. |
| `Sampling.EdgeAttemptsStop` | graph.js:105 | The edge loop stops once it has the target number of edges or fewer than two draws remain, and never overshoots the target. |
| `Sampling.EdgeSamplingFacts` | graph.js:102-120 | generateEdges keeps exactly the reference pairs (simple, no duplicates) and never adds more than asked. It adds nothing for a target <= 0 and ends short only when the stream runs out. It reaches the target when the target is at most n(n-1)/2 and every pair occurs in the stream. |
| `Sampling.RunLoopsFacts` | graph.js:124-135 | The set-based loop sampler keeps exactly the reference indices, each vertex at most once. Its loops are the vertices at those indices. `loopSet` is exactly the kept indices and has one per loop. Every drawn index is in `loopSet`. |
| `Sampling.LoopProgress` | graph.js:126-130 | While the loop sampler has fewer loops than a target of at most n, which validation at graph.js:35 guarantees, some vertex index is still outside loopSet. |
| `Sampling.AllIndicesSeen` | graph.js:126-135 | If every draw's index was recorded and every index occurs in the stream, all n indices were recorded. |
| `Sampling.LoopDrawsStop` | graph.js:126 | The loop sampler stops once it has the target number of loops or the stream is used up, and never overshoots. |
| `Sampling.LoopSamplingFacts` | graph.js:123-136 | generateLoops keeps exactly the reference indices (distinct) and never adds more than asked. It adds nothing for a target <= 0 and ends short only when the stream runs out. It reaches the target when the target is at most n and every index occurs in the stream. |
| `Sampling.SampledFacts` | graph.js:213-228 | A generation pass builds a well-formed graph: ids 1..n, spaced vertices inside the margins, simple edges, at most one loop per vertex. It never builds more than asked, and builds all of it unless fewer than two draws remain. |
| `Graph.Session.constructor` | graph.js:4-17 | The page starts with empty arrays, an undirected graph and a blank canvas. Its width is min(0.9 * innerWidth, 800) truncated to a whole number, as the unsigned `canvas.width` attribute stores it. Its height is 600. |
| `Graph.Session.GenerateVertices` | graph.js:80-99 | The loop appends to `vertices` exactly the vertices of the placement specification. It draws each on the canvas in order and reports the draws it used. |
| `Graph.Session.GenerateEdges` | graph.js:102-120 | The loop appends to `edges` exactly the edges of the edge-run specification, and only appends. It paints one edge call per kept edge, with an arrowhead exactly when the graph is directed. It uses two draws per attempt. |
| `Graph.Session.PushEdge` | graph.js:115-116 | `edges.push` and `drawEdge` append the edge and its draw call. |
| `Graph.Session.GenerateLoops` | graph.js:123-136 | The loop appends to `loops` exactly the loops of the loop-run specification, paints one loop call per kept loop, and uses one draw per attempt. |
| `Graph.NoLoopsUnlessRequested` | graph.js:226-228 | An accepted request with a missing, zero or negative loop count builds no loops, because generateLoops runs only for a positive count. |
| `Graph.Session.GenerateGraph` | graph.js:193-229 | The session invariant holds after every call. On a rejection it returns the alert and changes no array, the flag or the canvas. On acceptance the arrays are exactly one generation pass from an empty graph, which does not depend on `isDirected`. The canvas shows exactly that graph's draw calls in generation order. The generate button, graph.js:20-55, runs the same code. |
| `Graph.Session.Regenerate` | graph.js:213-228 | Resetting and running the three samplers gives exactly the generation pass, with the canvas matching it. |
| `Graph.Session.Connect` | graph.js:222-228 | Edge sampling, then loop sampling when every edge was placed and loops are wanted, gives exactly the edges and loops of the pass. |
| `Graph.Session.Clear` | graph.js:58-63 | The arrays and the canvas are emptied, `isDirected` is kept, and the session invariant holds. |
| `Graph.Session.ToggleDirected` | graph.js:66-72 | The session invariant holds after every call. The flag is flipped exactly once. On a rejection the arrays are kept and the canvas is blank. On acceptance the result is that of GenerateGraph under the new flag. |
| `Graph.RenderAddVertices` | graph.js:96-97 | Drawing each appended vertex extends the rendering of a graph with no edges or loops by those vertices' calls. |
| `Graph.RenderAddEdges` | graph.js:115-116 | Drawing each appended edge extends the rendering of a graph with no loops by those edges' calls. |
| `Graph.RenderAddLoops` | graph.js:132-133 | Drawing each appended loop extends the rendering by those loops' calls. |

## Left out

- The DOM: `document.getElementById`, the button listeners, `alert` (an alert is returned as a value) and `updateGraphTypeDisplay` (the label is not modelled).
- `parseInt`: each input is an `Option<int>`, with None standing for NaN. The string parsing itself is not modelled.
- `Math.random`: it is a supplied finite stream of reals in [0, 1). The source's unbounded rejection loops stop early when the stream runs out. A pass whose sampler ran out ends there, so later samplers do not run on an exhausted stream.
- Canvas painting: `drawVertex`, `drawEdge`, `drawLoop` and `clearRect` become a list of draw calls, one per element, in generation order. An edge call records its two vertices and whether it gets an arrowhead; the arc, line and trigonometry geometry is not modelled.
- Floating point: coordinates and the distance test are exact reals. `Math.sqrt(d) >= 50` is stated as `d >= 2500`. Rounding in the IEEE-754 arithmetic of JavaScript numbers is not modelled.
- Integer width: counts and indices are unbounded integers. The safe-integer range of JavaScript numbers is not modelled.
- Graph.Session.constructor: it requires `innerWidth >= 0`, which a browser window always has. The conversion of a negative value to an unsigned width is not modelled.
- The canvas size is fixed when the session starts. Resizing the window later has no effect, as in the source.
- Graph.Session.GenerateLoops: it requires a vertex whenever a loop is still wanted. With no vertices, the source would read `vertices[0]` as undefined, and `drawLoop(undefined)` would then throw a TypeError at `vertex.x` (graph.js:131-133, 181). Every accepted request has at least one vertex, so the generation path never does this.
- Graph.Session.GenerateEdges: it takes no precondition on vertex count. With fewer than two vertices and a positive target, the source would loop forever; here the loop runs until the stream is used up. Validation keeps the generation path away from this case.
