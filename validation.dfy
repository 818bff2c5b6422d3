/**
  Validation of a generation request. The three counts are read from text
  inputs with parseInt; an input that does not parse is NaN, modelled here as
  None. Validation is all-or-nothing: the first failing check raises its
  alert and the request is dropped.
 */
module Validation {
  import opened PairSpace

  datatype Option<T> = None | Some(value: T)

  /** The three alerts a request can raise, in the order they are checked. */
  datatype Alert =
    | InvalidCounts   // vertex or edge count missing, vertices <= 0 or edges < 0
    | TooManyEdges    // more edges than unordered pairs of vertices
    | TooManyLoops    // a loop count present and larger than the vertex count

  datatype Verdict =
    | Accept(vertexCount: nat, edgeCount: nat, loopCount: Option<int>)
    | Reject(alert: Alert)

  /** The number of loops an accepted request generates: none unless the count is present and positive. */
  function LoopTarget(loopCount: Option<int>): nat
  {
    if loopCount.Some? && loopCount.value > 0 then loopCount.value else 0
  }

  lemma PairsIsHalfProduct(n: int)
    requires n >= 1
    ensures 2 * Pairs(n) == n * (n - 1)
  {
    var k := n / 2;
    var m := if n % 2 == 0 then k * (n - 1) else n * k;
    assert n * (n - 1) == 2 * m by {
      if n % 2 == 0 {
        assert n == 2 * k;
      } else {
        assert n - 1 == 2 * k;
      }
    }
    assert Pairs(n) == m;
  }

  /** The comparison `edgeCount > vertexCount * (vertexCount - 1) / 2`, evaluated with JavaScript's real division. */
  lemma RealBoundIsPairs(e: int, n: int)
    requires n >= 1
    ensures (e as real > (n * (n - 1)) as real / 2.0) <==> e > Pairs(n)
  {
    PairsIsHalfProduct(n);
    assert (n * (n - 1)) as real / 2.0 == Pairs(n) as real;
  }

  /**
    The checks of graph.js, in order. The edge bound is compared as JavaScript
    does, with a real-valued division.
   */
  function Validate(vertexInput: Option<int>, edgeInput: Option<int>, loopInput: Option<int>): (v: Verdict)
    ensures v.Accept? <==>
      && vertexInput.Some? && edgeInput.Some?
      && 1 <= vertexInput.value && 0 <= edgeInput.value <= Pairs(vertexInput.value)
      && (loopInput.Some? ==> loopInput.value <= vertexInput.value)
    ensures v.Accept? ==> v == Accept(vertexInput.value, edgeInput.value, loopInput)
    ensures v == Reject(InvalidCounts) <==>
      vertexInput.None? || edgeInput.None? || vertexInput.value < 1 || edgeInput.value < 0
    ensures v == Reject(TooManyEdges) ==>
      vertexInput.Some? && edgeInput.Some? && edgeInput.value > Pairs(vertexInput.value)
    ensures v == Reject(TooManyLoops) ==>
      && vertexInput.Some? && edgeInput.Some? && edgeInput.value <= Pairs(vertexInput.value)
      && loopInput.Some? && loopInput.value > vertexInput.value
  {
    if vertexInput.None? || edgeInput.None? || vertexInput.value <= 0 || edgeInput.value < 0 then
      Reject(InvalidCounts)
    else
      var n, e := vertexInput.value, edgeInput.value;
      RealBoundIsPairs(e, n);
      if e as real > (n * (n - 1)) as real / 2.0 then
        Reject(TooManyEdges)
      else if loopInput.Some? && loopInput.value > n then
        Reject(TooManyLoops)
      else
        Accept(n, e, loopInput)
  }

  /** Three vertices have three pairs, so four edges are refused. */
  lemma ThreeVerticesFourEdgesRejected()
    ensures Validate(Some(3), Some(4), None) == Reject(TooManyEdges)
  {
    RealBoundIsPairs(4, 3);
  }

  /** Five loops on four vertices are refused, whatever the (valid) edge count. */
  lemma FourVerticesFiveLoopsRejected(e: int)
    requires 0 <= e <= 6
    ensures Validate(Some(4), Some(e), Some(5)) == Reject(TooManyLoops)
  {
    RealBoundIsPairs(e, 4);
  }

  /** A missing or negative loop count passes validation and asks for no loops. */
  lemma MissingOrNegativeLoopsAccepted(n: int, e: int, l: Option<int>)
    requires 1 <= n && 0 <= e <= Pairs(n)
    requires l.None? || l.value < 0
    ensures Validate(Some(n), Some(e), l) == Accept(n, e, l)
    ensures LoopTarget(l) == 0
  {
  }
}
