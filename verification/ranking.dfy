/**
 * Python floats as the matchers use them: finite scores plus the two infinities, ordered as
 * Python orders them, and the tie-break of Python's built-in `max`.
 */
module Ranking {

  /** A score: a finite real or one of the infinities `float('-inf')` and `float('inf')`. */
  datatype ExtReal = NegInf | Fin(r: real) | PosInf

  function Rank(x: ExtReal): int
  {
    match x
    case NegInf => 0
    case Fin(_) => 1
    case PosInf => 2
  }

  /** Python's `a < b` on scores. */
  predicate Less(a: ExtReal, b: ExtReal)
  {
    if a.Fin? && b.Fin? then a.r < b.r else Rank(a) < Rank(b)
  }

  predicate AtMost(a: ExtReal, b: ExtReal)
  {
    !Less(b, a)
  }

  /**
   * The position Python's `max` picks among `vs`: it keeps its first candidate and replaces it only
   * by a strictly greater value, so it returns the first position holding a maximal value.
   */
  function FirstMaxIndex(vs: seq<ExtReal>): (i: nat)
    requires |vs| > 0
    ensures i < |vs|
    ensures forall j :: 0 <= j < |vs| ==> AtMost(vs[j], vs[i])
    ensures forall j :: 0 <= j < i ==> Less(vs[j], vs[i])
  {
    if |vs| == 1 then 0
    else
      var i := FirstMaxIndex(vs[..|vs| - 1]);
      if Less(vs[i], vs[|vs| - 1]) then |vs| - 1 else i
  }
}
