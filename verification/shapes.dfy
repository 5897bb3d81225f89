/**
 * The seven tetromino shapes and the "fuzzy" shape that may be unknown.
 * `Shape` itself lives in the external `bitris` crate; only its ordinal
 * (`shape as usize`) and its iteration order `T, I, O, L, J, S, Z` are used.
 */
module Shapes {

  datatype Shape = T | I | O | L | J | S | Z

  /** `Shape::all_iter()`: every shape once, in ordinal order. */
  const AllShapes: seq<Shape> := [T, I, O, L, J, S, Z]

  /** `shape as usize`. */
  function Ordinal(s: Shape): (r: nat)
    ensures r < 7
    ensures AllShapes[r] == s
  {
    match s
    case T => 0
    case I => 1
    case O => 2
    case L => 3
    case J => 4
    case S => 5
    case Z => 6
  }

  /** `Shape::try_from(ordinal)` for an ordinal that is in range. */
  function FromOrdinal(k: nat): (s: Shape)
    requires k < 7
    ensures Ordinal(s) == k
  {
    AllShapes[k]
  }

  lemma OrdinalInjective(a: Shape, b: Shape)
    ensures Ordinal(a) == Ordinal(b) <==> a == b
  {
  }

  /** Every shape occurs exactly once in `AllShapes`. */
  lemma AllShapesOnceEach(s: Shape)
    ensures s in AllShapes
    ensures multiset(AllShapes)[s] == 1
  {
  }

  /** `7^n`: the number of shape sequences of length `n`. */
  function Pow7(n: nat): (r: nat)
    ensures 0 < r
  {
    if n == 0 then 1 else 7 * Pow7(n - 1)
  }

  /** A slot of an order that may or may not be known (`internals/fuzzy_shape.rs`). */
  datatype FuzzyShape = Unknown | Known(shape: Shape)

  /** Wraps every shape of a sequence as `Known`. */
  function KnownAll(s: seq<Shape>): (r: seq<FuzzyShape>)
    ensures |r| == |s|
    ensures forall k :: 0 <= k < |s| ==> r[k] == Known(s[k])
  {
    if s == [] then [] else [Known(s[0])] + KnownAll(s[1..])
  }

  /** `n` copies of `Unknown`. */
  function Unknowns(n: nat): (r: seq<FuzzyShape>)
    ensures |r| == n
    ensures forall k :: 0 <= k < n ==> r[k] == Unknown
  {
    if n == 0 then [] else [Unknown] + Unknowns(n - 1)
  }
}
