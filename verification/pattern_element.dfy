/**
 * `PatternElement`: one slot of a pattern, standing for a list of shape
 * vectors of one fixed length. Both generations of the pattern code
 * (`pattern.rs` and the older `patterns.rs`) share this model.
 */
module PatternElements {
  import opened Shapes
  import opened ShapeCounters
  import opened Permutations
  import BitShapesModel

  datatype PatternElement =
    | One(shape: Shape)                           // `T`
    | Fixed(shapes: BitShapesModel.BitShapes)     // `TIO`
    | Wildcard                                    // `*`
    | Permutation(counter: ShapeCounter, pop: nat) // `[TIO]p2`
    | Factorial(counter: ShapeCounter)            // `[TIOLJSZ]p7`, `*!`

  /** Counters carry their seven slots. */
  predicate WellFormed(e: PatternElement)
  {
    (e.Permutation? || e.Factorial?) ==> e.counter.Valid()
  }

  /**
   * What the element's methods assert before they expand it: a
   * permutation pops at least one and at most all of its shapes, and a
   * factorial has at least one shape.
   */
  predicate Expandable(e: PatternElement)
  {
    WellFormed(e) &&
    match e
    case Permutation(c, pop) => 0 < pop <= TotalSize(c)
    case Factorial(c) => 0 < TotalSize(c)
    case _ => true
  }

  /** The shapes of a `Fixed` element, in order. */
  function FixedShapes(b: BitShapesModel.BitShapes): (r: seq<Shape>)
    ensures |r| == b.len
  {
    BitShapesModel.Unpacked(b.value, b.len)
  }

  /** `to_shapes_vec`: every vector the element stands for, in the source's order. */
  function ShapesVec(e: PatternElement): seq<seq<Shape>>
    requires Expandable(e)
  {
    match e
    case One(s) => [[s]]
    case Fixed(b) => [FixedShapes(b)]
    case Wildcard => seq(7, k requires 0 <= k < 7 => [AllShapes[k]])
    case Permutation(c, pop) => Perms(Flatten(c), pop)
    case Factorial(c) => Perms(Flatten(c), TotalSize(c))
  }

  /** `count_shapes` (`len_shapes_vec` in the older generation). */
  function Count(e: PatternElement): (r: nat)
    requires Expandable(e)
    ensures 0 < r
  {
    match e
    case One(_) => 1
    case Fixed(_) => 1
    case Wildcard => 7
    case Permutation(c, pop) => PermSizePositive(TotalSize(c), pop); CalculatePermutationSize(TotalSize(c), pop)
    case Factorial(c) => PermSizePositive(TotalSize(c), TotalSize(c)); CalculatePermutationSize(TotalSize(c), TotalSize(c))
  }

  lemma {:induction false} PermSizePositive(n: nat, k: nat)
    requires k <= n
    ensures 0 < PermSize(n, k)
  {
    if k > 0 {
      PermSizePositive(n - 1, k - 1);
    }
  }

  /** `dim_shapes`: the length of every vector of the element. */
  function Dim(e: PatternElement): nat
    requires Expandable(e)
  {
    match e
    case One(_) => 1
    case Fixed(b) => b.len
    case Wildcard => 1
    case Permutation(_, pop) => pop
    case Factorial(c) => TotalSize(c)
  }

  /** The count is the number of vectors listed, and each has `Dim` shapes. */
  lemma CountAndDim(e: PatternElement)
    requires Expandable(e)
    ensures |ShapesVec(e)| == Count(e)
    ensures forall v :: v in ShapesVec(e) ==> |v| == Dim(e)
  {
    match e
    case Permutation(c, pop) =>
      FlattenOf(c);
      PermsCount(Flatten(c), pop);
      PermsSound(Flatten(c), pop);
    case Factorial(c) =>
      FlattenOf(c);
      PermsCount(Flatten(c), TotalSize(c));
      PermsSound(Flatten(c), TotalSize(c));
    case _ =>
  }

  /**
   * The check `contains` makes on the element's slice of the sequence:
   * the shape itself, the fixed vector, anything, a sub-multiset of the
   * counter, the whole counter.
   */
  predicate Accepts(e: PatternElement, slice: seq<Shape>)
    requires Expandable(e) && |slice| == Dim(e)
  {
    match e
    case One(s) => slice[0] == s
    case Fixed(b) => slice == FixedShapes(b)
    case Wildcard => true
    case Permutation(c, _) => ContainsAll(c, Of(slice))
    case Factorial(c) => c == Of(slice)
  }

  /** A slice of the right length passes the check exactly when the element lists it. */
  lemma AcceptsIffListed(e: PatternElement, slice: seq<Shape>)
    requires Expandable(e) && |slice| == Dim(e)
    ensures Accepts(e, slice) <==> slice in ShapesVec(e)
  {
    match e
    case One(s) =>
      assert slice == [slice[0]];
    case Wildcard =>
      assert slice == [AllShapes[Ordinal(slice[0])]];
      assert ShapesVec(e)[Ordinal(slice[0])] == slice;
    case Fixed(_) =>
    case Permutation(c, pop) =>
      FlattenOf(c);
      PermsSound(Flatten(c), pop);
      if ContainsAll(c, Of(slice)) {
        PermsComplete(Flatten(c), pop, slice);
      }
    case Factorial(c) =>
      FlattenOf(c);
      PermsSound(Flatten(c), TotalSize(c));
      if c == Of(slice) {
        PermsComplete(Flatten(c), TotalSize(c), slice);
      }
      if slice in ShapesVec(e) {
        TotalSizeOf(slice);
        FullInside(c, Of(slice));
      }
  }

  /** A counter inside another with the same total is the same counter. */
  lemma FullInside(a: ShapeCounter, b: ShapeCounter)
    requires a.Valid() && b.Valid() && ContainsAll(a, b) && TotalSize(a) == TotalSize(b)
    ensures a == b
  {
    forall k | 0 <= k < 7 ensures b.counters[k] <= a.counters[k] {
      assert Get(b, FromOrdinal(k)) <= Get(a, FromOrdinal(k));
    }
    SumSqueeze(b.counters, a.counters);
  }

  lemma {:induction false} SumSqueeze(a: seq<nat>, b: seq<nat>)
    requires |a| == |b| && forall k :: 0 <= k < |a| ==> a[k] <= b[k]
    requires Sum(a) == Sum(b)
    ensures a == b
  {
    if a != [] {
      var n := |a|;
      SumBelow(a[..n - 1], b[..n - 1]);
      SumSqueeze(a[..n - 1], b[..n - 1]);
      assert a == a[..n - 1] + [a[n - 1]];
      assert b == b[..n - 1] + [b[n - 1]];
    }
  }

  lemma {:induction false} SumBelow(a: seq<nat>, b: seq<nat>)
    requires |a| == |b| && forall k :: 0 <= k < |a| ==> a[k] <= b[k]
    ensures Sum(a) <= Sum(b)
  {
    if a != [] {
      SumBelow(a[..|a| - 1], b[..|b| - 1]);
    }
  }

  /** `to_shape_counter_vec`: the counters of the element's vectors, each once. */
  function CounterVec(e: PatternElement): (r: seq<ShapeCounter>)
    requires Expandable(e)
    ensures forall x :: x in r ==> x.Valid()
  {
    match e
    case One(s) => [Of([s])]
    case Fixed(b) => [Of(FixedShapes(b))]
    case Wildcard => seq(7, k requires 0 <= k < 7 => Of([AllShapes[k]]))
    case Permutation(c, pop) => Subsets(c, pop)
    case Factorial(c) => [c]
  }

  /** The counters listed are exactly the counters of the vectors listed. */
  lemma CounterVecIsOfShapesVec(e: PatternElement)
    requires Expandable(e)
    ensures forall v :: v in ShapesVec(e) ==> Of(v) in CounterVec(e)
    ensures forall x :: x in CounterVec(e) ==> exists v :: v in ShapesVec(e) && Of(v) == x
  {
    match e
    case One(s) =>
      assert [s] in ShapesVec(e);
    case Fixed(b) =>
      assert FixedShapes(b) in ShapesVec(e);
    case Wildcard =>
      WildcardCounters();
    case Permutation(c, pop) =>
      PermutationCounters(c, pop);
    case Factorial(c) =>
      FactorialCounters(c);
      FlattenOf(c);
      assert Flatten(c) in ShapesVec(e) && Of(Flatten(c)) == c;
  }

  lemma WildcardCounters()
    ensures forall v :: v in ShapesVec(Wildcard) ==> Of(v) in CounterVec(Wildcard)
    ensures forall x :: x in CounterVec(Wildcard) ==> exists v :: v in ShapesVec(Wildcard) && Of(v) == x
  {
    var vs := ShapesVec(Wildcard);
    var cs := CounterVec(Wildcard);
    assert |vs| == |cs| == 7;
    forall k | 0 <= k < 7 ensures cs[k] == Of(vs[k]) {
    }
    forall v | v in vs ensures Of(v) in cs {
      var k :| 0 <= k < 7 && vs[k] == v;
      assert cs[k] == Of(v);
    }
    forall x | x in cs ensures exists v :: v in vs && Of(v) == x {
      var k :| 0 <= k < 7 && cs[k] == x;
      assert vs[k] in vs && Of(vs[k]) == x;
    }
  }

  lemma PermutationCounters(c: ShapeCounter, pop: nat)
    requires Expandable(Permutation(c, pop))
    ensures forall v :: v in Perms(Flatten(c), pop) ==> Of(v) in Subsets(c, pop)
    ensures forall x :: x in Subsets(c, pop) ==> exists v :: v in Perms(Flatten(c), pop) && Of(v) == x
  {
    FlattenOf(c);
    PermsSound(Flatten(c), pop);
    forall v | v in Perms(Flatten(c), pop) ensures Of(v) in Subsets(c, pop) {
      TotalSizeOf(v);
    }
    forall x | x in Subsets(c, pop) ensures exists v :: v in Perms(Flatten(c), pop) && Of(v) == x {
      FlattenOf(x);
      assert multiset(Flatten(x)) <= multiset(Flatten(c));
      PermsComplete(Flatten(c), pop, Flatten(x));
    }
  }

  lemma FactorialCounters(c: ShapeCounter)
    requires Expandable(Factorial(c))
    ensures forall v :: v in Perms(Flatten(c), TotalSize(c)) ==> Of(v) == c
    ensures Flatten(c) in Perms(Flatten(c), TotalSize(c))
  {
    FlattenOf(c);
    forall v | v in Perms(Flatten(c), TotalSize(c)) ensures Of(v) == c {
      PermsSound(Flatten(c), TotalSize(c));
      AcceptsIffListed(Factorial(c), v);
    }
    PermsComplete(Flatten(c), TotalSize(c), Flatten(c));
  }

  /** The element checks of the documented examples: `[IOT]p2` lists 6 vectors, `[TIOLJSZ]p3` 210, `p5` 2520. */
  lemma CountExamples()
    ensures TotalSize(Of([I])) == 1 && TotalSize(Of([I, O, T])) == 3
    ensures Count(Permutation(Of([I]), 1)) == 1
    ensures Count(Permutation(Of([I, O, T]), 1)) == 3
    ensures Count(Permutation(Of([I, O, T]), 2)) == 6
    ensures Count(Permutation(OneOfEach(), 3)) == 210
    ensures Count(Permutation(OneOfEach(), 5)) == 2520
  {
    TotalSizeOf([I]);
    TotalSizeOf([I, O, T]);
  }
}
