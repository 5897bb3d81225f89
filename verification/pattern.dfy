/**
 * `Pattern`: a sequence of elements standing for the cartesian product of
 * the elements' shape vectors. The current generation (`pattern.rs`,
 * validated by `try_new`) and the older one (`patterns.rs`, built by an
 * unchecked constructor) walk, count and measure the same way.
 */
module Patterns {
  import opened Shapes
  import opened Wrappers
  import opened ShapeCounters
  import opened PatternElements
  import ShapeSequences
  import ShapeOrders
  import opened Cartesian

  datatype Pattern = Pattern(elements: seq<PatternElement>)

  datatype PatternCreationError = NoShapeSequences | ContainsInvalidPermutation

  /** A permutation element `try_new` refuses: an empty counter, pop 0, or more popped than held. */
  predicate InvalidPermutation(e: PatternElement)
  {
    e.Permutation? && (TotalSize(e.counter) <= 0 || e.pop <= 0 || TotalSize(e.counter) < e.pop)
  }

  /** No element from `i` on is an invalid permutation. */
  function PermutationsValidFrom(elements: seq<PatternElement>, i: nat): (r: bool)
    requires i <= |elements|
    ensures r <==> forall k :: i <= k < |elements| ==> !InvalidPermutation(elements[k])
    decreases |elements| - i
  {
    i == |elements| || (!InvalidPermutation(elements[i]) && PermutationsValidFrom(elements, i + 1))
  }

  /** `Pattern::try_new`: the empty list is refused first, then any invalid permutation. */
  function TryNew(elements: seq<PatternElement>): (r: Result<Pattern, PatternCreationError>)
    ensures r == Err(NoShapeSequences) <==> elements == []
    ensures r == Err(ContainsInvalidPermutation) <==>
      elements != [] && exists k :: 0 <= k < |elements| && InvalidPermutation(elements[k])
    ensures r.Ok? ==> r.value.elements == elements
  {
    if elements == [] then Err(NoShapeSequences)
    else if !PermutationsValidFrom(elements, 0) then Err(ContainsInvalidPermutation)
    else Ok(Pattern(elements))
  }

  /** Every element can be expanded without tripping an assertion. */
  predicate Expandable(p: Pattern)
  {
    AllExpandable(p.elements)
  }

  predicate AllExpandable(es: seq<PatternElement>)
  {
    forall k :: 0 <= k < |es| ==> PatternElements.Expandable(es[k])
  }

  /** What `try_new` accepts is expandable once factorial counters are non-empty. */
  lemma TryNewExpandable(elements: seq<PatternElement>)
    requires TryNew(elements).Ok?
    requires forall k :: 0 <= k < |elements| ==> WellFormed(elements[k])
    requires forall k :: 0 <= k < |elements| && elements[k].Factorial? ==> 0 < TotalSize(elements[k].counter)
    ensures Expandable(TryNew(elements).value)
  {
    forall k | 0 <= k < |elements| ensures PatternElements.Expandable(elements[k]) {
      assert !InvalidPermutation(elements[k]);
    }
  }

  /** Product of the element counts from `i` on. */
  function CountFrom(es: seq<PatternElement>, i: nat): nat
    requires i <= |es| && AllExpandable(es)
    decreases |es| - i
  {
    if i == |es| then 1 else Count(es[i]) * CountFrom(es, i + 1)
  }

  /** Sum of the element dimensions from `i` on. */
  function DimFrom(es: seq<PatternElement>, i: nat): nat
    requires i <= |es| && AllExpandable(es)
    decreases |es| - i
  {
    if i == |es| then 0 else Dim(es[i]) + DimFrom(es, i + 1)
  }

  /** `len_shapes_vec`: the product of the element counts, and 0 for no elements. */
  function LenShapesVec(p: Pattern): nat
    requires Expandable(p)
  {
    if p.elements == [] then 0 else CountFrom(p.elements, 0)
  }

  /** `dim_shapes`: the sum of the element dimensions. */
  function DimShapes(p: Pattern): nat
    requires Expandable(p)
  {
    DimFrom(p.elements, 0)
  }

  /** The elements' lists of vectors, one list per element. */
  function Vecs(es: seq<PatternElement>): (r: seq<seq<seq<Shape>>>)
    requires AllExpandable(es)
    ensures |r| == |es|
    ensures forall k :: 0 <= k < |es| ==> r[k] == ShapesVec(es[k])
  {
    seq(|es|, k requires 0 <= k < |es| && PatternElements.Expandable(es[k]) => ShapesVec(es[k]))
  }

  /** The elements' dimensions. */
  function Dims(es: seq<PatternElement>): (r: seq<nat>)
    requires AllExpandable(es)
    ensures |r| == |es|
    ensures forall k :: 0 <= k < |es| ==> r[k] == Dim(es[k])
  {
    seq(|es|, k requires 0 <= k < |es| && PatternElements.Expandable(es[k]) => Dim(es[k]))
  }

  /** Each element's vectors all have the element's dimension. */
  lemma VecsUniform(es: seq<PatternElement>)
    requires AllExpandable(es)
    ensures Uniform(Vecs(es), Dims(es))
  {
    forall i, x | 0 <= i < |es| && x in Vecs(es)[i] ensures |x| == Dims(es)[i] {
      CountAndDim(es[i]);
    }
  }

  lemma {:induction false} CountFromIsProduct(es: seq<PatternElement>, i: nat)
    requires i <= |es| && AllExpandable(es)
    ensures ProductFrom(Vecs(es), i) == CountFrom(es, i)
    decreases |es| - i
  {
    if i < |es| {
      CountFromIsProduct(es, i + 1);
      VecsCount(es, i);
    }
  }

  /** Element `i` stands for `Count(es[i])` vectors. */
  lemma VecsCount(es: seq<PatternElement>, i: nat)
    requires i < |es| && AllExpandable(es)
    ensures |Vecs(es)[i]| == Count(es[i])
  {
    CountAndDim(es[i]);
  }

  lemma {:induction false} DimFromIsSum(es: seq<PatternElement>, i: nat)
    requires i <= |es| && AllExpandable(es)
    ensures SumFrom(Dims(es), i) == DimFrom(es, i)
    decreases |es| - i
  {
    if i < |es| {
      DimFromIsSum(es, i + 1);
    }
  }

  /** The vectors a pattern stands for, in the order the walk visits them. */
  function ShapesVecOf(p: Pattern): seq<seq<Shape>>
    requires Expandable(p)
  {
    if p.elements == [] then [] else Walk(Vecs(p.elements), 0, [])
  }

  /**
   * The pattern stands for `len_shapes_vec` vectors, each of `dim_shapes`
   * shapes, and a vector is among them exactly when it splits into slices
   * the elements list.
   */
  lemma ShapesVecOfSpec(p: Pattern)
    requires Expandable(p)
    ensures |ShapesVecOf(p)| == LenShapesVec(p)
    ensures forall v :: v in ShapesVecOf(p) ==> |v| == DimShapes(p)
    ensures p.elements != [] ==> forall v :: v in ShapesVecOf(p) <==> Listed(Vecs(p.elements), Dims(p.elements), 0, v)
  {
    var es := p.elements;
    if es != [] {
      WalkCount(Vecs(es), 0, []);
      CountFromIsProduct(es, 0);
      DimFromIsSum(es, 0);
      VecsUniform(es);
      forall v ensures v in ShapesVecOf(p) <==> Listed(Vecs(es), Dims(es), 0, v) {
        ShapesVecOfMember(p, v);
      }
      forall v | v in ShapesVecOf(p) ensures |v| == DimShapes(p) {
        ListedLength(Vecs(es), Dims(es), 0, v);
      }
    }
  }

  /** Membership in the pattern's vectors, for one vector. */
  lemma ShapesVecOfMember(p: Pattern, v: seq<Shape>)
    requires Expandable(p) && p.elements != []
    ensures v in ShapesVecOf(p) <==> Listed(Vecs(p.elements), Dims(p.elements), 0, v)
  {
    VecsUniform(p.elements);
    WalkMembers(Vecs(p.elements), Dims(p.elements), 0, [], v);
    assert v[0..] == v;
  }

  /**
   * The `Buffer` of `walk_shapes_walk` (a `&mut Vec<Shape>` in the older
   * `walk_shapes`): the element lists and the shared vector that
   * `build` extends and truncates.
   */
  class ShapesWalker {
    const all: seq<seq<seq<Shape>>>
    var buffer: seq<Shape>

    constructor (all: seq<seq<seq<Shape>>>)
      ensures this.all == all && buffer == []
    {
      this.all := all;
      buffer := [];
    }

    /**
     * `build(index)`: the visited vectors, in order; the buffer is back to
     * its length on entry after every branch.
     */
    method Build(index: nat) returns (visited: seq<seq<Shape>>)
      requires index < |all|
      modifies this
      ensures buffer == old(buffer)
      ensures visited == Walk(all, index, old(buffer))
      decreases |all| - index
    {
      visited := [];
      var j := 0;
      while j < |all[index]|
        invariant j <= |all[index]|
        invariant buffer == old(buffer)
        invariant visited + WalkFrom(all, index, buffer, j) == Walk(all, index, buffer)
      {
        assert WalkFrom(all, index, buffer, j) == Head(all, index, buffer, j) + WalkFrom(all, index, buffer, j + 1);
        var size := |buffer|;
        buffer := buffer + all[index][j];
        if index < |all| - 1 {
          var deeper := Build(index + 1);
          visited := visited + deeper;
        } else {
          visited := visited + [buffer];
        }
        buffer := buffer[..size];
        assert buffer == old(buffer);
        j := j + 1;
      }
    }
  }

  /**
   * `to_shapes_vec`: walk the elements' lists with a fresh buffer and
   * collect every visited vector; nothing for no elements.
   */
  method ToShapesVec(p: Pattern) returns (vec: seq<seq<Shape>>)
    requires Expandable(p)
    ensures vec == ShapesVecOf(p)
    ensures |vec| == LenShapesVec(p)
    ensures forall v :: v in vec ==> |v| == DimShapes(p)
  {
    ShapesVecOfSpec(p);
    if p.elements == [] {
      return [];
    }
    var walker := new ShapesWalker(Vecs(p.elements));
    vec := walker.Build(0);
  }

  /** `to_sequences`: the vectors as shape sequences. */
  method ToSequences(p: Pattern) returns (r: seq<ShapeSequences.ShapeSequence>)
    requires Expandable(p)
    ensures |r| == |ShapesVecOf(p)| == LenShapesVec(p)
    ensures forall k :: 0 <= k < |r| ==> r[k].shapes == ShapesVecOf(p)[k]
  {
    var vec := ToShapesVec(p);
    r := seq(|vec|, k requires 0 <= k < |vec| => ShapeSequences.ShapeSequence(vec[k]));
  }

  /** `to_orders`: the vectors as shape orders. */
  method ToOrders(p: Pattern) returns (r: seq<ShapeOrders.ShapeOrder>)
    requires Expandable(p)
    ensures |r| == |ShapesVecOf(p)| == LenShapesVec(p)
    ensures forall k :: 0 <= k < |r| ==> r[k].shapes == ShapesVecOf(p)[k]
  {
    var vec := ToShapesVec(p);
    r := seq(|vec|, k requires 0 <= k < |vec| => ShapeOrders.ShapeOrder(vec[k]));
  }

  /** Unfolding `Listed` at element `i`: the element's check on its slice, then the rest. */
  lemma ListedStep(es: seq<PatternElement>, i: nat, w: seq<Shape>)
    requires i < |es| && AllExpandable(es)
    requires Dim(es[i]) <= |w|
    ensures Listed(Vecs(es), Dims(es), i, w) <==>
      Accepts(es[i], w[..Dim(es[i])]) && Listed(Vecs(es), Dims(es), i + 1, w[Dim(es[i])..])
  {
    AcceptsIffListed(es[i], w[..Dim(es[i])]);
  }

  /**
   * `contains`: the sequence is at least `dim_shapes` long and its first
   * `dim_shapes` shapes are one of the pattern's vectors; shapes past
   * that are ignored.
   */
  method Contains(p: Pattern, shapes: seq<Shape>) returns (r: bool)
    requires Expandable(p) && p.elements != []
    ensures r <==> DimShapes(p) <= |shapes| && shapes[..DimShapes(p)] in ShapesVecOf(p)
  {
    var dim := DimShapes(p);
    if |shapes| < dim {
      return false;
    }
    ShapesVecOfMember(p, shapes[..dim]);
    MatchesIffListed(p.elements, 0, shapes[..dim], 0);
    assert shapes[..dim][0..] == shapes[..dim];
    r := ElementsAccept(p.elements, shapes[..dim]);
  }

  /**
   * From position `index` of `all` on, element by element from `i`, each
   * slice passes its element's check and the slices end exactly at the
   * end of `all`.
   */
  predicate MatchesAt(es: seq<PatternElement>, i: nat, all: seq<Shape>, index: nat)
    requires i <= |es| && index <= |all| && AllExpandable(es)
    decreases |es| - i
  {
    if i == |es| then index == |all|
    else
      index + Dim(es[i]) <= |all| && Accepts(es[i], all[index..index + Dim(es[i])]) &&
      MatchesAt(es, i + 1, all, index + Dim(es[i]))
  }

  /** Passing every element's check is being listed element by element. */
  lemma MatchesIffListed(es: seq<PatternElement>, i: nat, all: seq<Shape>, index: nat)
    requires i <= |es| && index <= |all| && AllExpandable(es)
    ensures MatchesAt(es, i, all, index) <==> Listed(Vecs(es), Dims(es), i, all[index..])
  {
    forall k, x | 0 <= k < |es| && |x| == Dims(es)[k]
      ensures x in Vecs(es)[k] <==> Accepts(es[k], x)
    {
      AcceptsIffListed(es[k], x);
    }
    MatchesIffListedOn(es, Vecs(es), Dims(es), i, all, index);
  }

  /** The same over any lists that hold exactly the slices each element accepts. */
  lemma {:induction false} MatchesIffListedOn(es: seq<PatternElement>, vecs: seq<seq<seq<Shape>>>, dims: seq<nat>,
                                              i: nat, all: seq<Shape>, index: nat)
    requires i <= |es| && index <= |all| && AllExpandable(es)
    requires |vecs| == |es| && |dims| == |es| && forall k :: 0 <= k < |es| ==> dims[k] == Dim(es[k])
    requires forall k, x {:trigger x in vecs[k]} :: 0 <= k < |es| && |x| == dims[k] ==> (x in vecs[k] <==> Accepts(es[k], x))
    ensures MatchesAt(es, i, all, index) <==> Listed(vecs, dims, i, all[index..])
    decreases |es| - i
  {
    if i < |es| {
      var d := Dim(es[i]);
      MatchesAtStep(es, i, all, index);
      ListedUnfold(vecs, dims, i, all[index..]);
      if index + d <= |all| {
        MatchesIffListedOn(es, vecs, dims, i + 1, all, index + d);
        SliceSplit(all, index, d);
      }
    }
  }

  lemma MatchesAtStep(es: seq<PatternElement>, i: nat, all: seq<Shape>, index: nat)
    requires i < |es| && index <= |all| && AllExpandable(es)
    ensures MatchesAt(es, i, all, index) <==>
      index + Dim(es[i]) <= |all| && Accepts(es[i], all[index..index + Dim(es[i])]) &&
      MatchesAt(es, i + 1, all, index + Dim(es[i]))
  {
  }

  lemma ListedUnfold(vecs: seq<seq<seq<Shape>>>, dims: seq<nat>, i: nat, w: seq<Shape>)
    requires |vecs| == |dims| && i < |vecs|
    ensures Listed(vecs, dims, i, w) <==> dims[i] <= |w| && w[..dims[i]] in vecs[i] && Listed(vecs, dims, i + 1, w[dims[i]..])
  {
  }

  lemma SliceSplit(all: seq<Shape>, index: nat, d: nat)
    requires index + d <= |all|
    ensures all[index..][..d] == all[index..index + d] && all[index..][d..] == all[index + d..]
  {
  }

  /** The loop of `contains`: each element in turn checks its slice, advancing `index` by its dimension. */
  method ElementsAccept(es: seq<PatternElement>, all: seq<Shape>) returns (r: bool)
    requires AllExpandable(es)
    requires |all| == DimFrom(es, 0)
    ensures r <==> MatchesAt(es, 0, all, 0)
  {
    var index: nat := 0;
    var i: nat := 0;
    while i < |es|
      invariant i <= |es| && index <= |all|
      invariant index + DimFrom(es, i) == |all|
      invariant MatchesAt(es, 0, all, 0) <==> MatchesAt(es, i, all, index)
    {
      var ok;
      ok, index := ElementAccepts(es, i, all, index);
      if !ok {
        return false;
      }
      i := i + 1;
    }
    assert DimFrom(es, i) == 0;
    return true;
  }

  /**
   * One turn of the loop of `contains`: element `i` checks the slice at
   * `index`; the match goes on past it, at the next index, exactly when
   * the slice passes.
   */
  method ElementAccepts(es: seq<PatternElement>, i: nat, all: seq<Shape>, index: nat) returns (ok: bool, next: nat)
    requires i < |es| && AllExpandable(es) && index + DimFrom(es, i) == |all|
    ensures next + DimFrom(es, i + 1) == |all|
    ensures MatchesAt(es, i, all, index) <==> ok && MatchesAt(es, i + 1, all, next)
  {
    var d := Dim(es[i]);
    MatchesAtStep(es, i, all, index);
    ok := Accepts(es[i], all[index..index + d]);
    next := index + d;
  }

  /** Every counter in the lists has its seven slots. */
  predicate CountersValid(all: seq<seq<ShapeCounter>>)
  {
    forall i, x :: 0 <= i < |all| && x in all[i] ==> x.Valid()
  }

  /**
   * The counters the `build(index, buffer)` of `shape_counters_walk`
   * visits: for each counter of list `index` in turn, the walk of the
   * remaining lists with that counter added to the buffer (or the sum
   * itself after the last list).
   */
  function CountersWalk(all: seq<seq<ShapeCounter>>, index: nat, buffer: ShapeCounter): seq<ShapeCounter>
    requires index < |all| && CountersValid(all) && buffer.Valid()
    decreases |all| - index, 1
  {
    CountersFrom(all, index, buffer, 0)
  }

  function CountersFrom(all: seq<seq<ShapeCounter>>, index: nat, buffer: ShapeCounter, j: nat): seq<ShapeCounter>
    requires index < |all| && CountersValid(all) && buffer.Valid() && j <= |all[index]|
    decreases |all| - index, 0, |all[index]| - j + 1
  {
    if j == |all[index]| then [] else CountersHead(all, index, buffer, j) + CountersFrom(all, index, buffer, j + 1)
  }

  function CountersHead(all: seq<seq<ShapeCounter>>, index: nat, buffer: ShapeCounter, j: nat): seq<ShapeCounter>
    requires index < |all| && CountersValid(all) && buffer.Valid() && j < |all[index]|
    decreases |all| - index, 0, 0
  {
    assert all[index][j] in all[index];
    var next := Add(buffer, all[index][j]);
    if index < |all| - 1 then CountersWalk(all, index + 1, next) else [next]
  }

  /** The elements' lists of counters, one list per element. */
  function CounterVecs(es: seq<PatternElement>): (r: seq<seq<ShapeCounter>>)
    requires AllExpandable(es)
    ensures |r| == |es|
    ensures forall k :: 0 <= k < |es| ==> r[k] == CounterVec(es[k])
    ensures CountersValid(r)
  {
    seq(|es|, k requires 0 <= k < |es| && PatternElements.Expandable(es[k]) => CounterVec(es[k]))
  }

  /** `to_shape_counter_vec`: one sum per combination of one counter per element; nothing for no elements. */
  function ToShapeCounterVec(p: Pattern): seq<ShapeCounter>
    requires Expandable(p)
  {
    if p.elements == [] then [] else CountersWalk(CounterVecs(p.elements), 0, ShapeCounters.Empty())
  }

  lemma {:induction false} CountersFromHasHead(all: seq<seq<ShapeCounter>>, index: nat, buffer: ShapeCounter, j: nat, x: ShapeCounter)
    requires index < |all| && CountersValid(all) && buffer.Valid() && j <= |all[index]|
    requires x in CountersFrom(all, index, buffer, j)
    ensures exists k :: j <= k < |all[index]| && x in CountersHead(all, index, buffer, k)
    decreases |all[index]| - j
  {
    if x !in CountersHead(all, index, buffer, j) {
      CountersFromHasHead(all, index, buffer, j + 1, x);
    }
  }

  lemma {:induction false} CountersHeadInFrom(all: seq<seq<ShapeCounter>>, index: nat, buffer: ShapeCounter, j: nat, k: nat, x: ShapeCounter)
    requires index < |all| && CountersValid(all) && buffer.Valid() && j <= k < |all[index]|
    requires x in CountersHead(all, index, buffer, k)
    ensures x in CountersFrom(all, index, buffer, j)
    decreases k - j
  {
    if j < k {
      CountersHeadInFrom(all, index, buffer, j + 1, k, x);
    }
  }

  lemma AddEmpty(a: ShapeCounter)
    requires a.Valid()
    ensures Add(ShapeCounters.Empty(), a) == a
  {
    Extensional(Add(ShapeCounters.Empty(), a), a);
  }

  lemma AddAssoc(a: ShapeCounter, b: ShapeCounter, c: ShapeCounter)
    requires a.Valid() && b.Valid() && c.Valid()
    ensures Add(Add(a, b), c) == Add(a, Add(b, c))
  {
    Extensional(Add(Add(a, b), c), Add(a, Add(b, c)));
  }

  /**
   * List by list, the counters are exactly the counters of the vectors
   * (each vector's counter is listed, and each listed counter is some
   * vector's counter).
   */
  predicate Corresponds(vecs: seq<seq<seq<Shape>>>, all: seq<seq<ShapeCounter>>)
  {
    |vecs| == |all| && CountersValid(all) &&
    (forall i, c :: 0 <= i < |vecs| && c in vecs[i] ==> Of(c) in all[i]) &&
    (forall i, y :: 0 <= i < |all| && y in all[i] ==> exists c :: c in vecs[i] && Of(c) == y)
  }

  lemma ElementsCorrespond(es: seq<PatternElement>)
    requires AllExpandable(es)
    ensures Corresponds(Vecs(es), CounterVecs(es))
  {
    forall i | 0 <= i < |es|
      ensures forall c :: c in Vecs(es)[i] ==> Of(c) in CounterVecs(es)[i]
      ensures forall y :: y in CounterVecs(es)[i] ==> exists c :: c in Vecs(es)[i] && Of(c) == y
    {
      CounterVecIsOfShapesVec(es[i]);
    }
  }

  lemma SplitJoin<T>(w: seq<T>, d: nat)
    requires d <= |w|
    ensures w[..d] + w[d..] == w
  {
  }

  lemma WholeSplit<T>(a: seq<T>)
    ensures a[..|a|] == a && a[|a|..] == []
  {
  }

  lemma JoinSplit<T>(a: seq<T>, b: seq<T>)
    ensures (a + b)[..|a|] == a && (a + b)[|a|..] == b
  {
  }

  /** Every listed rest, counted and added to the buffer, is visited by the counter walk. */
  lemma {:induction false} CountersWalkComplete(
    vecs: seq<seq<seq<Shape>>>, dims: seq<nat>, all: seq<seq<ShapeCounter>>,
    index: nat, buffer: ShapeCounter, w: seq<Shape>)
    requires Uniform(vecs, dims) && Corresponds(vecs, all) && index < |all|
    requires buffer.Valid() && Listed(vecs, dims, index, w)
    ensures Add(buffer, Of(w)) in CountersWalk(all, index, buffer)
    decreases |all| - index
  {
    var d := dims[index];
    var c := w[..d];
    var rest := w[d..];
    assert c in vecs[index] && Listed(vecs, dims, index + 1, rest);
    assert Of(c) in all[index];
    var k :| 0 <= k < |all[index]| && all[index][k] == Of(c);
    var next := Add(buffer, Of(c));
    var x := Add(buffer, Of(w));
    assert x == Add(next, Of(rest)) by {
      SplitJoin(w, d);
      AddOf(c, rest);
      AddAssoc(buffer, Of(c), Of(rest));
    }
    if index < |all| - 1 {
      CountersWalkComplete(vecs, dims, all, index + 1, next, rest);
      assert CountersHead(all, index, buffer, k) == CountersWalk(all, index + 1, next);
    } else {
      assert x == next by {
        assert rest == [];
        Extensional(Add(next, Of(rest)), next);
      }
      assert CountersHead(all, index, buffer, k) == [next];
    }
    CountersHeadInFrom(all, index, buffer, 0, k, x);
  }

  /** Every counter the walk visits is the buffer plus the counter of a listed rest `w`. */
  lemma {:induction false} CountersWalkSound(
    vecs: seq<seq<seq<Shape>>>, dims: seq<nat>, all: seq<seq<ShapeCounter>>,
    index: nat, buffer: ShapeCounter, x: ShapeCounter) returns (w: seq<Shape>)
    requires Uniform(vecs, dims) && Corresponds(vecs, all) && index < |all|
    requires buffer.Valid() && x in CountersWalk(all, index, buffer)
    ensures Listed(vecs, dims, index, w) && x == Add(buffer, Of(w))
    decreases |all| - index
  {
    var d := dims[index];
    CountersFromHasHead(all, index, buffer, 0, x);
    var k :| 0 <= k < |all[index]| && x in CountersHead(all, index, buffer, k);
    var y := all[index][k];
    assert y in all[index];
    var c :| c in vecs[index] && Of(c) == y;
    assert |c| == d;
    var next := Add(buffer, y);
    if index < |all| - 1 {
      assert CountersHead(all, index, buffer, k) == CountersWalk(all, index + 1, next);
      var rest := CountersWalkSound(vecs, dims, all, index + 1, next, x);
      w := c + rest;
      JoinSplit(c, rest);
      assert x == Add(buffer, Of(w)) by {
        AddOf(c, rest);
        AddAssoc(buffer, Of(c), Of(rest));
      }
    } else {
      assert CountersHead(all, index, buffer, k) == [next];
      assert x == Add(buffer, Of(c));
      WholeSplit(c);
      w := c;
    }
  }

  /**
   * `to_shape_counter_vec` lists exactly the counters of the vectors the
   * pattern stands for.
   */
  lemma ToShapeCounterVecSpec(p: Pattern)
    requires Expandable(p)
    ensures forall v :: v in ShapesVecOf(p) ==> Of(v) in ToShapeCounterVec(p)
    ensures forall x :: x in ToShapeCounterVec(p) ==> exists v :: v in ShapesVecOf(p) && Of(v) == x
  {
    var es := p.elements;
    if es != [] {
      var e := ShapeCounters.Empty();
      VecsUniform(es);
      ElementsCorrespond(es);
      forall v | v in ShapesVecOf(p) ensures Of(v) in ToShapeCounterVec(p) {
        ShapesVecOfMember(p, v);
        CountersWalkComplete(Vecs(es), Dims(es), CounterVecs(es), 0, e, v);
        AddEmpty(Of(v));
      }
      forall x | x in ToShapeCounterVec(p) ensures exists v :: v in ShapesVecOf(p) && Of(v) == x {
        var v := CountersWalkSound(Vecs(es), Dims(es), CounterVecs(es), 0, e, x);
        ShapesVecOfMember(p, v);
        AddEmpty(Of(v));
      }
    }
  }

  /** Being among the pattern's vectors is passing each element's check in turn. */
  lemma ListedIffMatches(p: Pattern, v: seq<Shape>)
    requires Expandable(p) && p.elements != []
    ensures v in ShapesVecOf(p) <==> MatchesAt(p.elements, 0, v, 0)
  {
    ShapesVecOfMember(p, v);
    MatchesIffListed(p.elements, 0, v, 0);
    assert v[0..] == v;
  }

  /** `T**`: 49 vectors of 3 shapes. `[TIOLJSZ]p3`: 210 of 3. `[TIOLJSZ]p6, [TIOLJSZ]p3`: 5040 * 210 of 9. */
  lemma CountExamples()
    ensures var p := Pattern([One(T), Wildcard, Wildcard]);
      Expandable(p) && LenShapesVec(p) == 49 && DimShapes(p) == 3
    ensures var p := Pattern([Permutation(OneOfEach(), 3)]);
      Expandable(p) && LenShapesVec(p) == 210 && DimShapes(p) == 3
    ensures var p := Pattern([Permutation(OneOfEach(), 6), Permutation(OneOfEach(), 3)]);
      Expandable(p) && LenShapesVec(p) == 5040 * 210 && DimShapes(p) == 9
    ensures var p := Pattern([]);
      Expandable(p) && LenShapesVec(p) == 0 && DimShapes(p) == 0 && ShapesVecOf(p) == []
  {
  }

  /** The refusals of `try_new`: no elements, and permutations popping 8 of 7, 0 of 7, 0 of 0 and 1 of 0. */
  lemma TryNewExamples()
    ensures TryNew([]) == Err(NoShapeSequences)
    ensures TryNew([Permutation(OneOfEach(), 8)]) == Err(ContainsInvalidPermutation)
    ensures TryNew([Permutation(OneOfEach(), 0)]) == Err(ContainsInvalidPermutation)
    ensures TryNew([Permutation(ShapeCounters.Empty(), 0)]) == Err(ContainsInvalidPermutation)
    ensures TryNew([Permutation(ShapeCounters.Empty(), 1)]) == Err(ContainsInvalidPermutation)
  {
    assert InvalidPermutation([Permutation(OneOfEach(), 8)][0]);
    assert InvalidPermutation([Permutation(OneOfEach(), 0)][0]);
    assert InvalidPermutation([Permutation(ShapeCounters.Empty(), 0)][0]);
    assert InvalidPermutation([Permutation(ShapeCounters.Empty(), 1)][0]);
  }

  /** The counter of `LLJ`, slot by slot in shape order: two `L` and one `J`. */
  const LLJ := ShapeCounter([0, 0, 0, 2, 1, 0, 0])

  lemma LLJIsOf()
    ensures LLJ == Of([L, L, J]) && TotalSize(LLJ) == 3
  {
    Extensional(LLJ, Of([L, L, J]));
    TotalSizeOf([L, L, J]);
  }

  /** The documented `T*[LLJ]p2`. */
  function DocPattern(): (p: Pattern)
    ensures Expandable(p) && DimShapes(p) == 4
  {
    var es := [One(T), Wildcard, Permutation(LLJ, 2)];
    LLJIsOf();
    assert DimFrom(es, 3) == 0;
    assert DimFrom(es, 2) == 2;
    assert DimFrom(es, 1) == 3;
    Pattern(es)
  }

  /** `T*[LLJ]p2` accepts exactly the four-shape vectors that start with `T` and end in two of `LLJ`. */
  lemma DocPatternMatches(v: seq<Shape>)
    requires |v| == 4
    ensures MatchesAt(DocPattern().elements, 0, v, 0) <==> v[0] == T && ContainsAll(LLJ, Of(v[2..]))
  {
    LLJIsOf();
    MatchesOneAnyPermutation(T, LLJ, 2, v);
  }

  /** `s*[c]pN` accepts a vector of `N + 2` shapes exactly when it starts with `s` and its last `N` fit in `c`. */
  lemma MatchesOneAnyPermutation(s: Shape, c: ShapeCounter, pop: nat, v: seq<Shape>)
    requires c.Valid() && 0 < pop <= TotalSize(c) && |v| == pop + 2
    ensures MatchesAt([One(s), Wildcard, Permutation(c, pop)], 0, v, 0) <==> v[0] == s && ContainsAll(c, Of(v[2..]))
  {
    var es := [One(s), Wildcard, Permutation(c, pop)];
    MatchesSingleStep(es, 0, v, 0);
    MatchesSingleStep(es, 1, v, 1);
    MatchesLastPermutation(es, v, 2, c, pop);
  }

  /** A single-shape element takes the one shape at `index` and passes on to the next element. */
  lemma MatchesSingleStep(es: seq<PatternElement>, i: nat, all: seq<Shape>, index: nat)
    requires i < |es| && index < |all| && AllExpandable(es) && (es[i].One? || es[i].Wildcard?)
    ensures MatchesAt(es, i, all, index) <==>
      (es[i].One? ==> all[index] == es[i].shape) && MatchesAt(es, i + 1, all, index + 1)
  {
    MatchesAtStep(es, i, all, index);
    assert all[index..index + 1] == [all[index]];
  }

  /** A last permutation element takes every shape left, which must fit in its counter. */
  lemma MatchesLastPermutation(es: seq<PatternElement>, all: seq<Shape>, index: nat, c: ShapeCounter, pop: nat)
    requires es != [] && AllExpandable(es) && es[|es| - 1] == Permutation(c, pop) && index + pop == |all|
    ensures MatchesAt(es, |es| - 1, all, index) <==> ContainsAll(c, Of(all[index..]))
  {
    var x := all[index..|all|];
    assert x == all[index..];
    MatchesAtLast(es, all, index);
    AcceptsPermutation(c, pop, x);
  }

  /** The last element matches at `index` exactly when its slice, the rest of the sequence, passes its check. */
  lemma MatchesAtLast(es: seq<PatternElement>, all: seq<Shape>, index: nat)
    requires es != [] && AllExpandable(es) && index + Dim(es[|es| - 1]) == |all|
    ensures MatchesAt(es, |es| - 1, all, index) == Accepts(es[|es| - 1], all[index..|all|])
  {
    MatchesAtStep(es, |es| - 1, all, index);
    MatchesAtEnd(es, all);
  }

  lemma AcceptsPermutation(c: ShapeCounter, pop: nat, x: seq<Shape>)
    requires PatternElements.Expandable(Permutation(c, pop)) && |x| == pop
    ensures Accepts(Permutation(c, pop), x) <==> ContainsAll(c, Of(x))
  {
  }

  lemma MatchesAtEnd(es: seq<PatternElement>, all: seq<Shape>)
    requires AllExpandable(es)
    ensures MatchesAt(es, |es|, all, |all|)
  {
  }

  /** `T*[LLJ]p2` accepts `TTLJ`, `TILJ`, `TTLL` and `TTJL` (and, by `ListedIffMatches`, lists them). */
  lemma ContainsExamples(v: seq<Shape>)
    requires v == [T, T, L, J] || v == [T, I, L, J] || v == [T, T, L, L] || v == [T, T, J, L]
    ensures MatchesAt(DocPattern().elements, 0, v, 0)
  {
    DocPatternMatches(v);
    LLJIsOf();
    ContainsAllOf([L, L, J], v[2..]);
    assert v[2..] == [L, J] || v[2..] == [L, L] || v[2..] == [J, L];
  }

  /** `T*[LLJ]p2` rejects `ITLJ` and `TTLO`. */
  lemma NotContainsExamples(v: seq<Shape>)
    requires v == [I, T, L, J] || v == [T, T, L, O]
    ensures !MatchesAt(DocPattern().elements, 0, v, 0)
  {
    DocPatternMatches(v);
    if v[0] == T {
      assert v[2..] == [L, O];
      assert Get(Of(v[2..]), O) == 1 && Get(LLJ, O) == 0;
    }
  }
}
