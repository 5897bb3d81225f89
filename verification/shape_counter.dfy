/**
 * `ShapeCounter`: how many of each of the seven shapes, stored as seven
 * counts (`[u8; 7]`) indexed by the shape's ordinal. Abstractly it is a
 * multiset of shapes; the lemmas below connect the two views.
 */
module ShapeCounters {
  import opened Shapes

  /** Largest count a `u8` slot holds. */
  const MaxCount: nat := 255

  datatype ShapeCounter = ShapeCounter(counters: seq<nat>)
  {
    /** The array has one slot per shape. */
    predicate Valid() { |counters| == 7 }
  }

  /** `counter[shape]` (the `Index` impl). */
  function Get(c: ShapeCounter, s: Shape): nat
    requires c.Valid()
  {
    c.counters[Ordinal(s)]
  }

  /** Sum of a sequence of counts, peeling the last element. */
  function Sum(xs: seq<nat>): nat
  {
    if xs == [] then 0 else Sum(xs[..|xs| - 1]) + xs[|xs| - 1]
  }

  lemma {:induction false} SumConstant(n: nat, v: nat)
    ensures Sum(seq(n, _ => v)) == n * v
  {
    if n > 0 {
      assert seq(n, _ => v)[..n - 1] == seq(n - 1, _ => v);
      SumConstant(n - 1, v);
    }
  }

  /** `total_size` (also the `len` used by the pattern and matcher code). */
  function TotalSize(c: ShapeCounter): nat
  {
    Sum(c.counters)
  }

  /** `empty`: every count is zero and the total is zero. */
  function Empty(): (c: ShapeCounter)
    ensures c.Valid()
    ensures forall s :: Get(c, s) == 0
    ensures TotalSize(c) == 0
  {
    SumConstant(7, 0);
    ShapeCounter(seq(7, _ => 0))
  }

  /** `one_of_each`: every count is one and the total is seven. */
  function OneOfEach(): (c: ShapeCounter)
    ensures c.Valid()
    ensures forall s :: Get(c, s) == 1
    ensures TotalSize(c) == 7
  {
    SumConstant(7, 1);
    ShapeCounter(seq(7, _ => 1))
  }

  /** Two counters that agree on every shape are the same counter. */
  lemma Extensional(a: ShapeCounter, b: ShapeCounter)
    requires a.Valid() && b.Valid()
    requires forall s :: Get(a, s) == Get(b, s)
    ensures a == b
  {
    forall k | 0 <= k < 7
      ensures a.counters[k] == b.counters[k]
    {
      assert Get(a, FromOrdinal(k)) == Get(b, FromOrdinal(k));
    }
  }

  /** One more of `s`. */
  function Inc(c: ShapeCounter, s: Shape): (r: ShapeCounter)
    requires c.Valid()
    ensures r.Valid()
    ensures Get(r, s) == Get(c, s) + 1
    ensures forall x :: x != s ==> Get(r, x) == Get(c, x)
  {
    ShapeCounter(c.counters[Ordinal(s) := c.counters[Ordinal(s)] + 1])
  }

  /** The counter of a vector of shapes (`From<Vec<Shape>>`), as a value. */
  function Of(shapes: seq<Shape>): (c: ShapeCounter)
    ensures c.Valid()
    ensures forall x :: Get(c, x) == multiset(shapes)[x]
  {
    if shapes == [] then Empty()
    else
      var prefix := shapes[..|shapes| - 1];
      assert shapes == prefix + [shapes[|shapes| - 1]];
      Inc(Of(prefix), shapes[|shapes| - 1])
  }

  lemma SumIncrement(xs: seq<nat>, k: nat)
    requires k < |xs|
    ensures Sum(xs[k := xs[k] + 1]) == Sum(xs) + 1
  {
    var ys := xs[k := xs[k] + 1];
    if k < |xs| - 1 {
      assert ys[..|ys| - 1] == xs[..|xs| - 1][k := xs[k] + 1];
      SumIncrement(xs[..|xs| - 1], k);
    } else {
      assert ys[..|ys| - 1] == xs[..|xs| - 1];
    }
  }

  /** One more shape makes the total one larger. */
  lemma IncTotal(c: ShapeCounter, s: Shape)
    requires c.Valid()
    ensures TotalSize(Inc(c, s)) == TotalSize(c) + 1
  {
    SumIncrement(c.counters, Ordinal(s));
  }

  /** `total_size` of the counter of a vector is the vector's length. */
  lemma {:induction false} TotalSizeOf(shapes: seq<Shape>)
    ensures TotalSize(Of(shapes)) == |shapes|
  {
    if shapes != [] {
      var prefix := shapes[..|shapes| - 1];
      TotalSizeOf(prefix);
      SumIncrement(Of(prefix).counters, Ordinal(shapes[|shapes| - 1]));
    }
  }

  /** The doc example of `one_of_each`: it is the counter of `T, I, O, L, J, S, Z`. */
  lemma OneOfEachIsAllShapes()
    ensures OneOfEach() == Of(AllShapes)
  {
    forall s ensures Get(OneOfEach(), s) == Get(Of(AllShapes), s) {
      AllShapesOnceEach(s);
    }
    Extensional(OneOfEach(), Of(AllShapes));
  }

  /** Appending one shape bumps exactly that shape's slot. */
  lemma OfSnoc(shapes: seq<Shape>, x: Shape)
    ensures Of(shapes + [x]) == Inc(Of(shapes), x)
  {
    assert (shapes + [x])[..|shapes|] == shapes;
  }

  /** The counter of one more shape of the vector, which never exceeds the count in the whole vector. */
  lemma OfPrefixStep(shapes: seq<Shape>, i: nat)
    requires i < |shapes|
    ensures Of(shapes[..i + 1]) == Inc(Of(shapes[..i]), shapes[i])
    ensures Get(Of(shapes[..i + 1]), shapes[i]) <= multiset(shapes)[shapes[i]]
  {
    assert shapes[..i + 1] == shapes[..i] + [shapes[i]];
    OfSnoc(shapes[..i], shapes[i]);
    assert shapes == shapes[..i + 1] + shapes[i + 1..];
  }

  /**
   * `From<Vec<Shape>>`: one pass over the shapes, bumping the slot of each.
   * A `u8` slot may not overflow, so no shape may occur more than 255 times.
   */
  method FromShapes(shapes: seq<Shape>) returns (c: ShapeCounter)
    requires forall x :: multiset(shapes)[x] <= MaxCount
    ensures c == Of(shapes)
    ensures forall x :: Get(c, x) == multiset(shapes)[x]
    ensures TotalSize(c) == |shapes|
  {
    var counters := new nat[7](_ => 0);
    assert counters[..] == Empty().counters;
    var i := 0;
    while i < |shapes|
      invariant 0 <= i <= |shapes|
      invariant counters[..] == Of(shapes[..i]).counters
    {
      var x := shapes[i];
      var k := Ordinal(x);
      OfPrefixStep(shapes, i);
      counters[k] := counters[k] + 1;
      i := i + 1;
    }
    assert shapes[..i] == shapes;
    c := ShapeCounter(counters[..]);
    TotalSizeOf(shapes);
  }

  /** Sum of the counts of a pair list. */
  function PairCounts(pairs: seq<(Shape, nat)>): nat
  {
    if pairs == [] then 0 else PairCounts(pairs[..|pairs| - 1]) + pairs[|pairs| - 1].1
  }

  /** The shapes of a pair list, in order. */
  function PairShapes(pairs: seq<(Shape, nat)>): (r: seq<Shape>)
    ensures |r| == |pairs|
    ensures forall k :: 0 <= k < |pairs| ==> r[k] == pairs[k].0
  {
    if pairs == [] then [] else PairShapes(pairs[..|pairs| - 1]) + [pairs[|pairs| - 1].0]
  }

  /** The pairs `to_pairs` has collected after looking at the first `i` ordinals. */
  function PairsUpTo(c: ShapeCounter, i: nat): seq<(Shape, nat)>
    requires c.Valid() && i <= 7
  {
    if i == 0 then []
    else PairsUpTo(c, i - 1) + (if 0 < c.counters[i - 1] then [(FromOrdinal(i - 1), c.counters[i - 1])] else [])
  }

  lemma PairsUpToStep(c: ShapeCounter, i: nat)
    requires c.Valid() && 0 < i <= 7
    ensures 0 < c.counters[i - 1] ==> PairsUpTo(c, i) == PairsUpTo(c, i - 1) + [(FromOrdinal(i - 1), c.counters[i - 1])]
    ensures c.counters[i - 1] == 0 ==> PairsUpTo(c, i) == PairsUpTo(c, i - 1)
  {
  }

  /** Every collected pair has a non-zero count that is the shape's count, and an ordinal below `i`. */
  lemma {:induction false} PairsUpToCounts(c: ShapeCounter, i: nat)
    requires c.Valid() && i <= 7
    ensures forall k :: 0 <= k < |PairsUpTo(c, i)| ==>
      0 < PairsUpTo(c, i)[k].1 == Get(c, PairsUpTo(c, i)[k].0) && Ordinal(PairsUpTo(c, i)[k].0) < i
  {
    if i > 0 {
      PairsUpToCounts(c, i - 1);
      PairsUpToStep(c, i);
    }
  }

  /** The collected pairs are in strictly increasing ordinal order. */
  lemma {:induction false} PairsUpToSorted(c: ShapeCounter, i: nat)
    requires c.Valid() && i <= 7
    ensures forall j, k :: 0 <= j < k < |PairsUpTo(c, i)| ==>
      Ordinal(PairsUpTo(c, i)[j].0) < Ordinal(PairsUpTo(c, i)[k].0)
  {
    if i > 0 {
      PairsUpToSorted(c, i - 1);
      PairsUpToCounts(c, i - 1);
      PairsUpToStep(c, i);
    }
  }

  /** A shape below ordinal `i` is collected exactly when its count is non-zero. */
  lemma {:induction false} PairsUpToComplete(c: ShapeCounter, i: nat)
    requires c.Valid() && i <= 7
    ensures forall s :: Ordinal(s) < i ==> (0 < Get(c, s) <==> s in PairShapes(PairsUpTo(c, i)))
  {
    if i > 0 {
      PairsUpToComplete(c, i - 1);
      PairsUpToCounts(c, i - 1);
      PairsUpToStep(c, i);
      var before := PairsUpTo(c, i - 1);
      var t := FromOrdinal(i - 1);
      var shapes := if 0 < c.counters[i - 1] then PairShapes(before) + [t] else PairShapes(before);
      if 0 < c.counters[i - 1] {
        PairShapesSnoc(before, (t, c.counters[i - 1]));
      }
      forall s | Ordinal(s) < i
        ensures 0 < Get(c, s) <==> s in shapes
      {
        OrdinalInjective(s, t);
        if s in PairShapes(before) {
          var k :| 0 <= k < |before| && PairShapes(before)[k] == s;
        }
      }
    }
  }

  lemma PairShapesSnoc(pairs: seq<(Shape, nat)>, p: (Shape, nat))
    ensures PairShapes(pairs + [p]) == PairShapes(pairs) + [p.0]
  {
    assert (pairs + [p])[..|pairs|] == pairs;
  }

  /** The collected counts add up to the counts looked at. */
  lemma {:induction false} PairsUpToTotal(c: ShapeCounter, i: nat)
    requires c.Valid() && i <= 7
    ensures PairCounts(PairsUpTo(c, i)) == Sum(c.counters[..i])
  {
    if i > 0 {
      PairsUpToTotal(c, i - 1);
      PairsUpToStep(c, i);
      assert c.counters[..i][..i - 1] == c.counters[..i - 1];
      var after := PairsUpTo(c, i);
      if 0 < c.counters[i - 1] {
        assert after[..|after| - 1] == PairsUpTo(c, i - 1);
      }
    }
  }

  /** `to_pairs` as it runs: one pass over the seven ordinals. */
  method ToPairs(c: ShapeCounter) returns (pairs: seq<(Shape, nat)>)
    requires c.Valid()
    ensures pairs == PairsUpTo(c, 7)
    ensures forall k :: 0 <= k < |pairs| ==> 0 < pairs[k].1 == Get(c, pairs[k].0)
    ensures forall j, k :: 0 <= j < k < |pairs| ==> Ordinal(pairs[j].0) < Ordinal(pairs[k].0)
    ensures forall s :: 0 < Get(c, s) <==> s in PairShapes(pairs)
    ensures PairCounts(pairs) == TotalSize(c)
  {
    pairs := [];
    var i := 0;
    while i < 7
      invariant 0 <= i <= 7
      invariant pairs == PairsUpTo(c, i)
    {
      var count := c.counters[i];
      if 0 < count {
        pairs := pairs + [(FromOrdinal(i), count)];
      }
      i := i + 1;
    }
    PairsUpToCounts(c, 7);
    PairsUpToSorted(c, 7);
    PairsUpToComplete(c, 7);
    PairsUpToTotal(c, 7);
    assert c.counters[..7] == c.counters;
  }

  /** `contains_all`: every count of `a` is at least the count in `b`. */
  predicate ContainsAll(a: ShapeCounter, b: ShapeCounter)
    requires a.Valid() && b.Valid()
  {
    forall s :: Get(b, s) <= Get(a, s)
  }

  /** `contains`: at least one of `s` is left. */
  predicate Contains(c: ShapeCounter, s: Shape)
    requires c.Valid()
  {
    0 < Get(c, s)
  }

  /** `contains_all` on counters of vectors is multiset inclusion. */
  lemma ContainsAllOf(a: seq<Shape>, b: seq<Shape>)
    ensures ContainsAll(Of(a), Of(b)) <==> multiset(b) <= multiset(a)
  {
  }

  /** Two counters of vectors are equal exactly when the vectors are permutations. */
  lemma OfEqual(a: seq<Shape>, b: seq<Shape>)
    ensures Of(a) == Of(b) <==> multiset(a) == multiset(b)
  {
    if multiset(a) == multiset(b) {
      Extensional(Of(a), Of(b));
    }
  }

  /** Slot-wise smaller lists sum to less, and to the same only when equal. */
  lemma {:induction false} SumPointwise(xs: seq<nat>, ys: seq<nat>)
    requires |xs| == |ys| && forall k :: 0 <= k < |xs| ==> xs[k] <= ys[k]
    ensures Sum(xs) <= Sum(ys)
    ensures Sum(xs) == Sum(ys) ==> xs == ys
  {
    if xs != [] {
      var n := |xs| - 1;
      SumPointwise(xs[..n], ys[..n]);
      assert xs == xs[..n] + [xs[n]] && ys == ys[..n] + [ys[n]];
    }
  }

  /** A counter holding another of the same total holds exactly it. */
  lemma ContainsAllSameSize(a: ShapeCounter, b: ShapeCounter)
    requires a.Valid() && b.Valid() && ContainsAll(a, b)
    ensures TotalSize(b) <= TotalSize(a)
    ensures TotalSize(a) == TotalSize(b) ==> a == b
  {
    forall k | 0 <= k < 7
      ensures b.counters[k] <= a.counters[k]
    {
      assert Get(b, FromOrdinal(k)) <= Get(a, FromOrdinal(k));
    }
    SumPointwise(b.counters, a.counters);
  }

  /** Within a counter, one more of `t` still fits exactly when `t` is left over. */
  lemma ContainsAllInc(c: ShapeCounter, x: ShapeCounter, t: Shape)
    requires c.Valid() && x.Valid() && ContainsAll(c, x)
    ensures ContainsAll(c, Inc(x, t)) <==> Contains(Sub(c, x), t)
  {
    if !ContainsAll(c, Inc(x, t)) {
      var s :| Get(c, s) < Get(Inc(x, t), s);
    }
  }

  /** Slot-wise `+`. */
  function Add(a: ShapeCounter, b: ShapeCounter): (r: ShapeCounter)
    requires a.Valid() && b.Valid()
    ensures r.Valid()
    ensures forall s :: Get(r, s) == Get(a, s) + Get(b, s)
  {
    ShapeCounter(seq(7, k requires 0 <= k < 7 => a.counters[k] + b.counters[k]))
  }

  /** Slot-wise `-`; a `u8` slot may not underflow, so `b` must fit inside `a`. */
  function Sub(a: ShapeCounter, b: ShapeCounter): (r: ShapeCounter)
    requires a.Valid() && b.Valid()
    requires ContainsAll(a, b)
    ensures r.Valid()
    ensures forall s :: Get(r, s) + Get(b, s) == Get(a, s)
  {
    ShapeCounter(seq(7, k requires 0 <= k < 7 =>
      assert Get(b, FromOrdinal(k)) <= Get(a, FromOrdinal(k));
      a.counters[k] - b.counters[k]))
  }

  /** `merge_by_max`: slot-wise maximum. */
  function MergeByMax(a: ShapeCounter, b: ShapeCounter): (r: ShapeCounter)
    requires a.Valid() && b.Valid()
    ensures r.Valid()
    ensures ContainsAll(r, a) && ContainsAll(r, b)
    ensures forall s :: Get(r, s) == Get(a, s) || Get(r, s) == Get(b, s)
  {
    ShapeCounter(seq(7, k requires 0 <= k < 7 =>
      if a.counters[k] < b.counters[k] then b.counters[k] else a.counters[k]))
  }

  /** `+` on counters of vectors is the counter of the concatenation. */
  lemma AddOf(a: seq<Shape>, b: seq<Shape>)
    ensures Add(Of(a), Of(b)) == Of(a + b)
  {
    Extensional(Add(Of(a), Of(b)), Of(a + b));
  }

  /** `repeat_n(shape, count)`. */
  function RepeatShape(s: Shape, n: nat): (r: seq<Shape>)
    ensures |r| == n
    ensures forall x :: multiset(r)[x] == if x == s then n else 0
  {
    if n == 0 then [] else
      var r := RepeatShape(s, n - 1) + [s];
      assert multiset(r) == multiset(RepeatShape(s, n - 1)) + multiset{s};
      r
  }

  /** `flat_map` of `repeat_n` over a pair list. */
  function Spread(pairs: seq<(Shape, nat)>): seq<Shape>
  {
    if pairs == [] then [] else Spread(pairs[..|pairs| - 1]) + RepeatShape(pairs[|pairs| - 1].0, pairs[|pairs| - 1].1)
  }

  /**
   * The counter written out as a vector of shapes, in ordinal order
   * (`to_pairs` followed by `repeat_n` of each pair).
   */
  function Flatten(c: ShapeCounter): seq<Shape>
    requires c.Valid()
  {
    Spread(PairsUpTo(c, 7))
  }

  lemma {:induction false} SpreadUpTo(c: ShapeCounter, i: nat)
    requires c.Valid() && i <= 7
    ensures forall s :: multiset(Spread(PairsUpTo(c, i)))[s] == if Ordinal(s) < i then Get(c, s) else 0
  {
    if i > 0 {
      SpreadUpTo(c, i - 1);
      PairsUpToStep(c, i);
      var before := PairsUpTo(c, i - 1);
      var after := PairsUpTo(c, i);
      if 0 < c.counters[i - 1] {
        assert after[..|after| - 1] == before;
        var tail := RepeatShape(FromOrdinal(i - 1), c.counters[i - 1]);
        assert Spread(after) == Spread(before) + tail;
        forall s ensures multiset(Spread(after))[s] == if Ordinal(s) < i then Get(c, s) else 0 {
          assert multiset(Spread(after)) == multiset(Spread(before)) + multiset(tail);
          OrdinalInjective(s, FromOrdinal(i - 1));
        }
      } else {
        forall s ensures multiset(Spread(after))[s] == if Ordinal(s) < i then Get(c, s) else 0 {
          OrdinalInjective(s, FromOrdinal(i - 1));
        }
      }
    }
  }

  /** Flattening loses nothing: the counter of the flattened vector is the counter again. */
  lemma FlattenOf(c: ShapeCounter)
    requires c.Valid()
    ensures Of(Flatten(c)) == c
    ensures forall s :: multiset(Flatten(c))[s] == Get(c, s)
    ensures |Flatten(c)| == TotalSize(c)
  {
    SpreadUpTo(c, 7);
    Extensional(Of(Flatten(c)), c);
    TotalSizeOf(Flatten(c));
  }

  function Snoc(vs: seq<seq<nat>>, k: nat): (r: seq<seq<nat>>)
    ensures |r| == |vs|
    ensures forall i :: 0 <= i < |vs| ==> r[i] == vs[i] + [k]
  {
    seq(|vs|, i requires 0 <= i < |vs| => vs[i] + [k])
  }

  /** Every way to pick `pop` items slot by slot, at most `counts[j]` from slot `j`. */
  function Choices(counts: seq<nat>, pop: nat): seq<seq<nat>>
    decreases |counts|, 1, 0
  {
    if counts == [] then (if pop == 0 then [[]] else []) else ChoicesFrom(counts, pop, 0)
  }

  /** The picks that take `k` or more from the last slot. */
  function ChoicesFrom(counts: seq<nat>, pop: nat, k: nat): seq<seq<nat>>
    requires counts != []
    decreases |counts|, 0, counts[|counts| - 1] + 1 - k
  {
    if counts[|counts| - 1] < k || pop < k then []
    else Snoc(Choices(counts[..|counts| - 1], pop - k), k) + ChoicesFrom(counts, pop, k + 1)
  }

  predicate Fits(counts: seq<nat>, v: seq<nat>, pop: nat)
  {
    |v| == |counts| && (forall j :: 0 <= j < |v| ==> v[j] <= counts[j]) && Sum(v) == pop
  }

  /** A pick is listed exactly when it fits the slots and takes `pop` in all. */
  lemma {:induction false} ChoicesMembers(counts: seq<nat>, pop: nat, v: seq<nat>)
    ensures v in Choices(counts, pop) <==> Fits(counts, v, pop)
    decreases |counts|, 1, 0
  {
    if counts != [] {
      ChoicesFromMembers(counts, pop, 0, v);
    }
  }

  lemma {:induction false} ChoicesFromMembers(counts: seq<nat>, pop: nat, k: nat, v: seq<nat>)
    requires counts != []
    ensures v in ChoicesFrom(counts, pop, k) <==> Fits(counts, v, pop) && k <= v[|v| - 1]
    decreases |counts|, 0, counts[|counts| - 1] + 1 - k
  {
    var n := |counts|;
    if !(counts[n - 1] < k || pop < k) {
      ChoicesFromMembers(counts, pop, k + 1, v);
      var front := Choices(counts[..n - 1], pop - k);
      ChoicesFromUnfold(counts, pop, k);
      SnocMembers(front, k, v);
      if v != [] {
        ChoicesMembers(counts[..n - 1], pop - k, v[..|v| - 1]);
        if |v| == n {
          FitsLast(counts, v, pop, k);
        }
      }
    } else if Fits(counts, v, pop) {
      SumLast(v);
    }
  }

  lemma ChoicesFromUnfold(counts: seq<nat>, pop: nat, k: nat)
    requires counts != [] && k <= counts[|counts| - 1] && k <= pop
    ensures ChoicesFrom(counts, pop, k) ==
      Snoc(Choices(counts[..|counts| - 1], pop - k), k) + ChoicesFrom(counts, pop, k + 1)
  {
  }

  /** The extended picks are those ending in `k` whose front is listed. */
  lemma SnocMembers(vs: seq<seq<nat>>, k: nat, v: seq<nat>)
    ensures v in Snoc(vs, k) <==> v != [] && v[|v| - 1] == k && v[..|v| - 1] in vs
  {
    if v in Snoc(vs, k) {
      var i :| 0 <= i < |vs| && Snoc(vs, k)[i] == v;
      assert v[..|v| - 1] == vs[i];
    }
    if v != [] && v[|v| - 1] == k && v[..|v| - 1] in vs {
      var i :| 0 <= i < |vs| && vs[i] == v[..|v| - 1];
      assert Snoc(vs, k)[i] == v;
    }
  }

  /** A pick ending in `k` fits exactly when its front fits the other slots with `k` fewer. */
  lemma FitsLast(counts: seq<nat>, v: seq<nat>, pop: nat, k: nat)
    requires counts != [] && |v| == |counts| && k <= counts[|counts| - 1] && k <= pop
    ensures Fits(counts, v, pop) && v[|v| - 1] == k <==>
      v[|v| - 1] == k && Fits(counts[..|counts| - 1], v[..|v| - 1], pop - k)
  {
    assert Sum(v) == Sum(v[..|v| - 1]) + v[|v| - 1];
  }

  lemma SumLast(v: seq<nat>)
    requires v != []
    ensures v[|v| - 1] <= Sum(v)
  {
  }

  /** No item is listed twice. */
  predicate Distinct<T(==)>(s: seq<T>)
  {
    forall i, j :: 0 <= i < j < |s| ==> s[i] != s[j]
  }

  lemma SnocDistinct(vs: seq<seq<nat>>, k: nat)
    requires Distinct(vs)
    ensures Distinct(Snoc(vs, k))
  {
    var r := Snoc(vs, k);
    forall i, j | 0 <= i < j < |r| ensures r[i] != r[j] {
      assert r[i][..|vs[i]|] == vs[i] && r[j][..|vs[j]|] == vs[j];
    }
  }

  lemma ConcatDistinct(a: seq<seq<nat>>, b: seq<seq<nat>>)
    requires Distinct(a) && Distinct(b) && forall x :: x in a ==> x !in b
    ensures Distinct(a + b)
  {
    var r := a + b;
    forall i, j | 0 <= i < j < |r| ensures r[i] != r[j] {
      if j >= |a| && i < |a| {
        assert r[i] in a && r[j] == b[j - |a|];
      } else if i >= |a| {
        assert r[i] == b[i - |a|] && r[j] == b[j - |a|];
      }
    }
  }

  /** Every pick is listed once. */
  lemma {:induction false} ChoicesDistinct(counts: seq<nat>, pop: nat)
    ensures Distinct(Choices(counts, pop))
    decreases |counts|, 1, 0
  {
    if counts != [] {
      ChoicesFromDistinct(counts, pop, 0);
    }
  }

  lemma {:induction false} ChoicesFromDistinct(counts: seq<nat>, pop: nat, k: nat)
    requires counts != []
    ensures Distinct(ChoicesFrom(counts, pop, k))
    decreases |counts|, 0, counts[|counts| - 1] + 1 - k
  {
    var n := |counts|;
    if !(counts[n - 1] < k || pop < k) {
      var front := Choices(counts[..n - 1], pop - k);
      var back := ChoicesFrom(counts, pop, k + 1);
      ChoicesDistinct(counts[..n - 1], pop - k);
      SnocDistinct(front, k);
      ChoicesFromDistinct(counts, pop, k + 1);
      forall x | x in Snoc(front, k) ensures x !in back {
        SnocMembers(front, k, x);
        ChoicesFromMembers(counts, pop, k + 1, x);
      }
      ConcatDistinct(Snoc(front, k), back);
      ChoicesFromUnfold(counts, pop, k);
    }
  }

  /**
   * `subset(pop)`: every counter inside `c` holding `pop` shapes in all,
   * each once.
   */
  function Subsets(c: ShapeCounter, pop: nat): (r: seq<ShapeCounter>)
    requires c.Valid()
    ensures forall x :: x in r <==> x.Valid() && ContainsAll(c, x) && TotalSize(x) == pop
    ensures Distinct(r)
  {
    var vs := Choices(c.counters, pop);
    var r := seq(|vs|, i requires 0 <= i < |vs| => ShapeCounter(vs[i]));
    ChoicesDistinct(c.counters, pop);
    assert forall i, j :: 0 <= i < j < |r| ==> r[i].counters == vs[i] && r[j].counters == vs[j];
    forall x ensures x in r <==> x.Valid() && ContainsAll(c, x) && TotalSize(x) == pop {
      ChoicesMembers(c.counters, pop, x.counters);
      if x in r {
        var i :| 0 <= i < |r| && r[i] == x;
        assert x.counters == vs[i];
        forall s ensures Get(x, s) <= Get(c, s) {
        }
      }
      if x.Valid() && ContainsAll(c, x) && TotalSize(x) == pop {
        forall j | 0 <= j < 7 ensures x.counters[j] <= c.counters[j] {
          assert Get(x, FromOrdinal(j)) <= Get(c, FromOrdinal(j));
        }
        var i :| 0 <= i < |vs| && vs[i] == x.counters;
        assert r[i] == x;
      }
    }
    r
  }
}
