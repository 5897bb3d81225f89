/**
 * `FuzzyShapeOrder`: an order whose slots may be `Unknown`, and its
 * expansion into every concrete order, trying each `Unknown` slot as all
 * seven shapes in ordinal order.
 */
module FuzzyShapeOrders {
  import opened Shapes
  import opened ShapeOrders

  datatype FuzzyShapeOrder = FuzzyShapeOrder(shapes: seq<FuzzyShape>)

  /** `order` is one of the concrete orders that `fuzzy` stands for. */
  predicate Matches(fuzzy: seq<FuzzyShape>, order: seq<Shape>)
  {
    && |order| == |fuzzy|
    && forall i :: 0 <= i < |fuzzy| && fuzzy[i].Known? ==> order[i] == fuzzy[i].shape
  }

  function UnknownCount(fuzzy: seq<FuzzyShape>): nat
  {
    if fuzzy == [] then 0 else (if fuzzy[0] == Unknown then 1 else 0) + UnknownCount(fuzzy[1..])
  }

  /** What `build` visits once `prefix` has been pushed on the buffer. */
  function ExpandFrom(fuzzy: seq<FuzzyShape>, prefix: seq<Shape>): seq<seq<Shape>>
    requires |prefix| <= |fuzzy|
    decreases |fuzzy| - |prefix|, 8
  {
    if |fuzzy| == |prefix| then [prefix]
    else match fuzzy[|prefix|]
      case Known(s) => ExpandFrom(fuzzy, prefix + [s])
      case Unknown => ExpandEach(fuzzy, prefix, 0)
  }

  /** What the loop over `Shape::all_iter` visits from the `k`-th shape on. */
  function ExpandEach(fuzzy: seq<FuzzyShape>, prefix: seq<Shape>, k: nat): seq<seq<Shape>>
    requires |prefix| < |fuzzy| && k <= 7
    decreases |fuzzy| - |prefix|, 7 - k
  {
    if k == 7 then [] else ExpandFrom(fuzzy, prefix + [AllShapes[k]]) + ExpandEach(fuzzy, prefix, k + 1)
  }

  /** Everything visited extends the prefix, has the order's length and keeps every known slot. */
  lemma {:induction false} ExpandFromSound(fuzzy: seq<FuzzyShape>, prefix: seq<Shape>)
    requires |prefix| <= |fuzzy|
    ensures forall o :: o in ExpandFrom(fuzzy, prefix) ==>
      |o| == |fuzzy| && o[..|prefix|] == prefix &&
      forall i :: |prefix| <= i < |fuzzy| && fuzzy[i].Known? ==> o[i] == fuzzy[i].shape
    decreases |fuzzy| - |prefix|, 8
  {
    if |fuzzy| > |prefix| {
      match fuzzy[|prefix|]
      case Known(s) =>
        ExpandFromSound(fuzzy, prefix + [s]);
        forall o | o in ExpandFrom(fuzzy, prefix) ensures o[..|prefix|] == prefix {
          assert o[..|prefix| + 1][..|prefix|] == o[..|prefix|];
        }
      case Unknown =>
        ExpandEachSound(fuzzy, prefix, 0);
    }
  }

  lemma {:induction false} ExpandEachSound(fuzzy: seq<FuzzyShape>, prefix: seq<Shape>, k: nat)
    requires |prefix| < |fuzzy| && k <= 7 && fuzzy[|prefix|] == Unknown
    ensures forall o :: o in ExpandEach(fuzzy, prefix, k) ==>
      |o| == |fuzzy| && o[..|prefix|] == prefix &&
      forall i :: |prefix| <= i < |fuzzy| && fuzzy[i].Known? ==> o[i] == fuzzy[i].shape
    decreases |fuzzy| - |prefix|, 7 - k
  {
    if k < 7 {
      ExpandFromSound(fuzzy, prefix + [AllShapes[k]]);
      ExpandEachSound(fuzzy, prefix, k + 1);
      forall o | o in ExpandFrom(fuzzy, prefix + [AllShapes[k]]) ensures o[..|prefix|] == prefix {
        assert o[..|prefix| + 1][..|prefix|] == o[..|prefix|];
      }
    }
  }

  /** Every concrete order that extends the prefix and keeps the known slots is visited. */
  lemma {:induction false} ExpandFromComplete(fuzzy: seq<FuzzyShape>, prefix: seq<Shape>, o: seq<Shape>)
    requires |prefix| <= |fuzzy|
    requires |o| == |fuzzy| && o[..|prefix|] == prefix
    requires forall i :: |prefix| <= i < |fuzzy| && fuzzy[i].Known? ==> o[i] == fuzzy[i].shape
    ensures o in ExpandFrom(fuzzy, prefix)
    decreases |fuzzy| - |prefix|, 8
  {
    if |fuzzy| == |prefix| {
      assert o == o[..|prefix|];
    } else {
      var n := |prefix|;
      assert o[..n + 1] == prefix + [o[n]];
      match fuzzy[n]
      case Known(s) =>
        ExpandFromComplete(fuzzy, prefix + [s], o);
      case Unknown =>
        ExpandEachComplete(fuzzy, prefix, 0, o);
    }
  }

  lemma {:induction false} ExpandEachComplete(fuzzy: seq<FuzzyShape>, prefix: seq<Shape>, k: nat, o: seq<Shape>)
    requires |prefix| < |fuzzy| == |o| && fuzzy[|prefix|] == Unknown
    requires k <= Ordinal(o[|prefix|]) && o[..|prefix| + 1] == prefix + [o[|prefix|]]
    requires forall i :: |prefix| <= i < |fuzzy| && fuzzy[i].Known? ==> o[i] == fuzzy[i].shape
    ensures o in ExpandEach(fuzzy, prefix, k)
    decreases |fuzzy| - |prefix|, 7 - k
  {
    if k == Ordinal(o[|prefix|]) {
      ExpandFromComplete(fuzzy, prefix + [AllShapes[k]], o);
    } else {
      ExpandEachComplete(fuzzy, prefix, k + 1, o);
    }
  }

  /** Each `Unknown` slot multiplies the number of visited orders by seven. */
  lemma {:induction false} ExpandFromCount(fuzzy: seq<FuzzyShape>, prefix: seq<Shape>)
    requires |prefix| <= |fuzzy|
    ensures |ExpandFrom(fuzzy, prefix)| == Pow7(UnknownCount(fuzzy[|prefix|..]))
    decreases |fuzzy| - |prefix|, 8
  {
    if |fuzzy| > |prefix| {
      var rest := fuzzy[|prefix|..];
      assert rest[1..] == fuzzy[|prefix| + 1..];
      match fuzzy[|prefix|]
      case Known(s) =>
        ExpandFromCount(fuzzy, prefix + [s]);
      case Unknown =>
        ExpandEachCount(fuzzy, prefix, 0);
    }
  }

  lemma {:induction false} ExpandEachCount(fuzzy: seq<FuzzyShape>, prefix: seq<Shape>, k: nat)
    requires |prefix| < |fuzzy| && k <= 7 && fuzzy[|prefix|] == Unknown
    ensures |ExpandEach(fuzzy, prefix, k)| == (7 - k) * Pow7(UnknownCount(fuzzy[|prefix| + 1..]))
    decreases |fuzzy| - |prefix|, 7 - k
  {
    if k < 7 {
      ExpandFromCount(fuzzy, prefix + [AllShapes[k]]);
      ExpandEachCount(fuzzy, prefix, k + 1);
    }
  }

  /**
   * `build`: at a known slot push the shape and recurse; at an unknown slot
   * try every shape in ordinal order; once the buffer is as long as the
   * order, visit it. The buffer is passed as a value, so the pushes and pops
   * around each branch are implicit.
   */
  method Build(fuzzy: seq<FuzzyShape>, buffer: seq<Shape>) returns (visited: seq<seq<Shape>>)
    requires |buffer| <= |fuzzy|
    ensures visited == ExpandFrom(fuzzy, buffer)
    decreases |fuzzy| - |buffer|
  {
    var index := |buffer|;
    if |fuzzy| <= index {
      return [buffer];
    }
    match fuzzy[index]
    case Known(shape) =>
      visited := Build(fuzzy, buffer + [shape]);
    case Unknown =>
      visited := [];
      var k := 0;
      while k < 7
        invariant 0 <= k <= 7
        invariant visited + ExpandEach(fuzzy, buffer, k) == ExpandEach(fuzzy, buffer, 0)
      {
        var branch := Build(fuzzy, buffer + [AllShapes[k]]);
        visited := visited + branch;
        k := k + 1;
      }
  }

  /**
   * `expand_as_wildcard_walk` (panics on an empty order): exactly the
   * concrete orders the fuzzy order stands for, `7^unknowns` of them.
   */
  method ExpandAsWildcardWalk(order: FuzzyShapeOrder) returns (visited: seq<seq<Shape>>)
    requires 0 < |order.shapes|
    ensures forall o :: o in visited <==> Matches(order.shapes, o)
    ensures |visited| == Pow7(UnknownCount(order.shapes))
  {
    visited := Build(order.shapes, []);
    ExpandFromSound(order.shapes, []);
    ExpandFromCount(order.shapes, []);
    assert order.shapes[0..] == order.shapes;
    forall o | Matches(order.shapes, o) ensures o in visited {
      ExpandFromComplete(order.shapes, [], o);
    }
  }

  /** `expand_as_wildcard`: the visited orders collected as `ShapeOrder`s. */
  method ExpandAsWildcard(order: FuzzyShapeOrder) returns (orders: seq<ShapeOrder>)
    requires 0 < |order.shapes|
    ensures forall o :: ShapeOrder(o) in orders <==> Matches(order.shapes, o)
    ensures |orders| == Pow7(UnknownCount(order.shapes))
  {
    var visited := ExpandAsWildcardWalk(order);
    orders := seq(|visited|, k requires 0 <= k < |visited| => ShapeOrder(visited[k]));
    forall o | Matches(order.shapes, o) ensures ShapeOrder(o) in orders {
      var k :| 0 <= k < |visited| && visited[k] == o;
      assert orders[k] == ShapeOrder(o);
    }
  }

  /** The order `T?O` expands to the seven orders `TxO`, in shape order. */
  lemma ExpandTUnknownO()
    ensures ExpandFrom([Known(T), Unknown, Known(O)], []) ==
      [[T, T, O], [T, I, O], [T, O, O], [T, L, O], [T, J, O], [T, S, O], [T, Z, O]]
  {
    var f := [Known(T), Unknown, Known(O)];
    assert [] + [T] == [T];
    assert ExpandFrom(f, [T]) == ExpandEach(f, [T], 0);
    forall k: nat | k < 7 ensures ExpandFrom(f, [T] + [AllShapes[k]]) == [[T, AllShapes[k], O]] {
      var p := [T] + [AllShapes[k]];
      assert |p| == 2 && f[|p|] == Known(O);
      assert p + [O] == [T, AllShapes[k], O];
      assert ExpandFrom(f, p) == ExpandFrom(f, p + [O]);
    }
    assert ExpandEach(f, [T], 7) == [];
  }
}
