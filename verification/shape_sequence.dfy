/**
 * `ShapeSequence`: shapes in the order they are used, after any hold.
 * `infer_input_walk` enumerates the input orders that a hold can turn into
 * the sequence, writing candidates into a buffer in place.
 */
module ShapeSequences {
  import opened Shapes
  import opened Wrappers
  import opened ShapeOrders
  import BitShapesModel
  import opened FuzzyShapeOrders

  datatype ShapeSequence = ShapeSequence(shapes: seq<Shape>)

  /** `to_shape_order`: the same shapes, now read as an order. */
  function ToShapeOrder(sequence: ShapeSequence): (r: ShapeOrder)
    ensures r.shapes == sequence.shapes
  {
    ShapeOrder(sequence.shapes)
  }

  /** `From<&BitShapes>`: the shapes unpacked from the bit representation. */
  function FromBitShapes(b: BitShapesModel.BitShapes): (r: ShapeSequence)
    ensures |r.shapes| == b.len
    ensures forall shapes :: |shapes| == b.len && b.value == BitShapesModel.Packed(shapes) ==> r.shapes == shapes
  {
    forall shapes | |shapes| == b.len && b.value == BitShapesModel.Packed(shapes)
      ensures BitShapesModel.Unpacked(b.value, b.len) == shapes
    {
      BitShapesModel.UnpackPacked(shapes);
    }
    ShapeSequence(BitShapesModel.Unpacked(b.value, b.len))
  }

  /** What the walk places for the `depth`-th used shape: it, or `Unknown` past the end. */
  function Slot(shapes: seq<Shape>, depth: nat): FuzzyShape
  {
    if depth < |shapes| then Known(shapes[depth]) else Unknown
  }

  /** The slots for used shapes `depth .. bound`. */
  function SlotsFrom(shapes: seq<Shape>, depth: nat, bound: nat): (r: seq<FuzzyShape>)
    requires depth <= bound
    ensures |r| == bound - depth
    ensures forall i :: 0 <= i < |r| ==> r[i] == Slot(shapes, depth + i)
    decreases bound - depth
  {
    if depth == bound then [] else [Slot(shapes, depth)] + SlotsFrom(shapes, depth + 1, bound)
  }

  function Pow2(n: nat): (r: nat)
    ensures 0 < r
  {
    if n == 0 then 1 else 2 * Pow2(n - 1)
  }

  /**
   * What `rec` visits from a buffer `buf`: the `depth`-th used shape either
   * comes from the next input slot (`add`, the previous one stays in hold)
   * or from the held slot `stock` (after which the held slot is the next one).
   */
  function Walk(shapes: seq<Shape>, from: nat, buf: seq<FuzzyShape>, depth: nat, stock: nat): seq<seq<FuzzyShape>>
    requires |buf| == from && stock <= depth < from
    decreases from - depth
  {
    var v := Slot(shapes, depth);
    (if depth < from - 1 then Walk(shapes, from, buf[depth + 1 := v], depth + 1, stock) else [])
    + (if depth < from - 1 then Walk(shapes, from, buf[stock := v], depth + 1, depth + 1) else [buf[stock := v]])
  }

  /** The walk visits `2^(from - 1 - depth)` orders: one per choice of hold at each step but the last. */
  lemma {:induction false} WalkCount(shapes: seq<Shape>, from: nat, buf: seq<FuzzyShape>, depth: nat, stock: nat)
    requires |buf| == from && stock <= depth < from
    ensures |Walk(shapes, from, buf, depth, stock)| == Pow2(from - 1 - depth)
    decreases from - depth
  {
    var v := Slot(shapes, depth);
    if depth < from - 1 {
      WalkCount(shapes, from, buf[depth + 1 := v], depth + 1, stock);
      WalkCount(shapes, from, buf[stock := v], depth + 1, depth + 1);
    }
  }

  /** Every visited order has length `from` and leaves the already decided slots alone. */
  lemma {:induction false} WalkFrame(shapes: seq<Shape>, from: nat, buf: seq<FuzzyShape>, depth: nat, stock: nat)
    requires |buf| == from && stock <= depth < from
    ensures forall f :: f in Walk(shapes, from, buf, depth, stock) ==>
      |f| == from && forall j :: 0 <= j <= depth && j != stock ==> f[j] == buf[j]
    decreases from - depth
  {
    var v := Slot(shapes, depth);
    if depth < from - 1 {
      WalkFrame(shapes, from, buf[depth + 1 := v], depth + 1, stock);
      WalkFrame(shapes, from, buf[stock := v], depth + 1, depth + 1);
    }
  }

  /** The cursor a hold game is in when the `depth`-th shape is to be used. */
  function CursorAt(f: seq<FuzzyShape>, depth: nat, stock: nat): (c: OrderCursor<FuzzyShape>)
    requires stock <= depth < |f|
    ensures c.Valid()
  {
    OrderCursor(f, Some(stock), depth + 1)
  }

  /** `f`, played with the hold choices `ops` from the `depth`-th shape on, uses exactly the slots. */
  predicate Replays(shapes: seq<Shape>, f: seq<FuzzyShape>, depth: nat, stock: nat, ops: seq<PopOp>)
    requires stock <= depth < |f|
  {
    Run(CursorAt(f, depth, stock), ops) == Some((SlotsFrom(shapes, depth, |f|), OrderCursor(f, None, |f|)))
  }

  /** Using the next input slot for the `depth`-th shape, with the held slot kept. */
  lemma ReplaysSecond(shapes: seq<Shape>, f: seq<FuzzyShape>, depth: nat, stock: nat, rest: seq<PopOp>)
    requires stock <= depth && depth + 1 < |f| && f[depth + 1] == Slot(shapes, depth)
    requires Replays(shapes, f, depth + 1, stock, rest)
    ensures Replays(shapes, f, depth, stock, [Second] + rest)
  {
    var ops := [Second] + rest;
    assert ops[1..] == rest;
    assert Pop(CursorAt(f, depth, stock), Second) == (Some(f[depth + 1]), CursorAt(f, depth + 1, stock));
    RunCons(CursorAt(f, depth, stock), ops);
    assert SlotsFrom(shapes, depth, |f|) == [Slot(shapes, depth)] + SlotsFrom(shapes, depth + 1, |f|);
  }

  /** Using the held slot for the `depth`-th shape; the next input slot is held instead. */
  lemma ReplaysFirst(shapes: seq<Shape>, f: seq<FuzzyShape>, depth: nat, stock: nat, rest: seq<PopOp>)
    requires stock <= depth && depth + 1 < |f| && f[stock] == Slot(shapes, depth)
    requires Replays(shapes, f, depth + 1, depth + 1, rest)
    ensures Replays(shapes, f, depth, stock, [First] + rest)
  {
    var ops := [First] + rest;
    assert ops[1..] == rest;
    assert Pop(CursorAt(f, depth, stock), First) == (Some(f[stock]), CursorAt(f, depth + 1, depth + 1));
    RunCons(CursorAt(f, depth, stock), ops);
    assert SlotsFrom(shapes, depth, |f|) == [Slot(shapes, depth)] + SlotsFrom(shapes, depth + 1, |f|);
  }

  /** The last shape is always the held one. */
  lemma ReplaysLast(shapes: seq<Shape>, f: seq<FuzzyShape>, stock: nat)
    requires stock < |f| && f[stock] == Slot(shapes, |f| - 1)
    ensures Replays(shapes, f, |f| - 1, stock, [First])
  {
    var n := |f|;
    var ops := [First];
    assert Pop(CursorAt(f, n - 1, stock), First) == (Some(f[stock]), OrderCursor(f, None, n));
    assert Run(OrderCursor(f, None, n), ops[1..]) == Some(([], OrderCursor(f, None, n)));
    RunCons(CursorAt(f, n - 1, stock), ops);
    assert SlotsFrom(shapes, n - 1, n) == [Slot(shapes, n - 1)];
  }

  /** Soundness: every visited order, with some hold choices, yields the sequence. */
  lemma {:induction false} WalkReplays(shapes: seq<Shape>, from: nat, buf: seq<FuzzyShape>, depth: nat, stock: nat)
    requires |buf| == from && stock <= depth < from
    ensures forall f :: f in Walk(shapes, from, buf, depth, stock) ==>
      |f| == from && exists ops :: Replays(shapes, f, depth, stock, ops)
    decreases from - depth
  {
    var v := Slot(shapes, depth);
    if depth < from - 1 {
      var addBuf, stockBuf := buf[depth + 1 := v], buf[stock := v];
      var addWalk := Walk(shapes, from, addBuf, depth + 1, stock);
      var stockWalk := Walk(shapes, from, stockBuf, depth + 1, depth + 1);
      assert Walk(shapes, from, buf, depth, stock) == addWalk + stockWalk;
      WalkReplays(shapes, from, addBuf, depth + 1, stock);
      WalkFrame(shapes, from, addBuf, depth + 1, stock);
      WalkReplays(shapes, from, stockBuf, depth + 1, depth + 1);
      WalkFrame(shapes, from, stockBuf, depth + 1, depth + 1);
      forall f | f in addWalk
        ensures exists ops :: Replays(shapes, f, depth, stock, ops)
      {
        var rest :| Replays(shapes, f, depth + 1, stock, rest);
        ReplaysSecond(shapes, f, depth, stock, rest);
      }
      forall f | f in stockWalk
        ensures exists ops :: Replays(shapes, f, depth, stock, ops)
      {
        var rest :| Replays(shapes, f, depth + 1, depth + 1, rest);
        ReplaysFirst(shapes, f, depth, stock, rest);
      }
    } else {
      ReplaysLast(shapes, buf[stock := v], stock);
    }
  }

  /** Completeness: every way of using the hold that ends on the held shape is visited. */
  lemma {:induction false} WalkComplete(shapes: seq<Shape>, from: nat, buf: seq<FuzzyShape>, depth: nat, stock: nat, ops: seq<PopOp>)
    requires |buf| == from && stock <= depth < from
    requires |ops| == from - depth && ops[|ops| - 1] == First
    ensures exists f :: f in Walk(shapes, from, buf, depth, stock) && |f| == from && Replays(shapes, f, depth, stock, ops)
    decreases from - depth
  {
    var v := Slot(shapes, depth);
    var rest := ops[1..];
    if depth < from - 1 {
      assert rest[|rest| - 1] == First;
      assert ops == [ops[0]] + rest;
      var addBuf, stockBuf := buf[depth + 1 := v], buf[stock := v];
      var addWalk := Walk(shapes, from, addBuf, depth + 1, stock);
      var stockWalk := Walk(shapes, from, stockBuf, depth + 1, depth + 1);
      assert Walk(shapes, from, buf, depth, stock) == addWalk + stockWalk;
      if ops[0] == Second {
        WalkComplete(shapes, from, addBuf, depth + 1, stock, rest);
        WalkFrame(shapes, from, addBuf, depth + 1, stock);
        var f :| f in addWalk && |f| == from && Replays(shapes, f, depth + 1, stock, rest);
        ReplaysSecond(shapes, f, depth, stock, rest);
      } else {
        WalkComplete(shapes, from, stockBuf, depth + 1, depth + 1, rest);
        WalkFrame(shapes, from, stockBuf, depth + 1, depth + 1);
        var f :| f in stockWalk && |f| == from && Replays(shapes, f, depth + 1, depth + 1, rest);
        ReplaysFirst(shapes, f, depth, stock, rest);
      }
    } else {
      assert ops == [First];
      ReplaysLast(shapes, buf[stock := v], stock);
    }
  }

  /** A buffer `rec` may run on at `depth`: the stock slot and every slot above `depth` are still `Unknown`. */
  predicate OpenAt(buf: seq<FuzzyShape>, from: nat, depth: nat, stock: nat)
  {
    && |buf| == from && stock <= depth < from
    && buf[stock] == Unknown
    && forall j :: depth < j < from ==> buf[j] == Unknown
  }

  /** Both writes of `rec` leave a buffer the next depth may run on. */
  lemma OpenAtStep(buf: seq<FuzzyShape>, from: nat, depth: nat, stock: nat, v: FuzzyShape)
    requires OpenAt(buf, from, depth, stock) && depth < from - 1
    ensures OpenAt(buf[depth + 1 := v], from, depth + 1, stock)
    ensures OpenAt(buf[stock := v], from, depth + 1, depth + 1)
  {
  }

  /** One level of the walk: the `add` branch then the `stock` branch, or the single order at the last depth. */
  lemma WalkUnfold(shapes: seq<Shape>, from: nat, buf: seq<FuzzyShape>, depth: nat, stock: nat)
    requires |buf| == from && stock <= depth < from
    ensures depth < from - 1 ==>
      Walk(shapes, from, buf, depth, stock) ==
        Walk(shapes, from, buf[depth + 1 := Slot(shapes, depth)], depth + 1, stock)
        + Walk(shapes, from, buf[stock := Slot(shapes, depth)], depth + 1, depth + 1)
    ensures depth == from - 1 ==> Walk(shapes, from, buf, depth, stock) == [buf[stock := Slot(shapes, depth)]]
  {
  }

  /**
   * `rec`: the buffer is written in place and every write is undone before
   * returning; what the visitor receives is returned as `visited`.
   */
  method Rec(shapes: seq<Shape>, buffer: array<FuzzyShape>, from: nat, depth: nat, stock: nat)
    returns (visited: seq<seq<FuzzyShape>>)
    requires OpenAt(buffer[..], from, depth, stock)
    modifies buffer
    ensures buffer[..] == old(buffer[..])
    ensures visited == Walk(shapes, from, old(buffer[..]), depth, stock)
    decreases from - depth
  {
    ghost var buf := buffer[..];
    var number: Option<nat> := if depth < |shapes| then Some(depth) else None;
    var v := if number.Some? then Known(shapes[number.value]) else Unknown;
    assert v == Slot(shapes, depth);
    WalkUnfold(shapes, from, buf, depth, stock);
    if depth < from - 1 {
      OpenAtStep(buf, from, depth, stock, v);
    }
    visited := [];
    if depth < from - 1 {
      // add
      buffer[depth + 1] := v;
      assert buffer[..] == buf[depth + 1 := v];
      visited := Rec(shapes, buffer, from, depth + 1, stock);
      buffer[depth + 1] := Unknown;
      assert buffer[..] == buf;
    }
    // stock
    buffer[stock] := v;
    assert buffer[..] == buf[stock := v];
    if depth < from - 1 {
      var more := Rec(shapes, buffer, from, depth + 1, depth + 1);
      visited := visited + more;
    } else {
      visited := visited + [buffer[..]];
    }
    buffer[stock] := Unknown;
    assert buffer[..] == buf;
  }

  /** The whole walk from an all-`Unknown` buffer, as `infer_input_walk` starts it. */
  lemma WalkFromStart(shapes: seq<Shape>, inferSize: nat, buf: seq<FuzzyShape>)
    requires 1 <= inferSize == |buf|
    ensures |Walk(shapes, inferSize, buf, 0, 0)| == Pow2(inferSize - 1)
    ensures forall f :: f in Walk(shapes, inferSize, buf, 0, 0) ==>
      |f| == inferSize && exists ops :: Replays(shapes, f, 0, 0, ops)
    ensures forall ops :: |ops| == inferSize && ops[inferSize - 1] == First ==>
      exists f :: f in Walk(shapes, inferSize, buf, 0, 0) && |f| == inferSize && Replays(shapes, f, 0, 0, ops)
  {
    WalkCount(shapes, inferSize, buf, 0, 0);
    WalkReplays(shapes, inferSize, buf, 0, 0);
    WalkCompleteFromStart(shapes, inferSize, buf);
  }

  /** Every use of the hold that finishes on the held shape is drawn by some order of the walk from the start. */
  lemma WalkCompleteFromStart(shapes: seq<Shape>, inferSize: nat, buf: seq<FuzzyShape>)
    requires 1 <= inferSize == |buf|
    ensures forall ops :: |ops| == inferSize && ops[inferSize - 1] == First ==>
      exists f :: f in Walk(shapes, inferSize, buf, 0, 0) && |f| == inferSize && Replays(shapes, f, 0, 0, ops)
  {
    forall ops | |ops| == inferSize && ops[inferSize - 1] == First
      ensures exists f :: f in Walk(shapes, inferSize, buf, 0, 0) && |f| == inferSize && Replays(shapes, f, 0, 0, ops)
    {
      WalkComplete(shapes, inferSize, buf, 0, 0, ops);
    }
  }

  /**
   * `infer_input_walk` (the walk needs `infer_size >= 1`): the walk from an
   * all-`Unknown` buffer, one order for each way of using the hold, which
   * `WalkFromStart` shows are exactly the input orders of length `inferSize`
   * from which some use of the hold that finishes on the held shape draws
   * the sequence.
   */
  method InferInputWalk(sequence: ShapeSequence, inferSize: nat) returns (visited: seq<seq<FuzzyShape>>)
    requires 1 <= inferSize
    ensures visited == Walk(sequence.shapes, inferSize, SlotsFrom([], 0, inferSize), 0, 0)
    ensures |visited| == Pow2(inferSize - 1)
    ensures forall f :: f in visited ==> |f| == inferSize
  {
    var buffer := new FuzzyShape[inferSize](_ => Unknown);
    ghost var buf := buffer[..];
    assert buf == SlotsFrom([], 0, inferSize);
    visited := Rec(sequence.shapes, buffer, inferSize, 0, 0);
    WalkCount(sequence.shapes, inferSize, buf, 0, 0);
    WalkFrame(sequence.shapes, inferSize, buf, 0, 0);
  }

  /** An order that replays to the sequence holds the same shapes, counted with multiplicity. */
  lemma ReplaysIsPermutation(shapes: seq<Shape>, f: seq<FuzzyShape>, ops: seq<PopOp>)
    requires 0 < |f| && Replays(shapes, f, 0, 0, ops)
    ensures multiset(f) == multiset(SlotsFrom(shapes, 0, |f|))
  {
    var c := CursorAt(f, 0, 0);
    RunUnused(c, ops);
    assert UnusedShapes(c) == [f[0]] + f[1..] == f;
  }

  /** `T S` with three slots: the four inputs listed for `infer_input(3)`, in that order. */
  lemma WalkTSThree()
    ensures Walk([T, S], 3, [Unknown, Unknown, Unknown], 0, 0) ==
      [[Unknown, Known(T), Known(S)], [Known(S), Known(T), Unknown],
       [Known(T), Unknown, Known(S)], [Known(T), Known(S), Unknown]]
  {
    var u := [Unknown, Unknown, Unknown];
    var sh := [T, S];
    var a, b, c, d := [Unknown, Known(T), Known(S)], [Known(S), Known(T), Unknown],
                      [Known(T), Unknown, Known(S)], [Known(T), Known(S), Unknown];
    assert Slot(sh, 0) == Known(T) && Slot(sh, 1) == Known(S) && Slot(sh, 2) == Unknown;
    assert a[0 := Unknown] == a && b[2 := Unknown] == b && c[1 := Unknown] == c && d[2 := Unknown] == d;
    assert Walk(sh, 3, a, 2, 0) == [a];
    assert Walk(sh, 3, b, 2, 2) == [b];
    assert Walk(sh, 3, c, 2, 1) == [c];
    assert Walk(sh, 3, d, 2, 2) == [d];
    assert u[1 := Known(T)][2 := Known(S)] == a && u[1 := Known(T)][0 := Known(S)] == b;
    assert u[0 := Known(T)][2 := Known(S)] == c && u[0 := Known(T)][1 := Known(S)] == d;
    assert Walk(sh, 3, u[1 := Known(T)], 1, 0) == [a, b];
    assert Walk(sh, 3, u[0 := Known(T)], 1, 1) == [c, d];
  }

  /**
   * `infer_input` (panics when the sequence is longer than `inferSize`): an
   * empty sequence gives the single all-`Unknown` order, otherwise the walk.
   */
  method InferInput(sequence: ShapeSequence, inferSize: nat) returns (orders: seq<FuzzyShapeOrder>)
    requires |sequence.shapes| <= inferSize
    ensures sequence.shapes == [] ==> orders == [FuzzyShapeOrder(SlotsFrom([], 0, inferSize))]
    ensures sequence.shapes != [] ==> |orders| == Pow2(inferSize - 1)
    ensures sequence.shapes != [] ==>
      var w := Walk(sequence.shapes, inferSize, SlotsFrom([], 0, inferSize), 0, 0);
      |orders| == |w| && forall k :: 0 <= k < |orders| ==> orders[k].shapes == w[k]
    ensures forall o :: o in orders ==> |o.shapes| == inferSize
    ensures sequence.shapes != [] ==> forall o :: o in orders ==>
      exists ops :: Replays(sequence.shapes, o.shapes, 0, 0, ops)
  {
    if sequence.shapes == [] {
      var shapes := seq(inferSize, _ => Unknown);
      assert shapes == SlotsFrom([], 0, inferSize);
      return [FuzzyShapeOrder(shapes)];
    }
    var visited := InferInputWalk(sequence, inferSize);
    WalkFromStart(sequence.shapes, inferSize, SlotsFrom([], 0, inferSize));
    orders := seq(|visited|, k requires 0 <= k < |visited| => FuzzyShapeOrder(visited[k]));
    assert forall k :: 0 <= k < |visited| ==> visited[k] in visited;
  }
}
