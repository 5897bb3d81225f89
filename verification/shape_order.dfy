/**
 * The hold mechanic as a two-pointer cursor over an order.
 * `head` is the slot that `First` takes (the current or held piece),
 * `tails` the next unread slot that `Second` takes. The cursor is generic
 * because it is also run over flattened pattern elements.
 */
module ShapeOrders {
  import opened Shapes
  import opened Wrappers

  datatype PopOp = First | Second

  datatype OrderCursor<T> = OrderCursor(sequence: seq<T>, head: Option<nat>, tails: nat)
  {
    /** The shape of every cursor `new` and `pop` can produce. */
    predicate Valid()
    {
      && tails <= |sequence|
      && (head.Some? ==> head.value < tails)
      && (head.None? ==> tails == |sequence|)
    }
  }

  /** An order of shapes that a hold may reorder. */
  datatype ShapeOrder = ShapeOrder(shapes: seq<Shape>)

  /** `OrderCursor::new` (through `ShapeOrder::new_cursor`); an empty order panics. */
  function NewCursor<T>(sequence: seq<T>): (c: OrderCursor<T>)
    requires 0 < |sequence|
    ensures c.Valid() && c.sequence == sequence
    ensures c.head == Some(0) && c.tails == 1
    ensures UnusedShapes(c) == sequence
  {
    assert [sequence[0]] + sequence[1..] == sequence;
    OrderCursor(sequence, Some(0), 1)
  }

  /** `has_next`. */
  function HasNext<T>(c: OrderCursor<T>): bool
  {
    c.head.Some?
  }

  /** `len_unused`: the unread tail plus the head slot if there is one. */
  function LenUnused<T>(c: OrderCursor<T>): nat
    requires c.Valid()
  {
    |c.sequence| - c.tails + (if c.head.Some? then 1 else 0)
  }

  /** `unused_shapes`: the head slot followed by the unread tail. */
  function UnusedShapes<T>(c: OrderCursor<T>): (r: seq<T>)
    requires c.Valid()
    ensures |r| == LenUnused(c)
    ensures HasNext(c) <==> 0 < |r|
  {
    if c.head.Some? then [c.sequence[c.head.value]] + c.sequence[c.tails..] else []
  }

  /**
   * `pop`: `First` takes the head slot and moves the head to the next unread
   * slot (or to nothing at the end); `Second` takes the next unread slot and
   * keeps the head. When nothing can be taken, the cursor is returned as is.
   */
  function Pop<T>(c: OrderCursor<T>, op: PopOp): (r: (Option<T>, OrderCursor<T>))
    requires c.Valid()
    ensures r.1.Valid() && r.1.sequence == c.sequence
    ensures r.0.None? ==> r.1 == c
    ensures r.0.Some? ==> LenUnused(r.1) + 1 == LenUnused(c)
    ensures op == First ==> (r.0.Some? <==> HasNext(c))
  {
    match op
    case First =>
      if c.head.Some? then
        var next := if c.tails < |c.sequence| then OrderCursor(c.sequence, Some(c.tails), c.tails + 1)
                    else OrderCursor(c.sequence, None, c.tails);
        (Some(c.sequence[c.head.value]), next)
      else (None, c)
    case Second =>
      if c.tails < |c.sequence| then
        var next := OrderCursor(c.sequence, c.head, c.tails + 1);
        (Some(c.sequence[c.tails]), next)
      else (None, c)
  }

  lemma PopFirstUnused<T>(c: OrderCursor<T>, next: OrderCursor<T>)
    requires c.Valid() && c.head.Some?
    requires next == if c.tails < |c.sequence| then OrderCursor(c.sequence, Some(c.tails), c.tails + 1)
                     else OrderCursor(c.sequence, None, c.tails)
    ensures next.Valid()
    ensures UnusedShapes(c) == [c.sequence[c.head.value]] + UnusedShapes(next)
  {
    if c.tails < |c.sequence| {
      assert c.sequence[c.tails..] == [c.sequence[c.tails]] + c.sequence[c.tails + 1..];
    }
  }

  lemma PopSecondUnused<T>(c: OrderCursor<T>, next: OrderCursor<T>)
    requires c.Valid() && c.tails < |c.sequence|
    requires next == OrderCursor(c.sequence, c.head, c.tails + 1)
    ensures next.Valid() && c.head.Some?
    ensures multiset(UnusedShapes(c)) == multiset{c.sequence[c.tails]} + multiset(UnusedShapes(next))
  {
    var s, h, t := c.sequence, c.head.value, c.tails;
    assert s[t..] == [s[t]] + s[t + 1..];
    assert UnusedShapes(c) == [s[h]] + [s[t]] + s[t + 1..];
    assert UnusedShapes(next) == [s[h]] + s[t + 1..];
  }

  /** A pop takes one of the unused shapes and leaves the rest unused. */
  lemma PopUnused<T>(c: OrderCursor<T>, op: PopOp)
    requires c.Valid() && Pop(c, op).0.Some?
    ensures multiset(UnusedShapes(c)) == multiset{Pop(c, op).0.value} + multiset(UnusedShapes(Pop(c, op).1))
  {
    if op == First {
      PopFirstUnused(c, Pop(c, op).1);
    } else {
      PopSecondUnused(c, Pop(c, op).1);
    }
  }

  /** If `First` yields nothing, `Second` yields nothing: the last shape always goes to `First`. */
  lemma FirstNoneThenSecondNone<T>(c: OrderCursor<T>)
    requires c.Valid()
    ensures Pop(c, First).0.None? ==> Pop(c, Second).0.None?
  {
  }

  /**
   * Pops `ops` one after another; `None` as soon as a pop yields nothing.
   * The popped values, together with what is left unused, are exactly what
   * was unused before.
   */
  function Run<T>(c: OrderCursor<T>, ops: seq<PopOp>): (r: Option<(seq<T>, OrderCursor<T>)>)
    requires c.Valid()
    ensures r.Some? ==> r.value.1.Valid() && r.value.1.sequence == c.sequence
    ensures r.Some? ==> |r.value.0| == |ops| && LenUnused(r.value.1) + |ops| == LenUnused(c)
    decreases |ops|
  {
    if ops == [] then Some(([], c))
    else
      var (x, next) := Pop(c, ops[0]);
      if x.None? then None
      else
        match Run(next, ops[1..])
        case None => None
        case Some((out, last)) => Some(([x.value] + out, last))
  }

  /** One successful pop in front of a successful run. */
  lemma RunCons<T>(c: OrderCursor<T>, ops: seq<PopOp>)
    requires c.Valid() && 0 < |ops|
    requires Pop(c, ops[0]).0.Some?
    requires Run(Pop(c, ops[0]).1, ops[1..]).Some?
    ensures Run(c, ops) == Some(([Pop(c, ops[0]).0.value] + Run(Pop(c, ops[0]).1, ops[1..]).value.0,
                                 Run(Pop(c, ops[0]).1, ops[1..]).value.1))
  {
  }

  /** The popped shapes, together with what is left unused, are exactly what was unused before. */
  lemma {:induction false} RunUnused<T>(c: OrderCursor<T>, ops: seq<PopOp>)
    requires c.Valid() && Run(c, ops).Some?
    ensures multiset(UnusedShapes(c)) == multiset(Run(c, ops).value.0) + multiset(UnusedShapes(Run(c, ops).value.1))
    decreases |ops|
  {
    if ops != [] {
      var next := Pop(c, ops[0]).1;
      PopUnused(c, ops[0]);
      RunUnused(next, ops[1..]);
      RunCons(c, ops);
    }
  }

  /** A run that exhausts a fresh cursor pops a permutation of the whole order. */
  lemma RunExhaustsIsPermutation<T>(sequence: seq<T>, ops: seq<PopOp>)
    requires 0 < |sequence|
    requires Run(NewCursor(sequence), ops).Some?
    requires !HasNext(Run(NewCursor(sequence), ops).value.1)
    ensures multiset(Run(NewCursor(sequence), ops).value.0) == multiset(sequence)
    ensures |ops| == |sequence|
  {
    RunUnused(NewCursor(sequence), ops);
  }

  /** `k` copies of `op`. */
  function Repeat(op: PopOp, k: nat): (r: seq<PopOp>)
    ensures |r| == k
    ensures forall j :: 0 <= j < k ==> r[j] == op
  {
    if k == 0 then [] else [op] + Repeat(op, k - 1)
  }

  /** Using only `First` is reading the order from the front, without a hold. */
  lemma {:induction false} OnlyFirstReadsFront<T>(c: OrderCursor<T>, k: nat)
    requires c.Valid() && c.head.Some? && c.tails == c.head.value + 1
    requires c.head.value + k <= |c.sequence|
    ensures Run(c, Repeat(First, k)).Some?
    ensures Run(c, Repeat(First, k)).value.0 == c.sequence[c.head.value..c.head.value + k]
    decreases k
  {
    if k > 0 {
      var ops := Repeat(First, k);
      assert ops[0] == First && ops[1..] == Repeat(First, k - 1);
      var i := c.head.value;
      var s := c.sequence;
      var next := Pop(c, First).1;
      assert Pop(c, First).0 == Some(s[i]);
      assert next.sequence == s;
      var rest: seq<T>;
      if i + 1 < |s| {
        assert next.head == Some(i + 1) && next.tails == i + 2;
        OnlyFirstReadsFront(next, k - 1);
        rest := Run(next, ops[1..]).value.0;
        assert rest == s[i + 1..i + k];
      } else {
        assert Run(next, ops[1..]) == Some(([], next));
        rest := [];
        assert rest == s[i + 1..i + k];
      }
      RunCons(c, ops);
      assert Run(c, ops).value.0 == [s[i]] + rest;
      assert s[i..i + k][1..] == s[i + 1..i + k];
      assert s[i..i + k] == [s[i]] + s[i..i + k][1..];
    }
  }

  /** On a fresh cursor, `k` times `First` pops the first `k` shapes. */
  lemma OnlyFirstFromStart<T>(sequence: seq<T>, k: nat)
    requires 0 < |sequence| && k <= |sequence|
    ensures Run(NewCursor(sequence), Repeat(First, k)).Some?
    ensures Run(NewCursor(sequence), Repeat(First, k)).value.0 == sequence[..k]
  {
    OnlyFirstReadsFront(NewCursor(sequence), k);
  }
}
