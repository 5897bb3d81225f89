/**
 * The depth-first search for a perfect clear that the executors and the
 * success-rate command share: shapes are drawn from the order through the
 * hold cursor, each one is placed in every way the move generator offers,
 * and boards that cannot be perfect-cleared are cut early by the wall
 * check and the vertical parity.
 *
 * Move generation and placement belong to the game library; they are a
 * parameter here (`moves`), of which only a few facts are assumed.
 */
module PcSearches {
  import opened Shapes
  import opened Wrappers
  import opened Boards
  import opened ClippedBoards
  import opened ShapeOrders
  import opened ShapeSequences
  import opened FuzzyShapeOrders
  import opened VerticalParities
  import opened BoardValidation
  import opened Buffers

  /**
   * One landing of a shape: the top row its cells reach, the board after
   * placing it and clearing full rows, how many rows were cleared, and the
   * cells it covered (before clearing).
   */
  datatype Move = Move(top: int, board: Board, cleared: nat, locations: seq<(int, int)>)

  /** The moves the game library finds for a shape spawned on a board. */
  type MoveGenerator = (Board, Shape) -> seq<Move>

  /** `SearchingState`: a board, its height, and the shape `First` would take next. */
  datatype SearchingState = SearchingState(board: Board, height: int, first: Option<Shape>)

  /** `is_empty`: no cell is filled. */
  predicate IsEmpty(b: Board)
  {
    forall y :: 0 <= y < |b.rows| ==> b.rows[y] == {}
  }

  /**
   * What the search needs of the move generator: boards stay well formed,
   * cells are on the board's columns, and a piece that stays below a row
   * clears no more rows than it reaches.
   */
  ghost predicate MovesValid(moves: MoveGenerator)
  {
    forall b: Board, s: Shape, k: nat :: k < |moves(b, s)| ==>
      && moves(b, s)[k].board.Valid()
      && moves(b, s)[k].cleared <= moves(b, s)[k].top + 1
      && forall j :: 0 <= j < |moves(b, s)[k].locations| ==> 0 <= moves(b, s)[k].locations[j].0
  }

  /**
   * The shapes of `s`, placed in order from `board`, each below `height`
   * (lowered by the rows cleared so far), empty the board with the last one
   * and not before.
   */
  ghost predicate Places(moves: MoveGenerator, board: Board, height: int, s: seq<Shape>)
    decreases |s|
  {
    && s != []
    && exists m :: m in moves(board, s[0]) && m.top < height &&
         if IsEmpty(m.board) then |s| == 1 else Places(moves, m.board, height - m.cleared, s[1..])
  }

  /** The cursor draws `s` one shape at a time, taking the next unread shape only with a hold. */
  predicate Draws(c: OrderCursor<Shape>, hold: bool, s: seq<Shape>)
    requires c.Valid()
    decreases |s|
  {
    || s == []
    || (Pop(c, First).0 == Some(s[0]) && Draws(Pop(c, First).1, hold, s[1..]))
    || (hold && Pop(c, Second).0 == Some(s[0]) && Draws(Pop(c, Second).1, hold, s[1..]))
  }

  /** A perfect clear of the board that the order lets a player draw. */
  ghost predicate Clearable(moves: MoveGenerator, clipped: ClippedBoard, order: seq<Shape>, hold: bool)
    requires 0 < |order|
  {
    exists s :: Places(moves, clipped.board, clipped.height, s) && Draws(NewCursor(order), hold, s)
  }

  /** `peek_first`: the shape `First` would take. */
  function PeekFirst(c: OrderCursor<Shape>): (r: Option<Shape>)
    requires c.Valid()
    ensures r.Some? <==> HasNext(c)
    ensures r.Some? ==> Pop(c, First).0 == r
  {
    if c.head.Some? then Some(c.sequence[c.head.value]) else None
  }

  /**
   * The parity cut: `validates` on the shapes left. The source calls it on
   * every list, relying on the counts staying within what the shapes can
   * cover; the model asks only when they do.
   */
  predicate ParityAllows(v: VerticalParity, rest: seq<Shape>, hold: bool)
  {
    if 0 < |rest| && Covered(v, rest, 0, hold) then Validates(v, rest, 0, hold) else true
  }

  /** A cursor never draws more shapes than it has unused. */
  lemma {:induction false} DrawsWithinUnused(c: OrderCursor<Shape>, hold: bool, s: seq<Shape>)
    requires c.Valid() && Draws(c, hold, s)
    ensures |s| <= LenUnused(c)
    decreases |s|
  {
    if s != [] {
      if Pop(c, First).0 == Some(s[0]) && Draws(Pop(c, First).1, hold, s[1..]) {
        DrawsWithinUnused(Pop(c, First).1, hold, s[1..]);
      } else {
        DrawsWithinUnused(Pop(c, Second).1, hold, s[1..]);
      }
    }
  }

  /** Without a hold, the order is drawn from the front. */
  lemma {:induction false} DrawsWithoutHold(c: OrderCursor<Shape>, s: seq<Shape>)
    requires c.Valid() && c.head.Some? && c.tails == c.head.value + 1
    requires Draws(c, false, s)
    ensures c.head.value + |s| <= |c.sequence|
    ensures s == c.sequence[c.head.value..c.head.value + |s|]
    decreases |s|
  {
    if s != [] {
      var next := Pop(c, First).1;
      if next.head.Some? {
        DrawsWithoutHold(next, s[1..]);
      } else {
        assert s[1..] == [];
      }
      assert s == [s[0]] + s[1..];
    }
  }

  /** A cursor drawing with the hold draws everything it draws without. */
  lemma {:induction false} HoldDrawsMore(c: OrderCursor<Shape>, s: seq<Shape>)
    requires c.Valid() && Draws(c, false, s)
    ensures Draws(c, true, s)
    decreases |s|
  {
    if s != [] {
      HoldDrawsMore(Pop(c, First).1, s[1..]);
    }
  }

  /** One step of a search path: the shape `First` or (with a hold) `Second` gives, then the rest. */
  lemma DrawsStep(c: OrderCursor<Shape>, hold: bool, op: PopOp, rest: seq<Shape>)
    requires c.Valid() && Pop(c, op).0.Some? && (op == First || hold)
    requires Draws(Pop(c, op).1, hold, rest)
    ensures Draws(c, hold, [Pop(c, op).0.value] + rest)
  {
    var s := [Pop(c, op).0.value] + rest;
    assert s[0] == Pop(c, op).0.value && s[1..] == rest;
  }

  /** A landing that empties the board ends a placement. */
  lemma PlacesLast(moves: MoveGenerator, board: Board, height: int, shape: Shape, m: Move)
    requires m in moves(board, shape) && m.top < height && IsEmpty(m.board)
    ensures Places(moves, board, height, [shape])
  {
  }

  /** A landing that leaves blocks, followed by a placement of the rest. */
  lemma PlacesStep(moves: MoveGenerator, board: Board, height: int, shape: Shape, m: Move, rest: seq<Shape>)
    requires m in moves(board, shape) && m.top < height && !IsEmpty(m.board)
    requires Places(moves, m.board, height - m.cleared, rest)
    ensures Places(moves, board, height, [shape] + rest)
  {
    var s := [shape] + rest;
    assert s[0] == shape && s[1..] == rest;
  }

  /** The buffer's slice after a successful step: what was there, the shape, then the rest. */
  predicate Extends(r: seq<Shape>, before: seq<Shape>, shape: Shape)
  {
    |before| < |r| && r[..|before|] == before && r[|before|] == shape
  }

  /**
   * A search result seen from a buffer holding `before`: it starts with
   * `before`, and the shapes after it clear the board and are drawn by the cursor.
   */
  ghost predicate Completes(moves: MoveGenerator, hold: bool, board: Board, height: int,
                            cursor: OrderCursor<Shape>, before: seq<Shape>, r: seq<Shape>)
    requires cursor.Valid()
  {
    && |before| <= |r| && r[..|before|] == before
    && Places(moves, board, height, r[|before|..])
    && Draws(cursor, hold, r[|before|..])
  }

  /** The same once `shape` has been pushed and the cursor has moved on to `next`. */
  ghost predicate Continues(moves: MoveGenerator, hold: bool, board: Board, height: int, shape: Shape,
                            next: OrderCursor<Shape>, before: seq<Shape>, r: seq<Shape>)
    requires next.Valid()
  {
    && Extends(r, before, shape)
    && Places(moves, board, height, r[|before|..])
    && Draws(next, hold, r[|before| + 1..])
  }

  /** A slice that starts with `before` and then `shape`, seen from `before`'s end. */
  lemma SliceAfterPush(r: seq<Shape>, before: seq<Shape>, shape: Shape)
    requires |before| + 1 <= |r| && r[..|before| + 1] == before + [shape]
    ensures Extends(r, before, shape)
    ensures r[|before|..] == [shape] + r[|before| + 1..]
  {
    assert r[|before|] == (before + [shape])[|before|];
    assert r[..|before|] == r[..|before| + 1][..|before|];
  }

  /** The move that empties the board makes the buffer a result. */
  lemma ContinuesLast(moves: MoveGenerator, hold: bool, board: Board, height: int, shape: Shape, m: Move,
                      next: OrderCursor<Shape>, before: seq<Shape>)
    requires next.Valid()
    requires m in moves(board, shape) && m.top < height && IsEmpty(m.board)
    ensures Continues(moves, hold, board, height, shape, next, before, before + [shape])
  {
    var r := before + [shape];
    assert r[..|before| + 1] == r;
    SliceAfterPush(r, before, shape);
    assert r[|before| + 1..] == [];
    PlacesLast(moves, board, height, shape, m);
  }

  /** A result found after a move that leaves blocks is a result of this step. */
  lemma ContinuesStep(moves: MoveGenerator, hold: bool, board: Board, height: int, shape: Shape, m: Move,
                      next: OrderCursor<Shape>, before: seq<Shape>, r: seq<Shape>)
    requires next.Valid()
    requires m in moves(board, shape) && m.top < height && !IsEmpty(m.board)
    requires Completes(moves, hold, m.board, height - m.cleared, next, before + [shape], r)
    ensures Continues(moves, hold, board, height, shape, next, before, r)
  {
    SliceAfterPush(r, before, shape);
    PlacesStep(moves, board, height, shape, m, r[|before| + 1..]);
  }

  /** A result of the step for the shape a pop gives is a result of the pop. */
  lemma CompletesStep(moves: MoveGenerator, hold: bool, board: Board, height: int,
                      cursor: OrderCursor<Shape>, op: PopOp, before: seq<Shape>, r: seq<Shape>)
    requires cursor.Valid() && Pop(cursor, op).0.Some? && (op == First || hold)
    requires Continues(moves, hold, board, height, Pop(cursor, op).0.value, Pop(cursor, op).1, before, r)
    ensures Completes(moves, hold, board, height, cursor, before, r)
  {
    SliceAfterPushFrom(r, before);
    DrawsStep(cursor, hold, op, r[|before| + 1..]);
  }

  /** The slice from `before`'s end is its first shape followed by the rest. */
  lemma SliceAfterPushFrom(r: seq<Shape>, before: seq<Shape>)
    requires |before| < |r|
    ensures r[|before|..] == [r[|before|]] + r[|before| + 1..]
  {
  }

  class Searcher {
    const moves: MoveGenerator
    /** Whether `Second` is tried at all. */
    const allowsHold: bool
    /** The hold flag passed to the parity check. */
    const parityHold: bool
    /** Whether states already explored for this order are skipped. */
    const usesVisited: bool
    var visited: set<SearchingState>

    constructor (moves: MoveGenerator, allowsHold: bool, parityHold: bool, usesVisited: bool)
      ensures this.moves == moves && this.allowsHold == allowsHold
      ensures this.parityHold == parityHold && this.usesVisited == usesVisited
      ensures visited == {}
    {
      this.moves := moves;
      this.allowsHold := allowsHold;
      this.parityHold := parityHold;
      this.usesVisited := usesVisited;
      visited := {};
    }

    /** `visited_states.clear()`, done before each order. */
    method ClearVisited()
      modifies this
      ensures visited == {}
    {
      visited := {};
    }

    /**
     * `pop_shape`: tries the shape `First` gives and then, with a hold, the
     * one `Second` gives. A result is the buffer's shapes followed by shapes
     * that clear the board and that the cursor draws; without one, the
     * buffer is as it was.
     */
    method PopShape(cursor: OrderCursor<Shape>, clipped: ClippedBoard, buffer: Buffer, parity: VerticalParity)
      returns (r: Option<ShapeSequence>)
      requires MovesValid(moves) && clipped.board.Valid() && cursor.Valid()
      requires buffer.Valid() && buffer.index + LenUnused(cursor) <= buffer.shapes.Length
      modifies this, buffer, buffer.shapes
      ensures buffer.Valid() && buffer.shapes == old(buffer.shapes)
      ensures r.None? ==> buffer.AsSlice() == old(buffer.AsSlice())
      ensures r.Some? ==> Completes(moves, allowsHold, clipped.board, clipped.height, cursor, old(buffer.AsSlice()), r.value.shapes)
      ensures old(visited) <= visited
      decreases LenUnused(cursor), 1
    {
      ghost var before := buffer.AsSlice();
      var (popped, next) := Pop(cursor, First);
      if popped.None? {
        return None;
      }
      r := Increment(popped.value, clipped, next, buffer, parity);
      if r.Some? {
        CompletesStep(moves, allowsHold, clipped.board, clipped.height, cursor, First, before, r.value.shapes);
        return r;
      }
      if allowsHold {
        var (popped2, next2) := Pop(cursor, Second);
        if popped2.Some? {
          r := Increment(popped2.value, clipped, next2, buffer, parity);
          if r.Some? {
            CompletesStep(moves, allowsHold, clipped.board, clipped.height, cursor, Second, before, r.value.shapes);
            return r;
          }
        }
      }
      return None;
    }

    /**
     * `increment`: pushes `shape` and tries each of its moves that stays
     * below the height. A move that empties the board ends the search;
     * otherwise the state is skipped if already seen (when states are kept)
     * or if the wall check or the parity rules it out, and the search goes
     * on with the next cursor. Without a result the shape is popped again.
     */
    method Increment(shape: Shape, clipped: ClippedBoard, next: OrderCursor<Shape>, buffer: Buffer, parity: VerticalParity)
      returns (r: Option<ShapeSequence>)
      requires MovesValid(moves) && clipped.board.Valid() && next.Valid()
      requires buffer.Valid() && buffer.index + 1 + LenUnused(next) <= buffer.shapes.Length
      modifies this, buffer, buffer.shapes
      ensures buffer.Valid() && buffer.shapes == old(buffer.shapes)
      ensures r.None? ==> buffer.AsSlice() == old(buffer.AsSlice())
      ensures r.Some? ==> Continues(moves, allowsHold, clipped.board, clipped.height, shape, next, old(buffer.AsSlice()), r.value.shapes)
      ensures old(visited) <= visited
      decreases LenUnused(next) + 1, 0
    {
      ghost var before := buffer.AsSlice();
      buffer.Increment(shape);
      var ms := moves(clipped.board, shape);
      for k := 0 to |ms|
        invariant buffer.Valid() && buffer.shapes == old(buffer.shapes)
        invariant buffer.AsSlice() == before + [shape]
        invariant old(visited) <= visited
      {
        var m := ms[k];
        assert m in moves(clipped.board, shape);
        if clipped.height <= m.top {
          continue;
        }
        if IsEmpty(m.board) {
          r := Some(ShapeSequence(buffer.AsSlice()));
          ContinuesLast(moves, allowsHold, clipped.board, clipped.height, shape, m, next, before);
          return r;
        }
        var height: nat := clipped.height - m.cleared;
        if usesVisited {
          var state := SearchingState(m.board, height, PeekFirst(next));
          if state in visited {
            continue;
          }
          visited := visited + {state};
        }
        var nextClipped := ClippedBoard(m.board, height);
        if !WalledSegmentsFit(m.board, height) {
          continue;
        }
        var rest := UnusedShapes(next);
        var nextParity := Place(parity, m.locations);
        if !ParityAllows(nextParity, rest, parityHold) {
          continue;
        }
        r := PopShape(next, nextClipped, buffer, nextParity);
        if r.Some? {
          ContinuesStep(moves, allowsHold, clipped.board, clipped.height, shape, m, next, before, r.value.shapes);
          return r;
        }
      }
      buffer.Decrement();
      return None;
    }

    /**
     * `search_pc_order`: a search from a fresh cursor on the order with a
     * buffer as long as the order; a result clears the board and is drawn
     * from the order.
     */
    method SearchPcOrder(clipped: ClippedBoard, order: ShapeOrder) returns (r: Option<ShapeSequence>)
      requires MovesValid(moves) && clipped.board.Valid() && clipped.height <= Rows
      requires 0 < |order.shapes|
      modifies this
      ensures r.Some? ==> Places(moves, clipped.board, clipped.height, r.value.shapes)
      ensures r.Some? ==> Draws(NewCursor(order.shapes), allowsHold, r.value.shapes)
      ensures old(visited) <= visited
    {
      var cursor := NewCursor(order.shapes);
      var buffer := new Buffer.WithResized(LenUnused(cursor));
      var parity := New(clipped);
      r := PopShape(cursor, clipped, buffer, parity);
      if r.Some? {
        assert r.value.shapes[0..] == r.value.shapes;
      }
    }
  }

  /** The orders a found sequence stands for: those matching an order of the inference walk. */
  ghost predicate InferredFrom(found: seq<Shape>, n: nat, order: seq<Shape>)
    requires 1 <= n
  {
    exists f :: f in Walk(found, n, SlotsFrom([], 0, n), 0, 0) && Matches(f, order)
  }

  /**
   * Running a fuzzy cursor and a concrete cursor with the same pointers over
   * matching orders: whatever the fuzzy run shows as known is drawn by the
   * concrete cursor with a hold.
   */
  lemma {:induction false} RunTransfer(cf: OrderCursor<FuzzyShape>, co: OrderCursor<Shape>, ops: seq<PopOp>, s: seq<Shape>)
    requires cf.Valid() && co.Valid()
    requires cf.head == co.head && cf.tails == co.tails && Matches(cf.sequence, co.sequence)
    requires Run(cf, ops).Some? && |s| <= |ops|
    requires forall i :: 0 <= i < |s| ==> Run(cf, ops).value.0[i] == Known(s[i])
    ensures Draws(co, true, s)
    decreases |ops|
  {
    if s != [] {
      var op := ops[0];
      var nf := Pop(cf, op).1;
      var no := Pop(co, op).1;
      RunCons(cf, ops);
      assert Run(cf, ops).value.0[0] == Pop(cf, op).0.value;
      forall i | 0 <= i < |s[1..]|
        ensures Run(nf, ops[1..]).value.0[i] == Known(s[1..][i])
      {
        assert Run(cf, ops).value.0[i + 1] == Run(nf, ops[1..]).value.0[i];
      }
      RunTransfer(nf, no, ops[1..], s[1..]);
      if op == Second {
        DrawsStep(co, true, Second, s[1..]);
      } else {
        DrawsStep(co, true, First, s[1..]);
      }
      assert s == [s[0]] + s[1..];
    }
  }

  /**
   * Every order the inference walk and the wildcard expansion mark for a
   * found sequence draws that sequence with a hold: marking them succeeded
   * is sound exactly when the hold is allowed.
   */
  lemma InferenceDraws(found: seq<Shape>, n: nat, order: seq<Shape>)
    requires 1 <= n && |found| <= n && |order| == n
    requires InferredFrom(found, n, order)
    ensures Draws(NewCursor(order), true, found)
  {
    var f :| f in Walk(found, n, SlotsFrom([], 0, n), 0, 0) && Matches(f, order);
    WalkFromStart(found, n, SlotsFrom([], 0, n));
    var ops :| Replays(found, f, 0, 0, ops);
    var out := Run(CursorAt(f, 0, 0), ops).value.0;
    assert out == SlotsFrom(found, 0, n);
    forall i | 0 <= i < |found|
      ensures out[i] == Known(found[i])
    {
      assert out[i] == Slot(found, i);
    }
    RunTransfer(CursorAt(f, 0, 0), NewCursor(order), ops, found);
  }
}
