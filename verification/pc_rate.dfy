/**
 * The `pc_rate` command: for every sequence of a pattern, whether a perfect
 * clear can be reached from the board. Every sequence starts out failed; a
 * search that finds a perfect clear marks, through the hold inference
 * walk, every input order the found sequence stands for, and sequences
 * already marked are not searched again.
 */
module PcRates {
  import opened Shapes
  import opened Wrappers
  import opened Boards
  import opened ClippedBoards
  import Internal = InternalClippedBoards
  import opened ShapeOrders
  import opened ShapeSequences
  import opened FuzzyShapeOrders
  import opened Patterns
  import opened PcSearches
  import opened PcPossibleDrivers

  type RateTable = map<ShapeSequence, bool>

  /** Every given order, failed. */
  function AllFailed(orders: seq<ShapeSequence>): (t: RateTable)
    ensures t.Keys == set o | o in orders
    ensures forall o :: o in t ==> !t[o]
  {
    map o | o in orders :: false
  }

  /** The table after `add_success`: only an order already there becomes a success. */
  function Added(t: RateTable, order: ShapeSequence): RateTable
  {
    if order in t then t[order := true] else t
  }

  /** The orders marked successful. */
  function Succeeded(t: RateTable): set<ShapeSequence>
  {
    set o | o in t && t[o]
  }

  /** `is_succeed`: the verdict of an order, `None` for an order not in the table. */
  function IsSucceedIn(t: RateTable, order: ShapeSequence): (r: Option<bool>)
    ensures r.Some? <==> order in t
    ensures r == Some(true) <==> order in Succeeded(t)
  {
    if order in t then Some(t[order]) else None
  }

  /** `is_failed`: the negated verdict, `None` for an order not in the table. */
  function IsFailedIn(t: RateTable, order: ShapeSequence): (r: Option<bool>)
    ensures r.Some? <==> IsSucceedIn(t, order).Some?
    ensures r.Some? ==> r.value != IsSucceedIn(t, order).value
  {
    match IsSucceedIn(t, order)
    case Some(succeed) => Some(!succeed)
    case None => None
  }

  /**
   * `add_success` keeps the orders; it turns a failed order into a success,
   * adding one to the count, and changes nothing for a success or a stranger.
   */
  lemma AddedCounts(t: RateTable, order: ShapeSequence)
    ensures Added(t, order).Keys == t.Keys
    ensures forall o :: o != order ==> IsSucceedIn(Added(t, order), o) == IsSucceedIn(t, o)
    ensures order in t ==> IsSucceedIn(Added(t, order), order) == Some(true)
    ensures order in t && !t[order] ==> |Succeeded(Added(t, order))| == |Succeeded(t)| + 1
    ensures order !in t || t[order] ==> Added(t, order) == t
  {
    if order in t && !t[order] {
      assert Succeeded(Added(t, order)) == Succeeded(t) + {order};
    }
  }

  /** A table of failed orders counts no success. */
  lemma AllFailedCounts(orders: seq<ShapeSequence>)
    ensures Succeeded(AllFailed(orders)) == {}
  {
  }

  class PcRateResult {
    var succeed: RateTable

    /** `new`: every order, failed; a repeated order is one key. */
    constructor (orders: seq<ShapeSequence>)
      ensures succeed == AllFailed(orders)
    {
      var t: RateTable := map[];
      for k := 0 to |orders|
        invariant t == AllFailed(orders[..k])
      {
        assert orders[..k + 1] == orders[..k] + [orders[k]];
        t := t[orders[k] := false];
      }
      assert orders[..|orders|] == orders;
      succeed := t;
    }

    /** `add_success`. */
    method AddSuccess(order: ShapeSequence)
      modifies this
      ensures succeed == Added(old(succeed), order)
    {
      if order in succeed {
        succeed := succeed[order := true];
      }
    }

    /** `contains`. */
    function Contains(order: ShapeSequence): bool
      reads this
    {
      order in succeed
    }

    /** `is_succeed`. */
    function IsSucceed(order: ShapeSequence): Option<bool>
      reads this
    {
      IsSucceedIn(succeed, order)
    }

    /** `is_failed`. */
    function IsFailed(order: ShapeSequence): Option<bool>
      reads this
    {
      IsFailedIn(succeed, order)
    }

    /** `orders`: every order once; the order is the map's iteration order, which is left unspecified. */
    method Orders() returns (r: seq<ShapeSequence>)
      ensures forall o :: o in r <==> o in succeed
      ensures forall i, j :: 0 <= i < j < |r| ==> r[i] != r[j]
    {
      r := [];
      var rest := succeed.Keys;
      while rest != {}
        invariant rest <= succeed.Keys
        invariant forall o :: o in r <==> o in succeed && o !in rest
        invariant forall i, j :: 0 <= i < j < |r| ==> r[i] != r[j]
        decreases |rest|
      {
        var o :| o in rest;
        r := r + [o];
        rest := rest - {o};
      }
    }

    /** `count_success`. */
    function CountSuccess(): nat
      reads this
    {
      |Succeeded(succeed)|
    }
  }

  /**
   * The result table of ITO, ITS and ITZ with ITO added: ITO succeeds, ITS
   * fails, ITJ is no key; three orders, one success.
   */
  lemma RateResultExample()
    ensures var ito, its, itz, itj := ShapeSequence([I, T, O]), ShapeSequence([I, T, S]), ShapeSequence([I, T, Z]), ShapeSequence([I, T, J]);
            var t := Added(AllFailed([ito, its, itz]), ito);
            && ito in t && its in t && itj !in t
            && IsSucceedIn(t, ito) == Some(true) && IsSucceedIn(t, its) == Some(false) && IsSucceedIn(t, itj) == None
            && IsFailedIn(t, ito) == Some(false) && IsFailedIn(t, its) == Some(true) && IsFailedIn(t, itj) == None
            && |t.Keys| == 3 && |Succeeded(t)| == 1
  {
    var ito, its, itz, itj := ShapeSequence([I, T, O]), ShapeSequence([I, T, S]), ShapeSequence([I, T, Z]), ShapeSequence([I, T, J]);
    var t0 := AllFailed([ito, its, itz]);
    assert t0.Keys == {ito, its, itz};
    assert ito != its && its != itz && ito != itz && itj != ito && itj != its && itj != itz;
    AllFailedCounts([ito, its, itz]);
    AddedCounts(t0, ito);
  }

  /** Every success in the table is a perfect clear that the order lets a player draw. */
  ghost predicate RateSound(t: RateTable, moves: MoveGenerator, clipped: ClippedBoard, hold: bool)
  {
    forall o :: o in t && t[o] && 0 < |o.shapes| ==> Clearable(moves, clipped, o.shapes, hold)
  }

  /**
   * The visitor's `visit` for a fuzzy order: every expansion is added as a
   * success, which marks exactly the orders it stands for.
   */
  method VisitFuzzy(result: PcRateResult, fuzzy: seq<FuzzyShape>)
    requires 0 < |fuzzy|
    modifies result
    ensures result.succeed == MarkMatching(old(result.succeed), fuzzy, true)
  {
    ghost var t := result.succeed;
    var expanded := ExpandAsWildcardWalk(FuzzyShapeOrder(fuzzy));
    MarkInNone(t, true);
    for j := 0 to |expanded|
      invariant result.succeed == MarkIn(t, expanded[..j], true)
    {
      assert expanded[..j + 1] == expanded[..j] + [expanded[j]];
      MarkInAdd(t, expanded[..j], expanded[j], true);
      result.AddSuccess(ShapeSequence(expanded[j]));
    }
    assert expanded[..|expanded|] == expanded;
    MarkInExpansion(t, fuzzy, expanded, true);
  }

  /** `infer_input_walk` with the visitor: every order the found sequence stands for becomes a success. */
  method MarkInferred(result: PcRateResult, found: seq<Shape>, inferSize: nat)
    requires 1 <= inferSize
    modifies result
    ensures MarkedFrom(old(result.succeed), result.succeed, found, inferSize, true)
  {
    var walk := InferInputWalk(ShapeSequence(found), inferSize);
    ghost var t0 := result.succeed;
    MarkedNone(t0, walk, true);
    for i := 0 to |walk|
      invariant result.succeed == Marked(t0, walk, i, true)
    {
      assert |walk[i]| == inferSize by {
        assert walk[i] in walk;
      }
      VisitFuzzy(result, walk[i]);
      MarkedNext(t0, walk, i, true);
    }
    MarkedAll(t0, walk, found, inferSize, true);
  }

  /** Marking what a found perfect clear stands for keeps the table sound, for a player with a hold. */
  lemma MarkedRateSound(t0: RateTable, t1: RateTable, moves: MoveGenerator, clipped: ClippedBoard, found: seq<Shape>, n: nat)
    requires 1 <= n && |found| <= n
    requires Places(moves, clipped.board, clipped.height, found)
    requires RateSound(t0, moves, clipped, true)
    requires MarkedFrom(t0, t1, found, n, true)
    requires forall o :: o in t0 ==> |o.shapes| == n
    ensures RateSound(t1, moves, clipped, true)
  {
    forall o | o in t1 && t1[o] && 0 < |o.shapes|
      ensures Clearable(moves, clipped, o.shapes, true)
    {
      if InferredFrom(found, n, o.shapes) {
        InferenceDraws(found, n, o.shapes);
      }
    }
  }

  /** The hold the search may use: only with a shape to spare beyond those the perfect clear needs. */
  function ReducedHold(allowsHold: bool, spaces: nat, dim: nat): (r: bool)
    ensures r ==> allowsHold
    ensures r <==> allowsHold && spaces / 4 < dim
  {
    allowsHold && spaces / 4 < dim
  }

  /** What the loop needs of the command's arguments: a board model the search can run on. */
  predicate Ready(clipped: Internal.ClippedBoard, pattern: Pattern)
  {
    && clipped.board.Valid() && WellTop(clipped.board) <= clipped.height <= Rows
    && Expandable(pattern)
  }

  /** The board and height as the search takes them. */
  function Searched(clipped: Internal.ClippedBoard): (c: ClippedBoard)
    ensures c.board == clipped.board && c.height == clipped.height
  {
    ClippedBoard(clipped.board, clipped.height)
  }

  /** The search of one order; an empty order pops nothing, so nothing is found. */
  method SearchOrder(searcher: Searcher, clipped: ClippedBoard, order: ShapeSequence) returns (found: Option<ShapeSequence>)
    requires MovesValid(searcher.moves) && clipped.board.Valid() && clipped.height <= Rows
    modifies searcher
    ensures found.Some? ==> 0 < |order.shapes| && Places(searcher.moves, clipped.board, clipped.height, found.value.shapes)
    ensures found.Some? ==> Draws(NewCursor(order.shapes), searcher.allowsHold, found.value.shapes)
  {
    found := None;
    if 0 < |order.shapes| {
      found := searcher.SearchPcOrder(clipped, ToShapeOrder(order));
    }
  }

  /** The loop body as written: a found perfect clear always goes through the hold inference walk. */
  method RecordAsWritten(result: PcRateResult, order: ShapeSequence, found: Option<ShapeSequence>,
                         moves: MoveGenerator, clipped: ClippedBoard, searchHold: bool, inferSize: nat)
    requires 1 <= inferSize && forall o :: o in result.succeed ==> |o.shapes| == inferSize
    requires RateSound(result.succeed, moves, clipped, true)
    requires found.Some? ==> |order.shapes| == inferSize && Places(moves, clipped.board, clipped.height, found.value.shapes)
    requires found.Some? ==> Draws(NewCursor(order.shapes), searchHold, found.value.shapes)
    modifies result
    ensures found.Some? ==> MarkedFrom(old(result.succeed), result.succeed, found.value.shapes, inferSize, true)
    ensures found.None? ==> result.succeed == old(result.succeed)
    ensures RateSound(result.succeed, moves, clipped, true)
  {
    if found.Some? {
      ghost var t0 := result.succeed;
      var cursor := NewCursor(order.shapes);
      if !searchHold {
        HoldDrawsMore(cursor, found.value.shapes);
      }
      DrawsWithinUnused(cursor, true, found.value.shapes);
      MarkInferred(result, found.value.shapes, inferSize);
      MarkedRateSound(t0, result.succeed, moves, clipped, found.value.shapes, inferSize);
    }
  }

  /**
   * `success_rates` as written (it asserts that the free cells come in
   * fours and that the pattern has a shape for each four): every order is a
   * key, and every success is a perfect clear for a player with a hold,
   * whether or not the caller allowed one.
   */
  method SuccessRatesAsWritten(moves: MoveGenerator, clipped: Internal.ClippedBoard, pattern: Pattern, allowsHold: bool)
    returns (result: PcRateResult)
    requires MovesValid(moves) && Ready(clipped, pattern)
    requires Internal.Spaces(clipped) % 4 == 0 && Internal.Spaces(clipped) / 4 <= DimShapes(pattern)
    ensures fresh(result)
    ensures forall o: ShapeSequence :: o in result.succeed <==> o.shapes in ShapesVecOf(pattern)
    ensures RateSound(result.succeed, moves, Searched(clipped), true)
  {
    var hold := ReducedHold(allowsHold, Internal.Spaces(clipped), DimShapes(pattern));
    var orders := ToSequences(pattern);
    var inferSize := DimShapes(pattern);
    ShapesVecOfSpec(pattern);
    KeysOfVectors(orders, ShapesVecOf(pattern));
    result := new PcRateResult(orders);
    ghost var keys := result.succeed.Keys;
    assert forall o :: o in keys ==> |o.shapes| == inferSize by {
      forall o | o in keys ensures |o.shapes| == inferSize {
        assert o.shapes in ShapesVecOf(pattern);
      }
    }
    var searcher := new Searcher(moves, hold, hold, false);
    var board := Searched(clipped);
    for k := 0 to |orders|
      invariant result.succeed.Keys == keys
      invariant RateSound(result.succeed, moves, board, true)
    {
      var order := orders[k];
      assert order in result.succeed;
      if result.IsSucceed(order).value {
        continue;
      }
      var found := SearchOrder(searcher, board, order);
      if found.Some? {
        RecordAsWritten(result, order, found, moves, board, hold, inferSize);
      }
    }
  }

  /**
   * The loop body as intended: the hold inference walk only for a caller
   * who allowed the hold; otherwise the searched order alone is marked.
   */
  method Record(result: PcRateResult, order: ShapeSequence, found: Option<ShapeSequence>,
                moves: MoveGenerator, clipped: ClippedBoard, allowsHold: bool, searchHold: bool, inferSize: nat)
    requires searchHold ==> allowsHold
    requires 1 <= inferSize && forall o :: o in result.succeed ==> |o.shapes| == inferSize
    requires RateSound(result.succeed, moves, clipped, allowsHold)
    requires found.Some? ==> |order.shapes| == inferSize && Places(moves, clipped.board, clipped.height, found.value.shapes)
    requires found.Some? ==> Draws(NewCursor(order.shapes), searchHold, found.value.shapes)
    modifies result
    ensures found.Some? && allowsHold ==> MarkedFrom(old(result.succeed), result.succeed, found.value.shapes, inferSize, true)
    ensures found.Some? && !allowsHold ==> result.succeed == Added(old(result.succeed), order)
    ensures found.None? ==> result.succeed == old(result.succeed)
    ensures result.succeed.Keys == old(result.succeed.Keys)
    ensures RateSound(result.succeed, moves, clipped, allowsHold)
  {
    if found.Some? {
      var cursor := NewCursor(order.shapes);
      if allowsHold {
        ghost var t0 := result.succeed;
        if !searchHold {
          HoldDrawsMore(cursor, found.value.shapes);
        }
        DrawsWithinUnused(cursor, true, found.value.shapes);
        MarkInferred(result, found.value.shapes, inferSize);
        MarkedRateSound(t0, result.succeed, moves, clipped, found.value.shapes, inferSize);
      } else {
        result.AddSuccess(order);
      }
    }
  }

  /**
   * `success_rates` as intended: every order is a key, and every success is
   * a perfect clear that the order lets a player draw, using the hold only
   * when the caller allowed it.
   */
  method SuccessRates(moves: MoveGenerator, clipped: Internal.ClippedBoard, pattern: Pattern, allowsHold: bool)
    returns (result: PcRateResult)
    requires MovesValid(moves) && Ready(clipped, pattern)
    requires Internal.Spaces(clipped) % 4 == 0 && Internal.Spaces(clipped) / 4 <= DimShapes(pattern)
    ensures fresh(result)
    ensures forall o: ShapeSequence :: o in result.succeed <==> o.shapes in ShapesVecOf(pattern)
    ensures RateSound(result.succeed, moves, Searched(clipped), allowsHold)
  {
    var hold := ReducedHold(allowsHold, Internal.Spaces(clipped), DimShapes(pattern));
    var orders := ToSequences(pattern);
    var inferSize := DimShapes(pattern);
    ShapesVecOfSpec(pattern);
    KeysOfVectors(orders, ShapesVecOf(pattern));
    result := new PcRateResult(orders);
    ghost var keys := result.succeed.Keys;
    assert forall o :: o in keys ==> |o.shapes| == inferSize by {
      forall o | o in keys ensures |o.shapes| == inferSize {
        assert o.shapes in ShapesVecOf(pattern);
      }
    }
    var searcher := new Searcher(moves, hold, hold, false);
    var board := Searched(clipped);
    for k := 0 to |orders|
      invariant result.succeed.Keys == keys
      invariant forall o :: o in result.succeed ==> |o.shapes| == inferSize
      invariant RateSound(result.succeed, moves, board, allowsHold)
    {
      var order := orders[k];
      assert order in result.succeed;
      if result.IsSucceed(order).value {
        continue;
      }
      var found := SearchOrder(searcher, board, order);
      if found.Some? {
        Record(result, order, found, moves, board, allowsHold, hold, inferSize);
      }
    }
  }

  /**
   * `pc_success_rates`: wraps the board and height (the well top must lie
   * within the height) and runs `success_rates` as written, so every
   * success is a perfect clear for a player with a hold even when the
   * caller allowed none (see `InferenceIgnoresHoldFlag`).
   */
  method PcSuccessRates(moves: MoveGenerator, board: Board, height: nat, pattern: Pattern, allowsHold: bool)
    returns (result: PcRateResult)
    requires MovesValid(moves) && board.Valid() && WellTop(board) <= height <= Rows && Expandable(pattern)
    requires Internal.Spaces(Internal.New(board, height)) % 4 == 0
    requires Internal.Spaces(Internal.New(board, height)) / 4 <= DimShapes(pattern)
    ensures fresh(result)
    ensures forall o: ShapeSequence :: o in result.succeed <==> o.shapes in ShapesVecOf(pattern)
    ensures RateSound(result.succeed, moves, ClippedBoard(board, height), true)
  {
    var clipped := Internal.New(board, height);
    result := SuccessRatesAsWritten(moves, clipped, pattern, allowsHold);
  }

  /**
   * Why the as-written loop over-reports without a hold: a perfect clear
   * found for `T S` is inferred for the input `S T`, which a player without
   * a hold cannot turn into `T S`.
   */
  lemma InferenceIgnoresHoldFlag()
    ensures InferredFrom([T, S], 2, [S, T])
    ensures Draws(NewCursor([T, S]), false, [T, S])
    ensures !Draws(NewCursor([S, T]), false, [T, S])
  {
    var u := [Unknown, Unknown];
    assert SlotsFrom([], 0, 2) == u;
    assert Slot([T, S], 0) == Known(T) && Slot([T, S], 1) == Known(S);
    var a, b := [Known(S), Known(T)], [Unknown, Known(T)];
    assert u[1 := Known(T)] == b && b[0 := Known(S)] == a;
    assert Walk([T, S], 2, b, 1, 0) == [a];
    assert a in Walk([T, S], 2, u, 0, 0);
    assert Matches([Known(S), Known(T)], [S, T]);
    var c := NewCursor([T, S]);
    assert Pop(c, First).0 == Some(T);
    assert Pop(Pop(c, First).1, First).0 == Some(S);
    DrawsStep(Pop(c, First).1, false, First, []);
    DrawsStep(c, false, First, [S]);
    assert Pop(NewCursor([S, T]), First).0 == Some(S);
  }
}
