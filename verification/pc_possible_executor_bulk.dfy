/**
 * `PcPossibleBulkExecutor` of the newest generation: checks the board and
 * the pattern, then searches every sequence of the pattern, remembering the
 * states explored for the current sequence. The hold stays as requested;
 * only the parity check drops it when the pattern has no shape to spare.
 */
module PcPossibleExecutorBulk {
  import opened Shapes
  import opened Wrappers
  import opened Boards
  import opened ClippedBoards
  import opened ShapeSequences
  import opened Patterns
  import opened PcResultTables
  import opened PcSearches
  import opened PcPossibleDrivers

  datatype CreationError = UnexpectedBoardSpaces | ShortPatternDimension | BoardIsTooHigh

  /** Both algorithms run the same search. */
  datatype Algorithm = AllPcs | Simulation

  datatype Executor = Executor(clipped: ClippedBoard, pattern: Pattern, allowsHold: bool,
                               hasExtraShapes: bool, spawn: (int, int), algorithm: Algorithm)

  /** The highest board supported, leaving room above it to spawn. */
  const MaxHeight: nat := 56

  /** What `try_new` checks and the search needs: a board no higher than supported and a pattern of at least one shape. */
  predicate Ready(e: Executor)
  {
    && e.clipped.board.Valid() && e.clipped.height <= Rows
    && Expandable(e.pattern) && 1 <= DimShapes(e.pattern)
  }

  /**
   * `try_new`: a board above 56 rows, free cells not in fours, and a
   * pattern with fewer shapes than the cells need are refused, in that
   * order. The executor keeps the hold as asked, notes whether the pattern
   * has a shape to spare, and spawns four rows above the height.
   */
  function TryNew(clipped: ClippedBoard, pattern: Pattern, allowsHold: bool, algorithm: Algorithm)
    : (r: Result<Executor, CreationError>)
    requires clipped.board.Valid() && CountBlocks(clipped.board) <= clipped.height * Width
    requires Expandable(pattern)
    requires clipped.height <= MaxHeight && Spaces(clipped) % 4 == 0 && Spaces(clipped) / 4 <= DimShapes(pattern)
             ==> 0 < Spaces(clipped)
    ensures r == Err(BoardIsTooHigh) <==> MaxHeight < clipped.height
    ensures r == Err(UnexpectedBoardSpaces) <==> clipped.height <= MaxHeight && Spaces(clipped) % 4 != 0
    ensures r == Err(ShortPatternDimension) <==>
      clipped.height <= MaxHeight && Spaces(clipped) % 4 == 0 && DimShapes(pattern) < Spaces(clipped) / 4
    ensures r.Ok? ==> Ready(r.value) && r.value.clipped == clipped && r.value.pattern == pattern
    ensures r.Ok? ==> r.value.allowsHold == allowsHold && r.value.algorithm == algorithm
    ensures r.Ok? ==> (r.value.hasExtraShapes <==> Spaces(clipped) < 4 * DimShapes(pattern))
    ensures r.Ok? ==> r.value.spawn == (5, clipped.height + 4)
  {
    if MaxHeight < clipped.height then Err(BoardIsTooHigh)
    else if Spaces(clipped) % 4 != 0 then Err(UnexpectedBoardSpaces)
    else if DimShapes(pattern) < Spaces(clipped) / 4 then Err(ShortPatternDimension)
    else
      var hasExtraShapes := Spaces(clipped) / 4 < DimShapes(pattern);
      Ok(Executor(clipped, pattern, allowsHold, hasExtraShapes, (5, clipped.height + 4), algorithm))
  }

  /** The search this executor runs: hold as asked, parity hold only with a shape to spare, states remembered. */
  method NewSearcher(e: Executor, moves: MoveGenerator) returns (searcher: Searcher)
    ensures fresh(searcher) && searcher.visited == {}
    ensures searcher.moves == moves && searcher.allowsHold == e.allowsHold
    ensures searcher.parityHold == (e.allowsHold && e.hasExtraShapes) && searcher.usesVisited
  {
    searcher := new Searcher(moves, e.allowsHold, e.allowsHold && e.hasExtraShapes, true);
  }

  /**
   * `execute_with_early_stopping`: one key per sequence of the pattern;
   * every success is a perfect clear the sequence lets a player draw (with
   * the hold if asked); with a callback that never stops, no key is left
   * pending.
   * The loop ends right after the callback first asks it to stop.
   */
  method ExecuteWithEarlyStopping(e: Executor, moves: MoveGenerator, stop: Table -> bool)
    returns (results: PcResults, ghost asked: seq<Table>)
    requires Ready(e) && MovesValid(moves)
    ensures fresh(results)
    ensures forall o :: o in results.succeed <==> o.shapes in ShapesVecOf(e.pattern)
    ensures Sound(results.succeed, moves, e.clipped, e.allowsHold)
    ensures (forall t :: !stop(t)) ==> forall o :: o in results.succeed ==> results.succeed[o].Some?
    ensures StoppedWhenAsked(asked, stop, |ShapesVecOf(e.pattern)|, results.succeed)
    ensures DecidedFirst(results.succeed, ShapesVecOf(e.pattern), |asked|)
  {
    var sequences := ToSequences(e.pattern);
    ShapesVecOfSpec(e.pattern);
    assert forall k :: 0 <= k < |sequences| ==> |sequences[k].shapes| == DimShapes(e.pattern) by {
      forall k | 0 <= k < |sequences| ensures |sequences[k].shapes| == DimShapes(e.pattern) {
        assert ShapesVecOf(e.pattern)[k] in ShapesVecOf(e.pattern);
      }
    }
    var searcher := NewSearcher(e, moves);
    results, asked := PcPossibleDrivers.ExecuteWithEarlyStopping(searcher, e.clipped, sequences, DimShapes(e.pattern), stop);
    KeysOfVectors(sequences, ShapesVecOf(e.pattern));
    DecidedVectors(results.succeed, sequences, ShapesVecOf(e.pattern), |asked|);
  }

  /** `execute`: the loop without stopping, so every sequence gets a verdict. */
  method Execute(e: Executor, moves: MoveGenerator) returns (results: PcResults)
    requires Ready(e) && MovesValid(moves)
    ensures fresh(results)
    ensures forall o :: o in results.succeed <==> o.shapes in ShapesVecOf(e.pattern)
    ensures Sound(results.succeed, moves, e.clipped, e.allowsHold)
    ensures results.CountPending() == 0 && results.CountAccepted() == results.CountKeys()
  {
    ghost var asked;
    results, asked := ExecuteWithEarlyStopping(e, moves, _ => false);
    AllDecided(results.succeed);
  }

  /** `execute_single` (a pattern of one sequence only): whether the search finds a perfect clear. */
  method ExecuteSingle(e: Executor, moves: MoveGenerator) returns (r: bool)
    requires Ready(e) && MovesValid(moves) && LenShapesVec(e.pattern) == 1
    ensures r ==> && |ShapesVecOf(e.pattern)| == 1 && |ShapesVecOf(e.pattern)[0]| == DimShapes(e.pattern)
                  && Clearable(moves, e.clipped, ShapesVecOf(e.pattern)[0], e.allowsHold)
  {
    var sequences := ToSequences(e.pattern);
    ShapesVecOfSpec(e.pattern);
    assert ShapesVecOf(e.pattern)[0] in ShapesVecOf(e.pattern);
    var searcher := NewSearcher(e, moves);
    var found := searcher.SearchPcOrder(e.clipped, ToShapeOrder(sequences[0]));
    r := found.Some?;
  }
}
