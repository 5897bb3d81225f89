/**
 * `PcPossibleExecutor`, the first generation: the same search over every
 * sequence of the pattern, without remembering explored states, and with
 * the hold dropped when the pattern has no shape to spare.
 */
module PcPossibleExecutors {
  import opened Shapes
  import opened Wrappers
  import opened Boards
  import opened ClippedBoards
  import opened ShapeSequences
  import opened Patterns
  import opened PcResultTables
  import opened PcSearches
  import opened PcPossibleDrivers

  datatype CreationError = UnexpectedBoardSpaces | PatternAreNotEnough

  /** `ExecutionStatus`: what the callback answers after each sequence. */
  datatype ExecutionStatus = Continue | Break

  datatype Executor = Executor(clipped: ClippedBoard, pattern: Pattern, allowsHold: bool)

  /** What the search needs: a pattern of at least one shape. */
  predicate Ready(e: Executor)
  {
    && e.clipped.board.Valid()
    && Expandable(e.pattern) && 1 <= DimShapes(e.pattern)
  }

  /**
   * `try_new`: free cells not in fours, then a pattern with fewer shapes
   * than the cells need, are refused. The hold is kept only when asked for
   * and the pattern has a shape to spare.
   */
  function TryNew(clipped: ClippedBoard, pattern: Pattern, allowsHold: bool): (r: Result<Executor, CreationError>)
    requires clipped.board.Valid() && CountBlocks(clipped.board) <= clipped.height * Width
    requires Expandable(pattern)
    requires Spaces(clipped) % 4 == 0 && Spaces(clipped) / 4 <= DimShapes(pattern) ==> 0 < Spaces(clipped)
    ensures r == Err(UnexpectedBoardSpaces) <==> Spaces(clipped) % 4 != 0
    ensures r == Err(PatternAreNotEnough) <==> Spaces(clipped) % 4 == 0 && DimShapes(pattern) < Spaces(clipped) / 4
    ensures r.Ok? ==> Ready(r.value) && r.value.clipped == clipped && r.value.pattern == pattern
    ensures r.Ok? ==> (r.value.allowsHold <==> allowsHold && Spaces(clipped) < 4 * DimShapes(pattern))
  {
    if Spaces(clipped) % 4 != 0 then Err(UnexpectedBoardSpaces)
    else if DimShapes(pattern) < Spaces(clipped) / 4 then Err(PatternAreNotEnough)
    else Ok(Executor(clipped, pattern, allowsHold && Spaces(clipped) / 4 < DimShapes(pattern)))
  }

  /**
   * `execute_with_early_stopping` (the board must fit the 64 rows): one key
   * per sequence; every success is a perfect clear the sequence lets a
   * player draw with the executor's hold; with a callback that never
   * answers `Break`, nothing is pending.
   * The loop ends right after the callback first asks it to stop.
   */
  method ExecuteWithEarlyStopping(e: Executor, moves: MoveGenerator, status: Table -> ExecutionStatus)
    returns (results: PcResults, ghost asked: seq<Table>)
    requires Ready(e) && MovesValid(moves) && e.clipped.height <= Rows
    ensures fresh(results)
    ensures forall o :: o in results.succeed <==> o.shapes in ShapesVecOf(e.pattern)
    ensures Sound(results.succeed, moves, e.clipped, e.allowsHold)
    ensures (forall t :: status(t) == Continue) ==> forall o :: o in results.succeed ==> results.succeed[o].Some?
    ensures StoppedWhenAsked(asked, t => status(t) == Break, |ShapesVecOf(e.pattern)|, results.succeed)
    ensures DecidedFirst(results.succeed, ShapesVecOf(e.pattern), |asked|)
  {
    var sequences := ToSequences(e.pattern);
    ShapesVecOfSpec(e.pattern);
    assert forall k :: 0 <= k < |sequences| ==> |sequences[k].shapes| == DimShapes(e.pattern) by {
      forall k | 0 <= k < |sequences| ensures |sequences[k].shapes| == DimShapes(e.pattern) {
        assert ShapesVecOf(e.pattern)[k] in ShapesVecOf(e.pattern);
      }
    }
    var searcher := new Searcher(moves, e.allowsHold, e.allowsHold, false);
    var stop := t => status(t) == Break;
    results, asked := PcPossibleDrivers.ExecuteWithEarlyStopping(searcher, e.clipped, sequences, DimShapes(e.pattern), stop);
    KeysOfVectors(sequences, ShapesVecOf(e.pattern));
    DecidedVectors(results.succeed, sequences, ShapesVecOf(e.pattern), |asked|);
  }

  /** `execute`: the loop without stopping, so every sequence gets a verdict. */
  method Execute(e: Executor, moves: MoveGenerator) returns (results: PcResults)
    requires Ready(e) && MovesValid(moves) && e.clipped.height <= Rows
    ensures fresh(results)
    ensures forall o :: o in results.succeed <==> o.shapes in ShapesVecOf(e.pattern)
    ensures Sound(results.succeed, moves, e.clipped, e.allowsHold)
    ensures results.CountPending() == 0 && results.CountAccepted() == results.CountKeys()
  {
    ghost var asked;
    results, asked := ExecuteWithEarlyStopping(e, moves, _ => Continue);
    AllDecided(results.succeed);
  }
}
