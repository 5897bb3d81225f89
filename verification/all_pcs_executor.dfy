/**
 * `AllPcsExecutor` of the shape-order generation (`executor.rs`, and its
 * copy `executor_from_order.rs`): checks the board and the order of shapes
 * and keeps them with a spawn position above the well. Its `execute` hands
 * the counter of the order to a builder and an aggregation by sequence
 * order that belong to another generation of the crate.
 */
module AllPcsExecutors {
  import opened Wrappers
  import opened Shapes
  import opened Boards
  import opened ClippedBoards
  import opened ShapeCounters
  import opened ShapeOrders

  datatype CreationError = UnexpectedBoardSpaces | ShortPatternDimension | BoardIsTooHigh

  datatype Executor = Executor(clipped: ClippedBoard, order: ShapeOrder, spawn: (int, int), allowsHold: bool)

  /** The highest board the all-PCs search supports. */
  const MaxHeight: nat := 20

  /**
   * What `try_new` guarantees of every executor it returns: a board no
   * higher than supported whose free cells come in fours, at least one
   * piece to place, and an order with a shape for every piece.
   */
  predicate Ready(e: Executor)
  {
    && e.clipped.board.Valid() && CountBlocks(e.clipped.board) <= e.clipped.height * Width
    && e.clipped.height <= MaxHeight
    && Spaces(e.clipped) % 4 == 0 && 0 < Spaces(e.clipped)
    && Spaces(e.clipped) / 4 <= |e.order.shapes|
  }

  /**
   * `try_new`: a board above 20 rows, free cells not in fours, and an order
   * with fewer shapes than the cells need are refused, in that order. The
   * executor spawns four rows above the height.
   */
  function TryNew(clipped: ClippedBoard, order: ShapeOrder, allowsHold: bool): (r: Result<Executor, CreationError>)
    requires clipped.board.Valid() && CountBlocks(clipped.board) <= clipped.height * Width
    requires clipped.height <= MaxHeight && Spaces(clipped) % 4 == 0 && Spaces(clipped) / 4 <= |order.shapes|
             ==> 0 < Spaces(clipped)
    ensures r == Err(BoardIsTooHigh) <==> MaxHeight < clipped.height
    ensures r == Err(UnexpectedBoardSpaces) <==> clipped.height <= MaxHeight && Spaces(clipped) % 4 != 0
    ensures r == Err(ShortPatternDimension) <==>
      clipped.height <= MaxHeight && Spaces(clipped) % 4 == 0 && |order.shapes| < Spaces(clipped) / 4
    ensures r.Ok? ==> Ready(r.value) && r.value.clipped == clipped && r.value.order == order
    ensures r.Ok? ==> r.value.allowsHold == allowsHold && r.value.spawn == (5, clipped.height + 4)
  {
    if MaxHeight < clipped.height then Err(BoardIsTooHigh)
    else if Spaces(clipped) % 4 != 0 then Err(UnexpectedBoardSpaces)
    else if |order.shapes| < Spaces(clipped) / 4 then Err(ShortPatternDimension)
    else Ok(Executor(clipped, order, (5, clipped.height + 4), allowsHold))
  }

  /**
   * The counter `execute` builds from the order (`From<Vec<Shape>>`) holds
   * exactly the order's shapes, so it has a shape for every piece the board
   * needs; on a clipped board the spawn row is four above the well's top.
   */
  lemma ExecuteCounter(e: Executor)
    requires Ready(e) && e.spawn == (5, e.clipped.height + 4) && Clipped(e.clipped)
    ensures forall s :: Get(Of(e.order.shapes), s) == multiset(e.order.shapes)[s]
    ensures 4 * TotalSize(Of(e.order.shapes)) >= Spaces(e.clipped)
    ensures WellTop(e.clipped.board) + 4 <= e.spawn.1
  {
    TotalSizeOf(e.order.shapes);
  }
}
