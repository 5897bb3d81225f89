/**
 * `AllPcsFromCountersExecutor` (`executor_from_counters.rs`): checks the
 * board and a non-empty list of shape counters, then builds the DAG for
 * the slot-wise maximum of the counters and keeps every set of pieces
 * whose shapes fit one of them.
 *
 * `Builder::new(clipped, counter, width).to_aggregator(spawn)` of this
 * generation is not part of this model: it is the parameter `build`, and
 * what the aggregation needs of its result is stated as a requirement.
 */
module AllPcsFromCountersExecutors {
  import opened Wrappers
  import opened Shapes
  import opened Boards
  import opened Pieces
  import opened ClippedBoards
  import opened ShapeCounters
  import AG = AllPcsAggregators
  import PS = PcSolutionSets

  datatype CreationError = UnexpectedBoardSpaces | ShortCounterDimension | BoardIsTooHigh | CountersAreEmpty

  datatype Executor = Executor(clipped: ClippedBoard, counters: seq<ShapeCounter>, spawn: (int, int))

  /** The highest board the all-PCs search supports. */
  const MaxHeight: nat := 20

  /** The width `execute` gives the builder. */
  const BuildWidth: nat := 10

  /** `min` of the counters' sizes: the size of one of them, and no larger than any. */
  function MinDimension(counters: seq<ShapeCounter>): (r: nat)
    requires counters != []
    ensures exists k :: 0 <= k < |counters| && r == TotalSize(counters[k])
    ensures forall k :: 0 <= k < |counters| ==> r <= TotalSize(counters[k])
  {
    if |counters| == 1 then TotalSize(counters[0])
    else
      var rest := MinDimension(counters[1..]);
      assert forall k :: 1 <= k < |counters| ==> counters[k] == counters[1..][k - 1];
      if TotalSize(counters[0]) <= rest then TotalSize(counters[0]) else rest
  }

  /** The fold of `merge_by_max` from the empty counter: it holds every counter of the list. */
  function MaxCounter(counters: seq<ShapeCounter>): (r: ShapeCounter)
    requires AG.AllValid(counters)
    ensures r.Valid()
    ensures forall k :: 0 <= k < |counters| ==> ContainsAll(r, counters[k])
  {
    if counters == [] then Empty()
    else
      var prefix := counters[..|counters| - 1];
      assert forall k :: 0 <= k < |prefix| ==> prefix[k] == counters[k];
      MergeByMax(MaxCounter(prefix), counters[|counters| - 1])
  }

  /** The fold is the least such counter: any counter holding every counter of the list holds it. */
  lemma {:induction false} MaxCounterLeast(counters: seq<ShapeCounter>, u: ShapeCounter)
    requires AG.AllValid(counters) && u.Valid()
    requires forall k :: 0 <= k < |counters| ==> ContainsAll(u, counters[k])
    ensures ContainsAll(u, MaxCounter(counters))
  {
    if counters != [] {
      var prefix := counters[..|counters| - 1];
      assert forall k :: 0 <= k < |prefix| ==> prefix[k] == counters[k];
      MaxCounterLeast(prefix, u);
    }
  }

  /**
   * What `try_new` guarantees of every executor it returns: a board no
   * higher than supported whose free cells come in fours, at least one
   * piece to place, and counters, at least one, each with a shape for
   * every piece; the spawn row is four above the height.
   */
  predicate Ready(e: Executor)
  {
    && e.clipped.board.Valid() && CountBlocks(e.clipped.board) <= e.clipped.height * Width
    && e.clipped.height <= MaxHeight
    && Spaces(e.clipped) % 4 == 0 && 0 < Spaces(e.clipped)
    && e.counters != [] && AG.AllValid(e.counters)
    && (forall k :: 0 <= k < |e.counters| ==> Spaces(e.clipped) / 4 <= TotalSize(e.counters[k]))
    && e.spawn == (5, e.clipped.height + 4)
  }

  /**
   * `try_new`: a board above 20 rows, free cells not in fours, no counter,
   * and a counter with fewer shapes than the cells need are refused, in
   * that order.
   */
  function TryNew(clipped: ClippedBoard, counters: seq<ShapeCounter>): (r: Result<Executor, CreationError>)
    requires clipped.board.Valid() && CountBlocks(clipped.board) <= clipped.height * Width
    requires AG.AllValid(counters)
    requires && clipped.height <= MaxHeight && Spaces(clipped) % 4 == 0 && counters != []
             && Spaces(clipped) / 4 <= MinDimension(counters)
             ==> 0 < Spaces(clipped)
    ensures r == Err(BoardIsTooHigh) <==> MaxHeight < clipped.height
    ensures r == Err(UnexpectedBoardSpaces) <==> clipped.height <= MaxHeight && Spaces(clipped) % 4 != 0
    ensures r == Err(CountersAreEmpty) <==>
      clipped.height <= MaxHeight && Spaces(clipped) % 4 == 0 && counters == []
    ensures r == Err(ShortCounterDimension) <==>
      && clipped.height <= MaxHeight && Spaces(clipped) % 4 == 0
      && exists k :: 0 <= k < |counters| && TotalSize(counters[k]) < Spaces(clipped) / 4
    ensures r.Ok? ==> Ready(r.value) && r.value.clipped == clipped && r.value.counters == counters
  {
    if MaxHeight < clipped.height then Err(BoardIsTooHigh)
    else if Spaces(clipped) % 4 != 0 then Err(UnexpectedBoardSpaces)
    else if counters == [] then Err(CountersAreEmpty)
    else if MinDimension(counters) < Spaces(clipped) / 4 then Err(ShortCounterDimension)
    else Ok(Executor(clipped, counters, (5, clipped.height + 4)))
  }

  /**
   * What the aggregation needs of the aggregator the builder makes for the
   * executor: the executor's board, linked nodes, and a head that leads to
   * an item when there are nodes at all.
   */
  ghost predicate Built(e: Executor, ag: AG.Aggregator)
  {
    && ag.clippedBoard == e.clipped
    && AG.Linked(ag)
    && (ag.nodes.indexes != [] ==> AG.LeadsToItem(ag, 0))
  }

  /**
   * `execute`: builds for the maximum of the counters and aggregates with
   * the counters; every solution is what the counters' checker kept of a
   * non-empty stackable set of placed pieces.
   */
  method Execute<B, P>(e: Executor, build: (ClippedBoard, ShapeCounter, nat, (int, int)) -> AG.Aggregator,
                       findOneStackable: seq<AG.PlacedPieceBlocks> -> Option<seq<AG.PlacedPieceBlocks>>)
    returns (r: PS.PcSolutions)
    requires Ready(e)
    requires Built(e, build(e.clipped, MaxCounter(e.counters), BuildWidth, e.spawn))
    ensures r.clippedBoard == e.clipped
    ensures forall s :: s in r.placedPieces ==>
      AG.Kept(build(e.clipped, MaxCounter(e.counters), BuildWidth, e.spawn),
              AG.Checker<B, P>.CountersChecker(e.counters, findOneStackable), s)
  {
    var maxCounter := MaxCounter(e.counters);
    var aggregator := build(e.clipped, maxCounter, BuildWidth, e.spawn);
    r := AG.AggregateWithShapeCounters<B, P>(aggregator, e.counters, findOneStackable);
    if aggregator.nodes.indexes != [] {
      AG.CollectSound(aggregator, AG.Checker<B, P>.CountersChecker(e.counters, findOneStackable), 0, []);
    }
  }
}
