/**
 * `AllPcsFromPatternExecutor` (`executor_from_pattern.rs`) and
 * `AllPcsFromPatternBulkExecutor` (`bulk_executor_from_pattern.rs`), which
 * differ only in the builder they call: check the board and the pattern,
 * build the DAG for the slot-wise maximum of the pattern's counters, and
 * aggregate with the hold matcher or the plain pattern matcher as asked.
 *
 * The builders of that generation (`Builder::new` and
 * `Builder::new_and_make_placed_pieces` with a counter) are not part of
 * this model: they are the parameter `build`, and what the aggregation
 * needs of its result is stated as a requirement.
 */
module AllPcsFromPatternExecutors {
  import opened Wrappers
  import opened Boards
  import opened ClippedBoards
  import opened ShapeCounters
  import opened Patterns
  import opened Pieces
  import AG = AllPcsAggregators
  import PS = PcSolutionSets
  import PSM = PatternShapeMatchers
  import HEP = HoldExpandedPatterns
  import HSM = HoldExpandedPatternShapeMatchers
  import ShapeOrders
  import FC = AllPcsFromCountersExecutors

  datatype CreationError = UnexpectedBoardSpaces | ShortPatternDimension | BoardIsTooHigh

  datatype Executor = Executor(clipped: ClippedBoard, pattern: Pattern, spawn: (int, int), allowsHold: bool)

  /** The highest board the all-PCs search supports. */
  const MaxHeight: nat := 20

  /**
   * What `try_new` guarantees of every executor it returns: a board no
   * higher than supported whose free cells come in fours, at least one
   * piece to place, and a pattern with a shape for every piece; the spawn
   * row is four above the height.
   */
  predicate Ready(e: Executor)
  {
    && e.clipped.board.Valid() && CountBlocks(e.clipped.board) <= e.clipped.height * Width
    && e.clipped.height <= MaxHeight
    && Spaces(e.clipped) % 4 == 0 && 0 < Spaces(e.clipped)
    && Expandable(e.pattern) && Spaces(e.clipped) / 4 <= DimShapes(e.pattern)
    && e.spawn == (5, e.clipped.height + 4)
  }

  /**
   * `try_new`: a board above 20 rows, free cells not in fours, and a
   * pattern with fewer shapes than the cells need are refused, in that
   * order.
   */
  function TryNew(clipped: ClippedBoard, pattern: Pattern, allowsHold: bool): (r: Result<Executor, CreationError>)
    requires clipped.board.Valid() && CountBlocks(clipped.board) <= clipped.height * Width
    requires Expandable(pattern)
    requires clipped.height <= MaxHeight && Spaces(clipped) % 4 == 0 && Spaces(clipped) / 4 <= DimShapes(pattern)
             ==> 0 < Spaces(clipped)
    ensures r == Err(BoardIsTooHigh) <==> MaxHeight < clipped.height
    ensures r == Err(UnexpectedBoardSpaces) <==> clipped.height <= MaxHeight && Spaces(clipped) % 4 != 0
    ensures r == Err(ShortPatternDimension) <==>
      clipped.height <= MaxHeight && Spaces(clipped) % 4 == 0 && DimShapes(pattern) < Spaces(clipped) / 4
    ensures r.Ok? ==> Ready(r.value) && r.value.clipped == clipped && r.value.pattern == pattern
    ensures r.Ok? ==> r.value.allowsHold == allowsHold
  {
    if MaxHeight < clipped.height then Err(BoardIsTooHigh)
    else if Spaces(clipped) % 4 != 0 then Err(UnexpectedBoardSpaces)
    else if DimShapes(pattern) < Spaces(clipped) / 4 then Err(ShortPatternDimension)
    else Ok(Executor(clipped, pattern, (5, clipped.height + 4), allowsHold))
  }

  /** The counter `execute` builds for: the slot-wise maximum of the pattern's counters. */
  function BuildCounter(e: Executor): (r: ShapeCounter)
    requires Ready(e)
    ensures r.Valid()
    ensures forall v :: v in ShapesVecOf(e.pattern) ==> ContainsAll(r, Of(v))
  {
    FC.MaxCounter(AG.PatternCounters(e.pattern))
  }

  /**
   * What the aggregations need of the aggregator the builder makes for the
   * executor: the executor's board, linked nodes, and a head that leads to
   * an item through fewer than 64 pieces when there are nodes at all.
   */
  ghost predicate Built(e: Executor, ag: AG.Aggregator)
  {
    && ag.clippedBoard == e.clipped
    && AG.Linked(ag)
    && (ag.nodes.indexes != [] ==> AG.LeadsToItem(ag, 0) && AG.Depth(ag, 0) < 64)
  }

  /** A pattern with a shape for at least one piece has elements, and flattens to at least one slot. */
  lemma ReadyPatternHasShapes(e: Executor)
    requires Ready(e)
    ensures e.pattern.elements != [] && 0 < |HEP.ElementSequence(e.pattern)|
  {
    HEP.FlattenCounts(e.pattern);
  }

  /** The hold matchers `aggregate_with_pattern_allows_hold` may make for the pattern: the pattern with every order of its slots a player can draw. */
  ghost predicate HoldMatcherOf(pattern: Pattern, h: HEP.HoldExpandedPattern)
    requires 0 < |HEP.ElementSequence(pattern)|
  {
    && h.pattern == pattern
    && (forall v :: v in h.expanded <==> v in HEP.Expansions(ShapeOrders.NewCursor(HEP.ElementSequence(pattern))))
    && 0 < |h.expanded| && (forall k :: 0 <= k < |h.expanded| ==> h.expanded[k] != [])
    && HSM.Valid(HSM.New(h))
  }

  /** Every solution is what the plain pattern checker kept of a non-empty stackable set of placed pieces. */
  ghost predicate KeptWithoutHold<B, P>(ag: AG.Aggregator, pattern: Pattern, ops: AG.BoardOps<B, P>,
                                        solutions: seq<seq<PlacedPiece>>)
    requires Expandable(pattern) && pattern.elements != []
  {
    forall s :: s in solutions ==> AG.Kept(ag, AG.NoHoldChecker(AG.PatternCounters(pattern), PSM.New(pattern), ops), s)
  }

  /** Every solution is what the hold checker, with a hold matcher of the pattern, kept of a non-empty stackable set of placed pieces. */
  ghost predicate KeptWithHold<B, P>(ag: AG.Aggregator, pattern: Pattern, ops: AG.BoardOps<B, P>,
                                     solutions: seq<seq<PlacedPiece>>)
    requires Expandable(pattern) && 0 < |HEP.ElementSequence(pattern)|
  {
    exists h: HEP.HoldExpandedPattern :: HoldMatcherOf(pattern, h) &&
      forall s :: s in solutions ==> AG.Kept(ag, AG.HoldChecker(AG.PatternCounters(pattern), HSM.New(h), ops), s)
  }

  /** What `aggregate_with_pattern_allows_hold` collects is kept with hold. */
  lemma HoldSolutionsKept<B, P>(ag: AG.Aggregator, pattern: Pattern, ops: AG.BoardOps<B, P>, h: HEP.HoldExpandedPattern,
                                solutions: seq<seq<PlacedPiece>>)
    requires AG.Linked(ag) && ag.nodes.indexes != []
    requires Expandable(pattern) && 0 < |HEP.ElementSequence(pattern)| && HoldMatcherOf(pattern, h)
    requires solutions == AG.Collect(ag, AG.HoldChecker(AG.PatternCounters(pattern), HSM.New(h), ops), 0, [])
    ensures KeptWithHold(ag, pattern, ops, solutions)
  {
    AG.CollectSound(ag, AG.HoldChecker(AG.PatternCounters(pattern), HSM.New(h), ops), 0, []);
  }

  /**
   * `execute`: builds for the maximum of the pattern's counters, then
   * aggregates with the hold matcher when the executor allows hold and
   * with the plain pattern matcher otherwise; either way every solution is
   * what that checker kept of a non-empty stackable set of placed pieces.
   */
  method Execute<B, P>(e: Executor, build: (ClippedBoard, ShapeCounter, nat, (int, int)) -> AG.Aggregator,
                       ops: AG.BoardOps<B, P>)
    returns (r: PS.PcSolutions)
    requires Ready(e)
    requires Built(e, build(e.clipped, BuildCounter(e), FC.BuildWidth, e.spawn))
    ensures r.clippedBoard == e.clipped
    ensures !e.allowsHold ==> KeptWithoutHold(build(e.clipped, BuildCounter(e), FC.BuildWidth, e.spawn), e.pattern, ops, r.placedPieces)
    ensures e.allowsHold ==>
      (r.placedPieces == [] ||
       (HEP.FlattenCounts(e.pattern);
        KeptWithHold(build(e.clipped, BuildCounter(e), FC.BuildWidth, e.spawn), e.pattern, ops, r.placedPieces)))
  {
    var aggregator := build(e.clipped, BuildCounter(e), FC.BuildWidth, e.spawn);
    ReadyPatternHasShapes(e);
    if e.allowsHold {
      r := AggregateHold(aggregator, e.pattern, ops);
    } else {
      r := AggregateNoHold(aggregator, e.pattern, ops);
    }
  }

  /** The hold branch of `execute`: what the hold checker collects is kept with hold. */
  method AggregateHold<B, P>(ag: AG.Aggregator, pattern: Pattern, ops: AG.BoardOps<B, P>) returns (r: PS.PcSolutions)
    requires AG.Linked(ag) && Expandable(pattern) && 0 < |HEP.ElementSequence(pattern)|
    requires ag.nodes.indexes != [] ==> AG.LeadsToItem(ag, 0) && AG.Depth(ag, 0) < 64
    ensures r.clippedBoard == ag.clippedBoard
    ensures r.placedPieces == [] || KeptWithHold(ag, pattern, ops, r.placedPieces)
  {
    r := AG.AggregateWithPatternAllowsHold(ag, pattern, ops);
    if ag.nodes.indexes != [] {
      ghost var h: HEP.HoldExpandedPattern :|
        HoldMatcherOf(pattern, h) &&
        r.placedPieces == AG.Collect(ag, AG.HoldChecker(AG.PatternCounters(pattern), HSM.New(h), ops), 0, []);
      HoldSolutionsKept(ag, pattern, ops, h, r.placedPieces);
    }
  }

  /** The branch of `execute` without hold: what the plain pattern checker collects is kept by it. */
  method AggregateNoHold<B, P>(ag: AG.Aggregator, pattern: Pattern, ops: AG.BoardOps<B, P>) returns (r: PS.PcSolutions)
    requires AG.Linked(ag) && Expandable(pattern) && pattern.elements != []
    requires ag.nodes.indexes != [] ==> AG.LeadsToItem(ag, 0) && AG.Depth(ag, 0) < 64
    ensures r.clippedBoard == ag.clippedBoard
    ensures KeptWithoutHold(ag, pattern, ops, r.placedPieces)
  {
    r := AG.AggregateWithPatternAllowsNoHold(ag, pattern, ops);
    if ag.nodes.indexes != [] {
      AG.CollectSound(ag, AG.NoHoldChecker(AG.PatternCounters(pattern), PSM.New(pattern), ops), 0, []);
    }
  }
}
