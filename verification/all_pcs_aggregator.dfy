/**
 * The aggregation of `aggregator.rs`: walks the DAG of index and item nodes
 * from the head, keeping the pieces placed so far in an order where every
 * piece comes after the pieces it depends on, skips an item whose piece
 * could never be placed before the pieces after it, checks at every
 * complete node that each piece can still land, and hands the pieces to a
 * checker that keeps them as a solution when their shapes fit one of the
 * shape counters and an order to put them in is found.
 *
 * The node kinds of this file (`ToItem`, `ToNextIndex`, `Complete`,
 * `Abort`, items holding a placed piece) differ from the arena of
 * `nodes.rs`; they are declared here as the file uses them. The board, the
 * goal board, line clearing, landing, reachability and
 * `find_one_stackable` belong to the board library: they are parameters.
 */
module AllPcsAggregators {
  import opened Wrappers
  import opened Shapes
  import opened Boards
  import opened Pieces
  import opened ShapeCounters
  import opened ClippedBoards
  import opened Patterns
  import PS = PcSolutionSets
  import PSM = PatternShapeMatchers
  import HEP = HoldExpandedPatterns
  import HSM = HoldExpandedPatternShapeMatchers
  import PE = PatternElements
  import opened AllPcsVisits
  import ShapeOrders

  /** The blocks of a placed piece as the aggregation uses them: the rows holding its blocks and the rows strictly between them. */
  datatype PlacedPieceBlocks = PlacedPieceBlocks(placedPiece: PlacedPiece, usingRows: set<nat>, interceptedRows: set<nat>)

  datatype IndexNode =
    | ToItem(nextItemId: nat, itemLength: nat)
    | ToNextIndex(nextIndexId: nat)
    | Complete
    | Abort

  datatype ItemNode = ItemNode(placedPiece: PlacedPiece, nextIndexId: nat)

  datatype Nodes = Nodes(indexes: seq<IndexNode>, items: seq<ItemNode>)

  /**
   * The aggregator: the clipped board, the blocks of every placed piece,
   * the nodes, the spawn position, and the landing test of a complete node
   * (on the goal board without the given later pieces and the piece, with
   * the piece's intercepted rows cleared, does the piece land).
   */
  datatype Aggregator = Aggregator(
    clippedBoard: ClippedBoard,
    blocksOf: map<PlacedPiece, PlacedPieceBlocks>,
    nodes: Nodes,
    spawn: (int, int),
    lands: (seq<PlacedPieceBlocks>, PlacedPieceBlocks) -> bool)

  /** The fold of `new`: one entry per placed piece, holding the blocks `make` gives it. */
  function BlocksMap(pieces: seq<PlacedPiece>, make: PlacedPiece -> PlacedPieceBlocks): (m: map<PlacedPiece, PlacedPieceBlocks>)
    ensures forall p :: p in m <==> p in pieces
    ensures forall p :: p in m ==> m[p] == make(p)
  {
    if pieces == [] then map[]
    else BlocksMap(pieces[..|pieces| - 1], make)[pieces[|pieces| - 1] := make(pieces[|pieces| - 1])]
  }

  /** `new`: the blocks of exactly the given placed pieces, the nodes and the spawn position kept. */
  function New(clippedBoard: ClippedBoard, placedPieces: seq<PlacedPiece>, nodes: Nodes, spawn: (int, int),
               make: PlacedPiece -> PlacedPieceBlocks, lands: (seq<PlacedPieceBlocks>, PlacedPieceBlocks) -> bool)
    : (r: Aggregator)
    ensures r.clippedBoard == clippedBoard && r.nodes == nodes && r.spawn == spawn
    ensures forall p :: p in r.blocksOf <==> p in placedPieces
    ensures forall p :: p in r.blocksOf ==> r.blocksOf[p] == make(p)
  {
    Aggregator(clippedBoard, BlocksMap(placedPieces, make), nodes, spawn, lands)
  }

  /**
   * What the walk needs of the nodes: the items of an index node exist,
   * hold a piece the aggregator knows, and lead to a later index node; a
   * passing index node leads to a later one.
   */
  ghost predicate Linked(ag: Aggregator)
  {
    var idx, items := ag.nodes.indexes, ag.nodes.items;
    forall i :: 0 <= i < |idx| ==>
      match idx[i]
      case ToItem(n, len) =>
        && n + len <= |items|
        && forall j :: n <= j < n + len ==>
             i < items[j].nextIndexId < |idx| && items[j].placedPiece in ag.blocksOf
      case ToNextIndex(next) => i < next < |idx|
      case _ => true
  }

  predicate Overlaps(a: set<nat>, b: set<nat>)
  {
    a * b != {}
  }

  /** `inserted` after the loop over `placed[i..]`: the first of them whose intercepted rows meet the rows `current` uses, or the end. */
  function FirstOverlap(placed: seq<PlacedPieceBlocks>, current: PlacedPieceBlocks, i: nat): (r: nat)
    requires i <= |placed|
    ensures i <= r <= |placed|
    ensures r < |placed| ==> Overlaps(placed[r].interceptedRows, current.usingRows)
    ensures forall k :: i <= k < r ==> !Overlaps(placed[k].interceptedRows, current.usingRows)
    decreases |placed| - i
  {
    if i == |placed| then |placed|
    else if Overlaps(placed[i].interceptedRows, current.usingRows) then i
    else FirstOverlap(placed, current, i + 1)
  }

  /** `filled_rows` after the loop over `placed[i..]`: the rows used by those of them whose intercepted rows meet the rows `current` uses. */
  function FilledFrom(placed: seq<PlacedPieceBlocks>, current: PlacedPieceBlocks, i: nat): (r: set<nat>)
    requires i <= |placed|
    ensures forall y :: y in r <==>
      exists k :: i <= k < |placed| && Overlaps(placed[k].interceptedRows, current.usingRows) && y in placed[k].usingRows
    decreases |placed| - i
  {
    if i == |placed| then {}
    else
      var rest := FilledFrom(placed, current, i + 1);
      var here := if Overlaps(placed[i].interceptedRows, current.usingRows) then placed[i].usingRows else {};
      assert forall y :: y in rest ==>
        exists k :: i <= k < |placed| && Overlaps(placed[k].interceptedRows, current.usingRows) && y in placed[k].usingRows;
      here + rest
  }

  /**
   * The loop over the placed pieces from the last to the first: `current`
   * goes before the first piece that stands on a row it uses (or at the
   * end), and `filled` holds the rows used by every such piece.
   */
  method InsertionPoint(placed: seq<PlacedPieceBlocks>, current: PlacedPieceBlocks) returns (inserted: nat, filled: set<nat>)
    ensures inserted == FirstOverlap(placed, current, 0) && filled == FilledFrom(placed, current, 0)
  {
    inserted := |placed|;
    filled := {};
    var index: nat := |placed|;
    while index > 0
      invariant index <= |placed|
      invariant inserted == FirstOverlap(placed, current, index) && filled == FilledFrom(placed, current, index)
    {
      index := index - 1;
      if Overlaps(placed[index].interceptedRows, current.usingRows) {
        inserted := index;
        filled := placed[index].usingRows + filled;
      }
    }
  }

  function Insert<T>(s: seq<T>, i: nat, x: T): (r: seq<T>)
    requires i <= |s|
    ensures |r| == |s| + 1 && r[i] == x && r[..i] == s[..i] && r[i + 1..] == s[i..]
  {
    s[..i] + [x] + s[i..]
  }

  /** Removing at the same index what was inserted there gives the sequence back. */
  lemma RemoveInserted<T>(s: seq<T>, i: nat, x: T)
    requires i <= |s|
    ensures Insert(s, i, x)[..i] + Insert(s, i, x)[i + 1..] == s
  {
    assert s[..i] + s[i..] == s;
  }

  /** The later pieces among `placed[index + 1..j]` that stand on a row `placed[index]` uses, in order. */
  function DependentsUpTo(placed: seq<PlacedPieceBlocks>, index: nat, j: nat): (r: seq<PlacedPieceBlocks>)
    requires index < |placed| && j <= |placed|
    ensures forall b :: b in r ==>
      exists k :: index < k < j && b == placed[k] && Overlaps(placed[k].interceptedRows, placed[index].usingRows)
    ensures forall k :: index < k < j && Overlaps(placed[k].interceptedRows, placed[index].usingRows) ==> placed[k] in r
  {
    if j <= index + 1 then []
    else
      DependentsUpTo(placed, index, j - 1) +
      (if Overlaps(placed[j - 1].interceptedRows, placed[index].usingRows) then [placed[j - 1]] else [])
  }

  function Dependents(placed: seq<PlacedPieceBlocks>, index: nat): seq<PlacedPieceBlocks>
    requires index < |placed|
  {
    DependentsUpTo(placed, index, |placed|)
  }

  /**
   * The check of a complete node: every piece that later pieces stand on
   * still lands once those pieces are taken off and its intercepted rows
   * cleared.
   */
  predicate Stackable(ag: Aggregator, placed: seq<PlacedPieceBlocks>)
  {
    forall index :: 0 <= index < |placed| ==>
      Dependents(placed, index) == [] || ag.lands(Dependents(placed, index), placed[index])
  }

  /** The loop of a complete node, which stops at the first piece that does not land; it reads the last piece, so there is one. */
  method IsStackable(ag: Aggregator, placed: seq<PlacedPieceBlocks>) returns (ok: bool)
    requires placed != []
    ensures ok == Stackable(ag, placed)
  {
    ok := true;
    var index := 0;
    while index < |placed|
      invariant index <= |placed|
      invariant forall k :: 0 <= k < index ==> Dependents(placed, k) == [] || ag.lands(Dependents(placed, k), placed[k])
    {
      var dependents := [];
      var j := index + 1;
      while j < |placed|
        invariant index + 1 <= j <= |placed|
        invariant dependents == DependentsUpTo(placed, index, j)
      {
        if Overlaps(placed[j].interceptedRows, placed[index].usingRows) {
          dependents := dependents + [placed[j]];
        }
        j := j + 1;
      }
      if dependents != [] && !ag.lands(dependents, placed[index]) {
        ok := false;
        return;
      }
      index := index + 1;
    }
  }

  /** What the order search uses of the board library: the board, `place_according_to`, `can_reach` after clearing, and `set_all`. */
  datatype BoardOps<!B, !P> = BoardOps(
    board: B,
    placeOn: (B, PlacedPieceBlocks) -> Option<P>,
    reaches: (B, P) -> bool,
    setAll: (B, PlacedPieceBlocks) -> B)

  /**
   * The three checkers: by shape counters (the order from
   * `find_one_stackable`), and by pattern with and without hold (the order
   * from `visit_all_dyn` with a fresh matcher for every call).
   */
  datatype Checker<!B, !P> =
    | CountersChecker(counters: seq<ShapeCounter>, findOneStackable: seq<PlacedPieceBlocks> -> Option<seq<PlacedPieceBlocks>>)
    | HoldChecker(counters: seq<ShapeCounter>, holdMatcher: HSM.ShapeMatcher2, ops: BoardOps<B, P>)
    | NoHoldChecker(counters: seq<ShapeCounter>, matcher: PSM.PatternShapeMatcher, ops: BoardOps<B, P>)

  predicate AllValid(counters: seq<ShapeCounter>)
  {
    forall k :: 0 <= k < |counters| ==> counters[k].Valid()
  }

  function ShapeOfBlocks(b: PlacedPieceBlocks): Shape
  {
    b.placedPiece.piece.shape
  }

  function ShapesOf(placed: seq<PlacedPieceBlocks>): (r: seq<Shape>)
    ensures |r| == |placed| && forall k :: 0 <= k < |placed| ==> r[k] == placed[k].placedPiece.piece.shape
  {
    seq(|placed|, k requires 0 <= k < |placed| => ShapeOfBlocks(placed[k]))
  }

  function PiecesOf(refs: seq<PlacedPieceBlocks>): (r: seq<PlacedPiece>)
    ensures |r| == |refs| && forall k :: 0 <= k < |refs| ==> r[k] == refs[k].placedPiece
  {
    seq(|refs|, k requires 0 <= k < |refs| => refs[k].placedPiece)
  }

  /** `any(contains_all)`: some counter holds at least the shapes of `c`. */
  predicate AnyContainsAll(counters: seq<ShapeCounter>, c: ShapeCounter)
    requires AllValid(counters) && c.Valid()
  {
    exists k :: 0 <= k < |counters| && ContainsAll(counters[k], c)
  }

  /** The hold matcher's step; the matchers `new` builds are valid and stay so. */
  function HoldStep(m: HSM.ShapeMatcher2, s: Shape): (bool, HSM.ShapeMatcher2)
  {
    HSM.Step(m, s)
  }

  /** The pattern matcher's step; the matchers `new` builds are valid and stay so. */
  function NoHoldStep(m: PSM.PatternShapeMatcher, s: Shape): (bool, PSM.PatternShapeMatcher)
  {
    if PSM.Valid(m) then PSM.MatchShape(m, s) else (false, m)
  }

  /** The validator of `save_if_need`: a placement is pruned when it cannot be reached on the board after clearing. */
  function Validator<B, P>(ops: BoardOps<B, P>): (B, P) -> bool
  {
    (b: B, pl: P) => !ops.reaches(b, pl)
  }

  function HoldEnv<B, P>(ops: BoardOps<B, P>, placed: seq<PlacedPieceBlocks>): Env<B, HSM.ShapeMatcher2, P, PlacedPieceBlocks>
  {
    Env(placed, ShapeOfBlocks, HoldStep, ops.placeOn, Validator(ops), ops.setAll)
  }

  function NoHoldEnv<B, P>(ops: BoardOps<B, P>, placed: seq<PlacedPieceBlocks>): Env<B, PSM.PatternShapeMatcher, P, PlacedPieceBlocks>
  {
    Env(placed, ShapeOfBlocks, NoHoldStep, ops.placeOn, Validator(ops), ops.setAll)
  }

  /**
   * `save_if_need`: nothing when no counter holds the shapes of the pieces;
   * otherwise the pieces in the order the checker's search finds, if it
   * finds one.
   */
  function Saved<B, P>(ck: Checker<B, P>, placed: seq<PlacedPieceBlocks>): Option<seq<PlacedPiece>>
    requires AllValid(ck.counters)
  {
    if !AnyContainsAll(ck.counters, Of(ShapesOf(placed))) then None
    else
      match ck
      case CountersChecker(_, find) =>
        (match find(placed)
         case Some(flow) => Some(PiecesOf(flow))
         case None => None)
      case HoldChecker(_, m, ops) =>
        var env := HoldEnv(ops, placed);
        if placed == [] then None
        else
          (match Search(env, ops.board, Range(|placed|), m)
           case Some(path) => Some(PiecesOf(Refs(placed, path)))
           case None => None)
      case NoHoldChecker(_, m, ops) =>
        var env := NoHoldEnv(ops, placed);
        if placed == [] then None
        else
          (match Search(env, ops.board, Range(|placed|), m)
           case Some(path) => Some(PiecesOf(Refs(placed, path)))
           case None => None)
  }

  function ListOf<T>(o: Option<T>): seq<T>
  {
    match o
    case Some(x) => [x]
    case None => []
  }

  /**
   * A checker keeps pieces only when one of its counters holds their
   * shapes; the pattern checkers keep them in an order that uses every
   * piece once and whose every step the matcher and the validator accept.
   */
  lemma SavedSound<B, P>(ck: Checker<B, P>, placed: seq<PlacedPieceBlocks>)
    requires AllValid(ck.counters)
    ensures Saved(ck, placed).Some? ==> AnyContainsAll(ck.counters, Of(ShapesOf(placed)))
    ensures ck.HoldChecker? && Saved(ck, placed).Some? ==>
      exists path :: && IsOrderOf(path, Range(|placed|))
                     && Accepts(HoldEnv(ck.ops, placed), ck.ops.board, ck.holdMatcher, path)
                     && Saved(ck, placed).value == PiecesOf(Refs(placed, path))
    ensures ck.NoHoldChecker? && Saved(ck, placed).Some? ==>
      exists path :: && IsOrderOf(path, Range(|placed|))
                     && Accepts(NoHoldEnv(ck.ops, placed), ck.ops.board, ck.matcher, path)
                     && Saved(ck, placed).value == PiecesOf(Refs(placed, path))
  {
    if ck.HoldChecker? && placed != [] {
      SearchSound(HoldEnv(ck.ops, placed), ck.ops.board, Range(|placed|), ck.holdMatcher);
    }
    if ck.NoHoldChecker? && placed != [] {
      SearchSound(NoHoldEnv(ck.ops, placed), ck.ops.board, Range(|placed|), ck.matcher);
    }
  }

  /** The pieces the walk from index node `i` records, with `placed` placed so far. */
  function Collect<B, P>(ag: Aggregator, ck: Checker<B, P>, i: nat, placed: seq<PlacedPieceBlocks>): seq<seq<PlacedPiece>>
    requires Linked(ag) && i < |ag.nodes.indexes| && AllValid(ck.counters)
    decreases |ag.nodes.indexes| - i, 2, 0
  {
    match ag.nodes.indexes[i]
    case ToItem(n, len) => CollectItems(ag, ck, i, n + len, placed)
    case ToNextIndex(next) => Collect(ag, ck, next, placed)
    case Complete => if placed != [] && Stackable(ag, placed) then ListOf(Saved(ck, placed)) else []
    case Abort => []
  }

  /** The items of index node `i` before item `hi`, in turn. */
  function CollectItems<B, P>(ag: Aggregator, ck: Checker<B, P>, i: nat, hi: nat, placed: seq<PlacedPieceBlocks>)
    : seq<seq<PlacedPiece>>
    requires Linked(ag) && i < |ag.nodes.indexes| && AllValid(ck.counters) && ag.nodes.indexes[i].ToItem?
    requires ag.nodes.indexes[i].nextItemId <= hi <= ag.nodes.indexes[i].nextItemId + ag.nodes.indexes[i].itemLength
    decreases |ag.nodes.indexes| - i, 1, hi
  {
    if hi == ag.nodes.indexes[i].nextItemId then []
    else CollectItems(ag, ck, i, hi - 1, placed) + CollectItem(ag, ck, i, hi - 1, placed)
  }

  /** The solutions before item `j` and those of item `j` are the solutions before item `j + 1`. */
  lemma ItemsInvariantStep<B, P>(ag: Aggregator, ck: Checker<B, P>, i: nat, j: nat, placed: seq<PlacedPieceBlocks>,
                                 start: seq<seq<PlacedPiece>>, mid: seq<seq<PlacedPiece>>, after: seq<seq<PlacedPiece>>)
    requires Linked(ag) && i < |ag.nodes.indexes| && AllValid(ck.counters) && ag.nodes.indexes[i].ToItem?
    requires ag.nodes.indexes[i].nextItemId <= j < ag.nodes.indexes[i].nextItemId + ag.nodes.indexes[i].itemLength
    requires mid == start + CollectItems(ag, ck, i, j, placed) && after == mid + CollectItem(ag, ck, i, j, placed)
    ensures after == start + CollectItems(ag, ck, i, j + 1, placed)
  {
    CollectItemsStep(ag, ck, i, j, placed);
  }

  lemma CollectItemsStep<B, P>(ag: Aggregator, ck: Checker<B, P>, i: nat, j: nat, placed: seq<PlacedPieceBlocks>)
    requires Linked(ag) && i < |ag.nodes.indexes| && AllValid(ck.counters) && ag.nodes.indexes[i].ToItem?
    requires ag.nodes.indexes[i].nextItemId <= j < ag.nodes.indexes[i].nextItemId + ag.nodes.indexes[i].itemLength
    ensures CollectItems(ag, ck, i, j + 1, placed) == CollectItems(ag, ck, i, j, placed) + CollectItem(ag, ck, i, j, placed)
  {
  }

  /**
   * One item: skipped when its piece's intercepted rows meet the rows of
   * the pieces that must come after it; otherwise the walk from the item's
   * next index node with the piece inserted before those pieces.
   */
  function CollectItem<B, P>(ag: Aggregator, ck: Checker<B, P>, i: nat, j: nat, placed: seq<PlacedPieceBlocks>)
    : seq<seq<PlacedPiece>>
    requires Linked(ag) && i < |ag.nodes.indexes| && AllValid(ck.counters) && ag.nodes.indexes[i].ToItem?
    requires ag.nodes.indexes[i].nextItemId <= j < ag.nodes.indexes[i].nextItemId + ag.nodes.indexes[i].itemLength
    decreases |ag.nodes.indexes| - i, 0, 0
  {
    var item := ag.nodes.items[j];
    var current := ag.blocksOf[item.placedPiece];
    if Overlaps(current.interceptedRows, FilledFrom(placed, current, 0)) then []
    else Collect(ag, ck, item.nextIndexId, Insert(placed, FirstOverlap(placed, current, 0), current))
  }

  /** Whether passing index nodes from `i` lead to an index node with items (or an abort) before a complete node. */
  ghost predicate LeadsToItem(ag: Aggregator, i: nat)
    requires Linked(ag) && i < |ag.nodes.indexes|
    decreases |ag.nodes.indexes| - i
  {
    match ag.nodes.indexes[i]
    case ToItem(_, _) => true
    case ToNextIndex(next) => LeadsToItem(ag, next)
    case Complete => false
    case Abort => true
  }

  function Max(a: nat, b: nat): nat
  {
    if a < b then b else a
  }

  /** The most items a walk from index node `i` passes. */
  ghost function Depth(ag: Aggregator, i: nat): nat
    requires Linked(ag) && i < |ag.nodes.indexes|
    decreases |ag.nodes.indexes| - i, 1, 0
  {
    match ag.nodes.indexes[i]
    case ToItem(n, len) => DepthItems(ag, i, n + len)
    case ToNextIndex(next) => Depth(ag, next)
    case _ => 0
  }

  ghost function DepthItems(ag: Aggregator, i: nat, hi: nat): nat
    requires Linked(ag) && i < |ag.nodes.indexes| && ag.nodes.indexes[i].ToItem?
    requires ag.nodes.indexes[i].nextItemId <= hi <= ag.nodes.indexes[i].nextItemId + ag.nodes.indexes[i].itemLength
    decreases |ag.nodes.indexes| - i, 0, hi
  {
    if hi == ag.nodes.indexes[i].nextItemId then 0
    else Max(DepthItems(ag, i, hi - 1), 1 + Depth(ag, ag.nodes.items[hi - 1].nextIndexId))
  }

  /** Each item of an index node is one more piece before the walk from its next index node. */
  lemma {:induction false} DepthItemsBound(ag: Aggregator, i: nat, j: nat, hi: nat)
    requires Linked(ag) && i < |ag.nodes.indexes| && ag.nodes.indexes[i].ToItem?
    requires ag.nodes.indexes[i].nextItemId <= j < hi <= ag.nodes.indexes[i].nextItemId + ag.nodes.indexes[i].itemLength
    ensures 1 + Depth(ag, ag.nodes.items[j].nextIndexId) <= DepthItems(ag, i, hi)
    decreases hi
  {
    if j < hi - 1 {
      DepthItemsBound(ag, i, j, hi - 1);
    }
  }

  /**
   * What the walk from `i` with `placed` needs so that it does not panic:
   * a complete node is never reached with no piece placed, and the pattern
   * checkers never get 64 pieces or more.
   */
  ghost predicate Bounded<B, P>(ag: Aggregator, ck: Checker<B, P>, i: nat, placed: seq<PlacedPieceBlocks>)
    requires Linked(ag) && i < |ag.nodes.indexes|
  {
    && (placed != [] || LeadsToItem(ag, i))
    && (ck.CountersChecker? || |placed| + Depth(ag, i) < 64)
  }

  /** `aggregate_recursively` and its checker: the pieces placed so far and the solutions recorded. */
  class Aggregation<B, P> {
    const ag: Aggregator
    const ck: Checker<B, P>
    var placedPieces: seq<PlacedPieceBlocks>
    var solutions: seq<seq<PlacedPiece>>

    constructor (ag: Aggregator, ck: Checker<B, P>)
      ensures this.ag == ag && this.ck == ck && placedPieces == [] && solutions == []
    {
      this.ag := ag;
      this.ck := ck;
      placedPieces := [];
      solutions := [];
    }

    /** `save_if_need`: records what the checker keeps of the pieces placed. */
    method SaveIfNeed()
      requires AllValid(ck.counters)
      requires ck.CountersChecker? || |placedPieces| < 64
      modifies this
      ensures placedPieces == old(placedPieces)
      ensures solutions == old(solutions) + ListOf(Saved(ck, placedPieces))
    {
      var counter := Of(ShapesOf(placedPieces));
      if !AnyContainsAll(ck.counters, counter) {
        return;
      }
      match ck
      case CountersChecker(_, find) =>
        var flow := find(placedPieces);
        if flow.Some? {
          solutions := solutions + [PiecesOf(flow.value)];
        }
      case HoldChecker(_, m, ops) =>
        var flow := VisitAllDyn(HoldEnv(ops, placedPieces), ops.board, m);
        if flow.Some? {
          solutions := solutions + [PiecesOf(flow.value.refs)];
        }
      case NoHoldChecker(_, m, ops) =>
        var flow := VisitAllDyn(NoHoldEnv(ops, placedPieces), ops.board, m);
        if flow.Some? {
          solutions := solutions + [PiecesOf(flow.value.refs)];
        }
    }

    /**
     * `aggregate_recursively`: records the solutions `Collect` specifies,
     * in that order, and leaves the pieces placed as it found them.
     */
    method AggregateRecursively(indexId: nat)
      requires Linked(ag) && indexId < |ag.nodes.indexes| && AllValid(ck.counters)
      requires Bounded(ag, ck, indexId, placedPieces)
      modifies this
      ensures placedPieces == old(placedPieces)
      ensures solutions == old(solutions) + Collect(ag, ck, indexId, old(placedPieces))
      decreases |ag.nodes.indexes| - indexId, 1
    {
      match ag.nodes.indexes[indexId]
      case ToItem(n, len) =>
        AggregateItems(indexId);
      case ToNextIndex(next) =>
        AggregateRecursively(next);
      case Complete =>
        var ok := IsStackable(ag, placedPieces);
        if ok {
          SaveIfNeed();
        }
      case Abort =>
    }

    /** The loop over the items of an index node. */
    method AggregateItems(indexId: nat)
      requires Linked(ag) && indexId < |ag.nodes.indexes| && AllValid(ck.counters) && ag.nodes.indexes[indexId].ToItem?
      requires Bounded(ag, ck, indexId, placedPieces)
      modifies this
      ensures placedPieces == old(placedPieces)
      ensures solutions == old(solutions) + CollectItems(ag, ck, indexId, ag.nodes.indexes[indexId].nextItemId + ag.nodes.indexes[indexId].itemLength, old(placedPieces))
      decreases |ag.nodes.indexes| - indexId, 0
    {
      var n, len := ag.nodes.indexes[indexId].nextItemId, ag.nodes.indexes[indexId].itemLength;
      for j := n to n + len
        invariant placedPieces == old(placedPieces)
        invariant solutions == old(solutions) + CollectItems(ag, ck, indexId, j, placedPieces)
      {
        ghost var mid := solutions;
        AggregateItem(indexId, j);
        ItemsInvariantStep(ag, ck, indexId, j, placedPieces, old(solutions), mid, solutions);
      }
    }

    /** One item of the loop of `aggregate_recursively`: insert the piece, walk on, remove it again. */
    method AggregateItem(indexId: nat, j: nat)
      requires Linked(ag) && indexId < |ag.nodes.indexes| && AllValid(ck.counters) && ag.nodes.indexes[indexId].ToItem?
      requires ag.nodes.indexes[indexId].nextItemId <= j < ag.nodes.indexes[indexId].nextItemId + ag.nodes.indexes[indexId].itemLength
      requires Bounded(ag, ck, indexId, placedPieces)
      modifies this
      ensures placedPieces == old(placedPieces)
      ensures solutions == old(solutions) + CollectItem(ag, ck, indexId, j, old(placedPieces))
      decreases |ag.nodes.indexes| - indexId, -1
    {
      var item := ag.nodes.items[j];
      var current := ag.blocksOf[item.placedPiece];
      var inserted, filled := InsertionPoint(placedPieces, current);
      if Overlaps(current.interceptedRows, filled) {
        return;
      }
      ghost var before := placedPieces;
      placedPieces := Insert(placedPieces, inserted, current);
      DepthItemsBound(ag, indexId, j, ag.nodes.indexes[indexId].nextItemId + ag.nodes.indexes[indexId].itemLength);
      AggregateRecursively(item.nextIndexId);
      RemoveInserted(before, inserted, current);
      placedPieces := placedPieces[..inserted] + placedPieces[inserted + 1..];
    }
  }

  /** `s` is what the checker kept of some non-empty stackable set of placed pieces. */
  ghost predicate Kept<B, P>(ag: Aggregator, ck: Checker<B, P>, s: seq<PlacedPiece>)
    requires AllValid(ck.counters)
  {
    exists ps :: ps != [] && Stackable(ag, ps) && Saved(ck, ps) == Some(s)
  }

  /** Every solution the walk records is what the checker kept of a stackable set of placed pieces. */
  lemma CollectSound<B, P>(ag: Aggregator, ck: Checker<B, P>, i: nat, placed: seq<PlacedPieceBlocks>)
    requires Linked(ag) && i < |ag.nodes.indexes| && AllValid(ck.counters)
    ensures forall s :: s in Collect(ag, ck, i, placed) ==> Kept(ag, ck, s)
  {
    forall s | s in Collect(ag, ck, i, placed)
      ensures Kept(ag, ck, s)
    {
      var ps := CollectWitness(ag, ck, i, placed, s);
    }
  }

  /** The pieces a recorded solution was kept from. */
  lemma {:induction false} CollectWitness<B, P>(ag: Aggregator, ck: Checker<B, P>, i: nat, placed: seq<PlacedPieceBlocks>,
                                                s: seq<PlacedPiece>) returns (ps: seq<PlacedPieceBlocks>)
    requires Linked(ag) && i < |ag.nodes.indexes| && AllValid(ck.counters)
    requires s in Collect(ag, ck, i, placed)
    ensures ps != [] && Stackable(ag, ps) && Saved(ck, ps) == Some(s)
    decreases |ag.nodes.indexes| - i, 2, 0
  {
    CollectUnfold(ag, ck, i, placed);
    match ag.nodes.indexes[i]
    case ToItem(n, len) =>
      ps := CollectItemsWitness(ag, ck, i, n + len, placed, s);
    case ToNextIndex(next) =>
      ps := CollectWitness(ag, ck, next, placed, s);
    case Complete =>
      CompleteSaved(ag, ck, placed, s);
      ps := placed;
  }

  lemma CompleteSaved<B, P>(ag: Aggregator, ck: Checker<B, P>, placed: seq<PlacedPieceBlocks>, s: seq<PlacedPiece>)
    requires AllValid(ck.counters)
    requires s in (if placed != [] && Stackable(ag, placed) then ListOf(Saved(ck, placed)) else [])
    ensures placed != [] && Stackable(ag, placed) && Saved(ck, placed) == Some(s)
  {
  }

  lemma CollectUnfold<B, P>(ag: Aggregator, ck: Checker<B, P>, i: nat, placed: seq<PlacedPieceBlocks>)
    requires Linked(ag) && i < |ag.nodes.indexes| && AllValid(ck.counters)
    ensures ag.nodes.indexes[i].ToItem? ==>
      Collect(ag, ck, i, placed) == CollectItems(ag, ck, i, ag.nodes.indexes[i].nextItemId + ag.nodes.indexes[i].itemLength, placed)
    ensures ag.nodes.indexes[i].ToNextIndex? ==> Collect(ag, ck, i, placed) == Collect(ag, ck, ag.nodes.indexes[i].nextIndexId, placed)
    ensures ag.nodes.indexes[i].Complete? ==>
      Collect(ag, ck, i, placed) == if placed != [] && Stackable(ag, placed) then ListOf(Saved(ck, placed)) else []
    ensures ag.nodes.indexes[i].Abort? ==> Collect(ag, ck, i, placed) == []
  {
  }

  lemma CollectItemsSplit<B, P>(ag: Aggregator, ck: Checker<B, P>, i: nat, j: nat, placed: seq<PlacedPieceBlocks>,
                                s: seq<PlacedPiece>)
    requires Linked(ag) && i < |ag.nodes.indexes| && AllValid(ck.counters) && ag.nodes.indexes[i].ToItem?
    requires ag.nodes.indexes[i].nextItemId <= j < ag.nodes.indexes[i].nextItemId + ag.nodes.indexes[i].itemLength
    requires s in CollectItems(ag, ck, i, j + 1, placed)
    ensures s in CollectItems(ag, ck, i, j, placed) || s in CollectItem(ag, ck, i, j, placed)
  {
    CollectItemsStep(ag, ck, i, j, placed);
  }

  lemma {:induction false} CollectItemsWitness<B, P>(ag: Aggregator, ck: Checker<B, P>, i: nat, hi: nat,
                                                     placed: seq<PlacedPieceBlocks>, s: seq<PlacedPiece>)
    returns (ps: seq<PlacedPieceBlocks>)
    requires Linked(ag) && i < |ag.nodes.indexes| && AllValid(ck.counters) && ag.nodes.indexes[i].ToItem?
    requires ag.nodes.indexes[i].nextItemId <= hi <= ag.nodes.indexes[i].nextItemId + ag.nodes.indexes[i].itemLength
    requires s in CollectItems(ag, ck, i, hi, placed)
    ensures ps != [] && Stackable(ag, ps) && Saved(ck, ps) == Some(s)
    decreases |ag.nodes.indexes| - i, 1, hi
  {
    if hi != ag.nodes.indexes[i].nextItemId {
      CollectItemsSplit(ag, ck, i, hi - 1, placed, s);
      if s in CollectItems(ag, ck, i, hi - 1, placed) {
        ps := CollectItemsWitness(ag, ck, i, hi - 1, placed, s);
      } else {
        var item := ag.nodes.items[hi - 1];
        var current := ag.blocksOf[item.placedPiece];
        ps := CollectWitness(ag, ck, item.nextIndexId, Insert(placed, FirstOverlap(placed, current, 0), current), s);
      }
    }
  }

  /** `aggregate_with_*` on no index node: no solution. Otherwise the walk from the head node with nothing placed. */
  method AggregateWith<B, P>(ag: Aggregator, ck: Checker<B, P>) returns (r: PS.PcSolutions)
    requires Linked(ag) && AllValid(ck.counters)
    requires ag.nodes.indexes != [] ==> Bounded(ag, ck, 0, [])
    ensures r.clippedBoard == ag.clippedBoard
    ensures ag.nodes.indexes == [] ==> r == PS.Empty(ag.clippedBoard)
    ensures ag.nodes.indexes != [] ==> r.placedPieces == Collect(ag, ck, 0, [])
  {
    if ag.nodes.indexes == [] {
      return PS.Empty(ag.clippedBoard);
    }
    var aggregation := new Aggregation(ag, ck);
    aggregation.AggregateRecursively(0);
    r := PS.PcSolutions(ag.clippedBoard, aggregation.solutions);
  }

  /** `aggregate_with_shape_counters`: the walk with the counters checker. */
  method AggregateWithShapeCounters<B, P>(ag: Aggregator, counters: seq<ShapeCounter>,
                                          findOneStackable: seq<PlacedPieceBlocks> -> Option<seq<PlacedPieceBlocks>>)
    returns (r: PS.PcSolutions)
    requires Linked(ag) && AllValid(counters)
    requires ag.nodes.indexes != [] ==> LeadsToItem(ag, 0)
    ensures r.clippedBoard == ag.clippedBoard
    ensures ag.nodes.indexes == [] ==> r == PS.Empty(ag.clippedBoard)
    ensures ag.nodes.indexes != [] ==> r.placedPieces == Collect(ag, Checker<B, P>.CountersChecker(counters, findOneStackable), 0, [])
  {
    r := AggregateWith(ag, Checker<B, P>.CountersChecker(counters, findOneStackable));
  }

  /** The counters of a pattern are valid. */
  lemma PatternCountersValid(p: Pattern)
    requires Patterns.Expandable(p)
    ensures AllValid(ToShapeCounterVec(p))
  {
    ToShapeCounterVecSpec(p);
    forall k | 0 <= k < |ToShapeCounterVec(p)| ensures ToShapeCounterVec(p)[k].Valid() {
      assert ToShapeCounterVec(p)[k] in ToShapeCounterVec(p);
      var v :| v in ShapesVecOf(p) && Of(v) == ToShapeCounterVec(p)[k];
    }
  }

  /** The shape counters of a pattern, which are valid. */
  function PatternCounters(p: Pattern): (r: seq<ShapeCounter>)
    requires Patterns.Expandable(p)
    ensures AllValid(r)
    ensures forall v :: v in ShapesVecOf(p) ==> Of(v) in r
    ensures forall x :: x in r ==> exists v :: v in ShapesVecOf(p) && Of(v) == x
  {
    PatternCountersValid(p);
    ToShapeCounterVecSpec(p);
    ToShapeCounterVec(p)
  }

  /** `aggregate_with_pattern_allows_no_hold`: the walk with the pattern's counters and a pattern matcher. */
  method AggregateWithPatternAllowsNoHold<B, P>(ag: Aggregator, pattern: Pattern, ops: BoardOps<B, P>)
    returns (r: PS.PcSolutions)
    requires Linked(ag) && Patterns.Expandable(pattern) && pattern.elements != []
    requires ag.nodes.indexes != [] ==> LeadsToItem(ag, 0) && Depth(ag, 0) < 64
    ensures r.clippedBoard == ag.clippedBoard
    ensures ag.nodes.indexes == [] ==> r == PS.Empty(ag.clippedBoard)
    ensures ag.nodes.indexes != [] ==>
      r.placedPieces == Collect(ag, NoHoldChecker(PatternCounters(pattern), PSM.New(pattern), ops), 0, [])
  {
    var matcher := PSM.New(pattern);
    r := AggregateWith(ag, NoHoldChecker(PatternCounters(pattern), matcher, ops));
  }

  /** The shares of the flattened pattern name expandable elements that can be shared. */
  lemma {:induction false} FlattenSharesValid(p: Pattern, i: nat)
    requires Patterns.Expandable(p) && i <= |p.elements|
    ensures HSM.SharesValid(p, HEP.FlattenFrom(p.elements, i))
    decreases |p.elements| - i
  {
    if i < |p.elements| {
      FlattenSharesValid(p, i + 1);
      var w := HEP.FlattenFrom(p.elements, i);
      var here := HEP.ToHoldElements(i, p.elements[i]);
      assert w == here + HEP.FlattenFrom(p.elements, i + 1);
      forall k | 0 <= k < |w| && w[k].Shared?
        ensures w[k].element < |p.elements| && HSM.SharedKind(p.elements[w[k].element])
        ensures PE.Expandable(p.elements[w[k].element])
      {
        if k < |here| {
          assert w[k] == here[k];
          assert here[k].element == i;
        } else {
          assert w[k] == HEP.FlattenFrom(p.elements, i + 1)[k - |here|];
        }
      }
    }
  }

  /** Vectors with the same slots share the same elements. */
  lemma SharesOfPermutation(p: Pattern, v: seq<HEP.HoldElement>, w: seq<HEP.HoldElement>)
    requires multiset(v) == multiset(w) && HSM.SharesValid(p, w)
    ensures HSM.SharesValid(p, v)
  {
    forall k | 0 <= k < |v| && v[k].Shared?
      ensures v[k].element < |p.elements| && HSM.SharedKind(p.elements[v[k].element])
      ensures PE.Expandable(p.elements[v[k].element])
    {
      assert v[k] in multiset(v);
      assert v[k] in w;
    }
  }

  /** The vectors of a pattern expanded by hold are non-empty and share only what the pattern can share. */
  lemma ExpandedValid(p: Pattern, h: HEP.HoldExpandedPattern)
    requires Patterns.Expandable(p) && 0 < |HEP.ElementSequence(p)| && h.pattern == p
    requires HEP.ElementSequence(p) in h.expanded
    requires forall v :: v in h.expanded ==> multiset(v) == multiset(HEP.ElementSequence(p))
    ensures 0 < |h.expanded| && (forall k :: 0 <= k < |h.expanded| ==> h.expanded[k] != [])
    ensures HSM.PatternValid(h)
  {
    FlattenSharesValid(p, 0);
    forall k | 0 <= k < |h.expanded| ensures HSM.SharesValid(p, h.expanded[k]) && h.expanded[k] != [] {
      assert h.expanded[k] in h.expanded;
      SharesOfPermutation(p, h.expanded[k], HEP.ElementSequence(p));
    }
  }

  /** `aggregate_with_pattern_allows_hold`: the walk with the pattern's counters and a matcher of the pattern expanded by hold. */
  method AggregateWithPatternAllowsHold<B, P>(ag: Aggregator, pattern: Pattern, ops: BoardOps<B, P>)
    returns (r: PS.PcSolutions)
    requires Linked(ag) && Patterns.Expandable(pattern) && 0 < |HEP.ElementSequence(pattern)|
    requires ag.nodes.indexes != [] ==> LeadsToItem(ag, 0) && Depth(ag, 0) < 64
    ensures r.clippedBoard == ag.clippedBoard
    ensures ag.nodes.indexes == [] ==> r == PS.Empty(ag.clippedBoard)
    ensures ag.nodes.indexes != [] ==>
      exists h: HEP.HoldExpandedPattern ::
        && h.pattern == pattern
        && (forall v :: v in h.expanded <==> v in HEP.Expansions(ShapeOrders.NewCursor(HEP.ElementSequence(pattern))))
        && 0 < |h.expanded| && (forall k :: 0 <= k < |h.expanded| ==> h.expanded[k] != [])
        && HSM.Valid(HSM.New(h))
        && r.placedPieces == Collect(ag, HoldChecker(PatternCounters(pattern), HSM.New(h), ops), 0, [])
  {
    if ag.nodes.indexes == [] {
      return PS.Empty(ag.clippedBoard);
    }
    var h := HEP.FromPattern(pattern);
    ExpandedValid(pattern, h);
    var matcher := HSM.New(h);
    r := AggregateWith(ag, HoldChecker(PatternCounters(pattern), matcher, ops));
  }
}
