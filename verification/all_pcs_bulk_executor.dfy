/**
 * The bulk executor of `bulk_executor.rs`: it builds the DAG of every way
 * to fill the board with the pieces of `make_predefines2`, then counts the
 * complete paths through it whose pieces can be put in, one after another,
 * in some order that the move rules can reach. A path is cut as soon as a
 * piece needs rows cleared that a later piece on the path must keep.
 */
module AllPcsBulkExecutors {
  import opened Wrappers
  import opened Boards
  import opened Masks
  import opened Pieces
  import opened ClippedBoards
  import opened Patterns
  import opened PredefinedPieces
  import opened AllPcsBulkPredefines
  import opened AllPcsNodes
  import B = AllPcsBuilders
  import Shapes

  /**
   * What the counting works on: the board and its height, the nodes, the
   * entries converted for counting, and the reachability test of the move
   * rules (`SRS` with soft drop): can `piece` reach the placement with its
   * lower-left corner at the column and row given, on the board given,
   * from a spawn at column 5 on the given row.
   */
  datatype Bulk = Bulk(board: Board, height: nat, indexes: seq<IndexNode>, items: seq<ItemNode>,
                       pre: seq<PiecePredefines3>, canReach: (Piece, int, int, Board, nat) -> bool)

  /** Every entry has a row, below the height. */
  predicate PreValid(pre: seq<PiecePredefines3>, height: nat)
  {
    forall m :: 0 <= m < |pre| ==> 1 <= |pre[m].ys| && forall k :: 0 <= k < |pre[m].ys| ==> pre[m].ys[k] < height
  }

  /**
   * What the counting needs of its input: a valid board of some height,
   * valid entries, every item naming an entry, and every node leading to
   * later index nodes.
   */
  ghost predicate Linked(bk: Bulk)
  {
    && bk.board.Valid() && 0 < bk.height && PreValid(bk.pre, bk.height)
    && forall i :: 0 <= i < |bk.indexes| ==>
      match bk.indexes[i]
      case Jump(n, len) =>
        && n + len <= |bk.items|
        && forall j :: n <= j < n + len ==>
             && MinoIndex(bk.items[j]) / Width < |bk.pre|
             && (bk.items[j].ToIndex? ==> i < bk.items[j].nextIndexId < |bk.indexes|)
      case Skip(next) => i < next < |bk.indexes|
      case ToHi => true
  }

  // ---------------------------------------------------------------------
  // The order search of `ok` and `ok2`.

  /** Every chosen node id names an entry. */
  predicate ChosenValid(bk: Bulk, chosen: seq<nat>)
  {
    forall k :: 0 <= k < |chosen| ==> chosen[k] / Width < |bk.pre|
  }

  /** The set of remaining pieces names chosen pieces. */
  predicate RestValid(chosen: seq<nat>, rest: set<nat>)
  {
    forall k :: k in rest ==> k < |chosen|
  }

  /** Row `y` of an entry put at column `lx`: the blocks of its locations moved right by `lx`. */
  function MinoRow(p: PiecePredefines3, lx: nat, y: int): (r: set<nat>)
    ensures forall x: nat :: x in r <==> x < Width && Location(x - lx, y) in p.locations
  {
    var r := set l | l in p.locations && l.y == y && 0 <= l.x + lx < Width :: (l.x + lx) as nat;
    assert forall x: nat :: x < Width && Location(x - lx, y) in p.locations ==> x in r by {
      forall x: nat | x < Width && Location(x - lx, y) in p.locations
        ensures x in r
      {
        var l := Location(x - lx, y);
        assert l.x + lx == x;
      }
    }
    r
  }

  /** The board of an entry put at column `lx`. */
  function MinoBoard(p: PiecePredefines3, lx: nat): (b: Board)
    ensures b.Valid()
    ensures forall y :: 0 <= y < Rows ==> b.rows[y] == MinoRow(p, lx, y)
  {
    Board(seq(Rows, y requires 0 <= y < Rows => MinoRow(p, lx, y)))
  }

  /** The board of the `k`-th chosen piece: the id names the entry and, modulo the width, the column. */
  function ChosenBoard(bk: Bulk, chosen: seq<nat>, k: nat): (b: Board)
    requires ChosenValid(bk, chosen) && k < |chosen|
    ensures b.Valid()
  {
    MinoBoard(bk.pre[chosen[k] / Width], chosen[k] % Width)
  }

  /** Row `y` of every chosen piece, in order. */
  function ChosenRows(bk: Bulk, chosen: seq<nat>, y: nat): (r: seq<set<nat>>)
    requires ChosenValid(bk, chosen) && y < Rows
    ensures |r| == |chosen| && forall k :: 0 <= k < |chosen| ==> r[k] == ChosenBoard(bk, chosen, k).rows[y]
  {
    seq(|chosen|, k requires 0 <= k < |chosen| => ChosenBoard(bk, chosen, k).rows[y])
  }

  /** `merge`: the blocks of both boards. */
  function Merge(a: Board, b: Board): (r: Board)
    requires a.Valid() && b.Valid()
    ensures r.Valid()
    ensures forall y :: 0 <= y < Rows ==> r.rows[y] == a.rows[y] + b.rows[y]
  {
    Board(seq(Rows, y requires 0 <= y < Rows => a.rows[y] + b.rows[y]))
  }

  /** A row once the first `n` of `rows` that are not in `rest` are added to `base`. */
  function Placed(base: set<nat>, rows: seq<set<nat>>, rest: set<nat>, n: nat): set<nat>
    requires n <= |rows|
  {
    if n == 0 then base
    else Placed(base, rows, rest, n - 1) + (if n - 1 in rest then {} else rows[n - 1])
  }

  /** Adding rows of blocks inside the board keeps the row inside the board. */
  lemma {:induction false} PlacedInside(base: set<nat>, rows: seq<set<nat>>, rest: set<nat>, n: nat)
    requires n <= |rows|
    requires (forall x :: x in base ==> x < Width) && forall k, x :: 0 <= k < |rows| && x in rows[k] ==> x < Width
    ensures forall x :: x in Placed(base, rows, rest, n) ==> x < Width
  {
    if n > 0 {
      PlacedInside(base, rows, rest, n - 1);
    }
  }

  /** Taking piece `k` out of `rest` adds its row, whatever the order of the pieces. */
  lemma {:induction false} PlacedTake(base: set<nat>, rows: seq<set<nat>>, rest: set<nat>, k: nat, n: nat)
    requires n <= |rows| && k in rest
    ensures Placed(base, rows, rest - {k}, n) == Placed(base, rows, rest, n) + (if k < n then rows[k] else {})
  {
    if n > 0 {
      PlacedTake(base, rows, rest, k, n - 1);
    }
  }

  /** With every piece remaining, nothing is added. */
  lemma {:induction false} PlacedNone(base: set<nat>, rows: seq<set<nat>>, n: nat)
    requires n <= |rows|
    ensures Placed(base, rows, Range(|rows|), n) == base
  {
    if n > 0 {
      PlacedNone(base, rows, n - 1);
    }
  }

  /** Every row of the board once every chosen piece not in `rest` is placed, by `PlacedInside` inside the board. */
  lemma BoardForInside(bk: Bulk, chosen: seq<nat>, rest: set<nat>)
    requires bk.board.Valid() && ChosenValid(bk, chosen)
    ensures forall y :: 0 <= y < Rows ==> forall x :: x in Placed(bk.board.rows[y], ChosenRows(bk, chosen, y), rest, |chosen|) ==> x < Width
  {
    forall y | 0 <= y < Rows
      ensures forall x :: x in Placed(bk.board.rows[y], ChosenRows(bk, chosen, y), rest, |chosen|) ==> x < Width
    {
      PlacedInside(bk.board.rows[y], ChosenRows(bk, chosen, y), rest, |chosen|);
    }
  }

  /** The board once every chosen piece not in `rest` is placed; since merging is a union, it does not depend on the order they were placed in. */
  function BoardFor(bk: Bulk, chosen: seq<nat>, rest: set<nat>): (b: Board)
    requires bk.board.Valid() && ChosenValid(bk, chosen)
    ensures b.Valid()
  {
    BoardForInside(bk, chosen, rest);
    Board(seq(Rows, y requires 0 <= y < Rows => Placed(bk.board.rows[y], ChosenRows(bk, chosen, y), rest, |chosen|)))
  }

  /** Placing a remaining piece merges its board into the board of the remaining pieces. */
  lemma BoardForPlace(bk: Bulk, chosen: seq<nat>, rest: set<nat>, k: nat)
    requires bk.board.Valid() && ChosenValid(bk, chosen) && k in rest && k < |chosen|
    ensures BoardFor(bk, chosen, rest - {k}) == Merge(BoardFor(bk, chosen, rest), ChosenBoard(bk, chosen, k))
  {
    forall y | 0 <= y < Rows
      ensures BoardFor(bk, chosen, rest - {k}).rows[y] == Merge(BoardFor(bk, chosen, rest), ChosenBoard(bk, chosen, k)).rows[y]
    {
      PlacedTake(bk.board.rows[y], ChosenRows(bk, chosen, y), rest, k, |chosen|);
    }
  }

  /** With every chosen piece remaining, the board is the initial board. */
  lemma BoardForNone(bk: Bulk, chosen: seq<nat>)
    requires bk.board.Valid() && ChosenValid(bk, chosen)
    ensures BoardFor(bk, chosen, Range(|chosen|)) == bk.board
  {
    forall y | 0 <= y < Rows ensures BoardFor(bk, chosen, Range(|chosen|)).rows[y] == bk.board.rows[y] {
      PlacedNone(bk.board.rows[y], ChosenRows(bk, chosen, y), |chosen|);
    }
  }

  /** The key `clear_lines` returns: the filled rows. */
  function DeletedKey(b: Board): (r: set<nat>)
    requires b.Valid()
    ensures forall y: nat :: y in r <==> y < Rows && FullRow(b.rows[y])
  {
    set y: nat | y < Rows && FullRow(b.rows[y])
  }

  /** `count_ones` of the rows of `key` below row `y`. */
  function DeletedBelow(key: set<nat>, y: nat): (r: nat)
    ensures r <= y
  {
    if y == 0 then 0 else DeletedBelow(key, y - 1) + (if y - 1 in key then 1 else 0)
  }

  /**
   * The test of `ok2` for the piece of node id `id`, given the filled rows
   * `key` of the board and the board once they are cleared: every row it
   * straddles is filled, and the move rules reach it, lowered by the
   * filled rows below its first row, on the cleared board from a spawn on
   * top of the cleared board's well.
   */
  predicate Fits(bk: Bulk, id: nat, key: set<nat>, cleared: Board)
    requires PreValid(bk.pre, bk.height) && id / Width < |bk.pre|
  {
    var p := bk.pre[id / Width];
    p.deletedRows <= key && bk.canReach(p.piece, id % Width, p.ys[0] - DeletedBelow(key, p.ys[0]), cleared, WellTop(cleared))
  }

  /** `Fits` once the top of the cleared board's well is known, in the order `ok2` tests it. */
  lemma FitsIs(bk: Bulk, id: nat, key: set<nat>, cleared: Board, top: nat, row: int)
    requires PreValid(bk.pre, bk.height) && id / Width < |bk.pre| && top == WellTop(cleared)
    requires row == bk.pre[id / Width].ys[0] - DeletedBelow(key, bk.pre[id / Width].ys[0])
    ensures Fits(bk, id, key, cleared) <==>
      bk.pre[id / Width].deletedRows <= key && bk.canReach(bk.pre[id / Width].piece, id % Width, row, cleared, top)
  {
  }

  /** The test for the `k`-th chosen piece on the board of the remaining pieces. */
  predicate Placeable(bk: Bulk, chosen: seq<nat>, rest: set<nat>, k: nat)
    requires bk.board.Valid() && PreValid(bk.pre, bk.height) && ChosenValid(bk, chosen) && k < |chosen|
  {
    var b := BoardFor(bk, chosen, rest);
    Fits(bk, chosen[k], DeletedKey(b), ClearLines(b).0)
  }

  /** The test of `Placeable` as a value: piece `k` is chosen and can be placed with the pieces of `rest` still out. */
  function PlaceTest(bk: Bulk, chosen: seq<nat>): (set<nat>, nat) -> bool
    requires bk.board.Valid() && PreValid(bk.pre, bk.height) && ChosenValid(bk, chosen)
  {
    (rest: set<nat>, k: nat) => k < |chosen| && Placeable(bk, chosen, rest, k)
  }

  /** `PlaceTest` on the board, key and cleared board of the remaining pieces. */
  lemma PlaceTestOn(bk: Bulk, chosen: seq<nat>, rest: set<nat>, k: nat, board: Board, key: set<nat>, cleared: Board)
    requires bk.board.Valid() && PreValid(bk.pre, bk.height) && ChosenValid(bk, chosen) && k < |chosen|
    requires board == BoardFor(bk, chosen, rest) && key == DeletedKey(board) && cleared == ClearLines(board).0
    ensures PlaceTest(bk, chosen)(rest, k) == Fits(bk, chosen[k], key, cleared)
  {
  }

  /** Some remaining piece can be placed now, and then either none remains or the rest can be placed in turn. */
  ghost predicate Solvable(place: (set<nat>, nat) -> bool, rest: set<nat>)
    decreases rest
  {
    exists k :: k in rest && Step(place, rest, k)
  }

  /** Placing piece `k` now leads to a solution. */
  ghost predicate Step(place: (set<nat>, nat) -> bool, rest: set<nat>, k: nat)
    requires k in rest
    decreases rest, 0
  {
    place(rest, k) && (rest - {k} == {} || Solvable(place, rest - {k}))
  }

  /** `ok`: the chosen pieces can all be placed in some order. */
  ghost predicate Accepted(bk: Bulk, chosen: seq<nat>)
    requires bk.board.Valid() && PreValid(bk.pre, bk.height) && ChosenValid(bk, chosen)
  {
    Solvable(PlaceTest(bk, chosen), Range(|chosen|))
  }

  /** `ok` as a test on any list of node ids: false on ids that name no entry. */
  ghost function Acceptance(bk: Bulk): seq<nat> -> bool
  {
    c => bk.board.Valid() && PreValid(bk.pre, bk.height) && ChosenValid(bk, c) && Accepted(bk, c)
  }

  /**
   * `accept` agrees with `ok` on every list of ids naming entries. The
   * counting methods take the test in this form, so that their proofs see
   * `ok` only where they call it.
   */
  ghost predicate Accepts(bk: Bulk, accept: seq<nat> -> bool)
  {
    && bk.board.Valid() && PreValid(bk.pre, bk.height)
    && forall c {:trigger Accepted(bk, c)} :: ChosenValid(bk, c) ==> (accept(c) <==> Accepted(bk, c))
  }

  lemma AcceptanceAccepts(bk: Bulk)
    requires bk.board.Valid() && PreValid(bk.pre, bk.height)
    ensures Accepts(bk, Acceptance(bk))
  {
  }

  /** The pieces of `rest` placed in the order `path`, each placeable when its turn comes. */
  ghost predicate Along(place: (set<nat>, nat) -> bool, rest: set<nat>, path: seq<nat>)
    decreases |path|
  {
    if path == [] then rest == {}
    else path[0] in rest && place(rest, path[0]) && Along(place, rest - {path[0]}, path[1..])
  }

  /** When the remaining pieces can be placed, there are some, and an order places each of them in turn. */
  lemma {:induction false} SolvableHasOrder(place: (set<nat>, nat) -> bool, rest: set<nat>)
    requires Solvable(place, rest)
    ensures rest != {} && exists path :: Along(place, rest, path)
    decreases rest
  {
    var k :| k in rest && Step(place, rest, k);
    if rest - {k} == {} {
      assert Along(place, rest - {k}, []);
      assert Along(place, rest, [k]);
    } else {
      SolvableHasOrder(place, rest - {k});
      var path :| Along(place, rest - {k}, path);
      assert ([k] + path)[1..] == path;
      assert Along(place, rest, [k] + path);
    }
  }

  /** An order that places each remaining piece in turn shows that they can be placed. */
  lemma {:induction false} OrderSolvable(place: (set<nat>, nat) -> bool, rest: set<nat>, path: seq<nat>)
    requires rest != {} && Along(place, rest, path)
    ensures Solvable(place, rest)
    decreases |path|
  {
    var k := path[0];
    if rest - {k} != {} {
      OrderSolvable(place, rest - {k}, path[1..]);
    }
    assert Step(place, rest, k);
  }

  /** The chosen pieces are accepted exactly when some order places each of them in turn on the board the earlier ones leave. */
  lemma AcceptedIffOrder(bk: Bulk, chosen: seq<nat>)
    requires bk.board.Valid() && PreValid(bk.pre, bk.height) && ChosenValid(bk, chosen)
    ensures Accepted(bk, chosen) <==> chosen != [] && exists path :: Along(PlaceTest(bk, chosen), Range(|chosen|), path)
  {
    var place := PlaceTest(bk, chosen);
    if Accepted(bk, chosen) {
      SolvableHasOrder(place, Range(|chosen|));
    }
    if chosen != [] && exists path :: Along(place, Range(|chosen|), path) {
      assert 0 in Range(|chosen|);
      var path :| Along(place, Range(|chosen|), path);
      OrderSolvable(place, Range(|chosen|), path);
    }
  }

  /** `ok2` and the set of remaining-piece masks it has visited, shared across the whole search. */
  class OkSearch {
    const bk: Bulk
    const chosen: seq<nat>
    var visited: set<set<nat>>

    constructor (bk: Bulk, chosen: seq<nat>)
      ensures this.bk == bk && this.chosen == chosen && visited == {}
    {
      this.bk := bk;
      this.chosen := chosen;
      visited := {};
    }

    /**
     * `ok2`: whether the remaining pieces can be placed in some order. A
     * mask already visited is skipped: the board depends on the mask
     * alone, so a visited mask below the current one has already failed.
     */
    method Ok2(board: Board, rest: set<nat>) returns (found: bool)
      requires bk.board.Valid() && PreValid(bk.pre, bk.height) && ChosenValid(bk, chosen) && RestValid(chosen, rest)
      requires board == BoardFor(bk, chosen, rest)
      requires forall v :: v in visited && v < rest ==> !Solvable(PlaceTest(bk, chosen), v)
      modifies this
      ensures found == Solvable(PlaceTest(bk, chosen), rest)
      ensures old(visited) <= visited
      ensures !found ==> forall v :: v in visited && v !in old(visited) ==> v < rest && !Solvable(PlaceTest(bk, chosen), v)
      decreases rest
    {
      var cleared := ClearLines(board).0;
      var key := DeletedKey(board);
      var rest2 := rest;
      while rest2 != {}
        invariant rest2 <= rest
        invariant forall k :: k in rest && k !in rest2 ==> !Step(PlaceTest(bk, chosen), rest, k)
        invariant old(visited) <= visited
        invariant forall v :: v in visited && v !in old(visited) ==> v < rest && !Solvable(PlaceTest(bk, chosen), v)
        decreases rest2
      {
        var bit := Lowest(rest2);
        PlaceTestOn(bk, chosen, rest, bit, board, key, cleared);
        var step := TryPlace(board, cleared, key, rest, bit);
        if step {
          found := true;
          return;
        }
        rest2 := rest2 - {bit};
      }
      found := false;
    }

    /** One turn of the loop of `ok2`: whether placing piece `bit` now leads to a solution. */
    method TryPlace(board: Board, cleared: Board, key: set<nat>, rest: set<nat>, bit: nat) returns (step: bool)
      requires bk.board.Valid() && PreValid(bk.pre, bk.height) && ChosenValid(bk, chosen) && RestValid(chosen, rest)
      requires board == BoardFor(bk, chosen, rest) && bit in rest
      requires PlaceTest(bk, chosen)(rest, bit) == Fits(bk, chosen[bit], key, cleared)
      requires forall v :: v in visited && v < rest ==> !Solvable(PlaceTest(bk, chosen), v)
      modifies this
      ensures step == Step(PlaceTest(bk, chosen), rest, bit)
      ensures old(visited) <= visited
      ensures !step ==> forall v :: v in visited && v !in old(visited) ==> v < rest && !Solvable(PlaceTest(bk, chosen), v)
      decreases rest, 1
    {
      var id := chosen[bit];
      ghost var place := PlaceTest(bk, chosen);
      var p := bk.pre[id / Width];
      var top := WellTop(cleared);
      var row := p.ys[0] - DeletedBelow(key, p.ys[0]);
      FitsIs(bk, id, key, cleared, top, row);
      if !(p.deletedRows <= key) || !bk.canReach(p.piece, id % Width, row, cleared, top) {
        assert !place(rest, bit);
        return false;
      }
      step := Descend(board, rest, bit);
    }

    /** The rest of the turn once piece `bit` fits: done if it was the last, a failure if the masks left were visited, otherwise `ok2` on them. */
    method Descend(board: Board, rest: set<nat>, bit: nat) returns (step: bool)
      requires bk.board.Valid() && PreValid(bk.pre, bk.height) && ChosenValid(bk, chosen) && RestValid(chosen, rest)
      requires board == BoardFor(bk, chosen, rest) && bit in rest && PlaceTest(bk, chosen)(rest, bit)
      requires forall v :: v in visited && v < rest ==> !Solvable(PlaceTest(bk, chosen), v)
      modifies this
      ensures step == Step(PlaceTest(bk, chosen), rest, bit)
      ensures old(visited) <= visited
      ensures !step ==> forall v :: v in visited && v !in old(visited) ==> v < rest && !Solvable(PlaceTest(bk, chosen), v)
      decreases rest, 0
    {
      var next := rest - {bit};
      if next == {} {
        return true;
      }
      if next in visited {
        return false;
      }
      visited := visited + {next};
      BoardForPlace(bk, chosen, rest, bit);
      step := Ok2(Merge(board, ChosenBoard(bk, chosen, bit)), next);
    }
  }

  /** `ok`: a fresh search over every chosen piece from the board as given. */
  method OkChosen(bk: Bulk, chosen: seq<nat>) returns (ok: bool)
    requires bk.board.Valid() && PreValid(bk.pre, bk.height) && ChosenValid(bk, chosen) && |chosen| < 64
    ensures ok == Accepted(bk, chosen)
  {
    var search := new OkSearch(bk, chosen);
    BoardForNone(bk, chosen);
    ok := search.Ok2(bk.board, Range(|chosen|));
  }

  // ---------------------------------------------------------------------
  // The count of `aggregate_`.

  /** Row `iy` of `using_rows_each_y` for an entry: the rows the entry uses when it straddles row `iy`, otherwise none. */
  function Freed(p: PiecePredefines3, iy: nat): set<nat>
  {
    if iy in p.deletedRows then p.usingRows else {}
  }

  /**
   * Where the `k`-th run of `h` rows starts: `k * h`, counted run by run so
   * that the buffers' offsets stay out of nonlinear arithmetic.
   */
  function RunStart(k: nat, h: nat): nat
  {
    if k == 0 then 0 else RunStart(k - 1, h) + h
  }

  lemma {:induction false} RunStartIsProduct(k: nat, h: nat)
    ensures RunStart(k, h) == k * h
  {
    if k > 0 {
      RunStartIsProduct(k - 1, h);
    }
  }

  lemma {:induction false} RunStartMono(a: nat, b: nat, h: nat)
    requires a <= b
    ensures RunStart(a, h) <= RunStart(b, h)
    decreases b
  {
    if a < b {
      RunStartMono(a, b - 1, h);
    }
  }

  /** Where row `iy` of entry `m` sits in the flattened table. */
  function Slot(h: nat, m: nat, iy: nat): nat
  {
    RunStart(m, h) + iy
  }

  /** `using_rows_each_y`: the table of `Freed`, one run of `h` rows per entry. */
  predicate EachY(ue: seq<set<nat>>, pre: seq<PiecePredefines3>, h: nat)
  {
    && |ue| == RunStart(|pre|, h)
    && forall m, iy :: 0 <= m < |pre| && 0 <= iy < h ==> Slot(h, m, iy) < |ue| && ue[Slot(h, m, iy)] == Freed(pre[m], iy)
  }

  /** Row `iy` of entry `m < n` lies inside a table of `n` entries. */
  lemma SlotInside(h: nat, m: nat, iy: nat, n: nat)
    requires m < n && iy < h
    ensures Slot(h, m, iy) < RunStart(n, h)
  {
    RunStartMono(m + 1, n, h);
  }

  /** The rows reserved at the current depth for the rows `ys` of an entry: the fold of `filled` over them. */
  function Reserved(level: seq<set<nat>>, ys: seq<nat>): set<nat>
    requires forall k :: 0 <= k < |ys| ==> ys[k] < |level|
  {
    if ys == [] then {}
    else Reserved(level, ys[..|ys| - 1]) + level[ys[|ys| - 1]]
  }

  /** A row is reserved exactly when some row of `ys` reserves it. */
  lemma {:induction false} ReservedMembers(level: seq<set<nat>>, ys: seq<nat>, x: nat)
    requires forall k :: 0 <= k < |ys| ==> ys[k] < |level|
    ensures x in Reserved(level, ys) <==> exists k :: 0 <= k < |ys| && x in level[ys[k]]
  {
    if ys != [] {
      var last := |ys| - 1;
      ReservedMembers(level, ys[..last], x);
      if x in level[ys[last]] {
        assert 0 <= last < |ys| && x in level[ys[last]];
      }
      if exists k :: 0 <= k < |ys| && x in level[ys[k]] {
        var k :| 0 <= k < |ys| && x in level[ys[k]];
        if k < last {
          assert ys[..last][k] == ys[k];
        }
      }
    }
  }

  /** An entry is cut when a row it straddles is reserved on one of its rows. */
  predicate Blocked(level: seq<set<nat>>, p: PiecePredefines3)
    requires forall k :: 0 <= k < |p.ys| ==> p.ys[k] < |level|
  {
    Reserved(level, p.ys) * p.deletedRows != {}
  }

  /** The level of the next depth: each row `j` the entry straddles reserves the rows the entry uses. */
  function NextLevel(level: seq<set<nat>>, p: PiecePredefines3): (r: seq<set<nat>>)
    ensures |r| == |level|
    ensures forall j :: 0 <= j < |level| ==> r[j] == level[j] + Freed(p, j)
  {
    seq(|level|, j requires 0 <= j < |level| => level[j] + Freed(p, j))
  }

  function Max(a: nat, b: nat): nat
  {
    if a < b then b else a
  }

  /**
   * How many levels of `filled` the count from index node `i` touches: one
   * for an item that finishes the board, and for an item leading on, the
   * level it writes and those its target touches from there.
   */
  ghost function Levels(bk: Bulk, i: nat): nat
    requires Linked(bk) && i < |bk.indexes|
    decreases |bk.indexes| - i, 1, 0
  {
    match bk.indexes[i]
    case Jump(n, len) => LevelsItems(bk, i, n, n + len)
    case Skip(next) => Levels(bk, next)
    case ToHi => 0
  }

  ghost function LevelsItems(bk: Bulk, i: nat, j: nat, end: nat): (r: nat)
    requires Linked(bk) && i < |bk.indexes| && bk.indexes[i].Jump?
    requires bk.indexes[i].nextItemId <= j <= end == bk.indexes[i].nextItemId + bk.indexes[i].itemLength
    ensures forall k :: j <= k < end ==> LevelItem(bk, i, k) <= r
    decreases |bk.indexes| - i, 0, end - j
  {
    if j == end then 0 else Max(LevelItem(bk, i, j), LevelsItems(bk, i, j + 1, end))
  }

  ghost function LevelItem(bk: Bulk, i: nat, j: nat): (r: nat)
    requires Linked(bk) && i < |bk.indexes| && bk.indexes[i].Jump?
    requires bk.indexes[i].nextItemId <= j < bk.indexes[i].nextItemId + bk.indexes[i].itemLength
    ensures 1 <= r
    decreases |bk.indexes| - i, 0, 0
  {
    match bk.items[j]
    case ItemToHi(_) => 1
    case ToIndex(_, next) => 1 + Max(1, Levels(bk, next))
  }

  /** Every item of a jump touches at most the levels of the jump. */
  lemma LevelItemBound(bk: Bulk, i: nat, j: nat)
    requires Linked(bk) && i < |bk.indexes| && bk.indexes[i].Jump?
    requires bk.indexes[i].nextItemId <= j < bk.indexes[i].nextItemId + bk.indexes[i].itemLength
    ensures LevelItem(bk, i, j) <= Levels(bk, i)
  {
    var n, len := bk.indexes[i].nextItemId, bk.indexes[i].itemLength;
    assert Levels(bk, i) == LevelsItems(bk, i, n, n + len);
  }

  /**
   * The count from index node `i`, with the rows reserved at the current
   * depth and the pieces chosen so far: a finished index node counts the
   * chosen pieces when they can be placed in some order; a jump sums over
   * its items. `itemLeaves` says whether an item that finishes the board
   * counts in the same way: `bulk_executor.rs` tests such a piece list
   * but does not count it.
   */
  ghost function Tally(bk: Bulk, accept: seq<nat> -> bool, level: seq<set<nat>>, chosen: seq<nat>, i: nat, itemLeaves: bool): nat
    requires Linked(bk) && i < |bk.indexes| && |level| == bk.height && ChosenValid(bk, chosen)
    decreases |bk.indexes| - i, 1, 0
  {
    match bk.indexes[i]
    case Jump(n, len) => TallyItems(bk, accept, level, chosen, i, n, n + len, itemLeaves)
    case Skip(next) => Tally(bk, accept, level, chosen, next, itemLeaves)
    case ToHi => if accept(chosen) then 1 else 0
  }

  ghost function TallyItems(bk: Bulk, accept: seq<nat> -> bool, level: seq<set<nat>>, chosen: seq<nat>, i: nat, j: nat, end: nat,
                            itemLeaves: bool): nat
    requires Linked(bk) && i < |bk.indexes| && |level| == bk.height && ChosenValid(bk, chosen) && bk.indexes[i].Jump?
    requires bk.indexes[i].nextItemId <= j <= end == bk.indexes[i].nextItemId + bk.indexes[i].itemLength
    decreases |bk.indexes| - i, 0, end - j
  {
    if j == end then 0
    else TallyItem(bk, accept, level, chosen, i, j, itemLeaves) + TallyItems(bk, accept, level, chosen, i, j + 1, end, itemLeaves)
  }

  ghost function TallyItem(bk: Bulk, accept: seq<nat> -> bool, level: seq<set<nat>>, chosen: seq<nat>, i: nat, j: nat, itemLeaves: bool): nat
    requires Linked(bk) && i < |bk.indexes| && |level| == bk.height && ChosenValid(bk, chosen) && bk.indexes[i].Jump?
    requires bk.indexes[i].nextItemId <= j < bk.indexes[i].nextItemId + bk.indexes[i].itemLength
    decreases |bk.indexes| - i, 0, 0
  {
    var item := bk.items[j];
    var id := MinoIndex(item);
    var p := bk.pre[id / Width];
    if Blocked(level, p) then 0
    else
      match item
      case ItemToHi(_) => if itemLeaves && accept(chosen + [id]) then 1 else 0
      case ToIndex(_, next) => Tally(bk, accept, NextLevel(level, p), chosen + [id], next, itemLeaves)
  }

  // ---------------------------------------------------------------------
  // The count as a number of paths through the DAG.

  /** A path from an index node to a finished board: the items taken, and whether it ends at an item rather than at an index node. */
  datatype Path = Path(steps: seq<nat>, atItem: bool)

  /** Every path from index node `i`, in the order `aggregate_` walks them. */
  ghost function PathsFrom(bk: Bulk, i: nat): seq<Path>
    requires Linked(bk) && i < |bk.indexes|
    decreases |bk.indexes| - i, 1, 0
  {
    match bk.indexes[i]
    case Jump(n, len) => PathsItems(bk, i, n, n + len)
    case Skip(next) => PathsFrom(bk, next)
    case ToHi => [Path([], false)]
  }

  ghost function PathsItems(bk: Bulk, i: nat, j: nat, end: nat): seq<Path>
    requires Linked(bk) && i < |bk.indexes| && bk.indexes[i].Jump?
    requires bk.indexes[i].nextItemId <= j <= end == bk.indexes[i].nextItemId + bk.indexes[i].itemLength
    decreases |bk.indexes| - i, 0, end - j
  {
    if j == end then [] else PathsItem(bk, i, j) + PathsItems(bk, i, j + 1, end)
  }

  ghost function PathsItem(bk: Bulk, i: nat, j: nat): seq<Path>
    requires Linked(bk) && i < |bk.indexes| && bk.indexes[i].Jump?
    requires bk.indexes[i].nextItemId <= j < bk.indexes[i].nextItemId + bk.indexes[i].itemLength
    decreases |bk.indexes| - i, 0, 0
  {
    match bk.items[j]
    case ItemToHi(_) => [Path([j], true)]
    case ToIndex(_, next) => Prefixed(j, PathsFrom(bk, next))
  }

  /** The paths with item `j` taken first. */
  function Prefixed(j: nat, ps: seq<Path>): (r: seq<Path>)
    ensures |r| == |ps| && forall k :: 0 <= k < |ps| ==> r[k] == Path([j] + ps[k].steps, ps[k].atItem)
  {
    seq(|ps|, k requires 0 <= k < |ps| => Path([j] + ps[k].steps, ps[k].atItem))
  }

  /** Whether item `j` names an entry. */
  predicate Names(bk: Bulk, j: nat)
  {
    j < |bk.items| && MinoIndex(bk.items[j]) / Width < |bk.pre|
  }

  /** The node ids of the pieces of a path. */
  function Ids(bk: Bulk, steps: seq<nat>): (r: seq<nat>)
    ensures |r| == |steps| && forall k :: 0 <= k < |steps| && steps[k] < |bk.items| ==> r[k] == MinoIndex(bk.items[steps[k]])
  {
    seq(|steps|, k requires 0 <= k < |steps| => if steps[k] < |bk.items| then MinoIndex(bk.items[steps[k]]) else 0)
  }

  /** No piece of the path straddles a row that an earlier piece of the path, or the level given, reserves. */
  predicate Survives(bk: Bulk, level: seq<set<nat>>, steps: seq<nat>)
    requires PreValid(bk.pre, bk.height) && |level| == bk.height
    decreases |steps|
  {
    steps == [] ||
      (Names(bk, steps[0]) &&
       var p := bk.pre[MinoIndex(bk.items[steps[0]]) / Width];
       !Blocked(level, p) && Survives(bk, NextLevel(level, p), steps[1..]))
  }

  /** A path is counted when it survives, its pieces with those chosen before can all be placed, and its kind of end is counted. */
  ghost predicate Counted(bk: Bulk, accept: seq<nat> -> bool, level: seq<set<nat>>, chosen: seq<nat>, path: Path, itemLeaves: bool)
    requires bk.board.Valid() && PreValid(bk.pre, bk.height) && |level| == bk.height && ChosenValid(bk, chosen)
  {
    && (itemLeaves || !path.atItem)
    && Survives(bk, level, path.steps)
    && (forall k :: 0 <= k < |path.steps| ==> Names(bk, path.steps[k]))
    && accept(chosen + Ids(bk, path.steps))
  }

  ghost function Count(bk: Bulk, accept: seq<nat> -> bool, level: seq<set<nat>>, chosen: seq<nat>, ps: seq<Path>, itemLeaves: bool): nat
    requires bk.board.Valid() && PreValid(bk.pre, bk.height) && |level| == bk.height && ChosenValid(bk, chosen)
  {
    if ps == [] then 0
    else (if Counted(bk, accept, level, chosen, ps[0], itemLeaves) then 1 else 0) + Count(bk, accept, level, chosen, ps[1..], itemLeaves)
  }

  lemma {:induction false} CountConcat(bk: Bulk, accept: seq<nat> -> bool, level: seq<set<nat>>, chosen: seq<nat>, a: seq<Path>, b: seq<Path>,
                                       itemLeaves: bool)
    requires bk.board.Valid() && PreValid(bk.pre, bk.height) && |level| == bk.height && ChosenValid(bk, chosen)
    ensures Count(bk, accept, level, chosen, a + b, itemLeaves) ==
      Count(bk, accept, level, chosen, a, itemLeaves) + Count(bk, accept, level, chosen, b, itemLeaves)
  {
    if a == [] {
      assert a + b == b;
    } else {
      assert (a + b)[0] == a[0];
      assert (a + b)[1..] == a[1..] + b;
      CountConcat(bk, accept, level, chosen, a[1..], b, itemLeaves);
    }
  }

  lemma SurvivesCons(bk: Bulk, level: seq<set<nat>>, j: nat, steps: seq<nat>)
    requires PreValid(bk.pre, bk.height) && |level| == bk.height && Names(bk, j)
    ensures var p := bk.pre[MinoIndex(bk.items[j]) / Width];
      Survives(bk, level, [j] + steps) <==> !Blocked(level, p) && Survives(bk, NextLevel(level, p), steps)
  {
    assert ([j] + steps)[1..] == steps;
  }

  lemma NamesCons(bk: Bulk, j: nat, steps: seq<nat>)
    ensures (forall k :: 0 <= k < |[j] + steps| ==> Names(bk, ([j] + steps)[k])) <==>
      Names(bk, j) && forall k :: 0 <= k < |steps| ==> Names(bk, steps[k])
  {
    var all := [j] + steps;
    assert all[0] == j;
    assert forall k :: 0 <= k < |steps| ==> steps[k] == all[k + 1];
    if Names(bk, j) && forall k :: 0 <= k < |steps| ==> Names(bk, steps[k]) {
      forall k | 0 <= k < |all| ensures Names(bk, all[k]) {
        if k > 0 {
          assert all[k] == steps[k - 1];
        }
      }
    }
  }

  lemma IdsCons(bk: Bulk, chosen: seq<nat>, j: nat, steps: seq<nat>)
    requires Names(bk, j)
    ensures chosen + Ids(bk, [j] + steps) == (chosen + [MinoIndex(bk.items[j])]) + Ids(bk, steps)
  {
  }

  /** One path with item `j` taken first is counted exactly when `j` is not cut and the rest is counted one level on. */
  lemma PrefixedCounted(bk: Bulk, accept: seq<nat> -> bool, level: seq<set<nat>>, chosen: seq<nat>, j: nat, path: Path, itemLeaves: bool)
    requires bk.board.Valid() && PreValid(bk.pre, bk.height) && |level| == bk.height && ChosenValid(bk, chosen)
    requires Names(bk, j)
    ensures var id := MinoIndex(bk.items[j]);
      var p := bk.pre[id / Width];
      Counted(bk, accept, level, chosen, Path([j] + path.steps, path.atItem), itemLeaves) <==>
        !Blocked(level, p) && Counted(bk, accept, NextLevel(level, p), chosen + [id], path, itemLeaves)
  {
    SurvivesCons(bk, level, j, path.steps);
    NamesCons(bk, j, path.steps);
    if forall k :: 0 <= k < |path.steps| ==> Names(bk, path.steps[k]) {
      IdsCons(bk, chosen, j, path.steps);
    }
  }

  lemma {:induction false} PrefixedCount(bk: Bulk, accept: seq<nat> -> bool, level: seq<set<nat>>, chosen: seq<nat>, j: nat, ps: seq<Path>,
                                         itemLeaves: bool)
    requires bk.board.Valid() && PreValid(bk.pre, bk.height) && |level| == bk.height && ChosenValid(bk, chosen)
    requires Names(bk, j)
    ensures var id := MinoIndex(bk.items[j]);
      var p := bk.pre[id / Width];
      Count(bk, accept, level, chosen, Prefixed(j, ps), itemLeaves) ==
        if Blocked(level, p) then 0 else Count(bk, accept, NextLevel(level, p), chosen + [id], ps, itemLeaves)
  {
    if ps != [] {
      assert Prefixed(j, ps)[1..] == Prefixed(j, ps[1..]);
      PrefixedCount(bk, accept, level, chosen, j, ps[1..], itemLeaves);
      PrefixedCounted(bk, accept, level, chosen, j, ps[0], itemLeaves);
    }
  }

  /**
   * The count from index node `i` is the number of paths from `i` that are
   * counted: each survives the cut, its pieces can be placed in some order
   * after those chosen before, and its kind of end is counted.
   */
  lemma {:induction false} TallyCountsPaths(bk: Bulk, accept: seq<nat> -> bool, level: seq<set<nat>>, chosen: seq<nat>, i: nat, itemLeaves: bool)
    requires Linked(bk) && i < |bk.indexes| && |level| == bk.height && ChosenValid(bk, chosen)
    ensures Tally(bk, accept, level, chosen, i, itemLeaves) == Count(bk, accept, level, chosen, PathsFrom(bk, i), itemLeaves)
    decreases |bk.indexes| - i, 1, 0
  {
    match bk.indexes[i]
    case Jump(n, len) => TallyItemsCountsPaths(bk, accept, level, chosen, i, n, n + len, itemLeaves);
    case Skip(next) => TallyCountsPaths(bk, accept, level, chosen, next, itemLeaves);
    case ToHi =>
      assert Ids(bk, []) == [];
      assert chosen + [] == chosen;
  }

  lemma {:induction false} TallyItemsCountsPaths(bk: Bulk, accept: seq<nat> -> bool, level: seq<set<nat>>, chosen: seq<nat>, i: nat, j: nat,
                                                 end: nat, itemLeaves: bool)
    requires Linked(bk) && i < |bk.indexes| && |level| == bk.height && ChosenValid(bk, chosen) && bk.indexes[i].Jump?
    requires bk.indexes[i].nextItemId <= j <= end == bk.indexes[i].nextItemId + bk.indexes[i].itemLength
    ensures TallyItems(bk, accept, level, chosen, i, j, end, itemLeaves) ==
      Count(bk, accept, level, chosen, PathsItems(bk, i, j, end), itemLeaves)
    decreases |bk.indexes| - i, 0, end - j
  {
    if j < end {
      TallyItemCountsPaths(bk, accept, level, chosen, i, j, itemLeaves);
      TallyItemsCountsPaths(bk, accept, level, chosen, i, j + 1, end, itemLeaves);
      CountConcat(bk, accept, level, chosen, PathsItem(bk, i, j), PathsItems(bk, i, j + 1, end), itemLeaves);
    }
  }

  lemma {:induction false} TallyItemCountsPaths(bk: Bulk, accept: seq<nat> -> bool, level: seq<set<nat>>, chosen: seq<nat>, i: nat, j: nat,
                                                itemLeaves: bool)
    requires Linked(bk) && i < |bk.indexes| && |level| == bk.height && ChosenValid(bk, chosen) && bk.indexes[i].Jump?
    requires bk.indexes[i].nextItemId <= j < bk.indexes[i].nextItemId + bk.indexes[i].itemLength
    ensures TallyItem(bk, accept, level, chosen, i, j, itemLeaves) == Count(bk, accept, level, chosen, PathsItem(bk, i, j), itemLeaves)
    decreases |bk.indexes| - i, 0, 0
  {
    var id := MinoIndex(bk.items[j]);
    var p := bk.pre[id / Width];
    match bk.items[j]
    case ItemToHi(_) =>
      var path := Path([j], true);
      assert Ids(bk, [j]) == [id];
      assert PathsItem(bk, i, j)[1..] == [];
      assert Survives(bk, level, [j]) == !Blocked(level, p) by {
        assert [j][1..] == [];
      }
    case ToIndex(_, next) =>
      PrefixedCount(bk, accept, level, chosen, j, PathsFrom(bk, next), itemLeaves);
      if !Blocked(level, p) {
        TallyCountsPaths(bk, accept, NextLevel(level, p), chosen + [id], next, itemLeaves);
      }
  }

  /** Without the pieces that finish the board at an item, the count cannot grow. */
  lemma {:induction false} CountItemLeavesGrow(bk: Bulk, accept: seq<nat> -> bool, level: seq<set<nat>>, chosen: seq<nat>, ps: seq<Path>)
    requires bk.board.Valid() && PreValid(bk.pre, bk.height) && |level| == bk.height && ChosenValid(bk, chosen)
    ensures Count(bk, accept, level, chosen, ps, false) <= Count(bk, accept, level, chosen, ps, true)
  {
    if ps != [] {
      CountItemLeavesGrow(bk, accept, level, chosen, ps[1..]);
    }
  }

  /** The count as written never exceeds the count that also counts the boards finished at an item. */
  lemma AsWrittenAtMostCorrected(bk: Bulk, accept: seq<nat> -> bool, level: seq<set<nat>>, chosen: seq<nat>, i: nat)
    requires Linked(bk) && i < |bk.indexes| && |level| == bk.height && ChosenValid(bk, chosen)
    ensures Tally(bk, accept, level, chosen, i, false) <= Tally(bk, accept, level, chosen, i, true)
  {
    TallyCountsPaths(bk, accept, level, chosen, i, false);
    TallyCountsPaths(bk, accept, level, chosen, i, true);
    CountItemLeavesGrow(bk, accept, level, chosen, PathsFrom(bk, i));
  }

  /** An empty one-row board and a DAG whose only path is one item that finishes the board. */
  function ItemLeafExample(): (bk: Bulk)
    ensures Linked(bk)
  {
    var blank := Board(seq(Rows, _ => {}));
    var o := PiecePredefines3(Piece(Shapes.O, North), [0], {0}, {}, [Location(0, 0)]);
    Bulk(blank, 1, [Jump(0, 1)], [ItemToHi(0)], [o], (piece, x, y, board, top) => true)
  }

  /**
   * On that DAG the piece can be placed, so there is one perfect clear, but
   * the count as written is 0: the test of `ok` on a board finished at an
   * item is computed and dropped.
   */
  lemma AsWrittenSkipsItemLeaf()
    ensures Tally(ItemLeafExample(), Acceptance(ItemLeafExample()), [{}], [], 0, false) == 0
    ensures Tally(ItemLeafExample(), Acceptance(ItemLeafExample()), [{}], [], 0, true) == 1
  {
    var bk := ItemLeafExample();
    var accept := Acceptance(bk);
    assert Reserved([{}], [0]) == {};
    assert TallyItems(bk, accept, [{}], [], 0, 1, 1, true) == 0;
    assert TallyItems(bk, accept, [{}], [], 0, 1, 1, false) == 0;
    var place := PlaceTest(bk, [0]);
    assert Range(1) - {0} == {};
    assert Fits(bk, 0, DeletedKey(BoardFor(bk, [0], Range(1))), ClearLines(BoardFor(bk, [0], Range(1))).0);
    assert place(Range(1), 0);
    assert Step(place, Range(1), 0);
    assert Accepted(bk, [] + [0]);
  }

  // ---------------------------------------------------------------------
  // `aggregate` and `aggregate_` on the fixed buffers.

  /** The run of `using_rows_each_y` for one entry: `Freed` on each of the `h` rows. */
  function FreedRun(p: PiecePredefines3, h: nat): (r: seq<set<nat>>)
    ensures |r| == h && forall iy :: 0 <= iy < h ==> r[iy] == Freed(p, iy)
  {
    seq(h, iy requires 0 <= iy < h => Freed(p, iy))
  }

  /** The inner loop of `using_rows_each_y`: each straddled row of the run starting at `head`, blank before, set to the rows the entry uses. */
  method FillRun(ue: array<set<nat>>, head: nat, p: PiecePredefines3, h: nat)
    requires head + h <= ue.Length && forall k :: head <= k < head + h ==> ue[k] == {}
    modifies ue
    ensures ue[..head] == old(ue[..head]) && ue[head + h..] == old(ue[head + h..])
    ensures ue[head .. head + h] == FreedRun(p, h)
  {
    for iy := 0 to h
      invariant ue[..head] == old(ue[..head]) && ue[head + h..] == old(ue[head + h..])
      invariant ue[head .. head + iy] == FreedRun(p, h)[..iy]
      invariant forall k :: head + iy <= k < head + h ==> ue[k] == {}
    {
      if iy in p.deletedRows {
        ue[head + iy] := p.usingRows;
      }
      assert ue[head .. head + iy + 1] == ue[head .. head + iy] + [ue[head + iy]];
    }
  }

  /** The table after the runs of the first `mi` entries: those runs hold `Freed`, every later row is blank. */
  ghost predicate FilledUpTo(ue: seq<set<nat>>, pre: seq<PiecePredefines3>, h: nat, mi: nat)
    requires mi <= |pre|
  {
    && RunStart(mi, h) <= |ue|
    && (forall m, iy :: 0 <= m < mi && 0 <= iy < h ==> Slot(h, m, iy) < RunStart(mi, h) && ue[Slot(h, m, iy)] == Freed(pre[m], iy))
    && (forall k :: RunStart(mi, h) <= k < |ue| ==> ue[k] == {})
  }

  lemma FilledUpToStep(before: seq<set<nat>>, after: seq<set<nat>>, pre: seq<PiecePredefines3>, h: nat, mi: nat)
    requires mi < |pre| && FilledUpTo(before, pre, h, mi) && |after| == |before| && RunStart(mi + 1, h) <= |before|
    requires after[..RunStart(mi, h)] == before[..RunStart(mi, h)]
    requires after[RunStart(mi, h) + h..] == before[RunStart(mi, h) + h..]
    requires after[RunStart(mi, h) .. RunStart(mi, h) + h] == FreedRun(pre[mi], h)
    ensures FilledUpTo(after, pre, h, mi + 1)
  {
    var head := RunStart(mi, h);
    forall m, iy | 0 <= m < mi + 1 && 0 <= iy < h
      ensures Slot(h, m, iy) < RunStart(mi + 1, h) && after[Slot(h, m, iy)] == Freed(pre[m], iy)
    {
      SlotInside(h, m, iy, mi + 1);
      if m == mi {
        SliceAt(after, head, head + h, iy);
      } else {
        SlotInside(h, m, iy, mi);
        PrefixAt(after, before, head, Slot(h, m, iy));
      }
    }
    forall k | RunStart(mi + 1, h) <= k < |after|
      ensures after[k] == {}
    {
      SuffixAt(after, before, head + h, k);
    }
  }

  lemma SliceAt<T>(a: seq<T>, lo: nat, hi: nat, k: nat)
    requires lo + k < hi <= |a|
    ensures a[lo .. hi][k] == a[lo + k]
  {
  }

  lemma PrefixAt<T>(a: seq<T>, b: seq<T>, n: nat, k: nat)
    requires k < n <= |a| && n <= |b| && a[..n] == b[..n]
    ensures a[k] == b[k]
  {
    assert a[k] == a[..n][k];
  }

  lemma SuffixAt<T>(a: seq<T>, b: seq<T>, n: nat, k: nat)
    requires n <= k < |a| && |a| == |b| && a[n..] == b[n..]
    ensures a[k] == b[k]
  {
    assert a[k] == a[n..][k - n];
  }

  /** `using_rows_each_y`: a blank table of `|pre| * h` rows, then each entry's straddled rows set to the rows it uses. */
  method UsingRowsEachYOf(pre: seq<PiecePredefines3>, h: nat) returns (ue: array<set<nat>>)
    ensures fresh(ue) && EachY(ue[..], pre, h)
  {
    ue := new set<nat>[|pre| * h](_ => {});
    RunStartIsProduct(|pre|, h);
    for mi := 0 to |pre|
      invariant ue.Length == RunStart(|pre|, h)
      invariant FilledUpTo(ue[..], pre, h, mi)
    {
      var head := RunStart(mi, h);
      RunStartMono(mi + 1, |pre|, h);
      ghost var before := ue[..];
      FillRun(ue, head, pre[mi], h);
      FilledUpToStep(before, ue[..], pre, h, mi);
    }
  }

  /**
   * `aggregate_` from index node `indexId` at `depth`: `filled` holds one
   * level of `height` rows per depth, `results` the node id chosen at each
   * depth. It counts the paths of `Tally`, with the boards finished at an
   * item counted only when `countItemLeaves` is set (the source tests them
   * with `ok` and drops the answer), and leaves the levels and choices
   * below its own as they were.
   */
  method AggregateFrom(bk: Bulk, ghost accept: seq<nat> -> bool, ue: seq<set<nat>>, indexId: nat, depth: nat, filled: array<set<nat>>,
                       results: array<nat>, countItemLeaves: bool) returns (success: nat)
    requires Linked(bk) && Accepts(bk, accept) && indexId < |bk.indexes| && EachY(ue, bk.pre, bk.height)
    requires filled.Length == 100 && results.Length == 100
    requires RunStart(depth + 1, bk.height) <= 100 && RunStart(depth + Levels(bk, indexId), bk.height) <= 100
    requires depth + Levels(bk, indexId) < 64
    requires ChosenValid(bk, results[..depth])
    modifies filled, results
    ensures success == Tally(bk, accept, old(filled[RunStart(depth, bk.height) .. RunStart(depth + 1, bk.height)]),
                             old(results[..depth]), indexId, countItemLeaves)
    ensures filled[..RunStart(depth + 1, bk.height)] == old(filled[..RunStart(depth + 1, bk.height)])
    ensures results[..depth] == old(results[..depth])
    decreases |bk.indexes| - indexId, 3
  {
    match bk.indexes[indexId]
    case Jump(n, len) =>
      success := AggregateJump(bk, accept, ue, indexId, depth, filled, results, countItemLeaves);
    case Skip(next) =>
      assert Levels(bk, indexId) == Levels(bk, next);
      success := AggregateFrom(bk, accept, ue, next, depth, filled, results, countItemLeaves);
    case ToHi =>
      var ok := OkChosen(bk, results[..depth]);
      success := if ok then 1 else 0;
  }

  /** The loop of `aggregate_` over the items of a jump. */
  method AggregateJump(bk: Bulk, ghost accept: seq<nat> -> bool, ue: seq<set<nat>>, i: nat, depth: nat, filled: array<set<nat>>,
                       results: array<nat>, countItemLeaves: bool) returns (success: nat)
    requires Linked(bk) && Accepts(bk, accept) && i < |bk.indexes| && bk.indexes[i].Jump? && EachY(ue, bk.pre, bk.height)
    requires filled.Length == 100 && results.Length == 100
    requires RunStart(depth + 1, bk.height) <= 100 && RunStart(depth + Levels(bk, i), bk.height) <= 100
    requires depth + Levels(bk, i) < 64
    requires ChosenValid(bk, results[..depth])
    modifies filled, results
    ensures success == TallyItems(bk, accept, old(filled[RunStart(depth, bk.height) .. RunStart(depth + 1, bk.height)]),
                                  old(results[..depth]), i, bk.indexes[i].nextItemId,
                                  bk.indexes[i].nextItemId + bk.indexes[i].itemLength, countItemLeaves)
    ensures filled[..RunStart(depth + 1, bk.height)] == old(filled[..RunStart(depth + 1, bk.height)])
    ensures results[..depth] == old(results[..depth])
    decreases |bk.indexes| - i, 2
  {
    var h := bk.height;
    var base := RunStart(depth, h);
    ghost var level := filled[base .. base + h];
    ghost var chosen := results[..depth];
    var n, len := bk.indexes[i].nextItemId, bk.indexes[i].itemLength;
    success := 0;
    var index := n;
    while index < n + len
      invariant n <= index <= n + len
      invariant filled[..base + h] == old(filled[..base + h]) && results[..depth] == chosen
      invariant success + TallyItems(bk, accept, level, chosen, i, index, n + len, countItemLeaves) == TallyItems(bk, accept, level, chosen, i, n, n + len, countItemLeaves)
    {
      assert filled[base .. base + h] == filled[..base + h][base..];
      LevelItemBound(bk, i, index);
      RunStartMono(depth + LevelItem(bk, i, index), depth + Levels(bk, i), h);
      assert ChosenValid(bk, results[..depth]);
      var c := AggregateItem(bk, accept, ue, i, index, depth, filled, results, countItemLeaves);
      success := success + c;
      index := index + 1;
    }
  }

  /** One item of a jump: cut, checked with `ok` when it finishes the board (counted only when `countItemLeaves` is set), or followed one depth on. */
  method AggregateItem(bk: Bulk, ghost accept: seq<nat> -> bool, ue: seq<set<nat>>, i: nat, j: nat, depth: nat, filled: array<set<nat>>,
                       results: array<nat>, countItemLeaves: bool) returns (c: nat)
    requires Linked(bk) && Accepts(bk, accept) && i < |bk.indexes| && bk.indexes[i].Jump? && EachY(ue, bk.pre, bk.height)
    requires bk.indexes[i].nextItemId <= j < bk.indexes[i].nextItemId + bk.indexes[i].itemLength
    requires filled.Length == 100 && results.Length == 100
    requires RunStart(depth + 1, bk.height) <= 100
    requires RunStart(depth + LevelItem(bk, i, j), bk.height) <= 100 && depth + LevelItem(bk, i, j) < 64
    requires ChosenValid(bk, results[..depth])
    modifies filled, results
    ensures c == TallyItem(bk, accept, old(filled[RunStart(depth, bk.height) .. RunStart(depth + 1, bk.height)]),
                           old(results[..depth]), i, j, countItemLeaves)
    ensures filled[..RunStart(depth + 1, bk.height)] == old(filled[..RunStart(depth + 1, bk.height)])
    ensures results[..depth] == old(results[..depth])
    decreases |bk.indexes| - i, 1
  {
    var h := bk.height;
    var base := RunStart(depth, h);
    ghost var level := filled[base .. base + h];
    ghost var chosen := results[..depth];
    var id := MinoIndex(bk.items[j]);
    var p := bk.pre[id / Width];
    var s := Reserved(filled[base .. base + h], p.ys);
    if s * p.deletedRows != {} {
      return 0;
    }
    results[depth] := id;
    assert results[..depth + 1] == chosen + [id];
    assert results[..depth] == chosen;
    if bk.items[j].ItemToHi? {
      var ok := OkChosen(bk, results[..depth + 1]);
      c := if countItemLeaves && ok then 1 else 0;
    } else {
      c := FollowIndex(bk, accept, ue, i, j, depth, filled, results, countItemLeaves);
      assert results[..depth] == results[..depth + 1][..depth];
    }
  }

  /** Two runs of rows joined row by row. */
  function Join(a: seq<set<nat>>, b: seq<set<nat>>): (r: seq<set<nat>>)
    requires |a| <= |b|
    ensures |r| == |a| && forall k :: 0 <= k < |a| ==> r[k] == a[k] + b[k]
  {
    seq(|a|, k requires 0 <= k < |a| => a[k] + b[k])
  }

  /**
   * The loop of `aggregate_` writing the next level: the `h` rows after
   * `base` become the rows at `base` joined with the entry's run of the
   * table, which starts at `hi`.
   */
  method WriteLevel(filled: array<set<nat>>, ue: seq<set<nat>>, base: nat, h: nat, hi: nat)
    requires base + h + h <= filled.Length && hi + h <= |ue|
    modifies filled
    ensures filled[..base + h] == old(filled[..base + h])
    ensures filled[base + h .. base + h + h] == Join(old(filled[base .. base + h]), ue[hi .. hi + h])
  {
    ghost var level := filled[base .. base + h];
    ghost var row := ue[hi .. hi + h];
    for k := 0 to h
      invariant filled[..base + h] == old(filled[..base + h])
      invariant filled[base + h .. base + h + k] == Join(level[..k], row)
    {
      assert filled[base + k] == level[k];
      filled[base + h + k] := filled[base + k] + ue[hi + k];
      assert filled[base + h .. base + h + k + 1] == filled[base + h .. base + h + k] + [filled[base + h + k]];
    }
    assert level[..h] == level;
  }

  /** The level joined with entry `m`'s run of the table is the next level of `NextLevel`. */
  lemma NextLevelFromTable(level: seq<set<nat>>, ue: seq<set<nat>>, pre: seq<PiecePredefines3>, m: nat, h: nat)
    requires EachY(ue, pre, h) && m < |pre| && |level| == h
    ensures RunStart(m, h) + h <= |ue|
    ensures Join(level, ue[RunStart(m, h) .. RunStart(m, h) + h]) == NextLevel(level, pre[m])
  {
    RunStartMono(m + 1, |pre|, h);
    var start := RunStart(m, h);
    var run := ue[start .. start + h];
    var joined, next := Join(level, run), NextLevel(level, pre[m]);
    forall k | 0 <= k < h
      ensures joined[k] == next[k]
    {
      assert run[k] == ue[Slot(h, m, k)] == Freed(pre[m], k);
    }
    assert joined == next;
  }

  /** An item leading on touches the level it writes and those of its target. */
  lemma LevelItemNext(bk: Bulk, i: nat, j: nat)
    requires Linked(bk) && i < |bk.indexes| && bk.indexes[i].Jump?
    requires bk.indexes[i].nextItemId <= j < bk.indexes[i].nextItemId + bk.indexes[i].itemLength
    requires bk.items[j].ToIndex?
    ensures bk.items[j].nextIndexId < |bk.indexes| && MinoIndex(bk.items[j]) / Width < |bk.pre|
    ensures LevelItem(bk, i, j) == 1 + Max(1, Levels(bk, bk.items[j].nextIndexId))
  {
  }

  /** The levels an item leading on needs fit the buffer from the next depth on. */
  lemma FollowBounds(bk: Bulk, i: nat, j: nat, depth: nat)
    requires Linked(bk) && i < |bk.indexes| && bk.indexes[i].Jump?
    requires bk.indexes[i].nextItemId <= j < bk.indexes[i].nextItemId + bk.indexes[i].itemLength
    requires bk.items[j].ToIndex?
    requires RunStart(depth + LevelItem(bk, i, j), bk.height) <= 100 && depth + LevelItem(bk, i, j) < 64
    ensures bk.items[j].nextIndexId < |bk.indexes| && MinoIndex(bk.items[j]) / Width < |bk.pre|
    ensures RunStart(depth + 1 + 1, bk.height) <= 100
    ensures RunStart(depth + 1 + Levels(bk, bk.items[j].nextIndexId), bk.height) <= 100
    ensures depth + 1 + Levels(bk, bk.items[j].nextIndexId) < 64
  {
    LevelItemNext(bk, i, j);
    RunStartMono(depth + 2, depth + LevelItem(bk, i, j), bk.height);
    RunStartMono(depth + 1 + Levels(bk, bk.items[j].nextIndexId), depth + LevelItem(bk, i, j), bk.height);
  }

  /** An item leading on: the level of the next depth written from the current one, then `aggregate_` from the item's index node. */
  method FollowIndex(bk: Bulk, ghost accept: seq<nat> -> bool, ue: seq<set<nat>>, i: nat, j: nat, depth: nat, filled: array<set<nat>>,
                     results: array<nat>, countItemLeaves: bool) returns (c: nat)
    requires Linked(bk) && Accepts(bk, accept) && i < |bk.indexes| && bk.indexes[i].Jump? && EachY(ue, bk.pre, bk.height)
    requires bk.indexes[i].nextItemId <= j < bk.indexes[i].nextItemId + bk.indexes[i].itemLength
    requires bk.items[j].ToIndex?
    requires filled.Length == 100 && results.Length == 100
    requires RunStart(depth + 1, bk.height) <= 100
    requires RunStart(depth + LevelItem(bk, i, j), bk.height) <= 100 && depth + LevelItem(bk, i, j) < 64
    requires ChosenValid(bk, results[..depth + 1]) && results[depth] == MinoIndex(bk.items[j])
    modifies filled, results
    ensures c == Tally(bk, accept, NextLevel(old(filled[RunStart(depth, bk.height) .. RunStart(depth + 1, bk.height)]),
                                     bk.pre[MinoIndex(bk.items[j]) / Width]),
                       old(results[..depth + 1]), bk.items[j].nextIndexId, countItemLeaves)
    ensures filled[..RunStart(depth + 1, bk.height)] == old(filled[..RunStart(depth + 1, bk.height)])
    ensures results[..depth + 1] == old(results[..depth + 1])
    decreases |bk.indexes| - i, 0
  {
    var h := bk.height;
    var base := RunStart(depth, h);
    var m := MinoIndex(bk.items[j]) / Width;
    var next := bk.items[j].nextIndexId;
    ghost var level := filled[base .. base + h];
    FollowBounds(bk, i, j, depth);
    NextLevelFromTable(level, ue, bk.pre, m, h);
    WriteLevel(filled, ue, base, h, RunStart(m, h));
    ghost var written := filled[..];
    c := AggregateFrom(bk, accept, ue, next, depth + 1, filled, results, countItemLeaves);
    PrefixOfPrefix(filled[..], written, RunStart(depth + 1, h), RunStart(depth + 2, h));
  }

  lemma PrefixOfPrefix<T>(a: seq<T>, b: seq<T>, n: nat, m: nat)
    requires n <= m <= |a| && m <= |b| && a[..m] == b[..m]
    ensures a[..n] == b[..n]
  {
    assert a[..n] == a[..m][..n];
  }

  // ---------------------------------------------------------------------
  // `aggregate`, `build2`, and the executor.

  /** The entries converted for counting, in order (the `map` of `aggregate`). */
  function Pre3(predefines: seq<(nat, PiecePredefines2)>): (r: seq<PiecePredefines3>)
    requires forall k :: 0 <= k < |predefines| ==> 1 <= |predefines[k].1.ys|
    ensures |r| == |predefines| && forall k :: 0 <= k < |r| ==> r[k] == ToPiecePredefines3(predefines[k].1)
  {
    seq(|predefines|, k requires 0 <= k < |predefines| => ToPiecePredefines3(predefines[k].1))
  }

  /** The level the count starts from: no row reserved. */
  function EmptyLevel(h: nat): (r: seq<set<nat>>)
    ensures |r| == h && forall y :: 0 <= y < h ==> r[y] == {}
  {
    seq(h, _ => {})
  }

  /** The counting input of an aggregator: its board, its nodes, and its entries converted for counting. */
  function BulkOf(clipped: ClippedBoard, indexes: seq<IndexNode>, items: seq<ItemNode>,
                  predefines: seq<(nat, PiecePredefines2)>, canReach: (Piece, int, int, Board, nat) -> bool): (bk: Bulk)
    requires forall k :: 0 <= k < |predefines| ==> 1 <= |predefines[k].1.ys|
  {
    Bulk(clipped.board, clipped.height, indexes, items, Pre3(predefines), canReach)
  }

  /**
   * The body of `aggregate` (the 100-entry buffers must hold every level
   * the count touches): the number of paths from the head index node that
   * survive the cut and whose pieces can be put in, one after another, in
   * some order the move rules reach; a path finished at an item is counted
   * only when `countItemLeaves` is set.
   */
  method AggregateCounting(clipped: ClippedBoard, indexes: seq<IndexNode>, items: seq<ItemNode>,
                           predefines: seq<(nat, PiecePredefines2)>, canReach: (Piece, int, int, Board, nat) -> bool,
                           countItemLeaves: bool)
    returns (success: nat)
    requires forall k :: 0 <= k < |predefines| ==> 1 <= |predefines[k].1.ys|
    requires Linked(BulkOf(clipped, indexes, items, predefines, canReach)) && indexes != []
    requires clipped.height <= 100
    requires RunStart(Levels(BulkOf(clipped, indexes, items, predefines, canReach), 0), clipped.height) <= 100
    requires Levels(BulkOf(clipped, indexes, items, predefines, canReach), 0) < 64
    ensures var bk := BulkOf(clipped, indexes, items, predefines, canReach);
      success == Count(bk, Acceptance(bk), EmptyLevel(clipped.height), [], PathsFrom(bk, 0), countItemLeaves)
  {
    var pre := Pre3(predefines);
    var h := clipped.height;
    var bk := Bulk(clipped.board, h, indexes, items, pre, canReach);
    var ue := UsingRowsEachYOf(pre, h);
    var filled := new set<nat>[100](_ => {});
    var results := new nat[100](_ => 0);
    RunStartIsProduct(1, h);
    assert filled[RunStart(0, h) .. RunStart(1, h)] == EmptyLevel(h);
    AcceptanceAccepts(bk);
    success := AggregateFrom(bk, Acceptance(bk), ue[..], 0, 0, filled, results, countItemLeaves);
    TallyCountsPaths(bk, Acceptance(bk), EmptyLevel(h), [], 0, countItemLeaves);
  }

  /**
   * `aggregate` as written: the number of paths from the head index node
   * that end at an index node, survive the cut, and whose pieces can be put
   * in, in some order the move rules reach. A path finished at an item is
   * tested and not counted.
   */
  method Aggregate(clipped: ClippedBoard, indexes: seq<IndexNode>, items: seq<ItemNode>,
                   predefines: seq<(nat, PiecePredefines2)>, canReach: (Piece, int, int, Board, nat) -> bool)
    returns (success: nat)
    requires forall k :: 0 <= k < |predefines| ==> 1 <= |predefines[k].1.ys|
    requires Linked(BulkOf(clipped, indexes, items, predefines, canReach)) && indexes != []
    requires clipped.height <= 100
    requires RunStart(Levels(BulkOf(clipped, indexes, items, predefines, canReach), 0), clipped.height) <= 100
    requires Levels(BulkOf(clipped, indexes, items, predefines, canReach), 0) < 64
    ensures var bk := BulkOf(clipped, indexes, items, predefines, canReach);
      success == Count(bk, Acceptance(bk), EmptyLevel(clipped.height), [], PathsFrom(bk, 0), false)
  {
    success := AggregateCounting(clipped, indexes, items, predefines, canReach, false);
  }

  /**
   * `aggregate` as intended: a path finished at an item is counted like
   * one finished at an index node; the count is never below the count as
   * written.
   */
  method AggregateCorrected(clipped: ClippedBoard, indexes: seq<IndexNode>, items: seq<ItemNode>,
                            predefines: seq<(nat, PiecePredefines2)>, canReach: (Piece, int, int, Board, nat) -> bool)
    returns (success: nat)
    requires forall k :: 0 <= k < |predefines| ==> 1 <= |predefines[k].1.ys|
    requires Linked(BulkOf(clipped, indexes, items, predefines, canReach)) && indexes != []
    requires clipped.height <= 100
    requires RunStart(Levels(BulkOf(clipped, indexes, items, predefines, canReach), 0), clipped.height) <= 100
    requires Levels(BulkOf(clipped, indexes, items, predefines, canReach), 0) < 64
    ensures var bk := BulkOf(clipped, indexes, items, predefines, canReach);
      success == Count(bk, Acceptance(bk), EmptyLevel(clipped.height), [], PathsFrom(bk, 0), true)
    ensures var bk := BulkOf(clipped, indexes, items, predefines, canReach);
      Count(bk, Acceptance(bk), EmptyLevel(clipped.height), [], PathsFrom(bk, 0), false) <= success
  {
    success := AggregateCounting(clipped, indexes, items, predefines, canReach, true);
    ghost var bk := BulkOf(clipped, indexes, items, predefines, canReach);
    CountItemLeavesGrow(bk, Acceptance(bk), EmptyLevel(clipped.height), [], PathsFrom(bk, 0));
  }

  /** The entries of `make_predefines2` converted for building (`to_piece_predefines`), numbers kept. */
  function ToBuildAll(predefines: seq<(nat, PiecePredefines2)>, height: nat): (r: seq<(nat, PredefinedPieceToBuild)>)
    requires forall k :: 0 <= k < |predefines| ==> Convertible(predefines[k].1.locations, height)
    ensures |r| == |predefines|
    ensures forall k :: 0 <= k < |r| ==> r[k] == (predefines[k].0, ToPiecePredefines(predefines[k].1, height))
  {
    seq(|predefines|, k requires 0 <= k < |predefines| => (predefines[k].0, ToPiecePredefines(predefines[k].1, height)))
  }

  /**
   * What the piece tables of the board library must give for a height:
   * valid blocks for every piece, and entries that convert to bits of a
   * word, at least one of them (`build` asserts it).
   */
  ghost predicate Tables(height: nat, canonical: Piece -> Option<Piece>, blocksOf: Piece -> PieceBlocks)
  {
    && (forall p :: blocksOf(p).Valid())
    && |MakePredefines2(height, canonical, blocksOf)| != 0
    && forall k :: 0 <= k < |MakePredefines2(height, canonical, blocksOf)| ==>
         Convertible(MakePredefines2(height, canonical, blocksOf)[k].1.locations, height)
  }

  /** The input `build` works on for a board: the entries of `make_predefines2` converted, across the ten columns. */
  function SetupOf(clipped: ClippedBoard, canonical: Piece -> Option<Piece>, blocksOf: Piece -> PieceBlocks,
                   widthOf: Piece -> nat): (s: B.Setup)
    requires clipped.board.Valid() && clipped.height <= B.MaxHeight && Tables(clipped.height, canonical, blocksOf)
    ensures s.Valid() && s.width == Width && s.board == clipped.board && s.height == clipped.height
    ensures |s.predefines| == |MakePredefines2(clipped.height, canonical, blocksOf)|
  {
    var predefines := MakePredefines2(clipped.height, canonical, blocksOf);
    B.Setup(clipped.board, clipped.height, Width, ToBuildAll(predefines, clipped.height), widthOf)
  }

  /**
   * `build2`: the entries of `make_predefines2` and the nodes `build` makes
   * from them, or `None` where `build` panics at the check of
   * `bulk_executor.rs:413`.
   */
  method Build2(clipped: ClippedBoard, canonical: Piece -> Option<Piece>, blocksOf: Piece -> PieceBlocks,
                widthOf: Piece -> nat)
    returns (nodes: Option<Nodes>, predefines: seq<(nat, PiecePredefines2)>)
    requires clipped.board.Valid() && clipped.height <= B.MaxHeight && Tables(clipped.height, canonical, blocksOf)
    ensures predefines == MakePredefines2(clipped.height, canonical, blocksOf)
    ensures nodes.None? <==> B.BuiltAsWritten(SetupOf(clipped, canonical, blocksOf, widthOf)).None?
    ensures nodes.Some? ==> fresh(nodes.value)
    ensures nodes.Some? ==> nodes.value.indexes == B.Built(SetupOf(clipped, canonical, blocksOf, widthOf)).indexes
    ensures nodes.Some? ==> nodes.value.items == B.Built(SetupOf(clipped, canonical, blocksOf, widthOf)).items
  {
    predefines := MakePredefines2(clipped.height, canonical, blocksOf);
    nodes := B.Build(SetupOf(clipped, canonical, blocksOf, widthOf));
  }

  lemma DivBelow(id: nat, n: nat, w: nat)
    requires 0 < w && id < n * w
    ensures id / w < n
  {
    if id / w >= n {
      B.MulMonotone(n, id / w, w);
    }
  }

  /** Every entry of `make_predefines2` lies on at least one row, all below the height. */
  lemma MadeEntriesRows(h: nat, canonical: Piece -> Option<Piece>, blocksOf: Piece -> PieceBlocks)
    requires forall p :: blocksOf(p).Valid()
    ensures forall k :: 0 <= k < |MakePredefines2(h, canonical, blocksOf)| ==>
      1 <= |MakePredefines2(h, canonical, blocksOf)[k].1.ys|
    ensures PreValid(Pre3(MakePredefines2(h, canonical, blocksOf)), h)
  {
    var predefines := MakePredefines2(h, canonical, blocksOf);
    MakePredefines2Sound(h, canonical, blocksOf);
    forall k | 0 <= k < |predefines| ensures 1 <= |predefines[k].1.ys| {
      assert |predefines[k].1.ys| == blocksOf(predefines[k].1.piece).height;
    }
    var pre := Pre3(predefines);
    forall m, k | 0 <= m < |pre| && 0 <= k < |pre[m].ys|
      ensures pre[m].ys[k] < h
    {
      assert pre[m].ys[k] in predefines[m].1.ys;
    }
  }

  /**
   * What `build2` returns is fit for counting: the nodes of `build` are
   * linked forward, start with the head, and every item names an entry of
   * `make_predefines2`, each on at least one row below the height.
   */
  lemma Build2Linked(clipped: ClippedBoard, canonical: Piece -> Option<Piece>, blocksOf: Piece -> PieceBlocks,
                     widthOf: Piece -> nat, canReach: (Piece, int, int, Board, nat) -> bool)
    requires clipped.board.Valid() && 0 < clipped.height <= B.MaxHeight && Tables(clipped.height, canonical, blocksOf)
    ensures forall k :: 0 <= k < |MakePredefines2(clipped.height, canonical, blocksOf)| ==>
      1 <= |MakePredefines2(clipped.height, canonical, blocksOf)[k].1.ys|
    ensures var built := B.Built(SetupOf(clipped, canonical, blocksOf, widthOf));
      var bk := BulkOf(clipped, built.indexes, built.items, MakePredefines2(clipped.height, canonical, blocksOf), canReach);
      Linked(bk) && bk.indexes != []
  {
    var predefines := MakePredefines2(clipped.height, canonical, blocksOf);
    var s := SetupOf(clipped, canonical, blocksOf, widthOf);
    MadeEntriesRows(clipped.height, canonical, blocksOf);
    var built := B.Built(s);
    B.BuiltWellLinked(s);
    B.BuiltItemsNameEntries(s, |predefines|);
    forall j | 0 <= j < |built.items|
      ensures MinoIndex(built.items[j]) / Width < |predefines|
    {
      DivBelow(MinoIndex(built.items[j]), |predefines|, Width);
    }
  }

  datatype CreationError = UnexpectedBoardSpaces | ShortPatternDimension | BoardIsTooHigh

  datatype Executor = Executor(clipped: ClippedBoard, pattern: Pattern, allowsHold: bool, hasExtraShapes: bool,
                               spawn: (int, int))

  /** The highest board the bulk executor supports. */
  const MaxHeight: nat := 20

  /** What `try_new` guarantees of every executor it returns. */
  predicate Ready(e: Executor)
  {
    && e.clipped.board.Valid() && CountBlocks(e.clipped.board) <= e.clipped.height * Width
    && e.clipped.height <= MaxHeight
    && Spaces(e.clipped) % 4 == 0 && 0 < Spaces(e.clipped)
    && Expandable(e.pattern) && Spaces(e.clipped) / 4 <= DimShapes(e.pattern)
  }

  /**
   * `try_new`: a board above 20 rows, free cells not in fours, and a
   * pattern with fewer shapes than the cells need are refused, in that
   * order. The executor notes whether the pattern has a shape to spare and
   * spawns four rows above the height.
   */
  function TryNew(clipped: ClippedBoard, pattern: Pattern, allowsHold: bool): (r: Result<Executor, CreationError>)
    requires clipped.board.Valid() && CountBlocks(clipped.board) <= clipped.height * Width
    requires Expandable(pattern)
    requires clipped.height <= MaxHeight && Spaces(clipped) % 4 == 0 && Spaces(clipped) / 4 <= DimShapes(pattern)
             ==> 0 < Spaces(clipped)
    ensures r == Err(BoardIsTooHigh) <==> MaxHeight < clipped.height
    ensures r == Err(UnexpectedBoardSpaces) <==> clipped.height <= MaxHeight && Spaces(clipped) % 4 != 0
    ensures r == Err(ShortPatternDimension) <==>
      clipped.height <= MaxHeight && Spaces(clipped) % 4 == 0 && DimShapes(pattern) < Spaces(clipped) / 4
    ensures r.Ok? ==> Ready(r.value) && r.value.clipped == clipped && r.value.pattern == pattern
    ensures r.Ok? ==> r.value.allowsHold == allowsHold && r.value.spawn == (5, clipped.height + 4)
    ensures r.Ok? ==> (r.value.hasExtraShapes <==> Spaces(clipped) < 4 * DimShapes(pattern))
  {
    if MaxHeight < clipped.height then Err(BoardIsTooHigh)
    else if Spaces(clipped) % 4 != 0 then Err(UnexpectedBoardSpaces)
    else if DimShapes(pattern) < Spaces(clipped) / 4 then Err(ShortPatternDimension)
    else Ok(Executor(clipped, pattern, allowsHold, Spaces(clipped) / 4 < DimShapes(pattern), (5, clipped.height + 4)))
  }

  /** The counting input `execute` makes: the board of the executor with the nodes and entries of `build2`. */
  ghost function Executed(e: Executor, canonical: Piece -> Option<Piece>, blocksOf: Piece -> PieceBlocks,
                          widthOf: Piece -> nat, canReach: (Piece, int, int, Board, nat) -> bool): (bk: Bulk)
    requires Ready(e) && Tables(e.clipped.height, canonical, blocksOf)
    ensures Linked(bk) && bk.indexes != [] && bk.board == e.clipped.board && bk.height == e.clipped.height
  {
    Build2Linked(e.clipped, canonical, blocksOf, widthOf, canReach);
    var built := B.Built(SetupOf(e.clipped, canonical, blocksOf, widthOf));
    BulkOf(e.clipped, built.indexes, built.items, MakePredefines2(e.clipped.height, canonical, blocksOf), canReach)
  }

  /**
   * `execute` (the 100-entry buffers must hold every level the count
   * touches): `None` where `build` panics; otherwise the number of paths
   * through the DAG of `build2` that end at an index node, survive the cut
   * and whose pieces can be put in, in some order, with the move rules.
   * The pattern and the hold are not used.
   */
  method Execute(e: Executor, canonical: Piece -> Option<Piece>, blocksOf: Piece -> PieceBlocks,
                 widthOf: Piece -> nat, canReach: (Piece, int, int, Board, nat) -> bool)
    returns (success: Option<nat>)
    requires Ready(e) && Tables(e.clipped.height, canonical, blocksOf)
    requires RunStart(Levels(Executed(e, canonical, blocksOf, widthOf, canReach), 0), e.clipped.height) <= 100
    requires Levels(Executed(e, canonical, blocksOf, widthOf, canReach), 0) < 64
    ensures success.None? <==> B.BuiltAsWritten(SetupOf(e.clipped, canonical, blocksOf, widthOf)).None?
    ensures success.Some? ==> var bk := Executed(e, canonical, blocksOf, widthOf, canReach);
      success.value == Count(bk, Acceptance(bk), EmptyLevel(e.clipped.height), [], PathsFrom(bk, 0), false)
  {
    var nodes, predefines := Build2(e.clipped, canonical, blocksOf, widthOf);
    if nodes.None? {
      return None;
    }
    Build2Linked(e.clipped, canonical, blocksOf, widthOf, canReach);
    var count := Aggregate(e.clipped, nodes.value.indexes, nodes.value.items, predefines, canReach);
    success := Some(count);
  }
}
