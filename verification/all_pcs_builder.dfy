/**
 * `Builder::build`: the DAG of every way to fill the board cell by cell,
 * column by column from the bottom left. A frontier is the set of cells
 * ahead of the current cell that earlier pieces already fill (bit `s` is the
 * cell `s` steps ahead, counting up each column). Index node `i` is built
 * from frontier `i`; its items are the pieces that can start at the current
 * cell, each leading to the frontier of the next cell or finishing the
 * board. Frontiers reached at the same cell are shared through a hash map.
 */
module AllPcsBuilders {
  import opened Wrappers
  import opened Shapes
  import opened Boards
  import opened Masks
  import opened Pieces
  import opened PredefinedPieces
  import opened AllPcsNodes

  /** The highest board whose masks fit in a word. */
  const MaxHeight: nat := 20

  /** What `build` works from once the pieces are converted: the board, its height, the width, the pieces and each piece's width. */
  datatype Setup = Setup(board: Board, height: nat, width: nat,
                         predefines: seq<(nat, PredefinedPieceToBuild)>, widthOf: Piece -> nat)
  {
    predicate Valid()
    {
      board.Valid() && height <= MaxHeight && width <= Width && |predefines| != 0
    }
  }

  /** `is_occupied_at`. */
  predicate Occupied(board: Board, x: nat, y: nat)
    requires board.Valid() && y < Rows
  {
    x in board.rows[y]
  }

  /** A piece that can start at the current cell: its node id (`mino_index * width + lx`) and its blocks relative to that cell. */
  datatype Mino = Mino(id: nat, blocks: set<nat>)

  /** The `minos` of a cell: the pieces whose first column starts on row `y` and that fit in the width from column `lx`. */
  function MinosAt(s: Setup, lx: nat, y: nat, from: nat): (r: seq<Mino>)
    requires from <= |s.predefines|
    ensures forall m :: m in r ==> exists k :: (from <= k < |s.predefines| &&
      var (index, p) := s.predefines[k];
      p.minYAtX0 == y && lx + s.widthOf(p.piece) <= s.width && m == Mino(index * s.width + lx, p.relativeBlocks))
    decreases |s.predefines| - from
  {
    if from == |s.predefines| then []
    else
      var (index, p) := s.predefines[from];
      var rest := MinosAt(s, lx, y, from + 1);
      if p.minYAtX0 == y && lx + s.widthOf(p.piece) <= s.width then [Mino(index * s.width + lx, p.relativeBlocks)] + rest
      else rest
  }

  /** A node id names its piece and its column: `id / width` and `id % width`. */
  lemma MinoIdDecodes(index: nat, lx: nat, width: nat)
    requires lx < width
    ensures (index * width + lx) / width == index && (index * width + lx) % width == lx
  {
    Decode(index, lx, width);
  }

  /** The cell `s` steps after `(lx, y)`, counting up each column of `height` rows. */
  function Position(height: nat, lx: nat, y: nat, s: nat): nat
  {
    lx * height + y + s
  }

  /** Whether cell `p` (counting up each column) is a block of the board and lies before the last column ends. */
  predicate BlockAt(s: Setup, p: nat)
    requires s.Valid() && 0 < s.height
  {
    p < s.width * s.height && Occupied(s.board, p / s.height, p % s.height)
  }

  /** The board blocks among the first `n` cells from `(lx, y)`. */
  function MaskUpTo(s: Setup, lx: nat, y: nat, n: nat): set<nat>
    requires s.Valid() && 0 < s.height
  {
    set k | k in Range(n) && BlockAt(s, Position(s.height, lx, y, k))
  }

  /** `board_mask`: which of the `3 * height + 1` cells from the current one are blocks of the board, up to the last column. */
  function BoardMaskOf(s: Setup, lx: nat, y: nat): set<nat>
    requires s.Valid() && y < s.height
  {
    MaskUpTo(s, lx, y, 3 * s.height + 1)
  }

  /** At a free cell bit 0 of the board mask is clear, as `builder.rs` asserts. */
  lemma BoardMaskFreeAtCell(s: Setup, lx: nat, y: nat)
    requires s.Valid() && y < s.height && !Occupied(s.board, lx, y)
    ensures 0 !in BoardMaskOf(s, lx, y)
  {
    Decode(lx, y, s.height);
  }

  /** `rest`: how many cells remain from the current one to the end, the current one included. */
  function Rest(s: Setup, lx: nat, y: nat): nat
    requires lx < s.width && y < s.height
  {
    var columns: nat := s.width - lx - 1;
    ProductNat(s.height, columns);
    s.height * columns + (s.height - y)
  }

  lemma ProductNat(a: nat, b: nat)
    ensures 0 <= a * b
  {
  }

  /** `fill_block_mask`: every remaining cell when they all fit in the window, otherwise every bit of the word. */
  function FillBlockMask(s: Setup, lx: nat, y: nat): (r: set<nat>)
    requires lx < s.width && y < s.height
    ensures Rest(s, lx, y) <= 3 * s.height + 1 ==> forall k: nat ::
      k in r <==> Position(s.height, lx, y, k) < s.width * s.height
  {
    var rest := Rest(s, lx, y);
    if rest <= 3 * s.height + 1 then
      assert forall k: nat :: k < rest <==> Position(s.height, lx, y, k) < s.width * s.height by {
        assert s.width * s.height == s.height * (s.width - lx - 1) + s.height * (lx + 1);
        assert s.height * (lx + 1) == lx * s.height + s.height;
      }
      Range(rest)
    else AllBits
  }

  /** The nodes built so far and the frontiers found so far. */
  datatype State = State(indexes: seq<IndexNode>, items: seq<ItemNode>, frontiers: seq<set<nat>>)

  /** A state with the per-cell `hash_map` from a frontier to its id. */
  datatype Scratch = Scratch(state: State, hash: map<set<nat>, nat>)

  /** The empty node arenas and the one blank frontier the search starts from. */
  function Initial(): State
  {
    State([], [], [{}])
  }

  /** Reach frontier `key`: its id in the hash map, or a new frontier with the next id. */
  function Reach(sc: Scratch, key: set<nat>): (r: (Scratch, nat))
  {
    if key in sc.hash then (sc, sc.hash[key])
    else
      var id := |sc.state.frontiers|;
      (Scratch(sc.state.(frontiers := sc.state.frontiers + [key]), sc.hash[key := id]), id)
  }

  /** Whether a piece fits at the current cell: none of its blocks is filled. */
  predicate Fits(current: set<nat>, m: Mino)
  {
    current !! m.blocks
  }

  /** One piece tried at the current cell: an item that finishes the board, or one leading to the frontier of the next cell. */
  function PlaceMino(sc: Scratch, current: set<nat>, m: Mino, fill: set<nat>): Scratch
  {
    if !Fits(current, m) then sc
    else
      var next := current + m.blocks;
      if next == fill then sc.(state := sc.state.(items := sc.state.items + [ItemToHi(m.id)]))
      else
        var (sc', id) := Reach(sc, ShiftRight(next));
        sc'.(state := sc'.state.(items := sc'.state.items + [ToIndex(m.id, id)]))
  }

  /** The first `k` pieces tried in turn. */
  function PlaceMinos(sc: Scratch, current: set<nat>, minos: seq<Mino>, k: nat, fill: set<nat>): (r: Scratch)
    requires k <= |minos|
    ensures r.state.indexes == sc.state.indexes && |sc.state.frontiers| <= |r.state.frontiers|
  {
    if k == 0 then sc else PlaceMino(PlaceMinos(sc, current, minos, k - 1, fill), current, minos[k - 1], fill)
  }

  /** `item_size`: how many of the first `k` pieces fit. */
  function FittingCount(current: set<nat>, minos: seq<Mino>, k: nat): nat
    requires k <= |minos|
  {
    if k == 0 then 0 else FittingCount(current, minos, k - 1) + (if Fits(current, minos[k - 1]) then 1 else 0)
  }

  /**
   * One pending frontier `t` at a free cell: with the cell empty, a jump
   * over the items of every piece that fits; with the cell filled, a skip
   * to the frontier of the next cell.
   */
  function VisitTail(sc: Scratch, t: nat, mask: set<nat>, fill: set<nat>, minos: seq<Mino>): (r: Scratch)
    requires t < |sc.state.frontiers|
    ensures |r.state.indexes| == |sc.state.indexes| + 1 && |sc.state.frontiers| <= |r.state.frontiers|
  {
    var current := sc.state.frontiers[t] + mask;
    if 0 !in current then
      var start := |sc.state.items|;
      var placed := PlaceMinos(sc, current, minos, |minos|, fill);
      placed.(state := placed.state.(indexes := placed.state.indexes + [Jump(start, FittingCount(current, minos, |minos|))]))
    else
      var (sc', id) := Reach(sc, ShiftRight(current));
      sc'.(state := sc'.state.(indexes := sc'.state.indexes + [Skip(id)]))
  }

  /** The pending frontiers `lo .. lo + k` visited in turn. */
  function VisitTails(sc: Scratch, lo: nat, k: nat, mask: set<nat>, fill: set<nat>, minos: seq<Mino>): (r: Scratch)
    requires lo + k <= |sc.state.frontiers|
    ensures |r.state.indexes| == |sc.state.indexes| + k && |sc.state.frontiers| <= |r.state.frontiers|
  {
    if k == 0 then sc
    else VisitTail(VisitTails(sc, lo, k - 1, mask, fill, minos), lo + k - 1, mask, fill, minos)
  }

  /** `frontiers[tail].board >>= 1` for every pending frontier. */
  function ShiftPending(frontiers: seq<set<nat>>, from: nat): (r: seq<set<nat>>)
    requires from <= |frontiers|
    ensures |r| == |frontiers|
    ensures forall i :: 0 <= i < from ==> r[i] == frontiers[i]
    ensures forall i :: from <= i < |frontiers| ==> r[i] == ShiftRight(frontiers[i])
  {
    seq(|frontiers|, i requires 0 <= i < |frontiers| => if i < from then frontiers[i] else ShiftRight(frontiers[i]))
  }

  /**
   * A free cell that has pieces: the hash map starts empty and every
   * frontier pending when the cell is reached is visited; the new frontiers
   * are those pending at the next cell.
   */
  function VisitFreeCell(s: Setup, st: State, lx: nat, y: nat, minos: seq<Mino>): (r: State)
    requires s.Valid() && lx < s.width && y < s.height
    requires |st.indexes| <= |st.frontiers|
    ensures |r.indexes| == |st.frontiers| <= |r.frontiers|
  {
    var lo := |st.indexes|;
    VisitTails(Scratch(st, map[]), lo, |st.frontiers| - lo, BoardMaskOf(s, lx, y), FillBlockMask(s, lx, y), minos).state
  }

  /**
   * One cell, with the check of `builder.rs:101` removed: a cell reached
   * with no pending frontier visits the empty range of pending frontiers
   * and changes nothing.
   */
  function VisitCell(s: Setup, st: State, lx: nat, y: nat): (r: State)
    requires s.Valid() && lx < s.width && y < s.height
    requires |st.indexes| <= |st.frontiers|
    ensures |r.indexes| <= |r.frontiers|
  {
    if Occupied(s.board, lx, y) then st.(frontiers := ShiftPending(st.frontiers, |st.indexes|))
    else
      var minos := MinosAt(s, lx, y, 0);
      if minos == [] then st
      else VisitFreeCell(s, st, lx, y, minos)
  }

  /** Where the build as written panics: a free cell with pieces but no pending frontier. */
  predicate Panics(s: Setup, st: State, lx: nat, y: nat)
    requires s.Valid() && lx < s.width && y < s.height
  {
    !Occupied(s.board, lx, y) && MinosAt(s, lx, y, 0) != [] && |st.indexes| == |st.frontiers|
  }

  /** One cell as written: `None` where the check that a frontier is pending fails and the build panics. */
  function VisitCellAsWritten(s: Setup, st: State, lx: nat, y: nat): (r: Option<State>)
    requires s.Valid() && lx < s.width && y < s.height
    requires |st.indexes| <= |st.frontiers|
    ensures r.None? <==> Panics(s, st, lx, y)
    ensures r.Some? ==> r.value == VisitCell(s, st, lx, y)
  {
    if Occupied(s.board, lx, y) then Some(st.(frontiers := ShiftPending(st.frontiers, |st.indexes|)))
    else
      var minos := MinosAt(s, lx, y, 0);
      if minos == [] then Some(st)
      else if |st.indexes| == |st.frontiers| then None
      else Some(VisitFreeCell(s, st, lx, y, minos))
  }

  /** Cell `c` is column `c / height`, row `c % height`, inside the board when `c < width * height`. */
  lemma MulMonotone(a: nat, b: nat, h: nat)
    requires a <= b
    ensures a * h <= b * h
  {
  }

  /** The rows `0 .. y` of column `lx` visited in order, from the state `st` the column starts with. */
  function VisitRows(s: Setup, st: State, lx: nat, y: nat): (r: State)
    requires s.Valid() && lx < s.width && y <= s.height && |st.indexes| <= |st.frontiers|
    ensures |r.indexes| <= |r.frontiers|
  {
    if y == 0 then st else VisitCell(s, VisitRows(s, st, lx, y - 1), lx, y - 1)
  }

  /** The columns `0 .. lx` visited in order, each from the bottom row up. */
  function VisitColumns(s: Setup, lx: nat): (r: State)
    requires s.Valid() && lx <= s.width
    ensures |r.indexes| <= |r.frontiers|
  {
    if lx == 0 then Initial() else VisitRows(s, VisitColumns(s, lx - 1), lx - 1, s.height)
  }

  /** The state in which cell `(lx, y)` is reached. */
  function Reached(s: Setup, lx: nat, y: nat): (r: State)
    requires s.Valid() && lx < s.width && y <= s.height
    ensures |r.indexes| <= |r.frontiers|
  {
    VisitRows(s, VisitColumns(s, lx), lx, y)
  }

  /** Whether the build as written panics at cell `(lx, y)`. */
  predicate PanicsAt(s: Setup, lx: nat, y: nat)
    requires s.Valid() && lx < s.width && y < s.height
  {
    Panics(s, Reached(s, lx, y), lx, y)
  }

  /** The rows `0 .. y` of column `lx` as written: `None` once a cell panics. */
  function VisitRowsAsWritten(s: Setup, st: State, lx: nat, y: nat): Option<State>
    requires s.Valid() && lx < s.width && y <= s.height
  {
    if y == 0 then Some(st)
    else
      match VisitRowsAsWritten(s, st, lx, y - 1)
      case None => None
      case Some(st') =>
        if |st'.indexes| <= |st'.frontiers| then VisitCellAsWritten(s, st', lx, y - 1) else None
  }

  /** The columns `0 .. lx` as written: `None` once a cell panics. */
  function VisitColumnsAsWritten(s: Setup, lx: nat): Option<State>
    requires s.Valid() && lx <= s.width
  {
    if lx == 0 then Some(Initial())
    else
      match VisitColumnsAsWritten(s, lx - 1)
      case None => None
      case Some(st) => VisitRowsAsWritten(s, st, lx - 1, s.height)
  }

  /** `complete2` for every frontier still pending after the last cell. */
  function Completed(st: State): (r: State)
    requires |st.indexes| <= |st.frontiers|
    ensures |r.indexes| == |r.frontiers|
  {
    st.(indexes := st.indexes + seq(|st.frontiers| - |st.indexes|, _ => IndexNode.ToHi))
  }

  /** `build`, with the check of `builder.rs:101` removed. */
  function Built(s: Setup): State
    requires s.Valid()
  {
    Completed(VisitColumns(s, s.width))
  }

  /** `build` as written: `None` where it panics. */
  function BuiltAsWritten(s: Setup): Option<State>
    requires s.Valid()
  {
    match VisitColumnsAsWritten(s, s.width)
    case None => None
    case Some(st) => if |st.indexes| <= |st.frontiers| then Some(Completed(st)) else None
  }

  /** A column as written runs to row `y` exactly when none of its rows below `y` panics, and then agrees with the corrected build. */
  lemma {:induction false} VisitRowsAsWrittenPanicsExactly(s: Setup, lx: nat, y: nat)
    requires s.Valid() && lx < s.width && y <= s.height
    ensures VisitRowsAsWritten(s, VisitColumns(s, lx), lx, y).None? <==> exists y' :: 0 <= y' < y && PanicsAt(s, lx, y')
    ensures VisitRowsAsWritten(s, VisitColumns(s, lx), lx, y).Some? ==>
      VisitRowsAsWritten(s, VisitColumns(s, lx), lx, y).value == Reached(s, lx, y)
  {
    if y > 0 {
      var st0 := VisitColumns(s, lx);
      VisitRowsAsWrittenPanicsExactly(s, lx, y - 1);
      var prev := VisitRowsAsWritten(s, st0, lx, y - 1);
      if prev.None? {
        var y' :| 0 <= y' < y - 1 && PanicsAt(s, lx, y');
        assert 0 <= y' < y && PanicsAt(s, lx, y');
      } else {
        var st := prev.value;
        assert st == Reached(s, lx, y - 1);
        if PanicsAt(s, lx, y - 1) {
          assert VisitRowsAsWritten(s, st0, lx, y).None?;
        } else {
          assert VisitRowsAsWritten(s, st0, lx, y) == Some(Reached(s, lx, y));
          assert forall y' :: 0 <= y' < y ==> !PanicsAt(s, lx, y');
        }
      }
    }
  }

  /** The build as written runs past column `lx - 1` exactly when no cell before panics, and then agrees with the corrected build. */
  lemma {:induction false} VisitColumnsAsWrittenPanicsExactly(s: Setup, lx: nat)
    requires s.Valid() && lx <= s.width
    ensures VisitColumnsAsWritten(s, lx).None? <==>
      exists x, y :: 0 <= x < lx && 0 <= y < s.height && PanicsAt(s, x, y)
    ensures VisitColumnsAsWritten(s, lx).Some? ==> VisitColumnsAsWritten(s, lx).value == VisitColumns(s, lx)
  {
    if lx > 0 {
      VisitColumnsAsWrittenPanicsExactly(s, lx - 1);
      if VisitColumnsAsWritten(s, lx - 1).None? {
        EarlierColumnPanics(s, lx);
      } else {
        LastColumnAsWritten(s, lx);
      }
    }
  }

  /** Once an earlier column panicked, the build as written stays stopped. */
  lemma EarlierColumnPanics(s: Setup, lx: nat)
    requires s.Valid() && 0 < lx <= s.width && VisitColumnsAsWritten(s, lx - 1).None?
    requires exists x, y :: 0 <= x < lx - 1 && 0 <= y < s.height && PanicsAt(s, x, y)
    ensures VisitColumnsAsWritten(s, lx).None?
    ensures exists x, y :: 0 <= x < lx && 0 <= y < s.height && PanicsAt(s, x, y)
  {
    var x, y :| 0 <= x < lx - 1 && 0 <= y < s.height && PanicsAt(s, x, y);
    assert 0 <= x < lx && PanicsAt(s, x, y);
  }

  /** The step of the lemma above for the last column, once the columns before it ran. */
  lemma LastColumnAsWritten(s: Setup, lx: nat)
    requires s.Valid() && 0 < lx <= s.width
    requires VisitColumnsAsWritten(s, lx - 1) == Some(VisitColumns(s, lx - 1))
    requires forall x, y :: 0 <= x < lx - 1 && 0 <= y < s.height ==> !PanicsAt(s, x, y)
    ensures VisitColumnsAsWritten(s, lx).None? <==>
      exists x, y :: 0 <= x < lx && 0 <= y < s.height && PanicsAt(s, x, y)
    ensures VisitColumnsAsWritten(s, lx).Some? ==> VisitColumnsAsWritten(s, lx).value == VisitColumns(s, lx)
  {
    var last := lx - 1;
    VisitRowsAsWrittenPanicsExactly(s, last, s.height);
    assert VisitColumnsAsWritten(s, lx) == VisitRowsAsWritten(s, VisitColumns(s, last), last, s.height);
    assert Reached(s, last, s.height) == VisitColumns(s, lx);
    if VisitColumnsAsWritten(s, lx).None? {
      var y :| 0 <= y < s.height && PanicsAt(s, last, y);
      assert 0 <= last < lx && PanicsAt(s, last, y);
    } else {
      assert forall y' :: 0 <= y' < s.height ==> !PanicsAt(s, last, y');
      forall x, y | 0 <= x < lx && 0 <= y < s.height
        ensures !PanicsAt(s, x, y)
      {
        if x == last {
          assert !PanicsAt(s, last, y);
        }
      }
    }
  }

  /** `build` as written panics exactly when some cell does; otherwise it returns the nodes of the corrected build. */
  lemma BuiltAsWrittenPanicsExactly(s: Setup)
    requires s.Valid()
    ensures BuiltAsWritten(s).None? <==> exists x, y :: 0 <= x < s.width && 0 <= y < s.height && PanicsAt(s, x, y)
    ensures BuiltAsWritten(s).Some? ==> BuiltAsWritten(s).value == Built(s)
  {
    VisitColumnsAsWrittenPanicsExactly(s, s.width);
  }

  // Within one cell: frontiers reached at the cell are shared, and every node points where it should.

  /** The hash map of a cell: every frontier reached at the cell is in it under its own id, and it holds nothing else. */
  ghost predicate HashInv(sc: Scratch, f0: nat)
  {
    && f0 <= |sc.state.frontiers|
    && (forall key :: key in sc.hash ==>
          f0 <= sc.hash[key] < |sc.state.frontiers| && sc.state.frontiers[sc.hash[key]] == key)
    && (forall i :: f0 <= i < |sc.state.frontiers| ==>
          sc.state.frontiers[i] in sc.hash && sc.hash[sc.state.frontiers[i]] == i)
  }

  /** Nodes and frontiers are only ever appended. */
  ghost predicate Extends(a: State, b: State)
  {
    a.indexes <= b.indexes && a.items <= b.items && a.frontiers <= b.frontiers
  }

  /** The frontiers reached at one cell are pairwise different. */
  lemma HashInvDistinct(sc: Scratch, f0: nat)
    requires HashInv(sc, f0)
    ensures forall i, j :: f0 <= i < j < |sc.state.frontiers| ==> sc.state.frontiers[i] != sc.state.frontiers[j]
  {
  }

  /** `Reach` finds the frontier with the key, under an id reached at this cell, and creates it only when it is new. */
  lemma ReachSound(sc: Scratch, key: set<nat>, f0: nat)
    requires HashInv(sc, f0)
    ensures HashInv(Reach(sc, key).0, f0)
    ensures Reach(sc, key).0.state.indexes == sc.state.indexes && Reach(sc, key).0.state.items == sc.state.items
    ensures sc.state.frontiers <= Reach(sc, key).0.state.frontiers
    ensures f0 <= Reach(sc, key).1 < |Reach(sc, key).0.state.frontiers|
    ensures Reach(sc, key).0.state.frontiers[Reach(sc, key).1] == key
    ensures (exists i :: f0 <= i < |sc.state.frontiers| && sc.state.frontiers[i] == key) <==>
            Reach(sc, key).0.state.frontiers == sc.state.frontiers
  {
    if key !in sc.hash {
      var (r, id) := Reach(sc, key);
      forall i | f0 <= i < |r.state.frontiers|
        ensures r.state.frontiers[i] in r.hash && r.hash[r.state.frontiers[i]] == i
      {
        if i < |sc.state.frontiers| {
          assert sc.state.frontiers[i] in sc.hash;
        }
      }
    }
  }

  /** An item made for a piece that fits: it finishes the board, or it leads to the frontier the piece leaves at the next cell. */
  ghost predicate ItemFor(item: ItemNode, current: set<nat>, minos: seq<Mino>, fill: set<nat>,
                          frontiers: seq<set<nat>>, f0: nat)
  {
    exists m :: m in minos && Fits(current, m) &&
      match item
      case ItemToHi(mino) => mino == m.id && current + m.blocks == fill
      case ToIndex(mino, next) =>
        && mino == m.id && current + m.blocks != fill
        && f0 <= next < |frontiers| && frontiers[next] == ShiftRight(current + m.blocks)
  }

  lemma ItemForExtends(item: ItemNode, current: set<nat>, minos: seq<Mino>, fill: set<nat>,
                       frontiers: seq<set<nat>>, frontiers': seq<set<nat>>, f0: nat)
    requires ItemFor(item, current, minos, fill, frontiers, f0) && frontiers <= frontiers'
    ensures ItemFor(item, current, minos, fill, frontiers', f0)
  {
    var m :| m in minos && Fits(current, m) &&
      match item
      case ItemToHi(mino) => mino == m.id && current + m.blocks == fill
      case ToIndex(mino, next) =>
        && mino == m.id && current + m.blocks != fill
        && f0 <= next < |frontiers| && frontiers[next] == ShiftRight(current + m.blocks);
    assert m in minos && Fits(current, m);
  }

  /**
   * Trying the first `k` pieces appends one item per piece that fits and
   * nothing else, each item made for its piece; the hash map stays exact.
   */
  lemma {:induction false} PlaceMinosSound(sc: Scratch, current: set<nat>, minos: seq<Mino>, k: nat, fill: set<nat>, f0: nat)
    requires k <= |minos| && HashInv(sc, f0)
    ensures HashInv(PlaceMinos(sc, current, minos, k, fill), f0)
    ensures Extends(sc.state, PlaceMinos(sc, current, minos, k, fill).state)
    ensures |PlaceMinos(sc, current, minos, k, fill).state.items| == |sc.state.items| + FittingCount(current, minos, k)
    ensures forall j :: |sc.state.items| <= j < |PlaceMinos(sc, current, minos, k, fill).state.items| ==>
      ItemFor(PlaceMinos(sc, current, minos, k, fill).state.items[j], current, minos, fill,
              PlaceMinos(sc, current, minos, k, fill).state.frontiers, f0)
  {
    if k > 0 {
      PlaceMinosSound(sc, current, minos, k - 1, fill, f0);
      var before := PlaceMinos(sc, current, minos, k - 1, fill);
      var m := minos[k - 1];
      var r := PlaceMinos(sc, current, minos, k, fill);
      assert r == PlaceMino(before, current, m, fill);
      if Fits(current, m) {
        var next := current + m.blocks;
        if next == fill {
          assert r.state.items == before.state.items + [ItemToHi(m.id)];
          assert ItemFor(ItemToHi(m.id), current, minos, fill, r.state.frontiers, f0);
        } else {
          ReachSound(before, ShiftRight(next), f0);
          var (sc', id) := Reach(before, ShiftRight(next));
          assert r.state.items == sc'.state.items + [ToIndex(m.id, id)];
          assert ItemFor(ToIndex(m.id, id), current, minos, fill, r.state.frontiers, f0);
          forall j | |sc.state.items| <= j < |before.state.items|
            ensures ItemFor(r.state.items[j], current, minos, fill, r.state.frontiers, f0)
          {
            ItemForExtends(before.state.items[j], current, minos, fill, before.state.frontiers, r.state.frontiers, f0);
          }
        }
      }
    }
  }

  /**
   * The index node of a pending frontier: a jump over one item per fitting
   * piece when the current cell is empty, a skip to the frontier shifted to
   * the next cell when it is filled.
   */
  ghost predicate NodeFor(node: IndexNode, current: set<nat>, st: State, minos: seq<Mino>, fill: set<nat>, f0: nat)
  {
    match node
    case Jump(start, len) =>
      && 0 !in current && len == FittingCount(current, minos, |minos|) && start + len <= |st.items|
      && forall j :: start <= j < start + len ==> ItemFor(st.items[j], current, minos, fill, st.frontiers, f0)
    case Skip(next) => 0 in current && f0 <= next < |st.frontiers| && st.frontiers[next] == ShiftRight(current)
    case ToHi => false
  }

  lemma NodeForExtends(node: IndexNode, current: set<nat>, st: State, st': State, minos: seq<Mino>, fill: set<nat>, f0: nat)
    requires NodeFor(node, current, st, minos, fill, f0) && Extends(st, st')
    ensures NodeFor(node, current, st', minos, fill, f0)
  {
    if node.Jump? {
      forall j | node.nextItemId <= j < node.nextItemId + node.itemLength
        ensures ItemFor(st'.items[j], current, minos, fill, st'.frontiers, f0)
      {
        assert st'.items[j] == st.items[j];
        ItemForExtends(st.items[j], current, minos, fill, st.frontiers, st'.frontiers, f0);
      }
    }
  }

  /** Visiting pending frontier `t` appends index node `t`, made from frontier `t`. */
  lemma VisitTailSound(sc: Scratch, t: nat, mask: set<nat>, fill: set<nat>, minos: seq<Mino>, f0: nat)
    requires t < f0 && HashInv(sc, f0) && |sc.state.indexes| == t
    ensures HashInv(VisitTail(sc, t, mask, fill, minos), f0)
    ensures Extends(sc.state, VisitTail(sc, t, mask, fill, minos).state)
    ensures NodeFor(VisitTail(sc, t, mask, fill, minos).state.indexes[t], sc.state.frontiers[t] + mask,
                    VisitTail(sc, t, mask, fill, minos).state, minos, fill, f0)
  {
    var current := sc.state.frontiers[t] + mask;
    var r := VisitTail(sc, t, mask, fill, minos);
    if 0 !in current {
      PlaceMinosSound(sc, current, minos, |minos|, fill, f0);
      var placed := PlaceMinos(sc, current, minos, |minos|, fill);
      assert r.state.indexes[t] == Jump(|sc.state.items|, FittingCount(current, minos, |minos|));
      assert r.state.items == placed.state.items && r.state.frontiers == placed.state.frontiers;
    } else {
      ReachSound(sc, ShiftRight(current), f0);
    }
  }

  /** Visiting the pending frontiers `lo .. lo + k` appends their index nodes in order, each made from its own frontier. */
  lemma {:induction false} VisitTailsSound(sc: Scratch, lo: nat, k: nat, mask: set<nat>, fill: set<nat>, minos: seq<Mino>, f0: nat)
    requires lo + k <= f0 && HashInv(sc, f0) && |sc.state.indexes| == lo
    ensures HashInv(VisitTails(sc, lo, k, mask, fill, minos), f0)
    ensures Extends(sc.state, VisitTails(sc, lo, k, mask, fill, minos).state)
    ensures forall t :: lo <= t < lo + k ==>
      NodeFor(VisitTails(sc, lo, k, mask, fill, minos).state.indexes[t], sc.state.frontiers[t] + mask,
              VisitTails(sc, lo, k, mask, fill, minos).state, minos, fill, f0)
  {
    if k > 0 {
      VisitTailsSound(sc, lo, k - 1, mask, fill, minos, f0);
      var before := VisitTails(sc, lo, k - 1, mask, fill, minos);
      var t := lo + k - 1;
      VisitTailSound(before, t, mask, fill, minos, f0);
      var r := VisitTails(sc, lo, k, mask, fill, minos);
      assert before.state.frontiers[t] == sc.state.frontiers[t];
      forall u | lo <= u < t
        ensures NodeFor(r.state.indexes[u], sc.state.frontiers[u] + mask, r.state, minos, fill, f0)
      {
        assert r.state.indexes[u] == before.state.indexes[u];
        NodeForExtends(before.state.indexes[u], sc.state.frontiers[u] + mask, before.state, r.state, minos, fill, f0);
      }
    }
  }

  /**
   * A free cell with pieces: index node `t` is built from frontier `t` for
   * every pending `t`, and the frontiers it reaches are pairwise different
   * and all new.
   */
  lemma VisitFreeCellSound(s: Setup, st: State, lx: nat, y: nat, minos: seq<Mino>)
    requires s.Valid() && lx < s.width && y < s.height && |st.indexes| <= |st.frontiers|
    ensures Extends(st, VisitFreeCell(s, st, lx, y, minos))
    ensures forall t :: |st.indexes| <= t < |st.frontiers| ==>
      NodeFor(VisitFreeCell(s, st, lx, y, minos).indexes[t], st.frontiers[t] + BoardMaskOf(s, lx, y),
              VisitFreeCell(s, st, lx, y, minos), minos, FillBlockMask(s, lx, y), |st.frontiers|)
    ensures forall i, j :: |st.frontiers| <= i < j < |VisitFreeCell(s, st, lx, y, minos).frontiers| ==>
      VisitFreeCell(s, st, lx, y, minos).frontiers[i] != VisitFreeCell(s, st, lx, y, minos).frontiers[j]
  {
    var lo := |st.indexes|;
    var f0 := |st.frontiers|;
    var sc := Scratch(st, map[]);
    VisitTailsSound(sc, lo, f0 - lo, BoardMaskOf(s, lx, y), FillBlockMask(s, lx, y), minos, f0);
    HashInvDistinct(VisitTails(sc, lo, f0 - lo, BoardMaskOf(s, lx, y), FillBlockMask(s, lx, y), minos), f0);
  }

  // Across the whole build: every node points forward.

  /**
   * Every skip and every item of a jump leads to a later index node that
   * exists once its frontier is completed, and every jump's items exist.
   */
  ghost predicate WellLinked(st: State)
  {
    forall i :: 0 <= i < |st.indexes| ==>
      match st.indexes[i]
      case Jump(start, len) =>
        && start + len <= |st.items|
        && forall j :: start <= j < start + len ==>
             (st.items[j].ToIndex? ==> i < st.items[j].nextIndexId < |st.frontiers|)
      case Skip(next) => i < next < |st.frontiers|
      case ToHi => true
  }

  lemma WellLinkedExtends(st: State, st': State)
    requires WellLinked(st) && Extends(st, st')
    ensures forall i :: 0 <= i < |st.indexes| ==>
      match st'.indexes[i]
      case Jump(start, len) =>
        && start + len <= |st'.items|
        && forall j :: start <= j < start + len ==>
             (st'.items[j].ToIndex? ==> i < st'.items[j].nextIndexId < |st'.frontiers|)
      case Skip(next) => i < next < |st'.frontiers|
      case ToHi => true
  {
    forall i | 0 <= i < |st.indexes|
      ensures match st'.indexes[i]
        case Jump(start, len) =>
          && start + len <= |st'.items|
          && forall j :: start <= j < start + len ==>
               (st'.items[j].ToIndex? ==> i < st'.items[j].nextIndexId < |st'.frontiers|)
        case Skip(next) => i < next < |st'.frontiers|
        case ToHi => true
    {
      assert st'.indexes[i] == st.indexes[i];
      if st.indexes[i].Jump? {
        var start, len := st.indexes[i].nextItemId, st.indexes[i].itemLength;
        forall j | start <= j < start + len
          ensures st'.items[j].ToIndex? ==> i < st'.items[j].nextIndexId < |st'.frontiers|
        {
          assert st'.items[j] == st.items[j];
        }
      }
    }
  }

  /** An item made at a cell whose frontiers start at `f0` points past every node pending there. */
  lemma ItemForForward(item: ItemNode, current: set<nat>, minos: seq<Mino>, fill: set<nat>,
                       frontiers: seq<set<nat>>, f0: nat)
    requires ItemFor(item, current, minos, fill, frontiers, f0)
    ensures item.ToIndex? ==> f0 <= item.nextIndexId < |frontiers|
  {
  }

  /** A free cell keeps the nodes well linked: its new nodes point at frontiers reached at the cell. */
  lemma VisitFreeCellWellLinked(s: Setup, st: State, lx: nat, y: nat, minos: seq<Mino>)
    requires s.Valid() && lx < s.width && y < s.height && |st.indexes| <= |st.frontiers| && WellLinked(st)
    ensures WellLinked(VisitFreeCell(s, st, lx, y, minos))
  {
    var r := VisitFreeCell(s, st, lx, y, minos);
    var f0 := |st.frontiers|;
    VisitFreeCellSound(s, st, lx, y, minos);
    WellLinkedExtends(st, r);
    forall t | |st.indexes| <= t < |r.indexes|
      ensures match r.indexes[t]
        case Jump(start, len) =>
          && start + len <= |r.items|
          && forall j :: start <= j < start + len ==>
               (r.items[j].ToIndex? ==> t < r.items[j].nextIndexId < |r.frontiers|)
        case Skip(next) => t < next < |r.frontiers|
        case ToHi => true
    {
      var current := st.frontiers[t] + BoardMaskOf(s, lx, y);
      assert NodeFor(r.indexes[t], current, r, minos, FillBlockMask(s, lx, y), f0);
      if r.indexes[t].Jump? {
        var start, len := r.indexes[t].nextItemId, r.indexes[t].itemLength;
        forall j | start <= j < start + len
          ensures r.items[j].ToIndex? ==> t < r.items[j].nextIndexId < |r.frontiers|
        {
          ItemForForward(r.items[j], current, minos, FillBlockMask(s, lx, y), r.frontiers, f0);
        }
      }
    }
  }

  lemma VisitCellWellLinked(s: Setup, st: State, lx: nat, y: nat)
    requires s.Valid() && lx < s.width && y < s.height && |st.indexes| <= |st.frontiers| && WellLinked(st)
    ensures WellLinked(VisitCell(s, st, lx, y))
  {
    if !Occupied(s.board, lx, y) && MinosAt(s, lx, y, 0) != [] {
      VisitFreeCellWellLinked(s, st, lx, y, MinosAt(s, lx, y, 0));
    }
  }

  lemma {:induction false} VisitRowsWellLinked(s: Setup, st: State, lx: nat, y: nat)
    requires s.Valid() && lx < s.width && y <= s.height && |st.indexes| <= |st.frontiers| && WellLinked(st)
    ensures WellLinked(VisitRows(s, st, lx, y))
  {
    if y > 0 {
      var prev := VisitRows(s, st, lx, y - 1);
      VisitRowsWellLinked(s, st, lx, y - 1);
      VisitCellWellLinked(s, prev, lx, y - 1);
      VisitRowsStep(s, st, lx, y);
    }
  }

  lemma {:induction false} VisitColumnsWellLinked(s: Setup, lx: nat)
    requires s.Valid() && lx <= s.width
    ensures WellLinked(VisitColumns(s, lx))
  {
    if lx > 0 {
      var prev := VisitColumns(s, lx - 1);
      VisitColumnsWellLinked(s, lx - 1);
      VisitRowsWellLinked(s, prev, lx - 1, s.height);
      VisitColumnsStep(s, lx);
    } else {
      VisitColumnsStart(s);
    }
  }

  /**
   * The end of `build`: one index node per frontier, as `builder.rs`
   * asserts, and every node points forward to nodes that exist, so the
   * nodes form a DAG rooted at index node 0.
   */
  lemma BuiltWellLinked(s: Setup)
    requires s.Valid()
    ensures |Built(s).indexes| == |Built(s).frontiers|
    ensures WellLinked(Built(s))
  {
    var st := VisitColumns(s, s.width);
    VisitColumnsWellLinked(s, s.width);
    var r := Built(s);
    forall i | 0 <= i < |r.indexes|
      ensures match r.indexes[i]
        case Jump(start, len) =>
          && start + len <= |r.items|
          && forall j :: start <= j < start + len ==>
               (r.items[j].ToIndex? ==> i < r.items[j].nextIndexId < |r.frontiers|)
        case Skip(next) => i < next < |r.frontiers|
        case ToHi => true
    {
      if i < |st.indexes| {
        assert r.indexes[i] == st.indexes[i];
      }
    }
  }

  /** Every item built so far holds a node id below `bound`. */
  predicate ItemsBelow(items: seq<ItemNode>, bound: nat)
  {
    forall j :: 0 <= j < |items| ==> MinoIndex(items[j]) < bound
  }

  lemma IdBelow(index: nat, lx: nat, width: nat, n: nat)
    requires index < n && lx < width
    ensures index * width + lx < n * width
  {
    MulMonotone(index + 1, n, width);
    assert (index + 1) * width == index * width + width;
  }

  /** Every piece holds a node id below `bound`. */
  predicate IdsBelow(minos: seq<Mino>, bound: nat)
  {
    forall m :: m in minos ==> m.id < bound
  }

  /** The pieces of a cell hold node ids below `n * width` when every entry is numbered below `n`. */
  lemma MinosAtBelow(s: Setup, lx: nat, y: nat, n: nat)
    requires lx < s.width && forall k :: 0 <= k < |s.predefines| ==> s.predefines[k].0 < n
    ensures IdsBelow(MinosAt(s, lx, y, 0), n * s.width)
  {
    forall m | m in MinosAt(s, lx, y, 0)
      ensures m.id < n * s.width
    {
      var k :| 0 <= k < |s.predefines| && m == Mino(s.predefines[k].0 * s.width + lx, s.predefines[k].1.relativeBlocks);
      IdBelow(s.predefines[k].0, lx, s.width, n);
    }
  }

  lemma {:induction false} PlaceMinosBelow(sc: Scratch, current: set<nat>, minos: seq<Mino>, k: nat, fill: set<nat>, bound: nat)
    requires k <= |minos| && ItemsBelow(sc.state.items, bound)
    requires IdsBelow(minos, bound)
    ensures ItemsBelow(PlaceMinos(sc, current, minos, k, fill).state.items, bound)
  {
    if k > 0 {
      PlaceMinosBelow(sc, current, minos, k - 1, fill, bound);
      assert minos[k - 1] in minos;
    }
  }

  lemma {:induction false} VisitTailsBelow(sc: Scratch, lo: nat, k: nat, mask: set<nat>, fill: set<nat>, minos: seq<Mino>, bound: nat)
    requires lo + k <= |sc.state.frontiers| && ItemsBelow(sc.state.items, bound)
    requires IdsBelow(minos, bound)
    ensures ItemsBelow(VisitTails(sc, lo, k, mask, fill, minos).state.items, bound)
  {
    if k > 0 {
      var before := VisitTails(sc, lo, k - 1, mask, fill, minos);
      VisitTailsBelow(sc, lo, k - 1, mask, fill, minos, bound);
      if 0 !in before.state.frontiers[lo + k - 1] + mask {
        PlaceMinosBelow(before, before.state.frontiers[lo + k - 1] + mask, minos, |minos|, fill, bound);
      }
    }
  }

  /** A cell keeps the items' ids below `n * width` and loses no frontier. */
  lemma VisitCellBelow(s: Setup, st: State, lx: nat, y: nat, n: nat)
    requires s.Valid() && lx < s.width && y < s.height && |st.indexes| <= |st.frontiers|
    requires forall k :: 0 <= k < |s.predefines| ==> s.predefines[k].0 < n
    requires ItemsBelow(st.items, n * s.width)
    ensures ItemsBelow(VisitCell(s, st, lx, y).items, n * s.width)
    ensures |st.frontiers| <= |VisitCell(s, st, lx, y).frontiers|
  {
    if Occupied(s.board, lx, y) {
      VisitOccupied(s, st, lx, y);
    } else if MinosAt(s, lx, y, 0) != [] {
      VisitFreeCellBelow(s, st, lx, y, n);
    }
  }

  lemma VisitFreeCellBelow(s: Setup, st: State, lx: nat, y: nat, n: nat)
    requires s.Valid() && lx < s.width && y < s.height && |st.indexes| <= |st.frontiers|
    requires !Occupied(s.board, lx, y) && MinosAt(s, lx, y, 0) != []
    requires forall k :: 0 <= k < |s.predefines| ==> s.predefines[k].0 < n
    requires ItemsBelow(st.items, n * s.width)
    ensures ItemsBelow(VisitCell(s, st, lx, y).items, n * s.width)
  {
    MinosAtBelow(s, lx, y, n);
    VisitPendingBelow(st, BoardMaskOf(s, lx, y), FillBlockMask(s, lx, y), MinosAt(s, lx, y, 0), n * s.width);
    VisitFreeCellUnfold(s, st, lx, y);
  }

  /** Visiting the pending frontiers of a state keeps its items' ids below `bound` when the pieces' ids are. */
  lemma VisitPendingBelow(st: State, mask: set<nat>, fill: set<nat>, minos: seq<Mino>, bound: nat)
    requires |st.indexes| <= |st.frontiers| && ItemsBelow(st.items, bound) && IdsBelow(minos, bound)
    ensures ItemsBelow(VisitTails(Scratch(st, map[]), |st.indexes|, |st.frontiers| - |st.indexes|, mask, fill, minos).state.items, bound)
  {
    VisitTailsBelow(Scratch(st, map[]), |st.indexes|, |st.frontiers| - |st.indexes|, mask, fill, minos, bound);
  }

  lemma {:induction false} VisitRowsBelow(s: Setup, st: State, lx: nat, y: nat, n: nat)
    requires s.Valid() && lx < s.width && y <= s.height && |st.indexes| <= |st.frontiers|
    requires forall k :: 0 <= k < |s.predefines| ==> s.predefines[k].0 < n
    requires ItemsBelow(st.items, n * s.width)
    ensures ItemsBelow(VisitRows(s, st, lx, y).items, n * s.width)
    ensures |st.frontiers| <= |VisitRows(s, st, lx, y).frontiers|
  {
    if y > 0 {
      var prev := VisitRows(s, st, lx, y - 1);
      VisitRowsBelow(s, st, lx, y - 1, n);
      VisitCellBelow(s, prev, lx, y - 1, n);
      VisitRowsStep(s, st, lx, y);
    }
  }

  lemma {:induction false} VisitColumnsBelow(s: Setup, lx: nat, n: nat)
    requires s.Valid() && lx <= s.width
    requires forall k :: 0 <= k < |s.predefines| ==> s.predefines[k].0 < n
    ensures ItemsBelow(VisitColumns(s, lx).items, n * s.width)
    ensures 1 <= |VisitColumns(s, lx).frontiers|
  {
    if lx > 0 {
      var st := VisitColumns(s, lx - 1);
      VisitColumnsBelow(s, lx - 1, n);
      VisitRowsBelow(s, st, lx - 1, s.height, n);
      VisitColumnsStep(s, lx);
    } else {
      VisitColumnsStart(s);
    }
  }

  lemma VisitRowsStep(s: Setup, st: State, lx: nat, y: nat)
    requires s.Valid() && lx < s.width && 0 < y <= s.height && |st.indexes| <= |st.frontiers|
    ensures VisitRows(s, st, lx, y) == VisitCell(s, VisitRows(s, st, lx, y - 1), lx, y - 1)
  {
  }

  lemma VisitColumnsStep(s: Setup, lx: nat)
    requires s.Valid() && 0 < lx <= s.width
    ensures VisitColumns(s, lx) == VisitRows(s, VisitColumns(s, lx - 1), lx - 1, s.height)
  {
  }

  lemma VisitColumnsStart(s: Setup)
    requires s.Valid()
    ensures VisitColumns(s, 0) == Initial()
    ensures ItemsBelow(Initial().items, 0) && |Initial().frontiers| == 1
  {
  }

  /**
   * The nodes `build` returns start with the head index node, and every
   * item names a piece of the table: with the entries numbered below `n`,
   * its node id is below `n * width`.
   */
  lemma BuiltItemsNameEntries(s: Setup, n: nat)
    requires s.Valid() && forall k :: 0 <= k < |s.predefines| ==> s.predefines[k].0 < n
    ensures 1 <= |Built(s).indexes|
    ensures ItemsBelow(Built(s).items, n * s.width)
  {
    VisitColumnsBelow(s, s.width, n);
  }

  // A board on which the check of `builder.rs:101` fails.

  /** A cell reached with no pending frontier changes nothing. */
  lemma NoPendingNoChange(s: Setup, st: State, lx: nat, y: nat)
    requires s.Valid() && lx < s.width && y < s.height && |st.indexes| == |st.frontiers|
    ensures VisitCell(s, st, lx, y) == st
  {
    if Occupied(s.board, lx, y) {
      assert ShiftPending(st.frontiers, |st.indexes|) == st.frontiers;
    }
  }

  /** An occupied cell shifts the pending frontiers and changes nothing else. */
  lemma VisitOccupied(s: Setup, st: State, lx: nat, y: nat)
    requires s.Valid() && lx < s.width && y < s.height && |st.indexes| <= |st.frontiers|
    requires Occupied(s.board, lx, y)
    ensures VisitCell(s, st, lx, y) == st.(frontiers := ShiftPending(st.frontiers, |st.indexes|))
  {
  }

  /** Two rows whose only free cells are the square at columns 7 and 8. */
  function OHoleBoard(): (b: Board)
    ensures b.Valid()
    ensures forall x: nat :: x in b.rows[0] <==> x < 7 || x == 9
    ensures forall x: nat :: x in b.rows[1] <==> x < 7 || x == 9
  {
    Board(seq(Rows, y => if y < 2 then {0, 1, 2, 3, 4, 5, 6, 9} else {}))
  }

  /** How many columns a piece spans, for the pieces of a two-row board. */
  function WidthAtHeight2(p: Piece): nat
  {
    match p.shape
    case I => if p.orientation == North || p.orientation == South then 4 else 1
    case O => 2
    case _ => if p.orientation == North || p.orientation == South then 3 else 2
  }

  /**
   * The pieces a two-row build works from: the canonical pieces that fit in
   * two rows, in the order of `Piece::all_vec`, each with its rows, the row
   * of its first column and its blocks relative to that cell.
   */
  const Height2Pieces: seq<(nat, PredefinedPieceToBuild)> := [
    (0, PredefinedPieceToBuild(Piece(T, North), 0, {0, 2, 3, 4})),
    (1, PredefinedPieceToBuild(Piece(T, South), 1, {0, 1, 2, 4})),
    (2, PredefinedPieceToBuild(Piece(I, North), 0, {0, 2, 4, 6})),
    (3, PredefinedPieceToBuild(Piece(I, North), 1, {0, 2, 4, 6})),
    (4, PredefinedPieceToBuild(Piece(O, North), 0, {0, 1, 2, 3})),
    (5, PredefinedPieceToBuild(Piece(L, North), 0, {0, 2, 4, 5})),
    (6, PredefinedPieceToBuild(Piece(L, South), 0, {0, 1, 3, 5})),
    (7, PredefinedPieceToBuild(Piece(J, North), 0, {0, 1, 2, 4})),
    (8, PredefinedPieceToBuild(Piece(J, South), 1, {0, 2, 3, 4})),
    (9, PredefinedPieceToBuild(Piece(S, North), 0, {0, 2, 3, 5})),
    (10, PredefinedPieceToBuild(Piece(Z, North), 1, {0, 1, 2, 3}))
  ]

  function OHole(): (s: Setup)
    ensures s.Valid()
  {
    Setup(OHoleBoard(), 2, Width, Height2Pieces, WidthAtHeight2)
  }

  /** Columns 0 to 6 are full: nothing is built before the hole. */
  lemma {:induction false} OHoleBeforeHole(lx: nat)
    requires lx <= 7
    ensures VisitColumns(OHole(), lx) == Initial()
  {
    if lx > 0 {
      var s := OHole();
      OHoleBeforeHole(lx - 1);
      assert Occupied(s.board, lx - 1, 0) && Occupied(s.board, lx - 1, 1);
      assert ShiftRight({}) == {};
      assert ShiftPending([{}], 0) == [{}];
      VisitOccupied(s, Initial(), lx - 1, 0);
      VisitOccupied(s, Initial(), lx - 1, 1);
      assert VisitRows(s, Initial(), lx - 1, 1) == Initial();
    }
  }

  /** The pieces that can start at cell (7, 0): all but the T of the second row, the I that starts there and the I of the second row. */
  function OHoleMinos(): seq<Mino>
  {
    [Mino(7, {0, 2, 3, 4}), Mino(47, {0, 1, 2, 3}), Mino(57, {0, 2, 4, 5}),
     Mino(67, {0, 1, 3, 5}), Mino(77, {0, 1, 2, 4}), Mino(97, {0, 2, 3, 5})]
  }

  lemma OHoleMinosAtHole()
    ensures MinosAt(OHole(), 7, 0, 0) == OHoleMinos()
  {
    var s := OHole();
    assert MinosAt(s, 7, 0, 10) == [];
    assert MinosAt(s, 7, 0, 9) == [Mino(97, {0, 2, 3, 5})];
    assert MinosAt(s, 7, 0, 8) == MinosAt(s, 7, 0, 9);
    assert MinosAt(s, 7, 0, 7) == [Mino(77, {0, 1, 2, 4})] + MinosAt(s, 7, 0, 8);
    assert MinosAt(s, 7, 0, 6) == [Mino(67, {0, 1, 3, 5})] + MinosAt(s, 7, 0, 7);
    assert MinosAt(s, 7, 0, 5) == [Mino(57, {0, 2, 4, 5})] + MinosAt(s, 7, 0, 6);
    assert MinosAt(s, 7, 0, 4) == [Mino(47, {0, 1, 2, 3})] + MinosAt(s, 7, 0, 5);
    assert MinosAt(s, 7, 0, 3) == MinosAt(s, 7, 0, 4);
    assert MinosAt(s, 7, 0, 2) == MinosAt(s, 7, 0, 3);
    assert MinosAt(s, 7, 0, 1) == MinosAt(s, 7, 0, 2);
    assert MinosAt(s, 7, 0, 0) == [Mino(7, {0, 2, 3, 4})] + MinosAt(s, 7, 0, 1);
  }

  /** Cells (7, 0) to (8, 1) are free, the last column is full, and the board ends after it. */
  lemma OHoleBlocksFromHole()
    ensures !BlockAt(OHole(), 14) && !BlockAt(OHole(), 15) && !BlockAt(OHole(), 16) && !BlockAt(OHole(), 17)
    ensures BlockAt(OHole(), 18) && BlockAt(OHole(), 19) && !BlockAt(OHole(), 20)
  {
  }

  lemma OHoleMaskAtHole()
    ensures BoardMaskOf(OHole(), 7, 0) == {4, 5}
  {
    var s := OHole();
    OHoleBlocksFromHole();
    assert BoardMaskOf(s, 7, 0) == MaskUpTo(s, 7, 0, 7);
    forall k: nat
      ensures k in MaskUpTo(s, 7, 0, 7) <==> k == 4 || k == 5
    {
      MaskUpToMember(s, 7, 0, 7, k);
      assert Position(2, 7, 0, k) == 14 + k;
      if k < 7 {
        assert k == 0 || k == 1 || k == 2 || k == 3 || k == 4 || k == 5 || k == 6;
      }
    }
    assert MaskUpTo(s, 7, 0, 7) == {4, 5};
  }

  lemma MaskUpToMember(s: Setup, lx: nat, y: nat, n: nat, k: nat)
    requires s.Valid() && 0 < s.height
    ensures k in MaskUpTo(s, lx, y, n) <==> k < n && BlockAt(s, Position(s.height, lx, y, k))
  {
  }

  /** Only the O fits in the hole, and it fills every remaining cell. */
  lemma OHolePlaceAtHole()
    ensures var minos := OHoleMinos();
      && PlaceMinos(Scratch(Initial(), map[]), {4, 5}, minos, 6, {0, 1, 2, 3, 4, 5}).state == State([], [ItemToHi(47)], [{}])
      && FittingCount({4, 5}, minos, 6) == 1
  {
    var minos := OHoleMinos();
    var current: set<nat> := {4, 5};
    var fill: set<nat> := {0, 1, 2, 3, 4, 5};
    var sc := Scratch(Initial(), map[]);
    assert 4 in minos[0].blocks && 4 in minos[2].blocks && 5 in minos[3].blocks;
    assert 4 in minos[4].blocks && 5 in minos[5].blocks;
    assert Fits(current, minos[1]) && current + minos[1].blocks == fill;
    assert PlaceMinos(sc, current, minos, 1, fill) == sc;
    var one := PlaceMinos(sc, current, minos, 2, fill);
    assert one.state == State([], [ItemToHi(47)], [{}]);
    assert PlaceMinos(sc, current, minos, 3, fill) == one;
    assert PlaceMinos(sc, current, minos, 4, fill) == one;
    assert PlaceMinos(sc, current, minos, 5, fill) == one;
    assert PlaceMinos(sc, current, minos, 6, fill) == one;
  }

  lemma OHoleFillAtHole()
    ensures FillBlockMask(OHole(), 7, 0) == {0, 1, 2, 3, 4, 5}
  {
    assert Rest(OHole(), 7, 0) == 6;
    RangeSix();
  }

  lemma RangeSix()
    ensures Range(6) == {0, 1, 2, 3, 4, 5}
  {
  }

  /** The blank frontier at the first cell of the hole: one jump over the O's item. */
  lemma OHoleTail()
    ensures VisitTail(Scratch(Initial(), map[]), 0, {4, 5}, {0, 1, 2, 3, 4, 5}, OHoleMinos()).state
            == State([Jump(0, 1)], [ItemToHi(47)], [{}])
  {
    var sc := Scratch(Initial(), map[]);
    assert sc.state.frontiers[0] + {4, 5} == {4, 5};
    OHolePlaceAtHole();
  }

  /** The first cell of the hole, reached with the blank frontier only. */
  lemma OHoleFreeCell()
    ensures VisitCell(OHole(), Initial(), 7, 0) == State([Jump(0, 1)], [ItemToHi(47)], [{}])
  {
    var s := OHole();
    assert !Occupied(s.board, 7, 0);
    OHoleMinosAtHole();
    OHoleMaskAtHole();
    OHoleFillAtHole();
    var sc := Scratch(Initial(), map[]);
    assert VisitCell(s, Initial(), 7, 0) == VisitFreeCell(s, Initial(), 7, 0, OHoleMinos());
    assert VisitFreeCell(s, Initial(), 7, 0, OHoleMinos())
        == VisitTails(sc, 0, 1, {4, 5}, {0, 1, 2, 3, 4, 5}, OHoleMinos()).state;
    OHoleTail();
  }

  /** At the first cell of the hole only the O fits, and it fills the board. */
  lemma OHoleFirstCell()
    ensures Reached(OHole(), 7, 1) == State([Jump(0, 1)], [ItemToHi(47)], [{}])
  {
    OHoleBeforeHole(7);
    OHoleFreeCell();
  }

  /** Pieces can start at cell (7, 1): the T of the second row comes first. */
  lemma OHoleMinosAtSecondRow()
    ensures MinosAt(OHole(), 7, 1, 0) != []
  {
    var s := OHole();
    assert MinosAt(s, 7, 1, 1) == [Mino(17, {0, 1, 2, 4})] + MinosAt(s, 7, 1, 2);
  }

  /** The rest of the hole and the last column change nothing: no frontier is pending. */
  lemma OHoleAfterFirstCell()
    ensures VisitColumns(OHole(), 10) == State([Jump(0, 1)], [ItemToHi(47)], [{}])
  {
    var s := OHole();
    var st := State([Jump(0, 1)], [ItemToHi(47)], [{}]);
    OHoleFirstCell();
    NoPendingNoChange(s, st, 7, 1);
    assert VisitColumns(s, 8) == st;
    NoPendingNoChange(s, st, 8, 0);
    NoPendingNoChange(s, st, 8, 1);
    assert VisitRows(s, st, 8, 1) == st;
    assert VisitColumns(s, 9) == st;
    NoPendingNoChange(s, st, 9, 0);
    NoPendingNoChange(s, st, 9, 1);
    assert VisitRows(s, st, 9, 1) == st;
  }

  /**
   * On the two-row board with one square hole at columns 7 and 8, the build
   * as written panics at cell (7, 1), which the O has filled but where a T,
   * a J and a Z could start; the corrected build finds the one perfect
   * clear, the O at column 7 (node id `4 * 10 + 7`).
   */
  lemma OHolePanics()
    ensures BuiltAsWritten(OHole()) == None
    ensures Built(OHole()) == State([Jump(0, 1)], [ItemToHi(47)], [{}])
  {
    OHoleBuiltAsWritten();
    OHoleBuilt();
  }

  lemma OHolePanicsAtSecondRow()
    ensures PanicsAt(OHole(), 7, 1)
  {
    OHoleFirstCell();
    OHoleMinosAtSecondRow();
    assert !Occupied(OHole().board, 7, 1);
  }

  lemma OHoleBuiltAsWritten()
    ensures BuiltAsWritten(OHole()) == None
  {
    OHolePanicsAtSecondRow();
    BuiltAsWrittenPanicsExactly(OHole());
  }

  lemma OHoleBuilt()
    ensures Built(OHole()) == State([Jump(0, 1)], [ItemToHi(47)], [{}])
  {
    OHoleAfterFirstCell();
    CompletedFull(State([Jump(0, 1)], [ItemToHi(47)], [{}]));
  }

  /** A state with as many index nodes as frontiers is already complete. */
  lemma CompletedFull(st: State)
    requires |st.indexes| == |st.frontiers|
    ensures Completed(st) == st
  {
    assert st.indexes + seq(0, _ => IndexNode.ToHi) == st.indexes;
  }

  // The loops of `build`, each proved to compute its part of the specification above.

  lemma MaskUpToStep(s: Setup, lx: nat, y: nat, n: nat)
    requires s.Valid() && 0 < s.height
    ensures MaskUpTo(s, lx, y, n + 1) ==
      MaskUpTo(s, lx, y, n) + (if BlockAt(s, Position(s.height, lx, y, n)) then {n} else {})
  {
  }

  /** Past the end of the last column there is no block. */
  lemma MaskUpToBeyond(s: Setup, lx: nat, y: nat, n: nat, m: nat)
    requires s.Valid() && 0 < s.height && n <= m && s.width * s.height <= Position(s.height, lx, y, n)
    ensures MaskUpTo(s, lx, y, m) == MaskUpTo(s, lx, y, n)
  {
  }

  lemma MulSucc(a: nat, h: nat)
    ensures a * h + h == (a + 1) * h
  {
  }

  /** One cell of the `board_mask` walk: the cell at column `x`, row `yy` is the cell `shift` steps ahead. */
  lemma BoardMaskStep(s: Setup, lx: nat, y: nat, x: nat, yy: nat, shift: nat)
    requires s.Valid() && yy < s.height && x < s.width && x * s.height + yy == Position(s.height, lx, y, shift)
    ensures MaskUpTo(s, lx, y, shift + 1) ==
      MaskUpTo(s, lx, y, shift) + (if Occupied(s.board, x, yy) then {shift} else {})
  {
    MaskUpToStep(s, lx, y, shift);
    BlockAtCell(s, x, yy);
    var p := Position(s.height, lx, y, shift);
    assert BlockAt(s, p) == Occupied(s.board, x, yy);
  }

  /** The cell in column `x`, row `yy` is a block at position `x * height + yy`. */
  lemma BlockAtCell(s: Setup, x: nat, yy: nat)
    requires s.Valid() && yy < s.height && x < s.width
    ensures BlockAt(s, x * s.height + yy) == Occupied(s.board, x, yy)
  {
    var p := x * s.height + yy;
    Decode(x, yy, s.height);
    assert p / s.height == x && p % s.height == yy;
    MulMonotone(x + 1, s.width, s.height);
    MulSucc(x, s.height);
    assert p < s.width * s.height;
  }

  /** Where the `board_mask` walk stands: at column `x`, row `yy`, `shift` cells after the origin, or past the last column when `done`. */
  ghost predicate WalkAt(s: Setup, lx: nat, y: nat, x: nat, yy: nat, shift: nat, done: bool)
  {
    && yy < s.height
    && x * s.height + yy == Position(s.height, lx, y, shift)
    && (!done ==> x < s.width)
    && (done ==> s.width * s.height <= Position(s.height, lx, y, shift))
  }

  /** Moving up one row, or to the bottom of the next column, is moving one cell ahead. */
  lemma WalkStep(s: Setup, lx: nat, y: nat, x: nat, yy: nat, shift: nat, x': nat, yy': nat, done': bool)
    requires s.Valid() && WalkAt(s, lx, y, x, yy, shift, false)
    requires x' == (if yy + 1 == s.height then x + 1 else x)
    requires yy' == (if yy + 1 == s.height then 0 else yy + 1)
    requires done' == (yy + 1 == s.height && x + 1 == s.width)
    ensures WalkAt(s, lx, y, x', yy', shift + 1, done')
    ensures MaskUpTo(s, lx, y, shift + 1) ==
      MaskUpTo(s, lx, y, shift) + (if Occupied(s.board, x, yy) then {shift} else {})
  {
    BoardMaskStep(s, lx, y, x, yy, shift);
    MulSucc(x, s.height);
  }

  /** One turn of the `board_mask` loop: sets the bit of the current cell if it is filled, then moves up a row or to the next column. */
  method MaskCell(s: Setup, lx: nat, y: nat, x: nat, yy: nat, shift: nat, m: set<nat>)
    returns (m': set<nat>, x': nat, yy': nat, done': bool)
    requires s.Valid() && WalkAt(s, lx, y, x, yy, shift, false) && m == MaskUpTo(s, lx, y, shift)
    ensures WalkAt(s, lx, y, x', yy', shift + 1, done')
    ensures m' == MaskUpTo(s, lx, y, shift + 1)
  {
    x', yy' := x, yy + 1;
    if yy' == s.height {
      x' := x + 1;
      yy' := 0;
    }
    done' := x' == s.width;
    WalkStep(s, lx, y, x, yy, shift, x', yy', done');
    var bit: set<nat> := if Occupied(s.board, x, yy) then {shift} else {};
    m' := m + bit;
  }

  /**
   * The `board_mask` loop: walks up the cells from column `lx`, row `y`,
   * column after column, for `3 * height + 1` cells or to the end of the
   * board, and sets the bit of every filled cell.
   */
  method ComputeBoardMask(s: Setup, lx: nat, y: nat) returns (m: set<nat>)
    requires s.Valid() && lx < s.width && y < s.height
    ensures m == BoardMaskOf(s, lx, y)
  {
    var h := s.height;
    m := {};
    var x, yy := lx, y;
    var shift := 0;
    var done := false;
    while shift < 3 * h + 1 && !done
      invariant shift <= 3 * h + 1
      invariant WalkAt(s, lx, y, x, yy, shift, done)
      invariant m == MaskUpTo(s, lx, y, shift)
    {
      m, x, yy, done := MaskCell(s, lx, y, x, yy, shift, m);
      shift := shift + 1;
    }
    if done {
      MaskUpToBeyond(s, lx, y, shift, 3 * h + 1);
    }
  }

  /** The `minos` filter of a cell, in the order of the pieces. */
  method CollectMinos(s: Setup, lx: nat, y: nat) returns (minos: seq<Mino>)
    ensures minos == MinosAt(s, lx, y, 0)
  {
    minos := [];
    var i := 0;
    while i < |s.predefines|
      invariant i <= |s.predefines|
      invariant minos + MinosAt(s, lx, y, i) == MinosAt(s, lx, y, 0)
    {
      var (index, p) := s.predefines[i];
      if p.minYAtX0 == y && lx + s.widthOf(p.piece) <= s.width {
        minos := minos + [Mino(index * s.width + lx, p.relativeBlocks)];
      }
      i := i + 1;
    }
  }

  /** `frontiers[tail].board >>= 1` for every tail from `from` on. */
  method ShiftTails(frontiers: seq<set<nat>>, from: nat) returns (r: seq<set<nat>>)
    requires from <= |frontiers|
    ensures r == ShiftPending(frontiers, from)
  {
    r := frontiers;
    for tail := from to |frontiers|
      invariant |r| == |frontiers|
      invariant forall i :: 0 <= i < |frontiers| ==> r[i] == if from <= i < tail then ShiftRight(frontiers[i]) else frontiers[i]
    {
      r := r[tail := ShiftRight(r[tail])];
    }
  }

  /**
   * The loop over the pending frontiers of a free cell: a jump over the
   * items of the pieces that fit, or a skip, per frontier; new frontiers
   * are shared through the hash map, cleared for the cell.
   */
  method VisitPending(nodes: Nodes, frontiers: seq<set<nat>>, mask: set<nat>, fill: set<nat>, minos: seq<Mino>)
    returns (frontiers': seq<set<nat>>)
    requires |nodes.indexes| <= |frontiers|
    modifies nodes
    ensures var r := VisitTails(Scratch(State(old(nodes.indexes), old(nodes.items), frontiers), map[]),
                                old(|nodes.indexes|), |frontiers| - old(|nodes.indexes|), mask, fill, minos).state;
      nodes.indexes == r.indexes && nodes.items == r.items && frontiers' == r.frontiers
  {
    var hash: map<set<nat>, nat> := map[];
    var lo := nodes.IndexSerial();
    ghost var sc0 := Scratch(State(nodes.indexes, nodes.items, frontiers), hash);
    frontiers' := frontiers;
    for tail := lo to |frontiers|
      invariant Scratch(State(nodes.indexes, nodes.items, frontiers'), hash) == VisitTails(sc0, lo, tail - lo, mask, fill, minos)
    {
      ghost var before := Scratch(State(nodes.indexes, nodes.items, frontiers'), hash);
      var current := frontiers'[tail] + mask;
      if 0 !in current {
        var start := nodes.ItemSerial();
        var itemSize := 0;
        for k := 0 to |minos|
          invariant Scratch(State(nodes.indexes, nodes.items, frontiers'), hash) == PlaceMinos(before, current, minos, k, fill)
          invariant itemSize == FittingCount(current, minos, k)
        {
          var m := minos[k];
          if current !! m.blocks {
            itemSize := itemSize + 1;
            var next := current + m.blocks;
            if next == fill {
              nodes.Complete(m.id);
            } else {
              var key := ShiftRight(next);
              if key in hash {
                nodes.Put(m.id, hash[key]);
              } else {
                var id := |frontiers'|;
                hash := hash[key := id];
                frontiers' := frontiers' + [key];
                nodes.Put(m.id, id);
              }
            }
          }
        }
        nodes.Jump(start, itemSize);
      } else {
        var key := ShiftRight(current);
        if key in hash {
          nodes.Skip(hash[key]);
        } else {
          var id := |frontiers'|;
          hash := hash[key := id];
          frontiers' := frontiers' + [key];
          nodes.Skip(id);
        }
      }
    }
  }

  /**
   * The body of the loop over the cells: shift at a full cell, visit the
   * pending frontiers at a free one with pieces, or stop where the check of
   * `builder.rs:101` fails because no frontier is pending.
   */
  method VisitCellStep(s: Setup, nodes: Nodes, frontiers: seq<set<nat>>, lx: nat, y: nat)
    returns (frontiers': seq<set<nat>>, panics: bool)
    requires s.Valid() && lx < s.width && y < s.height && |nodes.indexes| <= |frontiers|
    modifies nodes
    ensures panics <==> Panics(s, State(old(nodes.indexes), old(nodes.items), frontiers), lx, y)
    ensures !panics ==>
      State(nodes.indexes, nodes.items, frontiers') == VisitCell(s, State(old(nodes.indexes), old(nodes.items), frontiers), lx, y)
  {
    ghost var st := State(nodes.indexes, nodes.items, frontiers);
    frontiers' := frontiers;
    panics := false;
    if Occupied(s.board, lx, y) {
      frontiers' := ShiftTails(frontiers, nodes.IndexSerial());
    } else {
      var minos := CollectMinos(s, lx, y);
      if minos != [] {
        var mask := ComputeBoardMask(s, lx, y);
        BoardMaskFreeAtCell(s, lx, y);
        assert 0 !in mask;
        var fill := FillBlockMask(s, lx, y);
        if nodes.IndexSerial() == |frontiers| {
          panics := true;
          return;
        }
        frontiers' := VisitPending(nodes, frontiers, mask, fill, minos);
        VisitFreeCellUnfold(s, st, lx, y);
      }
    }
  }

  /** A free cell with pieces visits the pending frontiers with its board mask and fill mask. */
  lemma VisitFreeCellUnfold(s: Setup, st: State, lx: nat, y: nat)
    requires s.Valid() && lx < s.width && y < s.height && |st.indexes| <= |st.frontiers|
    requires !Occupied(s.board, lx, y) && MinosAt(s, lx, y, 0) != []
    ensures VisitCell(s, st, lx, y) ==
      VisitTails(Scratch(st, map[]), |st.indexes|, |st.frontiers| - |st.indexes|, BoardMaskOf(s, lx, y),
                 FillBlockMask(s, lx, y), MinosAt(s, lx, y, 0)).state
  {
  }

  /**
   * `build`: `None` where the check of `builder.rs:101` fails and the
   * build panics, exactly as `BuiltAsWritten` says; otherwise the nodes of
   * the DAG of every way to fill the board with the pieces, as specified
   * by `Built`.
   */
  method Build(s: Setup) returns (r: Option<Nodes>)
    requires s.Valid()
    ensures r.None? <==> BuiltAsWritten(s).None?
    ensures r.Some? ==> fresh(r.value) && r.value.indexes == Built(s).indexes && r.value.items == Built(s).items
  {
    var h := s.height;
    var nodes := new Nodes.Empty();
    var frontiers: seq<set<nat>> := [{}];
    BuiltAsWrittenPanicsExactly(s);
    for lx := 0 to s.width
      invariant State(nodes.indexes, nodes.items, frontiers) == VisitColumns(s, lx)
      invariant NoPanicBefore(s, lx, 0)
    {
      for y := 0 to h
        invariant State(nodes.indexes, nodes.items, frontiers) == Reached(s, lx, y)
        invariant NoPanicBefore(s, lx, y)
      {
        var panics;
        frontiers, panics := VisitCellStep(s, nodes, frontiers, lx, y);
        if panics {
          PanicWitness(s, lx, y);
          return None;
        }
        NoPanicStep(s, lx, y);
      }
      NoPanicColumn(s, lx);
    }
    NoPanicAll(s);
    ghost var last := VisitColumns(s, s.width);
    var lo := nodes.IndexSerial();
    for t := lo to |frontiers|
      invariant nodes.indexes == last.indexes + seq(t - lo, _ => IndexNode.ToHi) && nodes.items == last.items
    {
      nodes.Complete2();
    }
    r := Some(nodes);
  }

  /** No cell before `(lx, y)`, in the order the build visits them, panics. */
  ghost predicate NoPanicBefore(s: Setup, lx: nat, y: nat)
    requires s.Valid() && lx <= s.width && y <= s.height
  {
    && (forall x, y' :: 0 <= x < lx && 0 <= y' < s.height ==> !PanicsAt(s, x, y'))
    && (lx < s.width ==> forall y' :: 0 <= y' < y ==> !PanicsAt(s, lx, y'))
  }

  lemma NoPanicStep(s: Setup, lx: nat, y: nat)
    requires s.Valid() && lx < s.width && y < s.height
    requires NoPanicBefore(s, lx, y) && !PanicsAt(s, lx, y)
    ensures NoPanicBefore(s, lx, y + 1)
  {
  }

  lemma NoPanicColumn(s: Setup, lx: nat)
    requires s.Valid() && lx < s.width && NoPanicBefore(s, lx, s.height)
    ensures NoPanicBefore(s, lx + 1, 0)
  {
    forall x, y' | 0 <= x < lx + 1 && 0 <= y' < s.height
      ensures !PanicsAt(s, x, y')
    {
      if x == lx {
        assert !PanicsAt(s, lx, y');
      }
    }
  }

  lemma NoPanicAll(s: Setup)
    requires s.Valid() && NoPanicBefore(s, s.width, 0)
    ensures !exists x, y :: 0 <= x < s.width && 0 <= y < s.height && PanicsAt(s, x, y)
  {
  }

  lemma PanicWitness(s: Setup, lx: nat, y: nat)
    requires s.Valid() && lx < s.width && y < s.height && Panics(s, Reached(s, lx, y), lx, y)
    ensures exists x, y' :: 0 <= x < s.width && 0 <= y' < s.height && PanicsAt(s, x, y')
  {
    assert PanicsAt(s, lx, y);
  }
}
