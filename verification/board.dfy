/**
 * The part of `Board64` that the core relies on, as 64 rows of filled
 * column indices. Column `x` of the board (`cols[x]`) is the set of rows
 * whose entry holds `x`.
 */
module Boards {
  const Width: nat := 10
  const Rows: nat := 64

  datatype Board = Board(rows: seq<set<nat>>)
  {
    predicate Valid()
    {
      && |rows| == Rows
      && forall y :: 0 <= y < |rows| ==> forall x :: x in rows[y] ==> x < Width
    }
  }

  /** The columns `0 .. n`. */
  function Range(n: nat): (r: set<nat>)
    ensures forall x: nat :: x in r <==> x < n
    ensures |r| == n
  {
    if n == 0 then {} else Range(n - 1) + {n - 1}
  }

  lemma SubsetSize<T>(a: set<T>, b: set<T>)
    requires a <= b
    ensures |a| <= |b|
    decreases a
  {
    if a != {} {
      var e :| e in a;
      SubsetSize(a - {e}, b - {e});
    }
  }

  /** A row of a valid board holds at most `Width` blocks, exactly `Width` when full. */
  lemma RowSize(row: set<nat>)
    requires forall x :: x in row ==> x < Width
    ensures |row| <= Width
    ensures FullRow(row) <==> |row| == Width
  {
    SubsetSize(row, Range(Width));
    if FullRow(row) {
      assert row == Range(Width);
    }
    if |row| == Width && !FullRow(row) {
      var x :| 0 <= x < Width && x !in row;
      assert x in Range(Width);
      SubsetSize(row, Range(Width) - {x});
    }
  }

  function Blank(): (b: Board)
    ensures b.Valid()
    ensures forall y :: 0 <= y < Rows ==> b.rows[y] == {}
  {
    Board(seq(Rows, _ => {}))
  }

  predicate FullRow(row: set<nat>)
  {
    forall x :: 0 <= x < Width ==> x in row
  }

  /** One above the highest row holding a block; `well_top`. */
  function Top(rows: seq<set<nat>>): (r: nat)
    ensures r <= |rows|
    ensures forall y :: r <= y < |rows| ==> rows[y] == {}
    ensures r == 0 || rows[r - 1] != {}
  {
    if rows == [] then 0
    else if rows[|rows| - 1] != {} then |rows|
    else Top(rows[..|rows| - 1])
  }

  function WellTop(b: Board): nat
  {
    Top(b.rows)
  }

  /** `count_blocks`. */
  function Blocks(rows: seq<set<nat>>): nat
  {
    if rows == [] then 0 else Blocks(rows[..|rows| - 1]) + |rows[|rows| - 1]|
  }

  function CountBlocks(b: Board): nat
  {
    Blocks(b.rows)
  }

  /** The rows that survive `clear_lines`, in order. */
  function Kept(rows: seq<set<nat>>): seq<set<nat>>
  {
    if rows == [] then []
    else if FullRow(rows[|rows| - 1]) then Kept(rows[..|rows| - 1])
    else Kept(rows[..|rows| - 1]) + [rows[|rows| - 1]]
  }

  /** The number of filled rows, which `clear_lines` removes. */
  function Cleared(rows: seq<set<nat>>): nat
  {
    if rows == [] then 0
    else Cleared(rows[..|rows| - 1]) + (if FullRow(rows[|rows| - 1]) then 1 else 0)
  }

  /** `clear_lines`: filled rows are removed, the rows above drop down, and empty rows come in at the top. */
  function ClearLines(b: Board): (r: (Board, nat))
  {
    (Board(Kept(b.rows) + seq(Cleared(b.rows), _ => {})), Cleared(b.rows))
  }

  lemma {:induction false} KeptCleared(rows: seq<set<nat>>)
    requires forall y :: 0 <= y < |rows| ==> forall x :: x in rows[y] ==> x < Width
    ensures |Kept(rows)| + Cleared(rows) == |rows|
    ensures Blocks(Kept(rows)) + Width * Cleared(rows) == Blocks(rows)
    ensures Cleared(rows) <= Top(rows) && Top(Kept(rows)) + Cleared(rows) <= Top(rows)
    ensures forall y :: 0 <= y < |Kept(rows)| ==> !FullRow(Kept(rows)[y])
    ensures forall y :: 0 <= y < |Kept(rows)| ==> forall x :: x in Kept(rows)[y] ==> x < Width
  {
    if rows != [] {
      var init, last := rows[..|rows| - 1], rows[|rows| - 1];
      KeptCleared(init);
      RowSize(last);
      if FullRow(last) {
        assert last != {} by { assert 0 in last; }
      } else if last != {} {
        var k := Kept(init) + [last];
        assert k[..|k| - 1] == Kept(init);
      } else {
        var k := Kept(init) + [last];
        assert k[..|k| - 1] == Kept(init);
      }
    }
  }

  lemma {:induction false} PadEmpty(rows: seq<set<nat>>, n: nat)
    ensures Blocks(rows + seq(n, _ => {})) == Blocks(rows)
    ensures Top(rows + seq(n, _ => {})) == Top(rows)
  {
    var padded := rows + seq(n, _ => {});
    if n > 0 {
      assert padded[..|padded| - 1] == rows + seq(n - 1, _ => {});
      assert padded[|padded| - 1] == {};
      PadEmpty(rows, n - 1);
    } else {
      assert padded == rows;
    }
  }

  /**
   * Clearing keeps the board's shape, leaves no filled row, removes exactly
   * `Width` blocks per cleared row and lowers the well top by at least the
   * number of cleared rows.
   */
  lemma ClearLinesSound(b: Board)
    requires b.Valid()
    ensures ClearLines(b).0.Valid()
    ensures ClearLines(b).1 <= WellTop(b)
    ensures WellTop(ClearLines(b).0) + ClearLines(b).1 <= WellTop(b)
    ensures CountBlocks(ClearLines(b).0) + Width * ClearLines(b).1 == CountBlocks(b)
    ensures forall y :: 0 <= y < Rows ==> !FullRow(ClearLines(b).0.rows[y])
  {
    KeptCleared(b.rows);
    PadEmpty(Kept(b.rows), Cleared(b.rows));
    var r := ClearLines(b).0.rows;
    forall y | 0 <= y < Rows ensures !FullRow(r[y]) {
      if y >= |Kept(b.rows)| {
        assert r[y] == {};
        assert 0 !in r[y];
      }
    }
  }

  /** Every block lies below the well top, so a board holds at most `Width` blocks per row up to it. */
  lemma {:induction false} BlocksBelowTop(rows: seq<set<nat>>)
    requires forall y :: 0 <= y < |rows| ==> forall x :: x in rows[y] ==> x < Width
    ensures Blocks(rows) <= Width * Top(rows)
  {
    if rows != [] {
      var init := rows[..|rows| - 1];
      BlocksBelowTop(init);
      RowSize(rows[|rows| - 1]);
      if rows[|rows| - 1] == {} {
        assert Top(rows) == Top(init);
      } else {
        assert Top(init) <= |init|;
      }
    }
  }

  /** `cols[x].count_ones()`: the blocks in column `x`. */
  function ColumnBlocks(rows: seq<set<nat>>, x: nat): (r: nat)
    ensures r <= |rows|
  {
    if rows == [] then 0
    else ColumnBlocks(rows[..|rows| - 1], x) + (if x in rows[|rows| - 1] then 1 else 0)
  }

  /** Columns never hold blocks at or above the well top. */
  lemma {:induction false} ColumnBlocksBelowTop(rows: seq<set<nat>>, x: nat)
    ensures ColumnBlocks(rows, x) <= Top(rows)
  {
    if rows != [] {
      ColumnBlocksBelowTop(rows[..|rows| - 1], x);
    }
  }

  /** `(cols[x - 1] | cols[x]) == (1 << height) - 1`: columns `x - 1` and `x` between them fill every row below `height` and nothing above. */
  predicate Wall(b: Board, x: nat, height: nat)
    requires b.Valid() && 1 <= x < Width
  {
    forall y :: 0 <= y < Rows ==> ((x - 1 in b.rows[y] || x in b.rows[y]) <==> y < height)
  }

  /** How many of the columns `0 .. n` a row fills. */
  function InRow(row: set<nat>, n: nat): nat
  {
    if n == 0 then 0 else InRow(row, n - 1) + (if n - 1 in row then 1 else 0)
  }

  /** The blocks of `row` in columns below `n`. */
  function Below(row: set<nat>, n: nat): set<nat>
  {
    set x | x in row && x < n
  }

  lemma {:induction false} InRowSize(row: set<nat>, n: nat)
    ensures InRow(row, n) == |Below(row, n)|
  {
    if n > 0 {
      InRowSize(row, n - 1);
      var below := Below(row, n - 1);
      if n - 1 in row {
        assert Below(row, n) == below + {n - 1};
      } else {
        assert Below(row, n) == below;
      }
    }
  }

  /** The blocks in columns `0 .. n`. */
  function ColumnsBlocks(rows: seq<set<nat>>, n: nat): nat
  {
    if n == 0 then 0 else ColumnsBlocks(rows, n - 1) + ColumnBlocks(rows, n - 1)
  }

  lemma {:induction false} ColumnsBlocksSnoc(rows: seq<set<nat>>, n: nat)
    requires rows != []
    ensures ColumnsBlocks(rows, n) == ColumnsBlocks(rows[..|rows| - 1], n) + InRow(rows[|rows| - 1], n)
  {
    if n > 0 {
      ColumnsBlocksSnoc(rows, n - 1);
    }
  }

  /** Counting blocks by columns gives the same total as counting them by rows. */
  lemma {:induction false} ColumnsBlocksTotal(rows: seq<set<nat>>)
    requires forall y :: 0 <= y < |rows| ==> forall x :: x in rows[y] ==> x < Width
    ensures ColumnsBlocks(rows, Width) == Blocks(rows)
  {
    if rows == [] {
      ColumnsBlocksEmpty(Width);
    } else {
      var last := rows[|rows| - 1];
      ColumnsBlocksTotal(rows[..|rows| - 1]);
      ColumnsBlocksSnoc(rows, Width);
      InRowSize(last, Width);
      assert Below(last, Width) == last;
    }
  }

  lemma {:induction false} ColumnsBlocksEmpty(n: nat)
    ensures ColumnsBlocks([], n) == 0
  {
    if n > 0 {
      ColumnsBlocksEmpty(n - 1);
    }
  }

  /** A blank board has no blocks, no filled rows and well top 0. */
  lemma BlankIsEmpty()
    ensures CountBlocks(Blank()) == 0 && WellTop(Blank()) == 0
    ensures ClearLines(Blank()) == (Blank(), 0)
  {
    EmptyRows(Blank().rows);
    var k := Kept(Blank().rows);
    assert k + seq(0, _ => {}) == k;
  }

  lemma {:induction false} EmptyRows(rows: seq<set<nat>>)
    requires forall y :: 0 <= y < |rows| ==> rows[y] == {}
    ensures Blocks(rows) == 0 && Top(rows) == 0 && Cleared(rows) == 0 && Kept(rows) == rows
  {
    if rows != [] {
      var init := rows[..|rows| - 1];
      EmptyRows(init);
      assert 0 !in rows[|rows| - 1];
      assert init + [rows[|rows| - 1]] == rows;
    }
  }

  /** The free cells below `height` in columns `lo .. hi`, column by column. */
  function Frees(b: Board, height: nat, lo: nat, hi: nat): int
    requires lo <= hi
    decreases hi - lo
  {
    if lo == hi then 0 else height - ColumnBlocks(b.rows, lo) + Frees(b, height, lo + 1, hi)
  }

  lemma {:induction false} FreesSplit(b: Board, height: nat, lo: nat, mid: nat, hi: nat)
    requires lo <= mid <= hi
    ensures Frees(b, height, lo, hi) == Frees(b, height, lo, mid) + Frees(b, height, mid, hi)
    decreases mid - lo
  {
    if lo < mid {
      FreesSplit(b, height, lo + 1, mid, hi);
    }
  }

  lemma {:induction false} FreesColumns(b: Board, height: nat, n: nat)
    ensures Frees(b, height, 0, n) == n * height - ColumnsBlocks(b.rows, n)
  {
    if n > 0 {
      FreesColumns(b, height, n - 1);
      FreesSplit(b, height, 0, n - 1, n);
      assert Frees(b, height, n - 1, n) == height - ColumnBlocks(b.rows, n - 1);
      assert n * height == (n - 1) * height + height;
    }
  }
}
