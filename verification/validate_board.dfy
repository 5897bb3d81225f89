/**
 * `validate_board` (and `validate` of the success-rate command): a quick
 * rejection of boards that cannot be perfect-cleared. Where two adjacent
 * columns together fill every row, no piece can cross them, so the free
 * cells to their left, back to the previous such wall, must come in fours.
 */
module BoardValidation {
  import opened Boards

  /** The first column of the segment that column `x - 1` belongs to. */
  function SegmentStart(b: Board, height: nat, x: nat): (r: nat)
    requires b.Valid() && 1 <= x <= Width
    ensures r < x
  {
    if x == 1 then 0
    else if Wall(b, x - 1, height) then x - 1
    else SegmentStart(b, height, x - 1)
  }

  /** Every segment that a wall closes has a multiple of four free cells. */
  predicate WalledSegmentsFit(b: Board, height: nat)
    requires b.Valid()
  {
    forall x :: 1 <= x < Width && Wall(b, x, height) ==>
      Frees(b, height, SegmentStart(b, height, x), x) % 4 == 0
  }

  /** When the board's free cells come in fours, so do those of the segment no wall closes. */
  lemma {:induction false} SegmentsBeforeFit(b: Board, height: nat, x: nat)
    requires b.Valid() && 1 <= x <= Width && WalledSegmentsFit(b, height)
    ensures Frees(b, height, 0, SegmentStart(b, height, x)) % 4 == 0
  {
    if x > 1 {
      SegmentsBeforeFit(b, height, x - 1);
      if Wall(b, x - 1, height) {
        FreesSplit(b, height, 0, SegmentStart(b, height, x - 1), x - 1);
      }
    }
  }

  /** The segment after the last wall then also has its free cells in fours. */
  lemma LastSegmentFits(b: Board, height: nat)
    requires b.Valid() && WellTop(b) <= height
    requires (height * Width - CountBlocks(b)) % 4 == 0
    requires WalledSegmentsFit(b, height)
    ensures Frees(b, height, SegmentStart(b, height, Width), Width) % 4 == 0
  {
    var start := SegmentStart(b, height, Width);
    SegmentsBeforeFit(b, height, Width);
    FreesSplit(b, height, 0, start, Width);
    FreesColumns(b, height, Width);
    ColumnsBlocksTotal(b.rows);
    var before, total := Frees(b, height, 0, start), Frees(b, height, 0, Width);
    assert total == height * Width - CountBlocks(b);
    assert Frees(b, height, start, Width) == total - before;
    FoursDifference(before, total);
  }

  lemma FoursDifference(a: int, t: int)
    requires a % 4 == 0 && t % 4 == 0
    ensures (t - a) % 4 == 0
  {
    assert t - a == 4 * (t / 4 - a / 4);
  }

  /**
   * The loop with its running `frees_sum`; the `u32` arithmetic and the
   * shift `1 << height` need the blocks below the height and a height
   * below 64, and the closing `debug_assert` needs the spaces in fours.
   */
  method ValidateBoard(b: Board, height: nat) returns (ok: bool)
    requires b.Valid() && WellTop(b) <= height < Rows
    requires (height * Width - CountBlocks(b)) % 4 == 0
    ensures ok <==> WalledSegmentsFit(b, height)
  {
    ColumnBlocksBelowTop(b.rows, 0);
    var freesSum: int := height - ColumnBlocks(b.rows, 0);
    var x := 1;
    while x < Width
      invariant 1 <= x <= Width
      invariant freesSum == Frees(b, height, SegmentStart(b, height, x), x)
      invariant forall w :: 1 <= w < x && Wall(b, w, height) ==>
        Frees(b, height, SegmentStart(b, height, w), w) % 4 == 0
    {
      ColumnBlocksBelowTop(b.rows, x);
      var freesInColumn := height - ColumnBlocks(b.rows, x);
      FreesSplit(b, height, SegmentStart(b, height, x), x, x + 1);
      if Wall(b, x, height) {
        if freesSum % 4 != 0 {
          return false;
        }
        freesSum := freesInColumn;
      } else {
        freesSum := freesSum + freesInColumn;
      }
      x := x + 1;
    }
    // the closing debug assertion
    LastSegmentFits(b, height);
    assert freesSum % 4 == 0;
    return true;
  }
}
