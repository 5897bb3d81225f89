/**
 * The crate-internal `ClippedBoard`, whose constructor and `spaces` assert
 * that the well top lies within the height.
 */
module InternalClippedBoards {
  import opened Boards

  datatype ClippedBoard = ClippedBoard(board: Board, height: nat)

  /** `new`: panics when the well top exceeds the height; stores both otherwise. */
  function New(board: Board, height: nat): (c: ClippedBoard)
    requires WellTop(board) <= height
    ensures c.board == board && c.height == height
  {
    ClippedBoard(board, height)
  }

  /** `spaces` (re-asserting the well top): the free cells below the height, never more than the area. */
  function Spaces(c: ClippedBoard): (r: nat)
    requires c.board.Valid() && WellTop(c.board) <= c.height
    ensures r + CountBlocks(c.board) == c.height * Width
  {
    BlocksBelowTop(c.board.rows);
    c.height * Width - CountBlocks(c.board)
  }

  /** A blank board of height 4 has 40 spaces. */
  lemma BlankSpaces()
    ensures Spaces(New(Blank(), 4)) == 40
  {
    BlankIsEmpty();
  }
}
