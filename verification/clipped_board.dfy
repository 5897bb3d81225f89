/**
 * The public `ClippedBoard`: a board together with the height of the area
 * a perfect clear must fill, validated on construction.
 */
module ClippedBoards {
  import opened Boards
  import opened Wrappers

  /** `board` and `height` are also the accessors `board`, `board_ref` and `height`. */
  datatype ClippedBoard = ClippedBoard(board: Board, height: nat)

  datatype ClippedBoardCreationError = HeightIsZero | NotHeightEnough | BoardFilledAlready

  /** What `try_new` guarantees of every board it returns. */
  predicate Clipped(c: ClippedBoard)
  {
    && c.board.Valid()
    && 0 < c.height
    && WellTop(c.board) <= c.height
  }

  /**
   * `try_new`: height 0 and a height below the well top are rejected;
   * filled rows are cleared and the height lowered by their number, which
   * is rejected when nothing is left.
   */
  function TryNew(board: Board, height: nat): (r: Result<ClippedBoard, ClippedBoardCreationError>)
    requires board.Valid()
    ensures r == Err(HeightIsZero) <==> height == 0
    ensures r == Err(NotHeightEnough) <==> 0 < height < WellTop(board)
    ensures r == Err(BoardFilledAlready) <==> 0 < height && WellTop(board) <= height && ClearLines(board).1 == height
    ensures r.Ok? ==> && Clipped(r.value)
                      && r.value.board == ClearLines(board).0
                      && r.value.height + ClearLines(board).1 == height
                      && forall y :: 0 <= y < Rows ==> !FullRow(r.value.board.rows[y])
  {
    if height == 0 then Err(HeightIsZero)
    else if height < WellTop(board) then Err(NotHeightEnough)
    else
      ClearLinesSound(board);
      var (cleared, lines) := ClearLines(board);
      var h := height - lines;
      if h == 0 then Err(BoardFilledAlready)
      else Ok(ClippedBoard(cleared, h))
  }

  /** `new_unsafe`: the fields as given, unchecked. */
  function NewUnsafe(board: Board, height: nat): (c: ClippedBoard)
    ensures c.board == board && c.height == height
  {
    ClippedBoard(board, height)
  }

  /**
   * `spaces`: the free cells below the height. The `u32` subtraction needs
   * the blocks to fit below the height.
   */
  function Spaces(c: ClippedBoard): nat
    requires CountBlocks(c.board) <= c.height * Width
  {
    c.height * Width - CountBlocks(c.board)
  }

  /** On a clipped board every block is below the height, so `spaces` never underflows. */
  lemma SpacesDefined(c: ClippedBoard)
    requires Clipped(c)
    ensures CountBlocks(c.board) <= c.height * Width
  {
    BlocksBelowTop(c.board.rows);
  }

  /** Clearing filled rows keeps the free cells: `spaces` of the result is that of the input. */
  lemma TryNewKeepsSpaces(board: Board, height: nat)
    requires board.Valid() && TryNew(board, height).Ok?
    ensures CountBlocks(board) <= height * Width
    ensures CountBlocks(TryNew(board, height).value.board) <= TryNew(board, height).value.height * Width
    ensures Spaces(TryNew(board, height).value) == height * Width - CountBlocks(board)
  {
    ClearLinesSound(board);
    SpacesDefined(TryNew(board, height).value);
  }

  /** `spaces` is the sum of the free cells of the ten columns. */
  lemma SpacesByColumns(c: ClippedBoard)
    requires Clipped(c)
    ensures CountBlocks(c.board) <= c.height * Width
    ensures Spaces(c) == Frees(c.board, c.height, 0, Width)
  {
    SpacesDefined(c);
    FreesColumns(c.board, c.height, Width);
    ColumnsBlocksTotal(c.board.rows);
  }

  /** A blank board of height 4 has 40 spaces. */
  lemma BlankSpaces()
    ensures TryNew(Blank(), 4) == Ok(ClippedBoard(Blank(), 4))
    ensures CountBlocks(Blank()) == 0
    ensures Spaces(ClippedBoard(Blank(), 4)) == 40
  {
    BlankIsEmpty();
  }
}
