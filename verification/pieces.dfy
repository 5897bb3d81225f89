/**
 * The piece vocabulary the all-PCs search borrows from the board library:
 * a piece is a shape in one of four orientations, its blocks are four
 * offsets inside a bounding box, and a placed piece records the piece, its
 * left column and the rows its blocks land on. The library's own tables of
 * offsets are not part of this model: they reach the model as parameters.
 */
module Pieces {
  import opened Shapes

  datatype Orientation = North | East | South | West

  const AllOrientations: seq<Orientation> := [North, East, South, West]

  datatype Piece = Piece(shape: Shape, orientation: Orientation)

  /** `Piece::all_vec`: every shape in every orientation, shape by shape. */
  function AllPieces(): (r: seq<Piece>)
    ensures |r| == 28
    ensures forall k :: 0 <= k < 28 ==> r[k] == Piece(AllShapes[k / 4], AllOrientations[k % 4])
  {
    seq(28, k requires 0 <= k < 28 => Piece(AllShapes[k / 4], AllOrientations[k % 4]))
  }

  lemma AllPiecesOnceEach(p: Piece)
    ensures exists k :: 0 <= k < 28 && AllPieces()[k] == p
    ensures forall k, j :: 0 <= k < j < 28 ==> AllPieces()[k] != AllPieces()[j]
  {
    var s := Ordinal(p.shape);
    var o := match p.orientation case North => 0 case East => 1 case South => 2 case West => 3;
    assert AllPieces()[4 * s + o] == p;
    forall k, j | 0 <= k < j < 28 ensures AllPieces()[k] != AllPieces()[j] {
      if k / 4 == j / 4 {
        assert k % 4 != j % 4;
      }
    }
  }

  datatype Location = Location(x: int, y: int)

  /** A piece's four blocks, the lower-left corner of their bounding box, and its height in rows. */
  datatype PieceBlocks = PieceBlocks(offsets: seq<Location>, bottomLeft: Location, height: nat)
  {
    /** Four distinct blocks inside a box of at least one row whose lower-left corner is `bottomLeft`. */
    predicate Valid()
    {
      && |offsets| == 4 && 1 <= height <= 4
      && (forall i, j :: 0 <= i < j < 4 ==> offsets[i] != offsets[j])
      && (forall i :: 0 <= i < 4 ==> bottomLeft.x <= offsets[i].x && bottomLeft.y <= offsets[i].y < bottomLeft.y + height)
    }
  }

  /** A piece placed with its leftmost blocks in column `lx`, its rows of blocks at `ys`. */
  datatype PlacedPiece = PlacedPiece(piece: Piece, lx: nat, ys: seq<nat>)
}
