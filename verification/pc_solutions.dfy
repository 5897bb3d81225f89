/** The perfect clears the all-PCs search collects: one list of placed pieces per solution. */
module PcSolutionSets {
  import opened Wrappers
  import opened ClippedBoards
  import opened Pieces

  datatype PcSolutions = PcSolutions(clippedBoard: ClippedBoard, placedPieces: seq<seq<PlacedPiece>>)

  /** `new`: the solutions given, on the board given. */
  function New(clippedBoard: ClippedBoard, placedPieces: seq<seq<PlacedPiece>>): (r: PcSolutions)
    ensures r.clippedBoard == clippedBoard
    ensures Len(r) == |placedPieces| && forall k :: 0 <= k < Len(r) ==> r.placedPieces[k] == placedPieces[k]
  {
    PcSolutions(clippedBoard, placedPieces)
  }

  /** `empty`: no solution on the board given. */
  function Empty(clippedBoard: ClippedBoard): (r: PcSolutions)
    ensures r.clippedBoard == clippedBoard && Len(r) == 0 && IsEmpty(r)
  {
    PcSolutions(clippedBoard, [])
  }

  /** `len`: how many solutions there are. */
  function Len(s: PcSolutions): (r: nat)
    ensures r == 0 <==> s.placedPieces == []
  {
    |s.placedPieces|
  }

  /** `is_empty`: whether there is no solution. */
  function IsEmpty(s: PcSolutions): (r: bool)
    ensures r <==> Len(s) == 0
  {
    |s.placedPieces| == 0
  }

  /** `first`: the first solution, if any. */
  function First(s: PcSolutions): (r: Option<seq<PlacedPiece>>)
    ensures r.None? <==> IsEmpty(s)
    ensures r.Some? ==> 0 < Len(s) && r.value == s.placedPieces[0]
  {
    if |s.placedPieces| == 0 then None else Some(s.placedPieces[0])
  }
}
