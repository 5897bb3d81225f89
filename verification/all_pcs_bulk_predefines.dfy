/**
 * The piece tables of the bulk executor (`bulk_executor.rs`): every
 * canonical piece on every choice of rows, numbered in order, and the two
 * conversions of an entry, one for building the DAG and one for counting
 * over it. They are the tables of `predefined_piece.rs` without the rows
 * each entry uses, which the bulk executor derives again when it counts.
 */
module AllPcsBulkPredefines {
  import opened Wrappers
  import opened Pieces
  import opened PredefinedPieces

  /** `PiecePredefines2`: a piece, the rows its blocks lie on, and its blocks relative to its left column. */
  datatype PiecePredefines2 = PiecePredefines2(piece: Piece, ys: seq<nat>, locations: seq<Location>)

  /** `PiecePredefines3`: the same with the rows it uses and the rows it straddles, which must be cleared before it can be placed. */
  datatype PiecePredefines3 = PiecePredefines3(piece: Piece, ys: seq<nat>, usingRows: set<nat>, deletedRows: set<nat>,
                                               locations: seq<Location>)

  /**
   * `to_piece_predefines`: the lowest row of the piece's first column and
   * the piece's blocks as bits counted column by column from there.
   */
  function ToPiecePredefines(p: PiecePredefines2, height: nat): (r: PredefinedPieceToBuild)
    requires Convertible(p.locations, height)
    ensures r.piece == p.piece
    ensures exists i :: 0 <= i < |p.locations| && p.locations[i].x == 0 && p.locations[i].y == r.minYAtX0
    ensures forall i :: 0 <= i < |p.locations| && p.locations[i].x == 0 ==> r.minYAtX0 <= p.locations[i].y
    ensures 0 in r.relativeBlocks && forall b :: b in r.relativeBlocks ==> b < 64
  {
    PredefinedPieceToBuild(p.piece, MinYAtX0(p.locations), RelativeBlocks(p.locations, height))
  }

  /** A block of the piece sits at bit `b` exactly when it is `b` cells after the lowest block of the first column, counting up each column. */
  lemma ToPiecePredefinesCells(p: PiecePredefines2, height: nat, b: nat)
    requires Convertible(p.locations, height)
    requires forall i :: 0 <= i < |p.locations| ==> 0 <= p.locations[i].x && p.locations[i].y < height
    ensures var c := b + ToPiecePredefines(p, height).minYAtX0;
      b in ToPiecePredefines(p, height).relativeBlocks <==> Location(c / height, c % height) in p.locations
  {
    RelativeBlocksCells(p.locations, height, b);
  }

  /** `to_piece_predefines3`: the rows the piece uses and the rows strictly between them. */
  function ToPiecePredefines3(p: PiecePredefines2): (r: PiecePredefines3)
    requires 1 <= |p.ys|
    ensures r.piece == p.piece && r.ys == p.ys && r.locations == p.locations
    ensures forall y :: y in r.usingRows <==> y in p.ys
    ensures Increasing(p.ys) ==> r.deletedRows == Between(p.ys)
  {
    PiecePredefines3(p.piece, p.ys, UsingRows(p.ys), InterceptedRows(p.ys), p.locations)
  }

  /** On increasing rows, the used rows and the straddled rows are disjoint and together span the piece from its lowest to its highest row. */
  lemma ToPiecePredefines3Partition(p: PiecePredefines2)
    requires 1 <= |p.ys| && Increasing(p.ys)
    ensures ToPiecePredefines3(p).usingRows !! ToPiecePredefines3(p).deletedRows
    ensures ToPiecePredefines3(p).usingRows + ToPiecePredefines3(p).deletedRows == Span(p.ys)
  {
    RowsPartitionSpan(p.ys);
  }

  /** The predefined piece without the rows it uses. */
  function Strip(p: PredefinedPiece): PiecePredefines2
  {
    PiecePredefines2(p.piece, p.ys, p.locations)
  }

  function StripAll(s: seq<PredefinedPiece>): (r: seq<PiecePredefines2>)
    ensures |r| == |s| && forall i :: 0 <= i < |s| ==> r[i] == Strip(s[i])
  {
    seq(|s|, i requires 0 <= i < |s| => Strip(s[i]))
  }

  /** `make_minos2`: the piece on every combination of `blocks.height` rows out of `height`, in the order of the combinations. */
  function MakeMinos2(piece: Piece, blocks: PieceBlocks, height: nat): (r: seq<PiecePredefines2>)
    requires blocks.Valid()
    ensures forall i :: 0 <= i < |r| ==>
      && r[i].piece == piece && |r[i].ys| == blocks.height && Increasing(r[i].ys)
      && (forall y :: y in r[i].ys ==> y < height)
      && r[i].locations == Locations(blocks, r[i].ys)
  {
    var combinations := Combinations(0, height, blocks.height);
    CombinationsSound(0, height, blocks.height);
    seq(|combinations|, i requires 0 <= i < |combinations| =>
      assert combinations[i] in combinations;
      PiecePredefines2(piece, combinations[i], Locations(blocks, combinations[i])))
  }

  /** `make_minos2` and the `make` of `predefined_piece.rs` agree on every entry. */
  lemma MakeMinos2AgreesWithMake(piece: Piece, blocks: PieceBlocks, height: nat)
    requires blocks.Valid()
    ensures MakeMinos2(piece, blocks, height) == StripAll(Make(piece, blocks, height))
  {
  }

  /** Every increasing choice of rows below the height has its entry. */
  lemma MakeMinos2Complete(piece: Piece, blocks: PieceBlocks, height: nat, ys: seq<nat>)
    requires blocks.Valid() && |ys| == blocks.height && Increasing(ys) && forall y :: y in ys ==> y < height
    ensures exists i :: 0 <= i < |MakeMinos2(piece, blocks, height)| && MakeMinos2(piece, blocks, height)[i].ys == ys
  {
    CombinationsComplete(0, height, blocks.height, ys);
    var combinations := Combinations(0, height, blocks.height);
    var i :| 0 <= i < |combinations| && combinations[i] == ys;
    assert MakeMinos2(piece, blocks, height)[i].ys == ys;
  }

  /** The `flat_map` of `make_predefines2`: `make_minos2` for each canonical piece of `pieces` in turn. */
  function MakeAll2(pieces: seq<Piece>, canonical: Piece -> Option<Piece>, blocksOf: Piece -> PieceBlocks,
                    height: nat): seq<PiecePredefines2>
    requires forall p :: blocksOf(p).Valid()
  {
    if pieces == [] then []
    else
      var rest := MakeAll2(pieces[1..], canonical, blocksOf, height);
      if canonical(pieces[0]).None? then MakeMinos2(pieces[0], blocksOf(pieces[0]), height) + rest else rest
  }

  lemma StripConcat(a: seq<PredefinedPiece>, b: seq<PredefinedPiece>)
    ensures StripAll(a + b) == StripAll(a) + StripAll(b)
  {
  }

  /** The flattened tables of the two files agree entry by entry. */
  lemma {:induction false} MakeAll2AgreesWithMakeAll(pieces: seq<Piece>, canonical: Piece -> Option<Piece>,
                                                     blocksOf: Piece -> PieceBlocks, height: nat)
    requires forall p :: blocksOf(p).Valid()
    ensures MakeAll2(pieces, canonical, blocksOf, height) == StripAll(MakeAll(pieces, canonical, blocksOf, height))
  {
    if pieces != [] {
      MakeAll2AgreesWithMakeAll(pieces[1..], canonical, blocksOf, height);
      if canonical(pieces[0]).None? {
        MakeMinos2AgreesWithMake(pieces[0], blocksOf(pieces[0]), height);
        StripConcat(Make(pieces[0], blocksOf(pieces[0]), height), MakeAll(pieces[1..], canonical, blocksOf, height));
      }
    }
  }

  /** `make_predefines2`: the entries numbered in order from 0. */
  function MakePredefines2(height: nat, canonical: Piece -> Option<Piece>, blocksOf: Piece -> PieceBlocks)
    : (r: seq<(nat, PiecePredefines2)>)
    requires forall p :: blocksOf(p).Valid()
    ensures forall i :: 0 <= i < |r| ==> r[i].0 == i
  {
    var all := MakeAll2(AllPieces(), canonical, blocksOf, height);
    seq(|all|, i requires 0 <= i < |all| => (i, all[i]))
  }

  /**
   * `make_predefines2` numbers the same entries as `IndexedPieces::new`:
   * each is a canonical piece on increasing rows below the height, with
   * its blocks on those rows.
   */
  lemma MakePredefines2Sound(height: nat, canonical: Piece -> Option<Piece>, blocksOf: Piece -> PieceBlocks)
    requires forall p :: blocksOf(p).Valid()
    ensures |MakePredefines2(height, canonical, blocksOf)| == New(height, canonical, blocksOf).Len()
    ensures forall i :: 0 <= i < |MakePredefines2(height, canonical, blocksOf)| ==>
      MakePredefines2(height, canonical, blocksOf)[i].1 == Strip(New(height, canonical, blocksOf).Index(i))
    ensures forall i :: 0 <= i < |MakePredefines2(height, canonical, blocksOf)| ==>
      var p := MakePredefines2(height, canonical, blocksOf)[i].1;
      && canonical(p.piece).None? && |p.ys| == blocksOf(p.piece).height && Increasing(p.ys)
      && (forall y :: y in p.ys ==> y < height) && p.locations == Locations(blocksOf(p.piece), p.ys)
  {
    MakeAll2AgreesWithMakeAll(AllPieces(), canonical, blocksOf, height);
    var r := MakePredefines2(height, canonical, blocksOf);
    var n := New(height, canonical, blocksOf);
    forall i | 0 <= i < |r|
      ensures r[i].1 == Strip(n.Index(i))
      ensures var p := r[i].1;
        && canonical(p.piece).None? && |p.ys| == blocksOf(p.piece).height && Increasing(p.ys)
        && (forall y :: y in p.ys ==> y < height) && p.locations == Locations(blocksOf(p.piece), p.ys)
    {
      assert Made(n.Index(i), canonical, blocksOf, height);
    }
  }

  /** Every canonical piece on every increasing choice of rows below the height has an entry. */
  lemma MakePredefines2Complete(height: nat, canonical: Piece -> Option<Piece>, blocksOf: Piece -> PieceBlocks,
                                p: Piece, ys: seq<nat>)
    requires forall q :: blocksOf(q).Valid()
    requires canonical(p).None?
    requires |ys| == blocksOf(p).height && Increasing(ys) && forall y :: y in ys ==> y < height
    ensures exists i :: (0 <= i < |MakePredefines2(height, canonical, blocksOf)| &&
      MakePredefines2(height, canonical, blocksOf)[i].1.piece == p && MakePredefines2(height, canonical, blocksOf)[i].1.ys == ys)
  {
    MakePredefines2Sound(height, canonical, blocksOf);
    NewComplete(height, canonical, blocksOf, p, ys);
    var i :| 0 <= i < New(height, canonical, blocksOf).Len() &&
      New(height, canonical, blocksOf).Index(i).piece == p && New(height, canonical, blocksOf).Index(i).ys == ys;
    assert MakePredefines2(height, canonical, blocksOf)[i].1.ys == ys;
  }
}
