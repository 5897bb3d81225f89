/**
 * The pieces the all-PCs search may place, precomputed for one board
 * height: every canonical piece on every increasing choice of rows, with
 * the rows its blocks use and the rows its blocks straddle. Row masks are
 * sets of row numbers.
 */
module PredefinedPieces {
  import opened Wrappers
  import opened Boards
  import opened Masks
  import opened Pieces

  /** A list of values, each stored with the id the search knows it by. */
  datatype IndexedPieces<T> = IndexedPieces(pieces: seq<(nat, T)>, height: nat)
  {
    /** `len`. */
    function Len(): nat
    {
      |pieces|
    }

    /** `is_empty`: there is no entry. */
    function IsEmpty(): (r: bool)
      ensures r <==> Len() == 0
    {
      |pieces| == 0
    }

    /** `index`: the value of the `i`-th entry (the entry list panics past its end). */
    function Index(i: nat): T
      requires i < Len()
    {
      pieces[i].1
    }
  }

  predicate Increasing(ys: seq<nat>)
  {
    forall i, j :: 0 <= i < j < |ys| ==> ys[i] < ys[j]
  }

  /** The rows strictly between `lo` and `hi`. */
  function Open(lo: nat, hi: nat): (r: set<nat>)
    ensures forall y: nat :: y in r <==> lo < y < hi
  {
    set y | y in Range(hi) && lo < y
  }

  /** The rows strictly between two consecutive entries of `ys`. */
  function Between(ys: seq<nat>): set<nat>
  {
    if |ys| < 2 then {} else Open(ys[0], ys[1]) + Between(ys[1..])
  }

  /** The fold of `using_rows`, from the mask built so far. */
  function UsingRowsFrom(merge: set<nat>, rest: seq<nat>): (r: set<nat>)
    ensures r == merge + set y | y in rest
    decreases |rest|
  {
    if rest == [] then merge
    else
      var r := UsingRowsFrom(merge + {rest[0]}, rest[1..]);
      assert forall y :: y in rest <==> y == rest[0] || y in rest[1..];
      r
  }

  /** `using_rows`: bit `y` set for each row `y` of the piece. */
  function UsingRows(ys: seq<nat>): (r: set<nat>)
    ensures forall y :: y in r <==> y in ys
  {
    UsingRowsFrom({}, ys)
  }

  /** The fold of `intercepted_rows`, carrying the previous row. */
  function InterceptedFrom(prev: nat, merge: set<nat>, rest: seq<nat>): (r: set<nat>)
    ensures Increasing([prev] + rest) ==> r == merge + Between([prev] + rest)
    decreases |rest|
  {
    if rest == [] then merge
    else
      var step := Xor(Range(rest[0]), Range(prev + 1));
      var r := InterceptedFrom(rest[0], merge + step, rest[1..]);
      if Increasing([prev] + rest) then
        InterceptedStep(prev, rest);
        r
      else r
  }

  /** One step of the fold: the gap below the next row, and the gaps above it. */
  lemma InterceptedStep(prev: nat, rest: seq<nat>)
    requires rest != [] && Increasing([prev] + rest)
    ensures Increasing([rest[0]] + rest[1..])
    ensures Xor(Range(rest[0]), Range(prev + 1)) == Open(prev, rest[0])
    ensures Between([prev] + rest) == Open(prev, rest[0]) + Between([rest[0]] + rest[1..])
  {
    assert [rest[0]] + rest[1..] == rest == ([prev] + rest)[1..];
    forall i, j | 0 <= i < j < |rest| ensures rest[i] < rest[j] {
      assert ([prev] + rest)[i + 1] == rest[i] && ([prev] + rest)[j + 1] == rest[j];
    }
    assert ([prev] + rest)[1] == rest[0] && ([prev] + rest)[0] == prev;
    XorOfRanges(prev + 1, rest[0]);
  }

  /** `intercepted_rows`: the rows the piece straddles without using them. */
  function InterceptedRows(ys: seq<nat>): (r: set<nat>)
    requires 1 <= |ys|
    ensures Increasing(ys) ==> r == Between(ys)
  {
    assert [ys[0]] + ys[1..] == ys;
    InterceptedFrom(ys[0], {}, ys[1..])
  }

  /** The rows from `lo` up to and including `hi`. */
  function Interval(lo: nat, hi: nat): (r: set<nat>)
    ensures forall y: nat :: y in r <==> lo <= y <= hi
  {
    set y | y in UpTo(hi) && lo <= y
  }

  /** The rows `0 ..= hi`. */
  function UpTo(hi: nat): (r: set<nat>)
    ensures forall y: nat :: y in r <==> y <= hi
  {
    Range(hi + 1)
  }

  /** The rows from the lowest to the highest entry. */
  function Span(ys: seq<nat>): (r: set<nat>)
    requires 1 <= |ys|
  {
    Interval(ys[0], ys[|ys| - 1])
  }

  /**
   * For increasing rows, the used rows and the straddled rows are disjoint
   * and together fill the span from the lowest row to the highest.
   */
  lemma {:induction false} RowsPartitionSpan(ys: seq<nat>)
    requires 1 <= |ys| && Increasing(ys)
    ensures UsingRows(ys) !! InterceptedRows(ys)
    ensures UsingRows(ys) + InterceptedRows(ys) == Span(ys)
    decreases |ys|
  {
    if |ys| == 1 {
      assert UsingRows(ys) == {ys[0]};
    } else {
      var tail := ys[1..];
      TailIncreasing(ys);
      RowsPartitionSpan(tail);
      RowsStep(ys);
      PartitionStep(ys[0], ys[1], ys[|ys| - 1], UsingRows(tail), InterceptedRows(tail));
    }
  }

  /** The masks of increasing rows are those of the rows above the lowest, plus the lowest row and the rows up to the next. */
  lemma RowsStep(ys: seq<nat>)
    requires 2 <= |ys| && Increasing(ys)
    ensures UsingRows(ys) == {ys[0]} + UsingRows(ys[1..])
    ensures InterceptedRows(ys) == Open(ys[0], ys[1]) + InterceptedRows(ys[1..])
    ensures ys[0] < ys[1] <= ys[|ys| - 1] && Span(ys[1..]) == Interval(ys[1], ys[|ys| - 1])
  {
    var tail := ys[1..];
    TailIncreasing(ys);
    assert tail[0] == ys[1] && tail[|tail| - 1] == ys[|ys| - 1];
    if |ys| > 2 {
      assert ys[1] < ys[|ys| - 1];
    }
    assert forall y :: y in ys <==> y == ys[0] || y in tail;
  }

  /** One row below a partitioned interval, and the rows up to it, extend the partition down to that row. */
  lemma PartitionStep(lo: nat, mid: nat, hi: nat, usedAbove: set<nat>, straddledAbove: set<nat>)
    requires lo < mid <= hi
    requires usedAbove !! straddledAbove && usedAbove + straddledAbove == Interval(mid, hi)
    ensures ({lo} + usedAbove) !! (Open(lo, mid) + straddledAbove)
    ensures ({lo} + usedAbove) + (Open(lo, mid) + straddledAbove) == Interval(lo, hi)
  {
    IntervalStep(lo, mid, hi);
    forall y | y in usedAbove + straddledAbove ensures mid <= y {
      assert y in Interval(mid, hi);
    }
  }

  lemma TailIncreasing(ys: seq<nat>)
    requires 1 <= |ys| && Increasing(ys)
    ensures Increasing(ys[1..])
    ensures forall y :: y in ys[1..] ==> ys[0] < y
  {
    var tail := ys[1..];
    forall i, j | 0 <= i < j < |tail| ensures tail[i] < tail[j] {
      assert tail[i] == ys[i + 1] && tail[j] == ys[j + 1];
    }
    forall y | y in tail ensures ys[0] < y {
      var k :| 0 <= k < |tail| && tail[k] == y;
      assert ys[k + 1] == y;
    }
  }

  /** An interval is its lowest row, the rows up to a row `mid` above it, and the interval from `mid`. */
  lemma IntervalStep(lo: nat, mid: nat, hi: nat)
    requires lo < mid <= hi
    ensures Interval(lo, hi) == {lo} + Open(lo, mid) + Interval(mid, hi)
  {
  }

  /** Prefix `y` to every sequence. */
  function Prepend(y: nat, cs: seq<seq<nat>>): (r: seq<seq<nat>>)
    ensures |r| == |cs| && forall i :: 0 <= i < |cs| ==> r[i] == [y] + cs[i]
  {
    seq(|cs|, i requires 0 <= i < |cs| => [y] + cs[i])
  }

  /** `(lo..n).combinations(k)`, in lexicographic order. */
  function Combinations(lo: nat, n: nat, k: nat): seq<seq<nat>>
    decreases n - lo
  {
    if k == 0 then [[]]
    else if n <= lo then []
    else Prepend(lo, Combinations(lo + 1, n, k - 1)) + Combinations(lo + 1, n, k)
  }

  /**
   * Each combination is an increasing choice of `k` rows in `lo .. n`, so
   * the sort applied to it changes nothing.
   */
  lemma {:induction false} CombinationsSound(lo: nat, n: nat, k: nat)
    ensures forall c :: c in Combinations(lo, n, k) ==> |c| == k && Increasing(c) && forall y :: y in c ==> lo <= y < n
    decreases n - lo
  {
    if k != 0 && lo < n {
      CombinationsSound(lo + 1, n, k - 1);
      CombinationsSound(lo + 1, n, k);
      PrependIncreasing(lo, n, k, Combinations(lo + 1, n, k - 1));
    }
  }

  /** Putting `lo` in front of increasing choices from above `lo` keeps them increasing. */
  lemma PrependIncreasing(lo: nat, n: nat, k: nat, taken: seq<seq<nat>>)
    requires forall d :: d in taken ==> |d| == k - 1 && Increasing(d) && forall y :: y in d ==> lo + 1 <= y < n
    requires lo < n && 0 < k
    ensures forall c :: c in Prepend(lo, taken) ==> |c| == k && Increasing(c) && forall y :: y in c ==> lo <= y < n
  {
    forall c | c in Prepend(lo, taken) ensures |c| == k && Increasing(c) && forall y :: y in c ==> lo <= y < n {
      var k :| 0 <= k < |taken| && Prepend(lo, taken)[k] == c;
      var d := taken[k];
      assert d in taken && c == [lo] + d;
      forall i, j | 0 <= i < j < |c| ensures c[i] < c[j] {
        assert c[j] == d[j - 1] && d[j - 1] in d;
        if i > 0 {
          assert c[i] == d[i - 1];
        }
      }
      assert forall y :: y in c ==> y == lo || y in d;
    }
  }

  /** Every increasing choice of `k` rows in `lo .. n` is among the combinations. */
  lemma {:induction false} CombinationsComplete(lo: nat, n: nat, k: nat, c: seq<nat>)
    requires |c| == k && Increasing(c) && forall y :: y in c ==> lo <= y < n
    ensures c in Combinations(lo, n, k)
    decreases n - lo
  {
    if k == 0 {
      assert c == [];
    } else {
      SplitChoice(c, lo, n);
      if c[0] == lo {
        CombinationsComplete(lo + 1, n, k - 1, c[1..]);
        CombinationsTake(lo, n, k, c[1..]);
      } else {
        CombinationsComplete(lo + 1, n, k, c);
        CombinationsSkip(lo, n, k, c);
      }
    }
  }

  /** An increasing choice of rows in `lo .. n` is its lowest row followed by an increasing choice above it. */
  lemma SplitChoice(c: seq<nat>, lo: nat, n: nat)
    requires 1 <= |c| && Increasing(c) && forall y :: y in c ==> lo <= y < n
    ensures lo <= c[0] < n && c == [c[0]] + c[1..]
    ensures Increasing(c[1..]) && forall y :: y in c[1..] ==> c[0] + 1 <= y < n
    ensures c[0] != lo ==> forall y :: y in c ==> lo + 1 <= y < n
  {
    assert c[0] in c;
    TailIncreasing(c);
    assert forall y :: y in c[1..] ==> y in c;
    assert forall y :: y in c ==> y == c[0] || y in c[1..];
  }

  lemma CombinationsTake(lo: nat, n: nat, k: nat, d: seq<nat>)
    requires lo < n && 0 < k && d in Combinations(lo + 1, n, k - 1)
    ensures [lo] + d in Combinations(lo, n, k)
  {
    var taken := Combinations(lo + 1, n, k - 1);
    var i :| 0 <= i < |taken| && taken[i] == d;
    assert Combinations(lo, n, k) == Prepend(lo, taken) + Combinations(lo + 1, n, k);
    assert Combinations(lo, n, k)[i] == [lo] + d;
  }

  lemma CombinationsSkip(lo: nat, n: nat, k: nat, c: seq<nat>)
    requires lo < n && 0 < k && c in Combinations(lo + 1, n, k)
    ensures c in Combinations(lo, n, k)
  {
    assert Combinations(lo, n, k) == Prepend(lo, Combinations(lo + 1, n, k - 1)) + Combinations(lo + 1, n, k);
  }

  /**
   * The four block locations of a piece on the rows `ys`: each block keeps
   * its column in the bounding box and takes the row `ys` names for its
   * row in the box.
   */
  function Locations(blocks: PieceBlocks, ys: seq<nat>): (r: seq<Location>)
    requires blocks.Valid() && |ys| == blocks.height
    ensures |r| == 4
    ensures forall i :: 0 <= i < 4 ==> r[i] == Location(blocks.offsets[i].x - blocks.bottomLeft.x,
                                                          ys[blocks.offsets[i].y - blocks.bottomLeft.y])
  {
    seq(4, i requires 0 <= i < 4 =>
      Location(blocks.offsets[i].x - blocks.bottomLeft.x, ys[blocks.offsets[i].y - blocks.bottomLeft.y]))
  }

  /** On increasing rows, the four locations are four different cells, each on one of the rows. */
  lemma LocationsDistinct(blocks: PieceBlocks, ys: seq<nat>)
    requires blocks.Valid() && |ys| == blocks.height && Increasing(ys)
    ensures forall i, j :: 0 <= i < j < 4 ==> Locations(blocks, ys)[i] != Locations(blocks, ys)[j]
    ensures forall i :: 0 <= i < 4 ==> 0 <= Locations(blocks, ys)[i].x && Locations(blocks, ys)[i].y in ys
  {
    var r := Locations(blocks, ys);
    forall i, j | 0 <= i < j < 4 ensures r[i] != r[j] {
      var a, b := blocks.offsets[i], blocks.offsets[j];
      assert a != b;
      if a.x == b.x {
        var da, db := a.y - blocks.bottomLeft.y, b.y - blocks.bottomLeft.y;
        assert da != db;
        if da < db {
          assert ys[da] < ys[db];
        } else {
          assert ys[db] < ys[da];
        }
      }
    }
  }

  datatype PredefinedPiece = PredefinedPiece(piece: Piece, ys: seq<nat>, locations: seq<Location>,
                                             usingRows: set<nat>, interceptedRows: set<nat>)

  /** What a predefined piece of `blocks` for a board of `height` rows holds. */
  ghost predicate Predefined(p: PredefinedPiece, blocks: PieceBlocks, height: nat)
  {
    && blocks.Valid()
    && |p.ys| == blocks.height && Increasing(p.ys) && (forall y :: y in p.ys ==> y < height)
    && p.locations == Locations(blocks, p.ys)
    && (forall y :: y in p.usingRows <==> y in p.ys)
    && p.interceptedRows == Between(p.ys)
  }

  /** One predefined piece on the rows `ys`. */
  function MakeOne(piece: Piece, blocks: PieceBlocks, ys: seq<nat>, height: nat): (r: PredefinedPiece)
    requires blocks.Valid() && |ys| == blocks.height && Increasing(ys) && forall y :: y in ys ==> y < height
    ensures r.piece == piece && r.ys == ys && Predefined(r, blocks, height)
  {
    PredefinedPiece(piece, ys, Locations(blocks, ys), UsingRows(ys), InterceptedRows(ys))
  }

  /** `make`: the piece on every combination of rows, in the order of the combinations. */
  function Make(piece: Piece, blocks: PieceBlocks, height: nat): (r: seq<PredefinedPiece>)
    requires blocks.Valid()
    ensures |r| == |Combinations(0, height, blocks.height)|
    ensures forall i :: 0 <= i < |r| ==>
      r[i].piece == piece && r[i].ys == Combinations(0, height, blocks.height)[i] && Predefined(r[i], blocks, height)
  {
    var combinations := Combinations(0, height, blocks.height);
    CombinationsSound(0, height, blocks.height);
    seq(|combinations|, i requires 0 <= i < |combinations| =>
      assert combinations[i] in combinations;
      MakeOne(piece, blocks, combinations[i], height))
  }

  /** A piece `make` produced for a canonical piece, on a board of `height` rows. */
  ghost predicate Made(r: PredefinedPiece, canonical: Piece -> Option<Piece>, blocksOf: Piece -> PieceBlocks, height: nat)
  {
    canonical(r.piece).None? && Predefined(r, blocksOf(r.piece), height)
  }

  /** `make` for each piece of `pieces` in turn, kept only for canonical pieces. */
  function MakeAll(pieces: seq<Piece>, canonical: Piece -> Option<Piece>, blocksOf: Piece -> PieceBlocks,
                   height: nat): (r: seq<PredefinedPiece>)
    requires forall p :: blocksOf(p).Valid()
    ensures forall i :: 0 <= i < |r| ==> r[i].piece in pieces && Made(r[i], canonical, blocksOf, height)
  {
    if pieces == [] then []
    else
      var rest := MakeAll(pieces[1..], canonical, blocksOf, height);
      assert forall p :: p in pieces[1..] ==> p in pieces;
      if canonical(pieces[0]).None? then
        var made := Make(pieces[0], blocksOf(pieces[0]), height);
        assert forall i :: 0 <= i < |made| ==> made[i].piece in pieces && Made(made[i], canonical, blocksOf, height);
        Concat(made, rest);
        made + rest
      else rest
  }

  lemma Concat<T>(a: seq<T>, b: seq<T>)
    ensures |a + b| == |a| + |b|
    ensures forall i :: 0 <= i < |a| ==> (a + b)[i] == a[i]
    ensures forall i :: 0 <= i < |b| ==> (a + b)[|a| + i] == b[i]
  {
  }

  /** `IndexedPieces::new`: every canonical piece on every choice of rows, numbered in order from 0. */
  function New(height: nat, canonical: Piece -> Option<Piece>, blocksOf: Piece -> PieceBlocks)
    : (r: IndexedPieces<PredefinedPiece>)
    requires forall p :: blocksOf(p).Valid()
    ensures r.height == height
    ensures forall i :: 0 <= i < r.Len() ==> r.pieces[i].0 == i
    ensures forall i :: 0 <= i < r.Len() ==> Made(r.Index(i), canonical, blocksOf, height)
  {
    var made := MakeAll(AllPieces(), canonical, blocksOf, height);
    IndexedPieces(seq(|made|, i requires 0 <= i < |made| => (i, made[i])), height)
  }

  /** Every canonical piece on every increasing choice of its rows is made by `MakeAll`. */
  lemma {:induction false} MakeAllComplete(pieces: seq<Piece>, canonical: Piece -> Option<Piece>,
                                            blocksOf: Piece -> PieceBlocks, height: nat, p: Piece, ys: seq<nat>)
    requires forall q :: blocksOf(q).Valid()
    requires p in pieces && canonical(p).None?
    requires |ys| == blocksOf(p).height && Increasing(ys) && forall y :: y in ys ==> y < height
    ensures exists i :: (0 <= i < |MakeAll(pieces, canonical, blocksOf, height)| &&
      MakeAll(pieces, canonical, blocksOf, height)[i].piece == p && MakeAll(pieces, canonical, blocksOf, height)[i].ys == ys)
  {
    var all := MakeAll(pieces, canonical, blocksOf, height);
    var rest := MakeAll(pieces[1..], canonical, blocksOf, height);
    if pieces[0] == p {
      CombinationsComplete(0, height, |ys|, ys);
      var made := Make(p, blocksOf(p), height);
      var k :| 0 <= k < |Combinations(0, height, |ys|)| && Combinations(0, height, |ys|)[k] == ys;
      assert all == made + rest;
      Concat(made, rest);
      assert all[k] == made[k];
    } else {
      assert p in pieces[1..];
      MakeAllComplete(pieces[1..], canonical, blocksOf, height, p, ys);
      var i :| 0 <= i < |rest| && rest[i].piece == p && rest[i].ys == ys;
      if canonical(pieces[0]).None? {
        var made := Make(pieces[0], blocksOf(pieces[0]), height);
        assert all == made + rest;
        Concat(made, rest);
        assert all[|made| + i] == rest[i];
      } else {
        assert all == rest;
      }
    }
  }

  /** `IndexedPieces::new` holds every canonical piece on every increasing choice of its rows. */
  lemma NewComplete(height: nat, canonical: Piece -> Option<Piece>, blocksOf: Piece -> PieceBlocks,
                    p: Piece, ys: seq<nat>)
    requires forall q :: blocksOf(q).Valid()
    requires canonical(p).None?
    requires |ys| == blocksOf(p).height && Increasing(ys) && forall y :: y in ys ==> y < height
    ensures exists i :: (0 <= i < New(height, canonical, blocksOf).Len() &&
      New(height, canonical, blocksOf).Index(i).piece == p && New(height, canonical, blocksOf).Index(i).ys == ys)
  {
    AllPiecesOnceEach(p);
    MakeAllComplete(AllPieces(), canonical, blocksOf, height, p, ys);
    var made := MakeAll(AllPieces(), canonical, blocksOf, height);
    var i :| 0 <= i < |made| && made[i].piece == p && made[i].ys == ys;
    assert New(height, canonical, blocksOf).Index(i) == made[i];
  }

  /** `Board64::set_at`. */
  function SetAt(b: Board, l: Location): (r: Board)
    requires b.Valid() && 0 <= l.x < Width && 0 <= l.y < Rows
    ensures r.Valid()
  {
    Board(b.rows[l.y := b.rows[l.y] + {l.x as nat}])
  }

  predicate OnBoard(locations: seq<Location>)
  {
    forall i :: 0 <= i < |locations| ==> 0 <= locations[i].x < Width && 0 <= locations[i].y < Rows
  }

  /** A blank board with `set_at` applied at each location in turn: exactly those cells are filled. */
  function BoardOf(locations: seq<Location>): (r: Board)
    requires OnBoard(locations)
    ensures r.Valid()
    ensures forall x: nat, y :: 0 <= y < Rows ==> (x in r.rows[y] <==> Location(x, y) in locations)
  {
    if locations == [] then Blank()
    else
      var last := locations[|locations| - 1];
      var prefix := locations[..|locations| - 1];
      assert OnBoard(prefix);
      assert forall l :: l in locations <==> l in prefix || l == last;
      SetAt(BoardOf(prefix), last)
  }

  /** A predefined piece moved to a column, with the board of its four cells. */
  datatype PlacedPieceBlocks = PlacedPieceBlocks(piece: Piece, ys: seq<nat>, locations: seq<Location>,
                                                 usingRows: set<nat>, interceptedRows: set<nat>,
                                                 lx: nat, board: Board)

  function Shifted(locations: seq<Location>, lx: nat): (r: seq<Location>)
    ensures |r| == |locations| && forall i :: 0 <= i < |r| ==> r[i] == Location(locations[i].x + lx, locations[i].y)
  {
    seq(|locations|, i requires 0 <= i < |locations| => Location(locations[i].x + lx, locations[i].y))
  }

  /**
   * `to_aggregate`: every location moved `lx` columns right, a board
   * holding exactly the moved cells, every other field copied.
   */
  function ToAggregate(p: PredefinedPiece, lx: nat): (r: PlacedPieceBlocks)
    requires OnBoard(Shifted(p.locations, lx))
    ensures |r.locations| == |p.locations|
    ensures forall i :: 0 <= i < |p.locations| ==> r.locations[i] == Location(p.locations[i].x + lx, p.locations[i].y)
    ensures r.board.Valid()
    ensures forall x: nat, y :: 0 <= y < Rows ==> (x in r.board.rows[y] <==> Location(x, y) in r.locations)
    ensures r.piece == p.piece && r.ys == p.ys && r.usingRows == p.usingRows
    ensures r.interceptedRows == p.interceptedRows && r.lx == lx
  {
    var locations := Shifted(p.locations, lx);
    PlacedPieceBlocks(p.piece, p.ys, locations, p.usingRows, p.interceptedRows, lx, BoardOf(locations))
  }

  predicate HasX0(locations: seq<Location>)
  {
    exists i :: 0 <= i < |locations| && locations[i].x == 0
  }

  predicate NonNegativeRows(locations: seq<Location>)
  {
    forall i :: 0 <= i < |locations| ==> 0 <= locations[i].y
  }

  /** `min_vertical_index`: the lowest row among the blocks in the piece's first column. */
  function MinYAtX0(locations: seq<Location>): (r: nat)
    requires HasX0(locations) && NonNegativeRows(locations)
    ensures exists i :: 0 <= i < |locations| && locations[i].x == 0 && locations[i].y == r
    ensures forall i :: 0 <= i < |locations| && locations[i].x == 0 ==> r <= locations[i].y
    decreases |locations|
  {
    var n := |locations|;
    var prefix := locations[..n - 1];
    assert forall i :: 0 <= i < n - 1 ==> prefix[i] == locations[i];
    if locations[n - 1].x != 0 then
      MinYAtX0(prefix)
    else if !HasX0(prefix) then
      locations[n - 1].y as nat
    else
      var m := MinYAtX0(prefix);
      if m <= locations[n - 1].y then m else locations[n - 1].y as nat
  }

  /** The bit of a location relative to the lowest block of the first column, column by column. */
  function Shift(l: Location, height: nat, minY: nat): int
  {
    l.x * height + l.y - minY
  }

  predicate ShiftsInWord(locations: seq<Location>, height: nat)
    requires HasX0(locations) && NonNegativeRows(locations)
  {
    forall i :: 0 <= i < |locations| ==> 0 <= Shift(locations[i], height, MinYAtX0(locations)) < 64
  }

  /** `relative_vertical_blocks`: one bit per block, numbering the cells column by column from the lowest block of the first column. */
  function RelativeBlocks(locations: seq<Location>, height: nat): (r: set<nat>)
    requires HasX0(locations) && NonNegativeRows(locations) && ShiftsInWord(locations, height)
    ensures 0 in r
    ensures forall b :: b in r ==> b < 64
  {
    var m := MinYAtX0(locations);
    var i :| 0 <= i < |locations| && locations[i].x == 0 && locations[i].y == m;
    assert Shift(locations[i], height, m) == 0;
    set k | 0 <= k < |locations| :: Shift(locations[k], height, m) as nat
  }

  lemma Decode(x: int, y: int, height: nat)
    requires 0 <= x && 0 <= y < height
    ensures (x * height + y) / height == x && (x * height + y) % height == y
  {
    var n := x * height + y;
    var q, r := n / height, n % height;
    assert (q - x) * height == y - r;
    if q > x {
      MulAtLeast(q - x, height);
    } else if q < x {
      assert (x - q) * height == r - y;
      MulAtLeast(x - q, height);
    }
  }

  lemma DivMod(c: nat, h: nat)
    requires 0 < h
    ensures c == (c / h) * h + c % h && 0 <= c % h < h && 0 <= c / h
  {
  }

  lemma MulAtLeast(a: int, h: nat)
    requires 1 <= a
    ensures h <= a * h
  {
  }

  /**
   * When every block lies in a column at or right of the first and below
   * `height`, bit `b` is set exactly when the cell `b` steps after the
   * lowest block of the first column (counting up each column, then on to
   * the next) is a block.
   */
  lemma RelativeBlocksCells(locations: seq<Location>, height: nat, b: nat)
    requires HasX0(locations) && NonNegativeRows(locations) && ShiftsInWord(locations, height)
    requires forall i :: 0 <= i < |locations| ==> 0 <= locations[i].x && locations[i].y < height
    ensures var c := b + MinYAtX0(locations);
      b in RelativeBlocks(locations, height) <==> Location(c / height, c % height) in locations
  {
    var m := MinYAtX0(locations);
    var c := b + m;
    if b in RelativeBlocks(locations, height) {
      var k :| 0 <= k < |locations| && Shift(locations[k], height, m) == b;
      Decode(locations[k].x, locations[k].y, height);
      assert locations[k] == Location(c / height, c % height);
    }
    if Location(c / height, c % height) in locations {
      var k :| 0 <= k < |locations| && locations[k] == Location(c / height, c % height);
      DivMod(c, height);
      assert Shift(locations[k], height, m) == b;
    }
  }

  /** `PredefinedPieceToBuild`: what the DAG builder needs of a predefined piece. */
  datatype PredefinedPieceToBuild = PredefinedPieceToBuild(piece: Piece, minYAtX0: nat, relativeBlocks: set<nat>)

  /** The requirements of the conversion on one piece: a block in the first column, and every bit inside a word. */
  predicate Convertible(locations: seq<Location>, height: nat)
  {
    HasX0(locations) && NonNegativeRows(locations) && ShiftsInWord(locations, height)
  }

  function ToBuild(p: PredefinedPiece, height: nat): (r: PredefinedPieceToBuild)
    requires Convertible(p.locations, height)
    ensures r.piece == p.piece && r.minYAtX0 == MinYAtX0(p.locations) && r.relativeBlocks == RelativeBlocks(p.locations, height)
  {
    PredefinedPieceToBuild(p.piece, MinYAtX0(p.locations), RelativeBlocks(p.locations, height))
  }

  /** The `From` conversion: each entry converted, ids and height kept. */
  function FromPredefined(value: IndexedPieces<PredefinedPiece>): (r: IndexedPieces<PredefinedPieceToBuild>)
    requires forall i :: 0 <= i < value.Len() ==> Convertible(value.Index(i).locations, value.height)
    ensures r.height == value.height && r.Len() == value.Len()
    ensures forall i :: 0 <= i < r.Len() ==>
      r.pieces[i].0 == value.pieces[i].0 && r.Index(i) == ToBuild(value.Index(i), value.height)
  {
    IndexedPieces(seq(value.Len(), i requires 0 <= i < value.Len() =>
      (value.pieces[i].0, ToBuild(value.Index(i), value.height))), value.height)
  }
}
