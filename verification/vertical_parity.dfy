/**
 * `VerticalParity`: the free cells of the even and of the odd columns.
 * Every piece covers a fixed number of cells of each kind (a T two and two
 * or one and three, an I two and two or none and four, and so on), so a
 * perfect clear is possible only if the two counts can be split into the
 * footprints of the upcoming shapes.
 */
module VerticalParities {
  import opened Shapes
  import opened Wrappers
  import opened Boards
  import opened ClippedBoards

  /** `parity[0]` (even columns) and `parity[1]` (odd columns). */
  datatype VerticalParity = VerticalParity(even: int, odd: int)

  /** The free cells of `row` among the columns `0 .. n` whose parity is `p`. */
  function FreeInRow(row: set<nat>, n: nat, p: nat): nat
  {
    if n == 0 then 0 else FreeInRow(row, n - 1, p) + (if (n - 1) % 2 == p && n - 1 !in row then 1 else 0)
  }

  /** The free cells of parity `p` in the rows `0 .. n`. */
  function FreeCells(rows: seq<set<nat>>, n: nat, p: nat): nat
    requires n <= |rows|
  {
    if n == 0 then 0 else FreeCells(rows, n - 1, p) + FreeInRow(rows[n - 1], Width, p)
  }

  /** `new`: counts the free cells below the height, row by row and column by column. */
  method New(c: ClippedBoard) returns (v: VerticalParity)
    requires c.board.Valid() && c.height <= Rows
    ensures v == VerticalParity(FreeCells(c.board.rows, c.height, 0), FreeCells(c.board.rows, c.height, 1))
  {
    var even, odd := 0, 0;
    for y := 0 to c.height
      invariant even == FreeCells(c.board.rows, y, 0) && odd == FreeCells(c.board.rows, y, 1)
    {
      var row := c.board.rows[y];
      ghost var even0, odd0 := even, odd;
      for x := 0 to Width
        invariant even == even0 + FreeInRow(row, x, 0) && odd == odd0 + FreeInRow(row, x, 1)
      {
        if x !in row {
          if x % 2 == 0 {
            even := even + 1;
          } else {
            odd := odd + 1;
          }
        }
      }
    }
    v := VerticalParity(even, odd);
  }

  /** The two parities of a row's free cells add up to its free cells. */
  lemma {:induction false} FreeInRowSplit(row: set<nat>, n: nat)
    ensures FreeInRow(row, n, 0) + FreeInRow(row, n, 1) + InRow(row, n) == n
  {
    if n > 0 {
      FreeInRowSplit(row, n - 1);
    }
  }

  /** Counting blocks row by row stops at the well top. */
  lemma {:induction false} BlocksUpTo(rows: seq<set<nat>>, n: nat)
    requires n <= |rows| && forall y :: n <= y < |rows| ==> rows[y] == {}
    ensures Blocks(rows[..n]) == Blocks(rows)
    decreases |rows| - n
  {
    if n < |rows| {
      var init := rows[..|rows| - 1];
      assert init[..n] == rows[..n];
      BlocksUpTo(init, n);
    } else {
      assert rows[..n] == rows;
    }
  }

  lemma {:induction false} FreeCellsTotal(rows: seq<set<nat>>, n: nat)
    requires n <= |rows| && forall y :: 0 <= y < |rows| ==> forall x :: x in rows[y] ==> x < Width
    ensures FreeCells(rows, n, 0) + FreeCells(rows, n, 1) + Blocks(rows[..n]) == n * Width
  {
    if n > 0 {
      FreeCellsTotal(rows, n - 1);
      var row := rows[n - 1];
      FreeInRowSplit(row, Width);
      InRowSize(row, Width);
      assert Below(row, Width) == row;
      assert rows[..n][..n - 1] == rows[..n - 1];
      assert n * Width == (n - 1) * Width + Width;
    }
  }

  /** On a clipped board, the even and the odd free cells together are the board's `spaces`. */
  lemma NewCountsSpaces(c: ClippedBoard)
    requires Clipped(c) && c.height <= Rows
    ensures CountBlocks(c.board) <= c.height * Width
    ensures FreeCells(c.board.rows, c.height, 0) + FreeCells(c.board.rows, c.height, 1) == Spaces(c)
  {
    SpacesDefined(c);
    FreeCellsTotal(c.board.rows, c.height);
    BlocksUpTo(c.board.rows, c.height);
  }

  /** How many of `locations` lie in a column of parity `p`. */
  function CountParity(locations: seq<(int, int)>, p: int): nat
  {
    if locations == [] then 0
    else CountParity(locations[..|locations| - 1], p) + (if locations[|locations| - 1].0 % 2 == p then 1 else 0)
  }

  /** Locations split into even and odd columns. */
  lemma {:induction false} CountParitySplit(locations: seq<(int, int)>)
    ensures CountParity(locations, 0) + CountParity(locations, 1) == |locations|
  {
    if locations != [] {
      CountParitySplit(locations[..|locations| - 1]);
    }
  }

  /**
   * `place`: a copy with one cell taken from the parity of each location's
   * column; the receiver is a value and stays as it was.
   */
  method Place(v: VerticalParity, locations: seq<(int, int)>) returns (r: VerticalParity)
    requires forall k :: 0 <= k < |locations| ==> 0 <= locations[k].0
    ensures r.even == v.even - CountParity(locations, 0)
    ensures r.odd == v.odd - CountParity(locations, 1)
  {
    r := v;
    for k := 0 to |locations|
      invariant r.even == v.even - CountParity(locations[..k], 0)
      invariant r.odd == v.odd - CountParity(locations[..k], 1)
    {
      assert locations[..k + 1][..k] == locations[..k];
      if locations[k].0 % 2 == 0 {
        r := r.(even := r.even - 1);
      } else {
        r := r.(odd := r.odd - 1);
      }
    }
    assert locations[..|locations|] == locations;
  }

  /** A piece covers four cells, so placing it lowers the two counts by four together. */
  lemma PlaceLowersByFour(v: VerticalParity, locations: seq<(int, int)>)
    requires |locations| == 4
    ensures (v.even - CountParity(locations, 0)) + (v.odd - CountParity(locations, 1)) == v.even + v.odd - 4
  {
    CountParitySplit(locations);
  }

  /** `fixed_status`: a negative count fails, both zero succeeds, otherwise undecided. */
  function FixedStatus(v: VerticalParity): Option<bool>
  {
    if v.even < 0 || v.odd < 0 then Some(false)
    else if v.even == 0 && v.odd == 0 then Some(true)
    else None
  }

  /** The even/odd footprints a shape is tried with, before mirroring. */
  function Options(s: Shape): (r: seq<(int, int)>)
    ensures 0 < |r|
  {
    match s
    case T => [(2, 2), (1, 3)]
    case I => [(2, 2), (0, 4)]
    case L => [(1, 3)]
    case J => [(1, 3)]
    case O => [(2, 2)]
    case S => [(2, 2)]
    case Z => [(2, 2)]
  }

  /** The parity sum the remaining shapes can still cover, one shape kept back for a hold. */
  predicate Covered(v: VerticalParity, shapes: seq<Shape>, index: nat, allowsHold: bool)
  {
    index <= |shapes| && v.even + v.odd <= 4 * (|shapes| - index - (if allowsHold then 1 else 0))
  }

  /**
   * `validates` (and `validates_by_parity` of the rate command): decided
   * counts answer at once; otherwise the shape at `index` is tried with each
   * footprint, mirrored when it is lopsided, and, with a hold, skipped once.
   */
  function Validates(v: VerticalParity, shapes: seq<Shape>, index: nat, allowsHold: bool): bool
    requires 0 < |shapes| && Covered(v, shapes, index, allowsHold)
    decreases |shapes| - index, 1
  {
    match FixedStatus(v)
    case Some(status) => status
    case None => TryOptions(v, shapes, index, allowsHold, 0)
  }

  /** The loop over the footprints of the shape at `index`, from footprint `k` on. */
  function TryOptions(v: VerticalParity, shapes: seq<Shape>, index: nat, allowsHold: bool, k: nat): bool
    requires 0 < |shapes| && Covered(v, shapes, index, allowsHold)
    requires FixedStatus(v).None?
    decreases |shapes| - index, 0, |Options(shapes[index])| - k
  {
    var options := Options(shapes[index]);
    if k >= |options| then false
    else
      var (left, right) := options[k];
      Validates(VerticalParity(v.even - left, v.odd - right), shapes, index + 1, allowsHold)
      || (left != right && Validates(VerticalParity(v.even - right, v.odd - left), shapes, index + 1, allowsHold))
      || (allowsHold && Validates(v, shapes, index + 1, false))
      || TryOptions(v, shapes, index, allowsHold, k + 1)
  }

  /** The cells a shape covers in even and in odd columns, mirrored footprints included. */
  function Footprints(s: Shape): set<(int, int)>
  {
    match s
    case T => {(2, 2), (1, 3), (3, 1)}
    case I => {(2, 2), (0, 4), (4, 0)}
    case L => {(1, 3), (3, 1)}
    case J => {(1, 3), (3, 1)}
    case O => {(2, 2)}
    case S => {(2, 2)}
    case Z => {(2, 2)}
  }

  /** One step of a plan: the next shape covers a footprint, or is kept in the hold. */
  datatype Step = Use(even: int, odd: int) | Skip

  function PlanEven(plan: seq<Step>): int
  {
    if plan == [] then 0 else (if plan[0].Use? then plan[0].even else 0) + PlanEven(plan[1..])
  }

  function PlanOdd(plan: seq<Step>): int
  {
    if plan == [] then 0 else (if plan[0].Use? then plan[0].odd else 0) + PlanOdd(plan[1..])
  }

  function SkipCount(plan: seq<Step>): nat
  {
    if plan == [] then 0 else (if plan[0].Skip? then 1 else 0) + SkipCount(plan[1..])
  }

  /**
   * `plan` covers the shapes from `index` on, one step each, every used
   * shape with one of its footprints, and skips at most one shape, and only
   * with a hold.
   */
  predicate PlanFits(shapes: seq<Shape>, index: nat, allowsHold: bool, plan: seq<Step>)
  {
    && index + |plan| <= |shapes|
    && (forall j :: 0 <= j < |plan| && plan[j].Use? ==> (plan[j].even, plan[j].odd) in Footprints(shapes[index + j]))
    && SkipCount(plan) <= (if allowsHold then 1 else 0)
  }

  /** The free cells of each parity are exactly the footprints of a plan. */
  predicate Splits(v: VerticalParity, shapes: seq<Shape>, index: nat, allowsHold: bool, plan: seq<Step>)
  {
    PlanFits(shapes, index, allowsHold, plan) && PlanEven(plan) == v.even && PlanOdd(plan) == v.odd
  }

  /** Every footprint covers four cells, none of them negative. */
  lemma FootprintFour(s: Shape, l: int, r: int)
    requires (l, r) in Footprints(s)
    ensures l + r == 4 && 0 <= l && 0 <= r
  {
  }

  /** The footprints tried for a shape, as tried and mirrored, are its footprints. */
  lemma OptionInFootprints(s: Shape, k: nat)
    requires k < |Options(s)|
    ensures Options(s)[k] in Footprints(s)
    ensures (Options(s)[k].1, Options(s)[k].0) in Footprints(s)
  {
  }

  /** A plan that fits covers non-negative counts, four cells per used shape. */
  lemma {:induction false} PlanCovers(shapes: seq<Shape>, index: nat, allowsHold: bool, plan: seq<Step>)
    requires PlanFits(shapes, index, allowsHold, plan)
    ensures 0 <= PlanEven(plan) && 0 <= PlanOdd(plan)
    ensures PlanEven(plan) + PlanOdd(plan) == 4 * (|plan| - SkipCount(plan))
    ensures PlanEven(plan) == 0 && PlanOdd(plan) == 0 ==> |plan| == SkipCount(plan)
    decreases |plan|
  {
    if plan != [] {
      PlanTail(shapes, index, allowsHold, plan);
      PlanCovers(shapes, index + 1, allowsHold, plan[1..]);
      if plan[0].Use? {
        FootprintFour(shapes[index], plan[0].even, plan[0].odd);
      }
    }
  }

  /** The rest of a fitting plan fits the rest of the shapes, without a hold once one was used. */
  lemma PlanTail(shapes: seq<Shape>, index: nat, allowsHold: bool, plan: seq<Step>)
    requires PlanFits(shapes, index, allowsHold, plan) && plan != []
    ensures PlanFits(shapes, index + 1, allowsHold, plan[1..])
    ensures plan[0].Skip? ==> PlanFits(shapes, index + 1, false, plan[1..])
    ensures plan[0].Use? ==> (plan[0].even, plan[0].odd) in Footprints(shapes[index])
  {
    forall j | 0 <= j < |plan[1..]| && plan[1..][j].Use?
      ensures (plan[1..][j].even, plan[1..][j].odd) in Footprints(shapes[index + 1 + j])
    {
      assert plan[1..][j] == plan[j + 1];
    }
  }

  /** A step in front of a fitting plan for the next shapes. */
  lemma PlanCons(shapes: seq<Shape>, index: nat, allowsHold: bool, x: Step, plan: seq<Step>)
    requires index < |shapes| && PlanFits(shapes, index + 1, allowsHold && x.Use?, plan)
    requires x.Use? ==> (x.even, x.odd) in Footprints(shapes[index])
    requires x.Skip? ==> allowsHold
    ensures PlanFits(shapes, index, allowsHold, [x] + plan)
    ensures PlanEven([x] + plan) == (if x.Use? then x.even else 0) + PlanEven(plan)
    ensures PlanOdd([x] + plan) == (if x.Use? then x.odd else 0) + PlanOdd(plan)
  {
    var q := [x] + plan;
    assert q[1..] == plan;
    forall j | 0 <= j < |q| && q[j].Use?
      ensures (q[j].even, q[j].odd) in Footprints(shapes[index + j])
    {
      if j > 0 {
        assert q[j] == plan[j - 1];
      }
    }
  }

  /** When `validates` answers `true`, the counts split into the footprints of the next shapes. */
  lemma {:induction false} ValidatesSound(v: VerticalParity, shapes: seq<Shape>, index: nat, allowsHold: bool) returns (plan: seq<Step>)
    requires 0 < |shapes| && Covered(v, shapes, index, allowsHold)
    requires Validates(v, shapes, index, allowsHold)
    ensures Splits(v, shapes, index, allowsHold, plan)
    decreases |shapes| - index, 1
  {
    if FixedStatus(v).Some? {
      plan := [];
    } else {
      plan := TryOptionsSound(v, shapes, index, allowsHold, 0);
    }
  }

  lemma {:induction false} TryOptionsSound(v: VerticalParity, shapes: seq<Shape>, index: nat, allowsHold: bool, k: nat)
    returns (plan: seq<Step>)
    requires 0 < |shapes| && Covered(v, shapes, index, allowsHold) && FixedStatus(v).None?
    requires TryOptions(v, shapes, index, allowsHold, k)
    ensures Splits(v, shapes, index, allowsHold, plan)
    decreases |shapes| - index, 0, |Options(shapes[index])| - k
  {
    var options := Options(shapes[index]);
    var (left, right) := options[k];
    OptionInFootprints(shapes[index], k);
    var straight := VerticalParity(v.even - left, v.odd - right);
    var mirrored := VerticalParity(v.even - right, v.odd - left);
    if Validates(straight, shapes, index + 1, allowsHold) {
      var rest := ValidatesSound(straight, shapes, index + 1, allowsHold);
      PlanCons(shapes, index, allowsHold, Use(left, right), rest);
      plan := [Use(left, right)] + rest;
    } else if left != right && Validates(mirrored, shapes, index + 1, allowsHold) {
      var rest := ValidatesSound(mirrored, shapes, index + 1, allowsHold);
      PlanCons(shapes, index, allowsHold, Use(right, left), rest);
      plan := [Use(right, left)] + rest;
    } else if allowsHold && Validates(v, shapes, index + 1, false) {
      var rest := ValidatesSound(v, shapes, index + 1, false);
      PlanCons(shapes, index, allowsHold, Skip, rest);
      plan := [Skip] + rest;
    } else {
      plan := TryOptionsSound(v, shapes, index, allowsHold, k + 1);
    }
  }

  /** Conversely, when the counts split into footprints of the next shapes, `validates` answers `true`. */
  lemma {:induction false} ValidatesComplete(v: VerticalParity, shapes: seq<Shape>, index: nat, allowsHold: bool, plan: seq<Step>)
    requires 0 < |shapes| && Covered(v, shapes, index, allowsHold)
    requires Splits(v, shapes, index, allowsHold, plan)
    ensures Validates(v, shapes, index, allowsHold)
    decreases |plan|
  {
    PlanCovers(shapes, index, allowsHold, plan);
    if FixedStatus(v).None? {
      assert plan != [];
      PlanTail(shapes, index, allowsHold, plan);
      var rest := plan[1..];
      var x := plan[0];
      assert PlanEven(plan) == (if x.Use? then x.even else 0) + PlanEven(rest);
      assert PlanOdd(plan) == (if x.Use? then x.odd else 0) + PlanOdd(rest);
      if x.Skip? {
        ValidatesComplete(v, shapes, index + 1, false, rest);
        TryOptionsReach(v, shapes, index, allowsHold, 0, 0);
      } else {
        FootprintFour(shapes[index], x.even, x.odd);
        var next := VerticalParity(x.even, x.odd);
        var after := VerticalParity(v.even - x.even, v.odd - x.odd);
        ValidatesComplete(after, shapes, index + 1, allowsHold, rest);
        var k := OptionIndex(shapes[index], x.even, x.odd);
        TryOptionsReach(v, shapes, index, allowsHold, 0, k);
      }
    }
  }

  /** Every footprint is tried, as is or mirrored, at some position of the options. */
  lemma OptionIndex(s: Shape, l: int, r: int) returns (k: nat)
    requires (l, r) in Footprints(s)
    ensures k < |Options(s)| && (Options(s)[k] == (l, r) || (l != r && Options(s)[k] == (r, l)))
  {
    var options := Options(s);
    if options[0] == (l, r) || (l != r && options[0] == (r, l)) {
      k := 0;
    } else {
      k := 1;
    }
  }

  /** The footprint loop answers `true` when a step at footprint `k` does. */
  lemma {:induction false} TryOptionsReach(v: VerticalParity, shapes: seq<Shape>, index: nat, allowsHold: bool, from: nat, k: nat)
    requires 0 < |shapes| && Covered(v, shapes, index, allowsHold) && FixedStatus(v).None?
    requires from <= k < |Options(shapes[index])|
    requires var (left, right) := Options(shapes[index])[k];
      || Validates(VerticalParity(v.even - left, v.odd - right), shapes, index + 1, allowsHold)
      || (left != right && Validates(VerticalParity(v.even - right, v.odd - left), shapes, index + 1, allowsHold))
      || (allowsHold && Validates(v, shapes, index + 1, false))
    ensures TryOptions(v, shapes, index, allowsHold, from)
    decreases k - from
  {
    if from < k {
      TryOptionsReach(v, shapes, index, allowsHold, from + 1, k);
    }
  }

  /**
   * `validates` answers whether the even and odd free cells split exactly
   * into footprints of the next shapes, skipping at most one shape and only
   * with a hold.
   */
  lemma ValidatesIffSplits(v: VerticalParity, shapes: seq<Shape>, index: nat, allowsHold: bool)
    requires 0 < |shapes| && Covered(v, shapes, index, allowsHold)
    ensures Validates(v, shapes, index, allowsHold) <==> exists plan :: Splits(v, shapes, index, allowsHold, plan)
  {
    if Validates(v, shapes, index, allowsHold) {
      var plan := ValidatesSound(v, shapes, index, allowsHold);
    }
    if exists plan :: Splits(v, shapes, index, allowsHold, plan) {
      var plan :| Splits(v, shapes, index, allowsHold, plan);
      ValidatesComplete(v, shapes, index, allowsHold, plan);
    }
  }

  /** What the pruning needs: both counts non-negative and their sum a multiple of four. */
  lemma ValidatesNecessary(v: VerticalParity, shapes: seq<Shape>, index: nat, allowsHold: bool)
    requires 0 < |shapes| && Covered(v, shapes, index, allowsHold)
    requires Validates(v, shapes, index, allowsHold)
    ensures 0 <= v.even && 0 <= v.odd && (v.even + v.odd) % 4 == 0
  {
    var plan := ValidatesSound(v, shapes, index, allowsHold);
    PlanCovers(shapes, index, allowsHold, plan);
  }

  /** A hold never prunes what the game without one accepts. */
  lemma HoldOnlyWidens(v: VerticalParity, shapes: seq<Shape>, index: nat)
    requires 0 < |shapes| && Covered(v, shapes, index, true)
    requires Validates(v, shapes, index, false)
    ensures Validates(v, shapes, index, true)
  {
    var plan := ValidatesSound(v, shapes, index, false);
    ValidatesComplete(v, shapes, index, true, plan);
  }

  /**
   * `validates` as written, under only its own debug assertions (a
   * non-empty slice and a parity sum of at most four per shape). `None`
   * stands for the out-of-bounds `shapes[index]` the recursion can reach
   * once the hold skip has used up the last shape.
   */
  function ValidatesAsWritten(v: VerticalParity, shapes: seq<Shape>, index: nat, allowsHold: bool): (r: Option<bool>)
    requires 0 < |shapes| && index <= |shapes| && v.even + v.odd <= 4 * |shapes|
    decreases |shapes| - index, 1
  {
    match FixedStatus(v)
    case Some(status) => Some(status)
    case None => if index == |shapes| then None else TryOptionsAsWritten(v, shapes, index, allowsHold, 0)
  }

  /** The footprint loop as written; the first call that goes out of bounds ends it with `None`. */
  function TryOptionsAsWritten(v: VerticalParity, shapes: seq<Shape>, index: nat, allowsHold: bool, k: nat): (r: Option<bool>)
    requires 0 < |shapes| && index < |shapes| && v.even + v.odd <= 4 * |shapes|
    requires FixedStatus(v).None?
    decreases |shapes| - index, 0, |Options(shapes[index])| - k
  {
    var options := Options(shapes[index]);
    if k >= |options| then Some(false)
    else
      var (left, right) := options[k];
      var straight := ValidatesAsWritten(VerticalParity(v.even - left, v.odd - right), shapes, index + 1, allowsHold);
      if straight != Some(false) then straight
      else
        var mirrored := if left != right then ValidatesAsWritten(VerticalParity(v.even - right, v.odd - left), shapes, index + 1, allowsHold) else Some(false);
        if mirrored != Some(false) then mirrored
        else
          var skipped := if allowsHold then ValidatesAsWritten(v, shapes, index + 1, false) else Some(false);
          if skipped != Some(false) then skipped
          else TryOptionsAsWritten(v, shapes, index, allowsHold, k + 1)
  }

  /**
   * The source's own precondition lets the hold skip read past the last
   * shape: one O, one even and three odd cells free, a hold allowed.
   */
  lemma ValidatesAsWrittenOutOfBounds()
    ensures ValidatesAsWritten(VerticalParity(1, 3), [O], 0, true).None?
    ensures !Covered(VerticalParity(1, 3), [O], 0, true)
  {
  }

  /** Under `Covered`, which every caller keeps, the code as written never goes out of bounds and agrees with `Validates`. */
  lemma {:induction false} ValidatesAsWrittenAgrees(v: VerticalParity, shapes: seq<Shape>, index: nat, allowsHold: bool)
    requires 0 < |shapes| && Covered(v, shapes, index, allowsHold)
    ensures ValidatesAsWritten(v, shapes, index, allowsHold) == Some(Validates(v, shapes, index, allowsHold))
    decreases |shapes| - index, 1
  {
    if FixedStatus(v).None? {
      assert index < |shapes|;
      TryOptionsAsWrittenAgrees(v, shapes, index, allowsHold, 0);
    }
  }

  lemma {:induction false} TryOptionsAsWrittenAgrees(v: VerticalParity, shapes: seq<Shape>, index: nat, allowsHold: bool, k: nat)
    requires 0 < |shapes| && Covered(v, shapes, index, allowsHold) && FixedStatus(v).None? && index < |shapes|
    ensures TryOptionsAsWritten(v, shapes, index, allowsHold, k) == Some(TryOptions(v, shapes, index, allowsHold, k))
    decreases |shapes| - index, 0, |Options(shapes[index])| - k
  {
    var options := Options(shapes[index]);
    if k < |options| {
      var (left, right) := options[k];
      ValidatesAsWrittenAgrees(VerticalParity(v.even - left, v.odd - right), shapes, index + 1, allowsHold);
      if left != right {
        ValidatesAsWrittenAgrees(VerticalParity(v.even - right, v.odd - left), shapes, index + 1, allowsHold);
      }
      if allowsHold {
        ValidatesAsWrittenAgrees(v, shapes, index + 1, false);
      }
      TryOptionsAsWrittenAgrees(v, shapes, index, allowsHold, k + 1);
    }
  }
}
