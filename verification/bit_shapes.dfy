/**
 * `BitShapes`: up to 22 shapes packed into one `u64` as base-7 digits,
 * least significant digit first, with the count in a `u8`.
 */
module BitShapesModel {
  import opened Shapes
  import opened Wrappers

  /** Most shapes that fit: 7^22 < 2^64 <= 7^23. */
  const MaxShapes: nat := 22
  const U64Limit: nat := 0x1_0000_0000_0000_0000

  datatype BitShapes = BitShapes(value: nat, len: nat)

  datatype BitShapesTryFromError = TooManyShapes(count: nat)

  lemma {:induction false} Pow7Monotone(a: nat, b: nat)
    requires a <= b
    ensures Pow7(a) <= Pow7(b)
  {
    if a < b { Pow7Monotone(a, b - 1); }
  }

  lemma Pow7Fits()
    ensures Pow7(MaxShapes) < U64Limit
  {
    assert Pow7(1) == 7;
    assert Pow7(2) == 49;
    assert Pow7(3) == 343;
    assert Pow7(4) == 2401;
    assert Pow7(5) == 16807;
    assert Pow7(6) == 117649;
    assert Pow7(7) == 823543;
    assert Pow7(8) == 5764801;
    assert Pow7(9) == 40353607;
    assert Pow7(10) == 282475249;
    assert Pow7(11) == 1977326743;
    assert Pow7(12) == 13841287201;
    assert Pow7(13) == 96889010407;
    assert Pow7(14) == 678223072849;
    assert Pow7(15) == 4747561509943;
    assert Pow7(16) == 33232930569601;
    assert Pow7(17) == 232630513987207;
    assert Pow7(18) == 1628413597910449;
    assert Pow7(19) == 11398895185373143;
    assert Pow7(20) == 79792266297612001;
    assert Pow7(21) == 558545864083284007;
    assert Pow7(22) == 3909821048582988049;
  }

  /** The packed value: shape `i` contributes `ordinal * 7^i`. */
  function Packed(shapes: seq<Shape>): nat
  {
    if shapes == [] then 0 else Ordinal(shapes[0]) + 7 * Packed(shapes[1..])
  }

  /** The shapes read back from `len` base-7 digits of `value`. */
  function Unpacked(value: nat, len: nat): (r: seq<Shape>)
    ensures |r| == len
  {
    if len == 0 then [] else [FromOrdinal(value % 7)] + Unpacked(value / 7, len - 1)
  }

  /** A packed value has no more than `|shapes|` base-7 digits. */
  lemma {:induction false} PackedBound(shapes: seq<Shape>)
    ensures Packed(shapes) < Pow7(|shapes|)
  {
    if shapes != [] { PackedBound(shapes[1..]); }
  }

  /** Appending a shape adds its ordinal times the next power of seven. */
  lemma {:induction false} PackedSnoc(shapes: seq<Shape>, x: Shape)
    ensures Packed(shapes + [x]) == Packed(shapes) + Ordinal(x) * Pow7(|shapes|)
  {
    if shapes != [] {
      assert (shapes + [x])[1..] == shapes[1..] + [x];
      PackedSnoc(shapes[1..], x);
    }
  }

  /** Round trip: reading back `|shapes|` digits of the packed value gives the shapes. */
  lemma {:induction false} UnpackPacked(shapes: seq<Shape>)
    ensures Unpacked(Packed(shapes), |shapes|) == shapes
  {
    if shapes != [] { UnpackPacked(shapes[1..]); }
  }

  /** The other direction: a value below `7^len` is exactly its `len` digits packed again. */
  lemma {:induction false} PackUnpacked(value: nat, len: nat)
    requires value < Pow7(len)
    ensures Packed(Unpacked(value, len)) == value
  {
    if len > 0 {
      var p := Pow7(len - 1);
      assert value / 7 < p;
      PackUnpacked(value / 7, len - 1);
      assert Unpacked(value, len)[1..] == Unpacked(value / 7, len - 1);
    } else {
      assert value == 0;
    }
  }

  /** `BitShapes::empty`: no shapes. */
  function Empty(): (b: BitShapes)
    ensures b.len == 0
    ensures Unpacked(b.value, b.len) == []
  {
    BitShapes(0, 0)
  }

  /**
   * `TryFrom<&[Shape]>`: 23 or more shapes are refused with their count;
   * otherwise the shapes are packed, and the `u64` arithmetic never wraps.
   */
  method TryFrom(shapes: seq<Shape>) returns (r: Result<BitShapes, BitShapesTryFromError>)
    ensures 23 <= |shapes| <==> r.Err?
    ensures r.Err? ==> r.error == TooManyShapes(|shapes|)
    ensures r.Ok? ==> r.value == BitShapes(Packed(shapes), |shapes|)
    ensures r.Ok? ==> r.value.value < U64Limit
  {
    if 23 <= |shapes| {
      return Err(TooManyShapes(|shapes|));
    }
    Pow7Fits();
    var value: nat := 0;
    var scale: nat := 1;
    var i := 0;
    while i < |shapes|
      invariant 0 <= i <= |shapes|
      invariant value == Packed(shapes[..i])
      invariant scale == Pow7(i)
    {
      PackedSnoc(shapes[..i], shapes[i]);
      assert shapes[..i + 1] == shapes[..i] + [shapes[i]];
      value := value + Ordinal(shapes[i]) * scale;
      scale := scale * 7;
      i := i + 1;
    }
    assert shapes[..i] == shapes;
    PackedBound(shapes);
    Pow7Monotone(|shapes|, MaxShapes);
    r := Ok(BitShapes(value, |shapes|));
  }

  /** `to_vec`: reads `len` digits, least significant first. */
  method ToVec(b: BitShapes) returns (shapes: seq<Shape>)
    ensures shapes == Unpacked(b.value, b.len)
  {
    var value := b.value;
    shapes := [];
    var i := 0;
    while i < b.len
      invariant 0 <= i <= b.len
      invariant shapes + Unpacked(value, b.len - i) == Unpacked(b.value, b.len)
    {
      var digit := value % 7;
      value := value / 7;
      shapes := shapes + [FromOrdinal(digit)];
      i := i + 1;
    }
  }

  /** `to_vec(try_from(s)) == s` whenever `try_from` succeeds. */
  lemma TryFromRoundTrip(shapes: seq<Shape>)
    requires |shapes| <= MaxShapes
    ensures Unpacked(Packed(shapes), |shapes|) == shapes
    ensures Packed(shapes) < U64Limit
  {
    UnpackPacked(shapes);
    PackedBound(shapes);
    Pow7Monotone(|shapes|, MaxShapes);
    Pow7Fits();
  }
}
