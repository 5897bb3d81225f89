/** `Buffer`: the shapes used so far on the current search path, written in place. */
module Buffers {
  import opened Shapes

  class Buffer {
    var shapes: array<Shape>
    var index: nat

    ghost predicate Valid()
      reads this
    {
      index <= shapes.Length
    }

    /** `as_slice`: the shapes written so far. */
    function AsSlice(): (r: seq<Shape>)
      requires Valid()
      reads this, shapes
      ensures |r| == index
    {
      shapes[..index]
    }

    /** `with_resized`: `size` slots filled with `T`, none used yet. */
    constructor WithResized(size: nat)
      ensures Valid() && fresh(shapes)
      ensures shapes.Length == size && index == 0
      ensures forall i :: 0 <= i < size ==> shapes[i] == T
      ensures AsSlice() == []
    {
      shapes := new Shape[size](_ => T);
      index := 0;
    }

    /** `increment` (panics when every slot is used): appends one shape. */
    method Increment(shape: Shape)
      requires Valid() && index < shapes.Length
      modifies this, shapes
      ensures Valid() && shapes == old(shapes)
      ensures AsSlice() == old(AsSlice()) + [shape]
      ensures forall i :: index <= i < shapes.Length ==> shapes[i] == old(shapes[i])
    {
      shapes[index] := shape;
      index := index + 1;
    }

    /** `decrement` (panics when empty): forgets the last shape; the slot keeps it. */
    method Decrement()
      requires Valid() && 0 < index
      modifies this
      ensures Valid() && shapes == old(shapes)
      ensures AsSlice() == old(AsSlice())[..old(index) - 1]
    {
      index := index - 1;
    }
  }

  /** `increment` followed by `decrement` leaves the slice as it was. */
  method IncrementDecrement(b: Buffer, shape: Shape)
    requires b.Valid() && b.index < b.shapes.Length
    modifies b, b.shapes
    ensures b.Valid() && b.AsSlice() == old(b.AsSlice())
  {
    b.Increment(shape);
    b.Decrement();
  }
}
