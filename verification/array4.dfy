/** `Array4`: up to four items in a fixed array of four slots, with a length. */
module Array4s {
  import opened Wrappers

  datatype Array4<T> = Array4(items: seq<T>, len: nat)
  {
    predicate Valid()
    {
      |items| == 4 && len <= 4
    }
  }

  datatype Array4CreationError = CapacityOver

  /** `value.get(i).unwrap_or(&T::default())`. */
  function GetOr<T>(value: seq<T>, i: nat, default: T): T
  {
    if i < |value| then value[i] else default
  }

  /** `as_slice` (and what `iter` yields): the first `len` items, in order. */
  function AsSlice<T>(a: Array4<T>): (r: seq<T>)
    requires a.Valid()
    ensures |r| == a.len
    ensures forall i :: 0 <= i < a.len ==> r[i] == a.items[i]
  {
    a.items[..a.len]
  }

  /**
   * `try_from`: more than four values are rejected; otherwise the values
   * fill the first slots and `default` the rest.
   */
  function TryFrom<T>(value: seq<T>, default: T): (r: Result<Array4<T>, Array4CreationError>)
    ensures r.Err? <==> 4 < |value|
    ensures r.Err? ==> r.error == CapacityOver
    ensures r.Ok? ==> r.value.Valid() && r.value.len == |value| && AsSlice(r.value) == value
    ensures r.Ok? ==> forall i :: |value| <= i < 4 ==> r.value.items[i] == default
  {
    if 4 < |value| then Err(CapacityOver)
    else
      var items := [GetOr(value, 0, default), GetOr(value, 1, default), GetOr(value, 2, default), GetOr(value, 3, default)];
      assert items[..|value|] == value;
      Ok(Array4(items, |value|))
  }

  /** `index`: panics at or past `len`; otherwise the `i`-th item of the slice. */
  function Index<T>(a: Array4<T>, i: nat): (r: T)
    requires a.Valid() && i < a.len
    ensures r == AsSlice(a)[i]
  {
    a.items[i]
  }
}
