/**
 * The recursive walk both pattern generations use to visit the cartesian
 * product of several lists of vectors: for each vector of list `index`,
 * in order, extend the buffer by it and walk the remaining lists.
 */
module Cartesian {

  /** Every vector `build(index)` visits with `buffer` in front, in order. */
  function Walk<T>(all: seq<seq<seq<T>>>, index: nat, buffer: seq<T>): seq<seq<T>>
    requires index < |all|
    decreases |all| - index, 1
  {
    WalkFrom(all, index, buffer, 0)
  }

  /** The part of `Walk` that starts at the `j`-th vector of list `index`. */
  function WalkFrom<T>(all: seq<seq<seq<T>>>, index: nat, buffer: seq<T>, j: nat): seq<seq<T>>
    requires index < |all| && j <= |all[index]|
    decreases |all| - index, 0, |all[index]| - j + 1
  {
    if j == |all[index]| then [] else Head(all, index, buffer, j) + WalkFrom(all, index, buffer, j + 1)
  }

  /** What extending the buffer by the `j`-th vector of list `index` visits. */
  function Head<T>(all: seq<seq<seq<T>>>, index: nat, buffer: seq<T>, j: nat): seq<seq<T>>
    requires index < |all| && j < |all[index]|
    decreases |all| - index, 0, 0
  {
    if index < |all| - 1 then Walk(all, index + 1, buffer + all[index][j]) else [buffer + all[index][j]]
  }

  /** Every vector of list `i` has `dims[i]` items. */
  predicate Uniform<T(==)>(all: seq<seq<seq<T>>>, dims: seq<nat>)
  {
    |all| == |dims| && forall i, x :: 0 <= i < |all| && x in all[i] ==> |x| == dims[i]
  }

  /** `w` splits, list by list from `index` on, into slices each found in its list. */
  predicate Listed<T(==)>(all: seq<seq<seq<T>>>, dims: seq<nat>, index: nat, w: seq<T>)
    requires |all| == |dims| && index <= |all|
    decreases |all| - index
  {
    if index == |all| then w == []
    else dims[index] <= |w| && w[..dims[index]] in all[index] && Listed(all, dims, index + 1, w[dims[index]..])
  }

  /** Product of the list lengths from `index` on. */
  function ProductFrom<T>(all: seq<seq<seq<T>>>, index: nat): nat
    requires index <= |all|
    decreases |all| - index
  {
    if index == |all| then 1 else |all[index]| * ProductFrom(all, index + 1)
  }

  /** Sum of the dimensions from `index` on. */
  function SumFrom(dims: seq<nat>, index: nat): nat
    requires index <= |dims|
    decreases |dims| - index
  {
    if index == |dims| then 0 else dims[index] + SumFrom(dims, index + 1)
  }

  /** A listed vector has the remaining dimensions' worth of items. */
  lemma {:induction false} ListedLength<T>(all: seq<seq<seq<T>>>, dims: seq<nat>, index: nat, w: seq<T>)
    requires |all| == |dims| && index <= |all|
    requires Listed(all, dims, index, w)
    ensures |w| == SumFrom(dims, index)
    decreases |all| - index
  {
    if index < |all| {
      ListedLength(all, dims, index + 1, w[dims[index]..]);
    }
  }

  /** A vector is walked exactly when it is the buffer followed by a listed vector. */
  lemma {:induction false} WalkMembers<T>(all: seq<seq<seq<T>>>, dims: seq<nat>, index: nat, buffer: seq<T>, v: seq<T>)
    requires Uniform(all, dims) && index < |all|
    ensures v in Walk(all, index, buffer) <==>
      |buffer| <= |v| && v[..|buffer|] == buffer && Listed(all, dims, index, v[|buffer|..])
    decreases |all| - index, 1
  {
    WalkFromMembers(all, dims, index, buffer, 0, v);
    var d := dims[index];
    if |buffer| <= |v| {
      var w := v[|buffer|..];
      if |buffer| + d <= |v| {
        assert w[..d] == v[|buffer|..|buffer| + d];
        assert w[d..] == v[|buffer| + d..];
      }
    }
    assert all[index][0..] == all[index];
  }

  lemma {:induction false} WalkFromMembers<T>(all: seq<seq<seq<T>>>, dims: seq<nat>, index: nat, buffer: seq<T>, j: nat, v: seq<T>)
    requires Uniform(all, dims) && index < |all| && j <= |all[index]|
    ensures v in WalkFrom(all, index, buffer, j) <==>
      |buffer| + dims[index] <= |v| && v[..|buffer|] == buffer &&
      v[|buffer|..|buffer| + dims[index]] in all[index][j..] &&
      Listed(all, dims, index + 1, v[|buffer| + dims[index]..])
    decreases |all| - index, 0, |all[index]| - j
  {
    if j < |all[index]| {
      WalkFromMembers(all, dims, index, buffer, j + 1, v);
      HeadMembers(all, dims, index, buffer, j, v);
      assert all[index][j..] == [all[index][j]] + all[index][j + 1..];
    }
  }

  lemma {:induction false} HeadMembers<T>(all: seq<seq<seq<T>>>, dims: seq<nat>, index: nat, buffer: seq<T>, j: nat, v: seq<T>)
    requires Uniform(all, dims) && index < |all| && j < |all[index]|
    ensures v in Head(all, index, buffer, j) <==>
      |buffer| + dims[index] <= |v| && v[..|buffer|] == buffer &&
      v[|buffer|..|buffer| + dims[index]] == all[index][j] &&
      Listed(all, dims, index + 1, v[|buffer| + dims[index]..])
    decreases |all| - index, 0, 0
  {
    var d := dims[index];
    var x := all[index][j];
    assert x in all[index];
    var b := buffer + x;
    if index < |all| - 1 {
      WalkMembers(all, dims, index + 1, b, v);
    }
    if |buffer| + d <= |v| {
      var c := v[|buffer|..|buffer| + d];
      var rest := v[|buffer| + d..];
      assert v[..|b|] == v[..|buffer|] + c;
      assert v == v[..|b|] + rest;
      if v[..|b|] == b {
        assert v[..|buffer|] == b[..|buffer|] == buffer;
        assert c == b[|buffer|..] == x;
      }
      assert v[|b|..] == rest;
      if index == |all| - 1 {
        assert Listed(all, dims, index + 1, rest) <==> rest == [];
        assert v == b <==> v[..|b|] == b && rest == [];
      }
    }
  }

  /** The walk has as many vectors as the product of the lists' lengths. */
  lemma {:induction false} WalkCount<T>(all: seq<seq<seq<T>>>, index: nat, buffer: seq<T>)
    requires index < |all|
    ensures |Walk(all, index, buffer)| == ProductFrom(all, index)
    decreases |all| - index, 1
  {
    WalkFromCount(all, index, buffer, 0);
  }

  lemma {:induction false} WalkFromCount<T>(all: seq<seq<seq<T>>>, index: nat, buffer: seq<T>, j: nat)
    requires index < |all| && j <= |all[index]|
    ensures |WalkFrom(all, index, buffer, j)| == (|all[index]| - j) * ProductFrom(all, index + 1)
    decreases |all| - index, 0, |all[index]| - j
  {
    var n := |all[index]|;
    var rest := ProductFrom(all, index + 1);
    if j < n {
      WalkFromCount(all, index, buffer, j + 1);
      if index < |all| - 1 {
        WalkCount(all, index + 1, buffer + all[index][j]);
      }
      assert (n - j) * rest == rest + (n - (j + 1)) * rest;
    }
  }
}
