/**
 * The `u64` bit masks of the all-PCs search as sets of bit positions:
 * `(1 << n) - 1` is `Range(n)`, `|` is union, `a & b == 0` is disjointness,
 * `u64::MAX` is `Range(64)`; this module adds the operators that are not
 * plain set operators.
 */
module Masks {
  import opened Boards

  /** `u64::MAX`: every bit of a word. */
  const AllBits: set<nat> := Range(64)

  /** `a ^ b`: the bits set in exactly one of the two. */
  function Xor(a: set<nat>, b: set<nat>): (r: set<nat>)
    ensures forall i :: i in r <==> (i in a <==> i !in b)
  {
    (a - b) + (b - a)
  }

  /** `a >> 1`: every bit one position lower, bit 0 dropped. */
  function ShiftRight(a: set<nat>): (r: set<nat>)
    ensures forall i: nat :: i in r <==> i + 1 in a
  {
    set j: nat | j in a && 1 <= j :: (j - 1) as nat
  }

  /** `(1 << hi) - 1 ^ (1 << lo) - 1` for `lo <= hi`: the bits from `lo` up to but not including `hi`. */
  lemma XorOfRanges(lo: nat, hi: nat)
    requires lo <= hi
    ensures forall i: nat :: i in Xor(Range(hi), Range(lo)) <==> lo <= i < hi
  {
  }

  /** The lowest set bit, `a & -a` as a position (`trailing_zeros`). */
  function Lowest(a: set<nat>): (r: nat)
    requires a != {}
    ensures r in a && forall i :: i in a ==> r <= i
  {
    LeastExists(a);
    var r :| r in a && forall i :: i in a ==> r <= i; r
  }

  lemma LeastExists(a: set<nat>)
    requires a != {}
    ensures exists r :: r in a && forall i :: i in a ==> r <= i
  {
    var e :| e in a;
    LeastBelow(a, e);
  }

  /** Some bit of `a` is the lowest, found by descending from bit `e`. */
  lemma {:induction false} LeastBelow(a: set<nat>, e: nat)
    requires e in a
    ensures exists r :: r in a && forall i :: i in a ==> r <= i
    decreases e
  {
    if exists i :: i in a && i < e {
      var i :| i in a && i < e;
      LeastBelow(a, i);
    } else {
      assert e in a && forall i :: i in a ==> e <= i;
    }
  }
}
