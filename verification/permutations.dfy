/**
 * k-permutations of a sequence, by position, in the order the
 * `permutations` adaptor of itertools yields them: lexicographic in the
 * chosen positions, duplicates kept.
 */
module Permutations {

  /** `n * (n - 1) * ... * (n - k + 1)`: how many ways there are to pick `k` of `n` positions in order. */
  function PermSize(n: nat, k: nat): nat
  {
    if k == 0 then 1 else n * PermSize(if n == 0 then 0 else n - 1, k - 1)
  }

  /** The product `lo * (lo + 1) * ... * (hi - 1)`. */
  function Product(lo: nat, hi: nat): nat
    decreases hi - lo
  {
    if hi <= lo then 1 else Product(lo, hi - 1) * (hi - 1)
  }

  /**
   * `calculate_permutation_size` of the current generation (debug-asserts
   * `0 < pop <= len`): `len` times the product of `len - pop + 1 .. len`.
   */
  function CalculatePermutationSize(len: nat, pop: nat): (r: nat)
    requires 0 < pop <= len
    ensures r == PermSize(len, pop)
  {
    ProductIsPermSize(len, pop);
    len * Product(len - pop + 1, len)
  }

  /**
   * `calculate_permutation_size` of the older generation (asserts
   * `0 < pop <= len`): the product of `len - pop + 1 ..= len`.
   */
  function CalculatePermutationSizeInclusive(len: nat, pop: nat): (r: nat)
    requires 0 < pop <= len
    ensures r == PermSize(len, pop)
  {
    ProductIsPermSize(len, pop);
    Product(len - pop + 1, len + 1)
  }

  lemma {:induction false} ProductIsPermSize(n: nat, k: nat)
    requires 0 < k <= n
    ensures n * Product(n - k + 1, n) == PermSize(n, k)
    ensures Product(n - k + 1, n + 1) == PermSize(n, k)
  {
    if k > 1 {
      ProductIsPermSize(n - 1, k - 1);
      assert Product(n - k + 1, n) == Product(n - k + 1, n - 1) * (n - 1);
    }
  }

  function Prepend<T>(x: T, ps: seq<seq<T>>): (r: seq<seq<T>>)
    ensures |r| == |ps|
    ensures forall i :: 0 <= i < |ps| ==> r[i] == [x] + ps[i]
  {
    seq(|ps|, i requires 0 <= i < |ps| => [x] + ps[i])
  }

  function Remove<T>(xs: seq<T>, i: nat): (r: seq<T>)
    requires i < |xs|
    ensures |r| == |xs| - 1
    ensures multiset(r) + multiset{xs[i]} == multiset(xs)
  {
    assert xs == xs[..i] + [xs[i]] + xs[i + 1..];
    xs[..i] + xs[i + 1..]
  }

  /** All ordered picks of `k` positions of `xs`, first position first. */
  function Perms<T>(xs: seq<T>, k: nat): seq<seq<T>>
    decreases k, 1, 0
  {
    if k == 0 then [[]] else PermsFrom(xs, k, 0)
  }

  /** The picks whose first position is `i` or later. */
  function PermsFrom<T>(xs: seq<T>, k: nat, i: nat): seq<seq<T>>
    requires 0 < k && i <= |xs|
    decreases k, 0, |xs| - i
  {
    if i == |xs| then []
    else Prepend(xs[i], Perms(Remove(xs, i), k - 1)) + PermsFrom(xs, k, i + 1)
  }

  /** There are `PermSize(|xs|, k)` picks; none when `k` exceeds `|xs|`. */
  lemma {:induction false} PermsCount<T>(xs: seq<T>, k: nat)
    ensures |Perms(xs, k)| == PermSize(|xs|, k)
    decreases k, 1, 0
  {
    if k > 0 {
      PermsFromCount(xs, k, 0);
    }
  }

  lemma {:induction false} PermsFromCount<T>(xs: seq<T>, k: nat, i: nat)
    requires 0 < k && i <= |xs|
    ensures |PermsFrom(xs, k, i)| == (|xs| - i) * PermSize(if |xs| == 0 then 0 else |xs| - 1, k - 1)
    decreases k, 0, |xs| - i
  {
    if i < |xs| {
      var rest := Remove(xs, i);
      var m := PermSize(|xs| - 1, k - 1);
      PermsCount(rest, k - 1);
      PermsFromCount(xs, k, i + 1);
      PermsFromStep(xs, k, i);
      MulSucc(|xs| - (i + 1), m);
    }
  }

  lemma MulSucc(a: nat, m: nat)
    ensures (a + 1) * m == m + a * m
  {
  }

  /** Every pick has `k` items, all taken from `xs` with multiplicity. */
  lemma PermsSound<T>(xs: seq<T>, k: nat)
    ensures forall p :: p in Perms(xs, k) ==> |p| == k && multiset(p) <= multiset(xs)
  {
    forall p | p in Perms(xs, k)
      ensures |p| == k && multiset(p) <= multiset(xs)
    {
      PermsMember(xs, k, p);
    }
  }

  lemma {:induction false} PermsMember<T>(xs: seq<T>, k: nat, p: seq<T>)
    requires p in Perms(xs, k)
    ensures |p| == k && multiset(p) <= multiset(xs)
    decreases k, 1, 0
  {
    if k > 0 {
      PermsFromMember(xs, k, 0, p);
    }
  }

  lemma {:induction false} PermsFromMember<T>(xs: seq<T>, k: nat, i: nat, p: seq<T>)
    requires 0 < k && i <= |xs| && p in PermsFrom(xs, k, i)
    ensures |p| == k && multiset(p) <= multiset(xs)
    decreases k, 0, |xs| - i
  {
    if i < |xs| {
      var subs := Perms(Remove(xs, i), k - 1);
      var front := Prepend(xs[i], subs);
      PermsFromStep(xs, k, i);
      if p in front {
        var j :| 0 <= j < |front| && front[j] == p;
        assert subs[j] in subs;
        PermsMember(Remove(xs, i), k - 1, subs[j]);
        assert multiset(p) == multiset{xs[i]} + multiset(subs[j]);
      } else {
        assert p in PermsFrom(xs, k, i + 1);
        PermsFromMember(xs, k, i + 1, p);
      }
    }
  }

  lemma PermsFromStep<T>(xs: seq<T>, k: nat, i: nat)
    requires 0 < k && i < |xs|
    ensures PermsFrom(xs, k, i) == Prepend(xs[i], Perms(Remove(xs, i), k - 1)) + PermsFrom(xs, k, i + 1)
  {
  }

  /** Every sequence of `k` items taken from `xs` with multiplicity is a pick. */
  lemma {:induction false} PermsComplete<T>(xs: seq<T>, k: nat, p: seq<T>)
    requires |p| == k && multiset(p) <= multiset(xs)
    ensures p in Perms(xs, k)
    decreases k, 1, 0
  {
    if k > 0 {
      assert p[0] in multiset(xs);
      var i :| 0 <= i < |xs| && xs[i] == p[0];
      var rest := Remove(xs, i);
      assert p == [p[0]] + p[1..];
      assert multiset(p) == multiset{p[0]} + multiset(p[1..]);
      assert multiset(rest) + multiset{xs[i]} == multiset(xs);
      forall x ensures multiset(p[1..])[x] <= multiset(rest)[x] {
        assert multiset(p)[x] <= multiset(xs)[x];
      }
      assert multiset(p[1..]) <= multiset(rest);
      PermsComplete(rest, k - 1, p[1..]);
      PermsFromHas(xs, k, 0, i, p[1..]);
    }
  }

  lemma {:induction false} PermsFromHas<T>(xs: seq<T>, k: nat, start: nat, i: nat, q: seq<T>)
    requires 0 < k && start <= i < |xs|
    requires q in Perms(Remove(xs, i), k - 1)
    ensures [xs[i]] + q in PermsFrom(xs, k, start)
    decreases i - start
  {
    if start == i {
      var qs := Perms(Remove(xs, i), k - 1);
      var j :| 0 <= j < |qs| && qs[j] == q;
      assert Prepend(xs[i], qs)[j] == [xs[i]] + q;
    } else {
      PermsFromHas(xs, k, start + 1, i, q);
    }
  }

  /** `[IOT]p2` has 6 sequences, all seven shapes `p3` 210 and `p5` 2520. */
  lemma PermSizeExamples()
    ensures PermSize(3, 2) == 6 && PermSize(7, 3) == 210 && PermSize(7, 5) == 2520
    ensures PermSize(7, 6) == 5040 && PermSize(7, 7) == 5040
  {
  }
}
