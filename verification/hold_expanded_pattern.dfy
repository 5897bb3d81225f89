/**
 * `HoldExpandedPattern`: a pattern flattened to one slot per shape, and
 * every order in which a hold can take those slots. A slot is either a
 * fixed shape or a share of a pattern element (`Shared(i)` for element
 * `i`), to be filled from that element's counter.
 */
module HoldExpandedPatterns {
  import opened Shapes
  import opened Wrappers
  import opened ShapeCounters
  import opened PatternElements
  import opened Patterns
  import opened ShapeOrders

  datatype HoldElement = FixedShape(shape: Shape) | Shared(element: nat)

  datatype HoldExpandedPattern = HoldExpandedPattern(pattern: Pattern, expanded: seq<seq<HoldElement>>)

  /** `n` copies of `x`. */
  function Copies(x: HoldElement, n: nat): (r: seq<HoldElement>)
    ensures |r| == n && forall k :: 0 <= k < n ==> r[k] == x
  {
    if n == 0 then [] else [x] + Copies(x, n - 1)
  }

  /** The slots element `i` stands for: its own shapes, or shares of it. */
  function ToHoldElements(i: nat, e: PatternElement): seq<HoldElement>
  {
    match e
    case One(s) => [FixedShape(s)]
    case Fixed(b) => seq(b.len, k requires 0 <= k < b.len => FixedShape(FixedShapes(b)[k]))
    case Wildcard => [Shared(i)]
    case Permutation(_, pop) => Copies(Shared(i), pop)
    case Factorial(c) => Copies(Shared(i), TotalSize(c))
  }

  /** How many shares of itself an element stands for. */
  function SharedCount(e: PatternElement): nat
  {
    match e
    case One(_) => 0
    case Fixed(_) => 0
    case Wildcard => 1
    case Permutation(_, pop) => pop
    case Factorial(c) => TotalSize(c)
  }

  /** The slots of the elements from `i` on, each element's in turn. */
  function FlattenFrom(es: seq<PatternElement>, i: nat): seq<HoldElement>
    requires i <= |es|
    decreases |es| - i
  {
    if i == |es| then [] else ToHoldElements(i, es[i]) + FlattenFrom(es, i + 1)
  }

  /** The flattened pattern (`element_sequence`). */
  function ElementSequence(p: Pattern): seq<HoldElement>
  {
    FlattenFrom(p.elements, 0)
  }

  /** An element's slots are as many as its dimension, and its shares are its own. */
  lemma ToHoldElementsCounts(i: nat, e: PatternElement)
    requires PatternElements.Expandable(e)
    ensures |ToHoldElements(i, e)| == Dim(e)
    ensures forall j :: multiset(ToHoldElements(i, e))[Shared(j)] == if j == i then SharedCount(e) else 0
  {
    var r := ToHoldElements(i, e);
    forall j
      ensures multiset(r)[Shared(j)] == if j == i then SharedCount(e) else 0
    {
      match e
      case One(s) =>
      case Fixed(b) =>
        assert Shared(j) !in r;
      case Wildcard =>
      case Permutation(_, pop) =>
        CopiesCount(Shared(i), pop, Shared(j));
      case Factorial(c) =>
        CopiesCount(Shared(i), TotalSize(c), Shared(j));
    }
  }

  lemma {:induction false} CopiesCount(x: HoldElement, n: nat, y: HoldElement)
    ensures multiset(Copies(x, n))[y] == if y == x then n else 0
  {
    if n > 0 {
      CopiesCount(x, n - 1, y);
    }
  }

  /**
   * The flattened elements from `i` on: as many slots as their dimensions
   * add up to, and every element `j` among them shared `SharedCount` times.
   */
  lemma {:induction false} FlattenFromCounts(es: seq<PatternElement>, i: nat)
    requires i <= |es| && Patterns.AllExpandable(es)
    ensures |FlattenFrom(es, i)| == DimFrom(es, i)
    ensures forall j :: multiset(FlattenFrom(es, i))[Shared(j)] == if i <= j < |es| then SharedCount(es[j]) else 0
    decreases |es| - i
  {
    if i < |es| {
      ToHoldElementsCounts(i, es[i]);
      FlattenFromCounts(es, i + 1);
    }
  }

  /** The flattened pattern has the pattern's dimension, and shares element `j` `SharedCount` times. */
  lemma FlattenCounts(p: Pattern)
    requires Patterns.Expandable(p)
    ensures |ElementSequence(p)| == DimShapes(p)
    ensures forall j: nat :: multiset(ElementSequence(p))[Shared(j)] == if j < |p.elements| then SharedCount(p.elements[j]) else 0
  {
    FlattenFromCounts(p.elements, 0);
  }

  /** A shared element's shares are as many as its dimension. */
  lemma SharedCountIsDim(e: PatternElement)
    requires PatternElements.Expandable(e) && (e.Wildcard? || e.Permutation? || e.Factorial?)
    ensures SharedCount(e) == Dim(e)
  {
  }

  /**
   * Every sequence a hold can pop from the cursor until it is exhausted:
   * `First` when there is a head, then `Second` when there is an unread slot.
   */
  function Expansions<T(==)>(c: OrderCursor<T>): set<seq<T>>
    requires c.Valid()
    decreases LenUnused(c)
  {
    if !HasNext(c) then {[]}
    else
      var (x, first) := Pop(c, First);
      var (y, second) := Pop(c, Second);
      Prefixed([x.value], Expansions(first)) +
      (if y.Some? then Prefixed([y.value], Expansions(second)) else {})
  }

  /** Every sequence of `ws` behind `prefix`. */
  function Prefixed<T(==)>(prefix: seq<T>, ws: set<seq<T>>): set<seq<T>>
  {
    set w | w in ws :: prefix + w
  }

  lemma PrefixedTwice<T>(a: seq<T>, b: seq<T>, ws: set<seq<T>>)
    ensures Prefixed(a + b, ws) == Prefixed(a, Prefixed(b, ws))
  {
    forall w | w in ws ensures (a + b) + w == a + (b + w) {
    }
  }

  lemma PrefixedUnion<T>(a: seq<T>, ws: set<seq<T>>, vs: set<seq<T>>)
    ensures Prefixed(a, ws + vs) == Prefixed(a, ws) + Prefixed(a, vs)
  {
  }

  /** Every expansion is a permutation of what the cursor has left. */
  lemma {:induction false} ExpansionsPermute<T>(c: OrderCursor<T>, w: seq<T>)
    requires c.Valid() && w in Expansions(c)
    ensures multiset(w) == multiset(UnusedShapes(c)) && |w| == LenUnused(c)
    decreases LenUnused(c)
  {
    if HasNext(c) {
      var (x, first) := Pop(c, First);
      var (y, second) := Pop(c, Second);
      if w != [] && w[0] == x.value && w[1..] in Expansions(first) {
        ExpansionsPermute(first, w[1..]);
        PopUnused(c, First);
        assert w == [w[0]] + w[1..];
      } else {
        assert y.Some? && w[1..] in Expansions(second) && w[0] == y.value;
        ExpansionsPermute(second, w[1..]);
        PopUnused(c, Second);
        assert w == [w[0]] + w[1..];
      }
    }
  }

  /** Every expansion is what some run of pops yields before the cursor is exhausted. */
  lemma {:induction false} ExpansionRun<T>(c: OrderCursor<T>, w: seq<T>) returns (ops: seq<PopOp>)
    requires c.Valid() && w in Expansions(c)
    ensures Run(c, ops).Some? && Run(c, ops).value.0 == w && !HasNext(Run(c, ops).value.1)
    decreases LenUnused(c)
  {
    if !HasNext(c) {
      ops := [];
    } else {
      var (x, first) := Pop(c, First);
      var (y, second) := Pop(c, Second);
      var op := if w != [] && w[0] == x.value && w[1..] in Expansions(first) then First else Second;
      var rest := ExpansionRun(Pop(c, op).1, w[1..]);
      ops := [op] + rest;
      assert ops[0] == op && ops[1..] == rest;
      RunCons(c, ops);
      assert w == [w[0]] + w[1..];
    }
  }

  /** Conversely, every run of pops that exhausts the cursor yields an expansion. */
  lemma {:induction false} RunExpansion<T>(c: OrderCursor<T>, ops: seq<PopOp>)
    requires c.Valid() && Run(c, ops).Some? && !HasNext(Run(c, ops).value.1)
    ensures Run(c, ops).value.0 in Expansions(c)
    decreases |ops|
  {
    if ops == [] {
      assert Run(c, ops).value.1 == c;
    } else {
      var (x, next) := Pop(c, ops[0]);
      FirstNoneThenSecondNone(c);
      assert HasNext(c);
      RunExpansion(next, ops[1..]);
      var w := Run(next, ops[1..]).value.0;
      assert Run(c, ops).value.0 == [x.value] + w;
    }
  }

  /** Always popping `First` takes the rest of the order front to back, so the unreordered order is an expansion. */
  lemma {:induction false} FrontIsExpansion<T>(c: OrderCursor<T>)
    requires c.Valid() && c.head.Some? && c.tails == c.head.value + 1
    ensures c.sequence[c.head.value..] in Expansions(c)
    decreases LenUnused(c)
  {
    var h := c.head.value;
    var (x, first) := Pop(c, First);
    assert c.sequence[h..] == [c.sequence[h]] + c.sequence[h + 1..];
    if c.tails < |c.sequence| {
      FrontIsExpansion(first);
    } else {
      assert c.sequence[h + 1..] == [];
    }
  }

  /** The expansions of a fresh cursor over `s`: permutations of `s`, `s` itself among them. */
  lemma ExpansionsOfOrder<T>(s: seq<T>)
    requires 0 < |s|
    ensures s in Expansions(NewCursor(s))
    ensures forall w :: w in Expansions(NewCursor(s)) ==> multiset(w) == multiset(s) && |w| == |s|
  {
    FrontIsExpansion(NewCursor(s));
    assert s[0..] == s;
    forall w | w in Expansions(NewCursor(s))
      ensures multiset(w) == multiset(s) && |w| == |s|
    {
      ExpansionsPermute(NewCursor(s), w);
    }
  }

  /** `Builder`: the expansions found so far, and the slots popped on the way down. */
  class Builder {
    var results: set<seq<HoldElement>>
    var buffer: seq<HoldElement>

    constructor ()
      ensures results == {} && buffer == []
    {
      results := {};
      buffer := [];
    }

    /**
     * `build`: record the buffer when the cursor is exhausted, otherwise pop
     * `First`, then `Second`, descending with the popped slot pushed and
     * popping it back afterwards.
     */
    method Build(c: OrderCursor<HoldElement>)
      requires c.Valid()
      modifies this
      ensures buffer == old(buffer)
      ensures results == old(results) + Prefixed(old(buffer), Expansions(c))
      decreases LenUnused(c)
    {
      if !HasNext(c) {
        results := results + {buffer};
        assert buffer + [] == buffer;
        assert Prefixed(buffer, {[]}) == {buffer};
        return;
      }
      ghost var start := results;
      var (x, first) := Pop(c, First);
      if x.Some? {
        buffer := buffer + [x.value];
        Build(first);
        buffer := buffer[..|buffer| - 1];
      }
      ghost var middle := results;
      var (y, second) := Pop(c, Second);
      if y.Some? {
        buffer := buffer + [y.value];
        Build(second);
        buffer := buffer[..|buffer| - 1];
      }
      BuildSplit(c, old(buffer), start, middle, results);
    }
  }

  lemma ExpansionsUnfold(c: OrderCursor<HoldElement>)
    requires c.Valid() && HasNext(c)
    ensures Pop(c, Second).0.Some? ==>
              Expansions(c) == Prefixed([Pop(c, First).0.value], Expansions(Pop(c, First).1))
                               + Prefixed([Pop(c, Second).0.value], Expansions(Pop(c, Second).1))
    ensures Pop(c, Second).0.None? ==> Expansions(c) == Prefixed([Pop(c, First).0.value], Expansions(Pop(c, First).1))
  {
  }

  /** The two branches of `build` together record every expansion once behind the buffer. */
  lemma BuildSplit(c: OrderCursor<HoldElement>, buffer: seq<HoldElement>,
                   start: set<seq<HoldElement>>, middle: set<seq<HoldElement>>, end: set<seq<HoldElement>>)
    requires c.Valid() && HasNext(c)
    requires middle == start + Prefixed(buffer + [Pop(c, First).0.value], Expansions(Pop(c, First).1))
    requires Pop(c, Second).0.Some? ==>
      end == middle + Prefixed(buffer + [Pop(c, Second).0.value], Expansions(Pop(c, Second).1))
    requires Pop(c, Second).0.None? ==> end == middle
    ensures end == start + Prefixed(buffer, Expansions(c))
  {
    var (x, first) := Pop(c, First);
    var (y, second) := Pop(c, Second);
    ExpansionsUnfold(c);
    var xs := Prefixed([x.value], Expansions(first));
    PrefixedTwice(buffer, [x.value], Expansions(first));
    if y.Some? {
      var ys := Prefixed([y.value], Expansions(second));
      PrefixedTwice(buffer, [y.value], Expansions(second));
      PrefixedUnion(buffer, xs, ys);
    } else {
    }
  }

  /** The derived order on slots: fixed shapes before shares, shapes by their order, shares by element. */
  predicate ElementLess(a: HoldElement, b: HoldElement)
  {
    match (a, b)
    case (FixedShape(x), FixedShape(y)) => Ordinal(x) < Ordinal(y)
    case (FixedShape(_), Shared(_)) => true
    case (Shared(_), FixedShape(_)) => false
    case (Shared(i), Shared(j)) => i < j
  }

  /** The derived order on slot vectors: lexicographic, a proper prefix first. */
  predicate SeqLess(a: seq<HoldElement>, b: seq<HoldElement>)
  {
    if a == [] then b != []
    else if b == [] then false
    else ElementLess(a[0], b[0]) || (a[0] == b[0] && SeqLess(a[1..], b[1..]))
  }

  /** The slot order is a strict total order. */
  lemma ElementLessTotal(a: HoldElement, b: HoldElement)
    ensures !ElementLess(a, a)
    ensures a != b ==> ElementLess(a, b) != ElementLess(b, a)
  {
    if a.FixedShape? && b.FixedShape? {
      OrdinalInjective(a.shape, b.shape);
    }
  }

  lemma {:induction false} SeqLessIrreflexive(a: seq<HoldElement>)
    ensures !SeqLess(a, a)
  {
    if a != [] {
      ElementLessTotal(a[0], a[0]);
      SeqLessIrreflexive(a[1..]);
    }
  }

  lemma {:induction false} SeqLessTransitive(a: seq<HoldElement>, b: seq<HoldElement>, c: seq<HoldElement>)
    requires SeqLess(a, b) && SeqLess(b, c)
    ensures SeqLess(a, c)
  {
    if a != [] && c != [] {
      assert b != [];
      if a[0] == b[0] && b[0] == c[0] {
        SeqLessTransitive(a[1..], b[1..], c[1..]);
      }
    }
  }

  lemma {:induction false} SeqLessTotal(a: seq<HoldElement>, b: seq<HoldElement>)
    requires a != b
    ensures SeqLess(a, b) || SeqLess(b, a)
  {
    if a != [] && b != [] {
      ElementLessTotal(a[0], b[0]);
      if a[0] == b[0] {
        assert a == [a[0]] + a[1..] && b == [b[0]] + b[1..];
        SeqLessTotal(a[1..], b[1..]);
      }
    }
  }

  /** `m` comes before every other vector of `s`. */
  predicate IsLeast(m: seq<HoldElement>, s: set<seq<HoldElement>>)
  {
    m in s && forall v :: v in s && v != m ==> SeqLess(m, v)
  }

  lemma {:induction false} LeastExists(s: set<seq<HoldElement>>) returns (m: seq<HoldElement>)
    requires s != {}
    ensures IsLeast(m, s)
    decreases |s|
  {
    var x :| x in s;
    if s == {x} {
      m := x;
    } else {
      var rest := LeastExists(s - {x});
      if SeqLess(x, rest) {
        m := x;
        forall v | v in s && v != m ensures SeqLess(m, v) {
          if v != rest {
            SeqLessTransitive(m, rest, v);
          }
        }
      } else {
        m := rest;
        SeqLessTotal(x, rest);
      }
    }
  }

  /** `into_iter` of the ordered set: every vector once, in increasing order. */
  method SortedVectors(s: set<seq<HoldElement>>) returns (r: seq<seq<HoldElement>>)
    ensures forall i, j :: 0 <= i < j < |r| ==> SeqLess(r[i], r[j])
    ensures forall v :: v in r <==> v in s
    ensures |r| == |s|
  {
    r := [];
    var rest := s;
    while rest != {}
      invariant forall i, j :: 0 <= i < j < |r| ==> SeqLess(r[i], r[j])
      invariant forall i, v :: 0 <= i < |r| && v in rest ==> SeqLess(r[i], v)
      invariant forall v :: v in s <==> v in r || v in rest
      invariant forall v :: v in r ==> v !in rest
      invariant |r| + |rest| == |s|
      decreases |rest|
    {
      ghost var least := LeastExists(rest);
      var m :| m in rest && IsLeast(m, rest);
      ghost var before, left := r, rest;
      r := r + [m];
      rest := rest - {m};
      forall i, v | 0 <= i < |r| && v in rest ensures SeqLess(r[i], v) {
        assert v in left && v != m;
        if i < |before| {
          assert r[i] == before[i];
          assert SeqLess(before[i], v);
        } else {
          assert r[i] == m;
          assert IsLeast(m, left);
        }
      }
    }
  }

  /**
   * `From<&Pattern>`: flatten the pattern, expand every order a hold allows
   * and keep each distinct vector once, in increasing order. The flattened
   * pattern must not be empty.
   */
  method FromPattern(p: Pattern) returns (h: HoldExpandedPattern)
    requires 0 < |ElementSequence(p)|
    ensures h.pattern == p
    ensures forall v :: v in h.expanded <==> v in Expansions(NewCursor(ElementSequence(p)))
    ensures forall i, j :: 0 <= i < j < |h.expanded| ==> SeqLess(h.expanded[i], h.expanded[j])
    ensures ElementSequence(p) in h.expanded
    ensures forall v :: v in h.expanded ==> multiset(v) == multiset(ElementSequence(p))
  {
    ExpansionsOfOrder(ElementSequence(p));
    var builder := new Builder();
    builder.Build(NewCursor(ElementSequence(p)));
    PrefixedEmpty(Expansions(NewCursor(ElementSequence(p))));
    var vectors := SortedVectors(builder.results);
    h := HoldExpandedPattern(p, vectors);
  }

  lemma PrefixedEmpty<T>(ws: set<seq<T>>)
    ensures Prefixed([], ws) == ws
  {
    forall w | w in ws ensures [] + w == w {
    }
  }
}
