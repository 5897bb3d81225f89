/**
 * The matcher on the pattern `TI`, `[LJ]!`, `O`, the first case of the
 * matcher's own tests (`hold_expanded_pattern_shape_matcher.rs`): with a
 * hold, `TIJLO`, `ILJOT` and `IJTOL` are accepted shape by shape and leave
 * nothing to take, after which any shape is accepted; a leading `O` is
 * refused, and so is a second one.
 */
module HoldExpandedMatchingExamples {
  import opened Shapes
  import opened Wrappers
  import SC = ShapeCounters
  import PE = PatternElements
  import opened Patterns
  import SO = ShapeOrders
  import opened HoldExpandedPatterns
  import opened HoldExpandedPatternShapeMatchers
  import opened HoldExpandedMatching
  import BitShapesModel

  /** `TI`, `[LJ]!`, `O`. */
  function Case1(): Pattern
  {
    Pattern([PE.Fixed(BitShapesModel.BitShapes(BitShapesModel.Packed([T, I]), 2)), PE.Factorial(SC.Of([L, J])), PE.One(O)])
  }

  /** The flattened pattern: the two fixed shapes, two shares of the factorial, and `O`. */
  function Case1Sequence(): seq<HoldElement>
  {
    [FixedShape(T), FixedShape(I), Shared(1), Shared(1), FixedShape(O)]
  }

  /** What `HoldExpandedPattern::from` builds for the pattern: every order a hold allows. */
  ghost predicate FromCase1(h: HoldExpandedPattern)
  {
    && h.pattern == Case1()
    && 0 < |h.expanded| && (forall k :: 0 <= k < |h.expanded| ==> h.expanded[k] != [])
    && forall v :: v in h.expanded <==> v in Expansions(SO.NewCursor(ElementSequence(Case1())))
  }

  lemma Case1Flattened()
    ensures Patterns.Expandable(Case1())
    ensures ElementSequence(Case1()) == Case1Sequence()
  {
    var p := Case1();
    BitShapesModel.UnpackPacked([T, I]);
    SC.TotalSizeOf([L, J]);
    assert PE.FixedShapes(p.elements[0].shapes) == [T, I];
    assert ToHoldElements(0, p.elements[0]) == [FixedShape(T), FixedShape(I)];
    assert ToHoldElements(1, p.elements[1]) == [Shared(1), Shared(1)];
    assert FlattenFrom(p.elements, 3) == [];
    assert FlattenFrom(p.elements, 2) == [FixedShape(O)];
    assert FlattenFrom(p.elements, 1) == [Shared(1), Shared(1), FixedShape(O)];
  }

  /** Every vector of the pattern is an order of the flattened pattern. */
  ghost predicate Reorders(h: HoldExpandedPattern)
  {
    forall v :: v in h.expanded ==> multiset(v) == multiset(Case1Sequence())
  }

  /** Every vector has the five slots of the flattened pattern. */
  ghost predicate AllFive(h: HoldExpandedPattern)
  {
    forall k :: 0 <= k < |h.expanded| ==> |h.expanded[k]| == 5
  }

  lemma Case1Reorders(h: HoldExpandedPattern)
    requires FromCase1(h)
    ensures Reorders(h) && AllFive(h) && Case1Sequence() in h.expanded
  {
    Case1Flattened();
    ExpansionsOfOrder(Case1Sequence());
    forall k | 0 <= k < |h.expanded| ensures |h.expanded[k]| == 5 {
      assert h.expanded[k] in h.expanded;
    }
  }

  /** An order of the flattened pattern shares element 1, the factorial, and no other. */
  lemma OnlyFactorialShared(w: seq<HoldElement>)
    requires multiset(w) == multiset(Case1Sequence())
    ensures forall n :: 0 <= n < |w| && w[n].Shared? ==> w[n].element == 1
  {
    forall n | 0 <= n < |w| && w[n].Shared? ensures w[n].element == 1 {
      assert w[n] in multiset(w);
      assert w[n] in Case1Sequence();
    }
  }

  /** The pattern's hold-expanded vectors are orders of the flattened pattern that only ever share the factorial. */
  lemma Case1WellFormed(h: HoldExpandedPattern)
    requires FromCase1(h)
    ensures WellFormed(h) && AllFive(h)
    ensures Case1Sequence() in h.expanded
  {
    Case1Flattened();
    Case1Reorders(h);
    ExpandedValid(h);
    forall k | 0 <= k < |h.expanded| ensures Roomy(h.pattern, h.expanded[k]) {
      assert h.expanded[k] in h.expanded;
      OnlyFactorialShared(h.expanded[k]);
      OneSharedRoomy(h.pattern, h.expanded[k], 1);
    }
  }

  /** A sequence that fits a vector fits it so far at every prefix. */
  lemma {:induction false} FitsPrefix(p: Pattern, w: seq<HoldElement>, ss: seq<Shape>, n: nat)
    requires SharesValid(p, w) && Fits(p, w, ss) && n <= |ss|
    ensures Fits(p, w, ss[..n])
    decreases |ss|
  {
    if n < |ss| {
      FitsPrefix(p, w, ss[..|ss| - 1], n);
      assert ss[..|ss| - 1][..n] == ss[..n];
    } else {
      assert ss[..n] == ss;
    }
  }

  /** `[LJ]!` allows its shares to take `L` and `J` in either order, one of each. */
  lemma FactorialAllows(a: Shape, b: Shape)
    requires {a, b} == {L, J} && a != b
    ensures SC.ContainsAll(SC.Of([L, J]), SC.Inc(SC.Empty(), a))
    ensures SC.ContainsAll(SC.Of([L, J]), SC.Inc(SC.Inc(SC.Empty(), a), b))
  {
  }

  /** A pop that yields `x` puts `x` in front of every expansion of the cursor it leaves. */
  lemma ExpansionStep(c: SO.OrderCursor<HoldElement>, op: SO.PopOp, x: HoldElement, next: SO.OrderCursor<HoldElement>,
                      w: seq<HoldElement>, v: seq<HoldElement>)
    requires c.Valid() && SO.Pop(c, op) == (Some(x), next) && w in Expansions(next) && v == [x] + w
    ensures v in Expansions(c)
  {
    assert SO.HasNext(c);
    assert [x] + w in Prefixed([x], Expansions(next));
  }

  /** `ILJOT` comes from taking `I`, the shares and `O` from behind and the held `T` last. */
  lemma HoldingTIsOrder()
    ensures [FixedShape(I), Shared(1), Shared(1), FixedShape(O), FixedShape(T)] in Expansions(SO.NewCursor(Case1Sequence()))
  {
    var q := Case1Sequence();
    var c5 := SO.OrderCursor(q, None, 5);
    var (a, b, d, e) := (SO.OrderCursor(q, Some(0), 5), SO.OrderCursor(q, Some(0), 4),
                         SO.OrderCursor(q, Some(0), 3), SO.OrderCursor(q, Some(0), 2));
    assert [] in Expansions(c5);
    ExpansionStep(a, SO.First, FixedShape(T), c5, [], [FixedShape(T)]);
    ExpansionStep(b, SO.Second, FixedShape(O), a, [FixedShape(T)], [FixedShape(O), FixedShape(T)]);
    ExpansionStep(d, SO.Second, Shared(1), b, [FixedShape(O), FixedShape(T)], [Shared(1), FixedShape(O), FixedShape(T)]);
    ExpansionStep(e, SO.Second, Shared(1), d, [Shared(1), FixedShape(O), FixedShape(T)],
                  [Shared(1), Shared(1), FixedShape(O), FixedShape(T)]);
    ExpansionStep(SO.NewCursor(q), SO.Second, FixedShape(I), e, [Shared(1), Shared(1), FixedShape(O), FixedShape(T)],
                  [FixedShape(I), Shared(1), Shared(1), FixedShape(O), FixedShape(T)]);
  }

  /** `IJTOL` comes from holding `T` for two slots and a share to the end. */
  lemma HoldingShareIsOrder()
    ensures [FixedShape(I), Shared(1), FixedShape(T), FixedShape(O), Shared(1)] in Expansions(SO.NewCursor(Case1Sequence()))
  {
    var q := Case1Sequence();
    var c5 := SO.OrderCursor(q, None, 5);
    var (a, b, d, e) := (SO.OrderCursor(q, Some(3), 5), SO.OrderCursor(q, Some(3), 4),
                         SO.OrderCursor(q, Some(0), 3), SO.OrderCursor(q, Some(0), 2));
    assert [] in Expansions(c5);
    ExpansionStep(a, SO.First, Shared(1), c5, [], [Shared(1)]);
    ExpansionStep(b, SO.Second, FixedShape(O), a, [Shared(1)], [FixedShape(O), Shared(1)]);
    ExpansionStep(d, SO.First, FixedShape(T), b, [FixedShape(O), Shared(1)], [FixedShape(T), FixedShape(O), Shared(1)]);
    ExpansionStep(e, SO.Second, Shared(1), d, [FixedShape(T), FixedShape(O), Shared(1)],
                  [Shared(1), FixedShape(T), FixedShape(O), Shared(1)]);
    ExpansionStep(SO.NewCursor(q), SO.Second, FixedShape(I), e, [Shared(1), FixedShape(T), FixedShape(O), Shared(1)],
                  [FixedShape(I), Shared(1), FixedShape(T), FixedShape(O), Shared(1)]);
  }

  /** A sequence that fits so far and whose next shape fits its slot fits one slot further. */
  lemma Extend(p: Pattern, w: seq<HoldElement>, ss: seq<Shape>, s: Shape, t: seq<Shape>)
    requires SharesValid(p, w) && |ss| < |w| && Fits(p, w, ss) && t == ss + [s] && SlotFits(p, w, t)
    ensures Fits(p, w, t)
  {
    FitsSnoc(p, w, ss, s);
  }

  /** One more shape adds to what a shared element consumed exactly when its slot shares that element. */
  lemma ConsumedExtend(w: seq<HoldElement>, ss: seq<Shape>, s: Shape, t: seq<Shape>, j: nat)
    requires |ss| < |w| && t == ss + [s]
    ensures Consumed(w, t, j) == if w[|ss|] == Shared(j) then SC.Inc(Consumed(w, ss, j), s) else Consumed(w, ss, j)
  {
    ConsumedSnoc(w, ss, s, j);
  }

  /** `TIJLO` fits the flattened pattern slot by slot. */
  lemma FitsInOrder()
    ensures SharesValid(Case1(), Case1Sequence())
    ensures Fits(Case1(), Case1Sequence(), [T, I, J, L, O])
  {
    Case1Flattened();
    var p, w := Case1(), Case1Sequence();
    assert SharesValid(p, w);
    FactorialAllows(J, L);
    Extend(p, w, [], T, [T]);
    Extend(p, w, [T], I, [T, I]);
    ConsumedExtend(w, [], T, [T], 1);
    ConsumedExtend(w, [T], I, [T, I], 1);
    ConsumedExtend(w, [T, I], J, [T, I, J], 1);
    Extend(p, w, [T, I], J, [T, I, J]);
    ConsumedExtend(w, [T, I, J], L, [T, I, J, L], 1);
    Extend(p, w, [T, I, J], L, [T, I, J, L]);
    Extend(p, w, [T, I, J, L], O, [T, I, J, L, O]);
  }

  /** `ILJOT` fits `I`, the two shares, `O`, `T`. */
  lemma FitsHoldingT()
    ensures SharesValid(Case1(), [FixedShape(I), Shared(1), Shared(1), FixedShape(O), FixedShape(T)])
    ensures Fits(Case1(), [FixedShape(I), Shared(1), Shared(1), FixedShape(O), FixedShape(T)], [I, L, J, O, T])
  {
    Case1Flattened();
    var p, w := Case1(), [FixedShape(I), Shared(1), Shared(1), FixedShape(O), FixedShape(T)];
    assert SharesValid(p, w);
    FactorialAllows(L, J);
    Extend(p, w, [], I, [I]);
    ConsumedExtend(w, [], I, [I], 1);
    ConsumedExtend(w, [I], L, [I, L], 1);
    Extend(p, w, [I], L, [I, L]);
    ConsumedExtend(w, [I, L], J, [I, L, J], 1);
    Extend(p, w, [I, L], J, [I, L, J]);
    Extend(p, w, [I, L, J], O, [I, L, J, O]);
    Extend(p, w, [I, L, J, O], T, [I, L, J, O, T]);
  }

  /** `IJTOL` fits `I`, a share, `T`, `O`, the other share. */
  lemma FitsHoldingShare()
    ensures SharesValid(Case1(), [FixedShape(I), Shared(1), FixedShape(T), FixedShape(O), Shared(1)])
    ensures Fits(Case1(), [FixedShape(I), Shared(1), FixedShape(T), FixedShape(O), Shared(1)], [I, J, T, O, L])
  {
    Case1Flattened();
    var p, w := Case1(), [FixedShape(I), Shared(1), FixedShape(T), FixedShape(O), Shared(1)];
    assert SharesValid(p, w);
    FactorialAllows(J, L);
    Extend(p, w, [], I, [I]);
    ConsumedExtend(w, [], I, [I], 1);
    ConsumedExtend(w, [I], J, [I, J], 1);
    Extend(p, w, [I], J, [I, J]);
    Extend(p, w, [I, J], T, [I, J, T]);
    Extend(p, w, [I, J, T], O, [I, J, T, O]);
    ConsumedExtend(w, [I, J], T, [I, J, T], 1);
    ConsumedExtend(w, [I, J, T], O, [I, J, T, O], 1);
    ConsumedExtend(w, [I, J, T, O], L, [I, J, T, O, L], 1);
    Extend(p, w, [I, J, T, O], L, [I, J, T, O, L]);
  }

  /** A vector, the shapes that fit it, and the vector among the pattern's. */
  lemma Case1Fits(h: HoldExpandedPattern, w: seq<HoldElement>, ss: seq<Shape>)
    requires FromCase1(h)
    requires || (w == Case1Sequence() && ss == [T, I, J, L, O])
             || (w == [FixedShape(I), Shared(1), Shared(1), FixedShape(O), FixedShape(T)] && ss == [I, L, J, O, T])
             || (w == [FixedShape(I), Shared(1), FixedShape(T), FixedShape(O), Shared(1)] && ss == [I, J, T, O, L])
    ensures w in h.expanded && SharesValid(h.pattern, w) && Fits(h.pattern, w, ss)
  {
    Case1WellFormed(h);
    Case1Flattened();
    if ss == [T, I, J, L, O] {
      FitsInOrder();
    } else if ss == [I, L, J, O, T] {
      HoldingTIsOrder();
      FitsHoldingT();
    } else {
      HoldingShareIsOrder();
      FitsHoldingShare();
    }
  }

  /** Before the last shape of a fitting sequence, nothing is complete and the matcher has a next shape. */
  lemma Case1Open(h: HoldExpandedPattern, ss: seq<Shape>, k: int, n: nat)
    requires FromCase1(h) && WellFormed(h) && AllFive(h)
    requires 0 <= k < |h.expanded| && Fits(h.pattern, h.expanded[k], ss) && |ss| == 5 && n < 5
    ensures HasNext(Feed(New(h), ss[..n]).1)
  {
    FitsPrefix(h.pattern, h.expanded[k], ss, n);
    assert Longer(h, ss[..n], k);
    assert !ShortFit(h, ss[..n]);
    FeedMatches(h, ss[..n]);
  }

  /** After a fitting sequence, and after one more shape, its vector is complete: accepted, nothing left. */
  lemma Case1Closed(h: HoldExpandedPattern, ss: seq<Shape>, k: int)
    requires FromCase1(h) && WellFormed(h) && AllFive(h)
    requires 0 <= k < |h.expanded| && Fits(h.pattern, h.expanded[k], ss) && |ss| == 5
    ensures Feed(New(h), ss).0 && !HasNext(Feed(New(h), ss).1)
    ensures Feed(New(h), ss + [S]).0 && !HasNext(Feed(New(h), ss + [S]).1)
  {
    assert ss[..5] == ss && (ss + [S])[..5] == ss;
    assert Done(h, ss, k) && Done(h, ss + [S], k);
    FeedMatches(h, ss);
    FeedMatches(h, ss + [S]);
  }

  /**
   * `TIJLO`, `ILJOT` and `IJTOL`: before every shape the matcher has a
   * next shape to take, every shape is accepted, afterwards it has none,
   * and a further `S` is accepted too.
   */
  lemma Case1Accepts(h: HoldExpandedPattern, ss: seq<Shape>)
    requires FromCase1(h)
    requires ss == [T, I, J, L, O] || ss == [I, L, J, O, T] || ss == [I, J, T, O, L]
    ensures forall n :: 0 <= n < |ss| ==> HasNext(Feed(New(h), ss[..n]).1)
    ensures Feed(New(h), ss).0 && !HasNext(Feed(New(h), ss).1)
    ensures Feed(New(h), ss + [S]).0 && !HasNext(Feed(New(h), ss + [S]).1)
  {
    Case1WellFormed(h);
    var w := if ss == [T, I, J, L, O] then Case1Sequence()
             else if ss == [I, L, J, O, T] then [FixedShape(I), Shared(1), Shared(1), FixedShape(O), FixedShape(T)]
             else [FixedShape(I), Shared(1), FixedShape(T), FixedShape(O), Shared(1)];
    Case1Fits(h, w, ss);
    var k :| 0 <= k < |h.expanded| && h.expanded[k] == w;
    forall n | 0 <= n < |ss| ensures HasNext(Feed(New(h), ss[..n]).1) {
      Case1Open(h, ss, k, n);
    }
    Case1Closed(h, ss, k);
  }

  /** Every vector of the pattern starts with `T` or `I`, and has five slots. */
  lemma Case1Starts(h: HoldExpandedPattern, w: seq<HoldElement>)
    requires FromCase1(h) && w in h.expanded
    ensures |w| == 5 && (w[0] == FixedShape(T) || w[0] == FixedShape(I))
  {
    Case1Flattened();
    var c := SO.NewCursor(Case1Sequence());
    ExpansionsPermute(c, w);
    ExpansionsUnfold(c);
  }

  /** No vector of the pattern takes a leading `O`. */
  lemma NoLeadingO(h: HoldExpandedPattern, k: int)
    requires FromCase1(h) && PatternValid(h) && 0 <= k < |h.expanded|
    ensures !Done(h, [O], k) && !Longer(h, [O], k) && !Done(h, [O, O], k) && !Longer(h, [O, O], k)
  {
    var w := h.expanded[k];
    Case1Starts(h, w);
    assert [O, O][..1] == [O] && [O][..0] == [];
    assert !Fits(h.pattern, w, [O]);
  }

  /** A leading `O` is refused and leaves nothing to take; so is a second `O`. */
  lemma Case1RejectsLeadingO(h: HoldExpandedPattern)
    requires FromCase1(h)
    ensures !Feed(New(h), [O]).0 && !HasNext(Feed(New(h), [O]).1)
    ensures !Feed(New(h), [O, O]).0 && !HasNext(Feed(New(h), [O, O]).1)
  {
    Case1WellFormed(h);
    forall k | 0 <= k < |h.expanded|
      ensures !Done(h, [O], k) && !Longer(h, [O], k) && !Done(h, [O, O], k) && !Longer(h, [O, O], k)
    {
      NoLeadingO(h, k);
    }
    FeedMatches(h, [O]);
    FeedMatches(h, [O, O]);
  }
}
