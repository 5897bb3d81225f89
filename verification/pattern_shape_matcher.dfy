/**
 * `PatternShapeMatcher`: decides shape by shape whether a sequence
 * starts with one of a pattern's vectors. Every step returns a fresh
 * matcher value; a mismatch fails it for good and a complete match
 * accepts everything that follows.
 */
module PatternShapeMatchers {
  import opened Shapes
  import opened Wrappers
  import opened ShapeCounters
  import opened PatternElements
  import opened Patterns
  import BitShapesModel

  /** Progress inside the current element: the shapes it has taken and how many. */
  datatype MatcherBuffer = MatcherBuffer(consumed: ShapeCounter, index: nat)

  function EmptyBuffer(): MatcherBuffer
  {
    MatcherBuffer(ShapeCounters.Empty(), 0)
  }

  /** `BitShapes::get`: the shape at `i`, if there is one. */
  function FixedAt(b: BitShapesModel.BitShapes, i: nat): (r: Option<Shape>)
    ensures r.Some? <==> i < b.len
    ensures r.Some? ==> r.value == FixedShapes(b)[i]
  {
    if i < b.len then Some(FixedShapes(b)[i]) else None
  }

  /** `new_next_matcher`: stay in the element while it has shapes left to take. */
  function NextBuffer(b: MatcherBuffer, dim: nat, target: Shape): Option<MatcherBuffer>
    requires b.consumed.Valid()
  {
    if b.index + 1 < dim then Some(MatcherBuffer(Inc(b.consumed, target), b.index + 1)) else None
  }

  /** What a buffer may hold for `e`: a permutation or factorial never took more than its counter. */
  predicate BufferFits(b: MatcherBuffer, e: PatternElement)
  {
    WellFormed(e) && b.consumed.Valid() &&
    ((e.Permutation? || e.Factorial?) ==> ContainsAll(e.counter, b.consumed))
  }

  /** `PatternShapeMatcherBuffer::match_shape`: test `target` against the element and say where to go on. */
  function BufferMatch(b: MatcherBuffer, e: PatternElement, target: Shape): (r: (bool, Option<MatcherBuffer>))
    requires BufferFits(b, e)
    ensures !r.0 ==> r.1.None?
    ensures r.1.Some? ==> BufferFits(r.1.value, e) && r.1.value.index == b.index + 1
  {
    match e
    case One(s) => (target == s, None)
    case Fixed(shapes) =>
      (match FixedAt(shapes, b.index)
       case None => (false, None)
       case Some(s) => if target == s then (true, NextBuffer(b, shapes.len, target)) else (false, None))
    case Wildcard => (true, None)
    case Permutation(c, pop) =>
      if ShapeCounters.Contains(Sub(c, b.consumed), target) then (true, NextBuffer(b, pop, target)) else (false, None)
    case Factorial(c) =>
      if ShapeCounters.Contains(Sub(c, b.consumed), target) then (true, NextBuffer(b, TotalSize(c), target)) else (false, None)
  }

  datatype PatternShapeMatcher = PatternShapeMatcher(
    pattern: Pattern,
    current: Option<(nat, MatcherBuffer)>,
    next: Option<nat>,
    failed: bool)

  /** The element after `i`, if any. */
  function After(p: Pattern, i: nat): Option<nat>
  {
    if i + 1 < |p.elements| then Some(i + 1) else None
  }

  /**
   * The states a matcher passes through: the current element exists and its
   * buffer fits it, `next` is the element after it, and a finished or failed
   * matcher has no current element.
   */
  predicate Valid(m: PatternShapeMatcher)
  {
    (forall k :: 0 <= k < |m.pattern.elements| ==> WellFormed(m.pattern.elements[k])) &&
    (m.failed ==> m.current.None?) &&
    match m.current
    case None => m.next.None?
    case Some((i, b)) =>
      i < |m.pattern.elements| && m.next == After(m.pattern, i) && BufferFits(b, m.pattern.elements[i])
  }

  /** `new`: the first element with an empty buffer; the pattern may not be empty. */
  function New(p: Pattern): (m: PatternShapeMatcher)
    requires p.elements != []
    requires forall k :: 0 <= k < |p.elements| ==> WellFormed(p.elements[k])
    ensures Valid(m) && HasNext(m) && !m.failed
    ensures m.current == Some((0, EmptyBuffer())) && (m.next.Some? <==> 1 < |p.elements|)
  {
    assert BufferFits(EmptyBuffer(), p.elements[0]) by {
      assert Of([]) == EmptyBuffer().consumed;
    }
    if |p.elements| == 1 then PatternShapeMatcher(p, Some((0, EmptyBuffer())), None, false)
    else PatternShapeMatcher(p, Some((0, EmptyBuffer())), Some(1), false)
  }

  /** `has_next`: some element is still to be matched. */
  function HasNext(m: PatternShapeMatcher): bool
  {
    m.current.Some?
  }

  /** `match_shape`: the verdict for `target` and the matcher for the shape after it. */
  function MatchShape(m: PatternShapeMatcher, target: Shape): (r: (bool, PatternShapeMatcher))
    requires Valid(m)
    ensures Valid(r.1) && r.1.pattern == m.pattern
    ensures r.0 <==> !r.1.failed
    ensures m.failed ==> r == (false, m)
    ensures !m.failed && m.current.None? ==> r == (true, m)
    ensures !r.0 ==> !HasNext(r.1)
  {
    if m.failed then (false, m)
    else
      match m.current
      case None => (true, m)
      case Some((i, b)) =>
        var (matched, nextBuffer) := BufferMatch(b, m.pattern.elements[i], target);
        if !matched then (false, PatternShapeMatcher(m.pattern, None, None, true))
        else
          match nextBuffer
          case Some(b') => (true, PatternShapeMatcher(m.pattern, Some((i, b')), m.next, false))
          case None =>
            (match m.next
             case None => (true, PatternShapeMatcher(m.pattern, None, None, false))
             case Some(j) =>
               assert BufferFits(EmptyBuffer(), m.pattern.elements[j]) by {
                 assert Of([]) == EmptyBuffer().consumed;
               }
               (true, PatternShapeMatcher(m.pattern, Some((j, EmptyBuffer())), After(m.pattern, j), false)))
  }

  /** Feeding shapes one after another: whether every step matched, and the last matcher. */
  function Feed(m: PatternShapeMatcher, shapes: seq<Shape>): (r: (bool, PatternShapeMatcher))
    requires Valid(m)
    ensures Valid(r.1) && r.1.pattern == m.pattern
    decreases |shapes|
  {
    if shapes == [] then (true, m)
    else
      var (ok, next) := MatchShape(m, shapes[0]);
      var (rest, last) := Feed(next, shapes[1..]);
      (ok && rest, last)
  }

  /** A failed matcher rejects whatever follows. */
  lemma {:induction false} FeedFailed(m: PatternShapeMatcher, shapes: seq<Shape>)
    requires Valid(m) && m.failed && shapes != []
    ensures Feed(m, shapes) == (false, m)
  {
    if |shapes| > 1 {
      FeedFailed(m, shapes[1..]);
    }
  }

  /** A matcher that reached the end accepts whatever follows and stays at the end. */
  lemma {:induction false} FeedExhausted(m: PatternShapeMatcher, shapes: seq<Shape>)
    requires Valid(m) && !m.failed && m.current.None?
    ensures Feed(m, shapes) == (true, m)
  {
    if shapes != [] {
      FeedExhausted(m, shapes[1..]);
    }
  }

  /**
   * Shapes an element may still take after `done`: a permutation or
   * factorial holds them, a fixed element has them as its prefix, a single
   * shape is that shape.
   */
  predicate Partial(e: PatternElement, done: seq<Shape>)
    requires PatternElements.Expandable(e)
  {
    |done| <= Dim(e) &&
    match e
    case One(s) => forall k :: 0 <= k < |done| ==> done[k] == s
    case Fixed(b) => done == FixedShapes(b)[..|done|]
    case Wildcard => true
    case Permutation(c, _) => ContainsAll(c, Of(done))
    case Factorial(c) => ContainsAll(c, Of(done))
  }

  /** Nothing taken yet is always a start. */
  lemma PartialEmpty(e: PatternElement)
    requires PatternElements.Expandable(e)
    ensures Partial(e, [])
  {
  }

  /** A start of a start is a start. */
  lemma PartialPrefix(e: PatternElement, done: seq<Shape>, j: nat)
    requires PatternElements.Expandable(e) && Partial(e, done) && j <= |done|
    ensures Partial(e, done[..j])
  {
    if e.Permutation? || e.Factorial? {
      assert done == done[..j] + done[j..];
      assert multiset(done[..j]) <= multiset(done);
    }
  }

  /** A complete start is exactly what `contains` accepts for the element. */
  lemma PartialFull(e: PatternElement, done: seq<Shape>)
    requires PatternElements.Expandable(e) && |done| == Dim(e)
    ensures Partial(e, done) <==> Accepts(e, done)
  {
    match e
    case One(s) =>
    case Fixed(b) =>
      assert FixedShapes(b)[..|done|] == FixedShapes(b);
    case Wildcard =>
    case Permutation(c, _) =>
    case Factorial(c) =>
      TotalSizeOf(done);
      if ContainsAll(c, Of(done)) {
        ContainsAllSameSize(c, Of(done));
      }
  }

  /**
   * One step inside an element: the buffer built from `done` accepts
   * `target` exactly when `done + [target]` is still a start, and it stays in
   * the element exactly while the element has room.
   */
  lemma PartialStep(e: PatternElement, done: seq<Shape>, target: Shape)
    requires PatternElements.Expandable(e) && Partial(e, done) && |done| < Dim(e)
    ensures BufferFits(MatcherBuffer(Of(done), |done|), e)
    ensures var r := BufferMatch(MatcherBuffer(Of(done), |done|), e, target);
      (r.0 <==> Partial(e, done + [target])) &&
      (r.0 ==> r.1 == if |done| + 1 < Dim(e) then Some(MatcherBuffer(Of(done + [target]), |done| + 1)) else None)
  {
    if e.Fixed? {
      FixedStep(e, done, target);
    } else if e.Permutation? || e.Factorial? {
      CounterStep(e, done, target);
    } else {
      SingleStep(e, done, target);
    }
  }

  lemma SingleStep(e: PatternElement, done: seq<Shape>, target: Shape)
    requires e.One? || e.Wildcard?
    requires PatternElements.Expandable(e) && Partial(e, done) && |done| < Dim(e)
    ensures BufferFits(MatcherBuffer(Of(done), |done|), e)
    ensures var r := BufferMatch(MatcherBuffer(Of(done), |done|), e, target);
      (r.0 <==> Partial(e, done + [target])) &&
      (r.0 ==> r.1 == if |done| + 1 < Dim(e) then Some(MatcherBuffer(Of(done + [target]), |done| + 1)) else None)
  {
    assert done == [] && done + [target] == [target];
    assert [target][0] == target;
    assert Partial(e, [target]) <==> (e.One? ==> target == e.shape);
  }

  lemma FixedStep(e: PatternElement, done: seq<Shape>, target: Shape)
    requires e.Fixed?
    requires PatternElements.Expandable(e) && Partial(e, done) && |done| < Dim(e)
    ensures BufferFits(MatcherBuffer(Of(done), |done|), e)
    ensures var r := BufferMatch(MatcherBuffer(Of(done), |done|), e, target);
      (r.0 <==> Partial(e, done + [target])) &&
      (r.0 ==> r.1 == if |done| + 1 < Dim(e) then Some(MatcherBuffer(Of(done + [target]), |done| + 1)) else None)
  {
    PartialStepFixed(e.shapes, done, target);
    OfSnoc(done, target);
  }

  lemma CounterStep(e: PatternElement, done: seq<Shape>, target: Shape)
    requires e.Permutation? || e.Factorial?
    requires PatternElements.Expandable(e) && Partial(e, done) && |done| < Dim(e)
    ensures BufferFits(MatcherBuffer(Of(done), |done|), e)
    ensures var r := BufferMatch(MatcherBuffer(Of(done), |done|), e, target);
      (r.0 <==> Partial(e, done + [target])) &&
      (r.0 ==> r.1 == if |done| + 1 < Dim(e) then Some(MatcherBuffer(Of(done + [target]), |done| + 1)) else None)
  {
    match e
    case Permutation(c, pop) => CounterStepWith(e, c, pop, done, target);
    case Factorial(c) => CounterStepWith(e, c, TotalSize(c), done, target);
  }

  /** `CounterStep` for an element with counter `c` whose expansion has `n` shapes. */
  lemma CounterStepWith(e: PatternElement, c: ShapeCounter, n: nat, done: seq<Shape>, target: Shape)
    requires e == Permutation(c, n) || e == Factorial(c)
    requires PatternElements.Expandable(e) && Dim(e) == n && |done| < n
    requires ContainsAll(c, Of(done))
    ensures BufferFits(MatcherBuffer(Of(done), |done|), e)
    ensures var r := BufferMatch(MatcherBuffer(Of(done), |done|), e, target);
      (r.0 <==> ContainsAll(c, Of(done + [target]))) &&
      (r.0 ==> r.1 == if |done| + 1 < n then Some(MatcherBuffer(Of(done + [target]), |done| + 1)) else None)
  {
    PartialStepCounter(c, done, target);
    NextBufferOf(n, done, target);
  }

  lemma PartialStepCounter(c: ShapeCounter, done: seq<Shape>, target: Shape)
    requires c.Valid() && ContainsAll(c, Of(done))
    ensures ContainsAll(c, Of(done + [target])) <==> ShapeCounters.Contains(Sub(c, Of(done)), target)
  {
    OfSnoc(done, target);
    ContainsAllInc(c, Of(done), target);
  }

  lemma NextBufferOf(n: nat, done: seq<Shape>, target: Shape)
    ensures NextBuffer(MatcherBuffer(Of(done), |done|), n, target) ==
      if |done| + 1 < n then Some(MatcherBuffer(Of(done + [target]), |done| + 1)) else None
  {
    OfSnoc(done, target);
  }

  lemma PartialStepFixed(b: BitShapesModel.BitShapes, done: seq<Shape>, target: Shape)
    requires |done| < b.len && done == FixedShapes(b)[..|done|]
    ensures done + [target] == FixedShapes(b)[..|done| + 1] <==> target == FixedShapes(b)[|done|]
  {
    assert FixedShapes(b)[..|done| + 1] == FixedShapes(b)[..|done|] + [FixedShapes(b)[|done|]];
  }

  /**
   * One step of the whole matcher inside element `i`: it matches exactly
   * when the element can take `target`, and then either stays in the
   * element, moves to the next one with an empty buffer, or reaches the end.
   */
  lemma MatchStep(m: PatternShapeMatcher, i: nat, done: seq<Shape>, target: Shape)
    requires Valid(m) && Patterns.Expandable(m.pattern) && !m.failed
    requires i < |m.pattern.elements| && |done| < Dim(m.pattern.elements[i])
    requires m.current == Some((i, MatcherBuffer(Of(done), |done|)))
    requires Partial(m.pattern.elements[i], done)
    ensures var r := MatchShape(m, target); var e := m.pattern.elements[i];
      (r.0 <==> Partial(e, done + [target])) &&
      (r.0 && |done| + 1 < Dim(e) ==> r.1 == m.(current := Some((i, MatcherBuffer(Of(done + [target]), |done| + 1))))) &&
      (r.0 && |done| + 1 == Dim(e) && i + 1 < |m.pattern.elements| ==>
        r.1 == PatternShapeMatcher(m.pattern, Some((i + 1, EmptyBuffer())), After(m.pattern, i + 1), false)) &&
      (r.0 && |done| + 1 == Dim(e) && i + 1 == |m.pattern.elements| ==> r.1.current.None? && !r.1.failed)
  {
    PartialStep(m.pattern.elements[i], done, target);
  }

  /** Feeding a non-empty sequence is one step and then the rest. */
  lemma FeedCons(m: PatternShapeMatcher, shapes: seq<Shape>)
    requires Valid(m) && shapes != []
    ensures Feed(m, shapes).0 == (MatchShape(m, shapes[0]).0 && Feed(MatchShape(m, shapes[0]).1, shapes[1..]).0)
    ensures Feed(m, shapes).1 == Feed(MatchShape(m, shapes[0]).1, shapes[1..]).1
  {
  }

  /** Every element has at least one shape, so the matcher never meets an empty one. */
  predicate Matchable(p: Pattern)
  {
    Patterns.Expandable(p) && p.elements != [] &&
    forall k :: 0 <= k < |p.elements| ==> 0 < Dim(p.elements[k])
  }

  lemma SliceSnoc<T>(v: seq<T>, a: nat, b: nat)
    requires a <= b < |v|
    ensures v[a..b + 1] == v[a..b] + [v[b]]
    ensures v[b..] != [] && v[b..][0] == v[b] && v[b..][1..] == v[b + 1..]
  {
  }

  lemma PrefixOfSlice<T>(v: seq<T>, a: nat, b: nat, c: nat)
    requires a <= c <= b <= |v|
    ensures v[a..b][..c - a] == v[a..c]
  {
  }

  lemma SliceOfPrefix(v: seq<Shape>, d: nat, a: nat, b: nat)
    requires a <= b <= d <= |v|
    ensures v[..d][a..b] == v[a..b]
  {
  }

  /**
   * The matcher standing in element `i` of `es`, having taken `v[index..pos]`
   * of it, accepts the rest of `v` exactly when that element and all after
   * it accept their slices of `v[..d]`; and it then ends with nothing left.
   */
  lemma {:induction false} FeedFrom(m: PatternShapeMatcher, es: seq<PatternElement>, v: seq<Shape>, d: nat,
                                    i: nat, index: nat, end: nat, pos: nat)
    requires Valid(m) && Matchable(m.pattern) && !m.failed && m.pattern.elements == es
    requires i < |es| && end == index + Dim(es[i]) && index <= pos < end
    requires end + DimFrom(es, i + 1) == d <= |v|
    requires m.current == Some((i, MatcherBuffer(Of(v[index..pos]), pos - index)))
    requires Partial(es[i], v[index..pos])
    ensures Feed(m, v[pos..]).0 <==> Accepts(es[i], v[index..end]) && MatchesAt(es, i + 1, v[..d], end)
    ensures Feed(m, v[pos..]).0 ==> !HasNext(Feed(m, v[pos..]).1)
    decreases |v| - pos, 1
  {
    if !Partial(es[i], v[index..pos + 1]) {
      FeedFromReject(m, es, v, d, i, index, end, pos);
    } else if pos + 1 < end {
      FeedFromStay(m, es, v, d, i, index, end, pos);
    } else {
      FeedFromLeave(m, es, v, d, i, index, end, pos);
    }
  }

  /** The next shape does not fit the element: the matcher fails and so does the slice. */
  lemma {:induction false} FeedFromReject(m: PatternShapeMatcher, es: seq<PatternElement>, v: seq<Shape>, d: nat,
                                    i: nat, index: nat, end: nat, pos: nat)
    requires Valid(m) && Matchable(m.pattern) && !m.failed && m.pattern.elements == es
    requires i < |es| && end == index + Dim(es[i]) && index <= pos < end
    requires end + DimFrom(es, i + 1) == d <= |v|
    requires m.current == Some((i, MatcherBuffer(Of(v[index..pos]), pos - index)))
    requires Partial(es[i], v[index..pos])
    requires !Partial(es[i], v[index..pos + 1])
    ensures Feed(m, v[pos..]).0 <==> Accepts(es[i], v[index..end]) && MatchesAt(es, i + 1, v[..d], end)
    ensures Feed(m, v[pos..]).0 ==> !HasNext(Feed(m, v[pos..]).1)
    decreases |v| - pos, 0
  {
    SliceSnoc(v, index, pos);
    MatchStep(m, i, v[index..pos], v[pos]);
    FeedRejected(m, v[pos..]);
    SliceRejected(es[i], v, index, end, pos);
  }

  /** A matcher that rejects the first shape rejects the whole sequence. */
  lemma FeedRejected(m: PatternShapeMatcher, shapes: seq<Shape>)
    requires Valid(m) && shapes != [] && !MatchShape(m, shapes[0]).0
    ensures !Feed(m, shapes).0
  {
  }

  /** A matcher that accepts the first shape goes on with the rest from its next state. */
  lemma FeedAccepted(m: PatternShapeMatcher, shapes: seq<Shape>)
    requires Valid(m) && shapes != [] && MatchShape(m, shapes[0]).0
    ensures Feed(m, shapes) == Feed(MatchShape(m, shapes[0]).1, shapes[1..])
  {
    FeedCons(m, shapes);
  }

  /** A slice whose start is no start of the element is not accepted by it. */
  lemma SliceRejected(e: PatternElement, v: seq<Shape>, index: nat, end: nat, pos: nat)
    requires PatternElements.Expandable(e) && end == index + Dim(e) && index <= pos < end <= |v|
    requires !Partial(e, v[index..pos + 1])
    ensures !Accepts(e, v[index..end])
  {
    if Accepts(e, v[index..end]) {
      PartialFull(e, v[index..end]);
      PartialPrefix(e, v[index..end], pos + 1 - index);
      PrefixOfSlice(v, index, end, pos + 1);
    }
  }

  /** The next shape fits and the element has room for more: stay in it. */
  lemma {:induction false} FeedFromStay(m: PatternShapeMatcher, es: seq<PatternElement>, v: seq<Shape>, d: nat,
                                        i: nat, index: nat, end: nat, pos: nat)
    requires Valid(m) && Matchable(m.pattern) && !m.failed && m.pattern.elements == es
    requires i < |es| && end == index + Dim(es[i]) && index <= pos < end
    requires end + DimFrom(es, i + 1) == d <= |v|
    requires m.current == Some((i, MatcherBuffer(Of(v[index..pos]), pos - index)))
    requires Partial(es[i], v[index..pos])
    requires Partial(es[i], v[index..pos + 1]) && pos + 1 < end
    ensures Feed(m, v[pos..]).0 <==> Accepts(es[i], v[index..end]) && MatchesAt(es, i + 1, v[..d], end)
    ensures Feed(m, v[pos..]).0 ==> !HasNext(Feed(m, v[pos..]).1)
    decreases |v| - pos, 0
  {
    var next := StayStep(m, es, v, d, i, index, end, pos);
    FeedFrom(next, es, v, d, i, index, end, pos + 1);
  }

  /** Staying in the element: the matcher stands one shape further and is fed the rest from there. */
  lemma StayStep(m: PatternShapeMatcher, es: seq<PatternElement>, v: seq<Shape>, d: nat,
                 i: nat, index: nat, end: nat, pos: nat) returns (next: PatternShapeMatcher)
    requires Valid(m) && Matchable(m.pattern) && !m.failed && m.pattern.elements == es
    requires i < |es| && end == index + Dim(es[i]) && index <= pos < end
    requires end + DimFrom(es, i + 1) == d <= |v|
    requires m.current == Some((i, MatcherBuffer(Of(v[index..pos]), pos - index)))
    requires Partial(es[i], v[index..pos])
    requires Partial(es[i], v[index..pos + 1]) && pos + 1 < end
    ensures Valid(next) && Matchable(next.pattern) && !next.failed && next.pattern.elements == es
    ensures next.current == Some((i, MatcherBuffer(Of(v[index..pos + 1]), pos + 1 - index)))
    ensures Feed(m, v[pos..]) == Feed(next, v[pos + 1..])
  {
    SliceSnoc(v, index, pos);
    next := MatchStay(m, i, v[index..pos], v[pos], v[index..pos + 1], pos + 1 - index);
    FeedOn(m, v, pos, next);
  }

  /** A matcher that accepts `v[pos]` and goes to `next` is fed the rest of `v` from there. */
  lemma FeedOn(m: PatternShapeMatcher, v: seq<Shape>, pos: nat, next: PatternShapeMatcher)
    requires Valid(m) && pos < |v| && MatchShape(m, v[pos]) == (true, next)
    ensures Feed(m, v[pos..]) == Feed(next, v[pos + 1..])
  {
    assert v[pos..][0] == v[pos] && v[pos..][1..] == v[pos + 1..];
    FeedAccepted(m, v[pos..]);
  }

  /** A shape that fits and leaves room in element `i` keeps the matcher there with `done'` taken. */
  lemma MatchStay(m: PatternShapeMatcher, i: nat, done: seq<Shape>, target: Shape, done': seq<Shape>, k: nat)
    returns (next: PatternShapeMatcher)
    requires Valid(m) && Patterns.Expandable(m.pattern) && !m.failed
    requires i < |m.pattern.elements| && |done| + 1 < Dim(m.pattern.elements[i])
    requires m.current == Some((i, MatcherBuffer(Of(done), |done|)))
    requires Partial(m.pattern.elements[i], done) && done' == done + [target]
    requires Partial(m.pattern.elements[i], done') && k == |done'|
    ensures next.pattern == m.pattern && next.current == Some((i, MatcherBuffer(Of(done'), k)))
    ensures MatchShape(m, target) == (true, next) && Valid(next) && !next.failed
  {
    MatchStep(m, i, done, target);
    next := m.(current := Some((i, MatcherBuffer(Of(done'), |done'|))));
  }

  /** The next shape completes the element: move on to the next one. */
  lemma {:induction false} FeedFromLeave(m: PatternShapeMatcher, es: seq<PatternElement>, v: seq<Shape>, d: nat,
                                    i: nat, index: nat, end: nat, pos: nat)
    requires Valid(m) && Matchable(m.pattern) && !m.failed && m.pattern.elements == es
    requires i < |es| && end == index + Dim(es[i]) && index <= pos < end
    requires end + DimFrom(es, i + 1) == d <= |v|
    requires m.current == Some((i, MatcherBuffer(Of(v[index..pos]), pos - index)))
    requires Partial(es[i], v[index..pos])
    requires Partial(es[i], v[index..pos + 1]) && pos + 1 == end
    ensures Feed(m, v[pos..]).0 <==> Accepts(es[i], v[index..end]) && MatchesAt(es, i + 1, v[..d], end)
    ensures Feed(m, v[pos..]).0 ==> !HasNext(Feed(m, v[pos..]).1)
    decreases |v| - pos, 0
  {
    var done := v[index..pos];
    var t := v[pos];
    SliceSnoc(v, index, pos);
    FeedCons(m, v[pos..]);
    MatchStep(m, i, done, t);
    PartialFull(es[i], v[index..end]);
    FeedEnter(MatchShape(m, t).1, es, v, d, i + 1, end);
  }

  /**
   * A matcher entering element `j` of `es` (or the end, when `j` is past the
   * last element) at `index` accepts the rest of `v` exactly when the
   * elements from `j` on accept their slices of `v[..d]`.
   */
  lemma {:induction false} FeedEnter(m: PatternShapeMatcher, es: seq<PatternElement>, v: seq<Shape>, d: nat, j: nat, index: nat)
    requires Valid(m) && Matchable(m.pattern) && !m.failed && m.pattern.elements == es
    requires j <= |es| && index + DimFrom(es, j) == d <= |v|
    requires j < |es| ==> m.current == Some((j, EmptyBuffer()))
    requires j == |es| ==> m.current.None?
    ensures Feed(m, v[index..]).0 <==> MatchesAt(es, j, v[..d], index)
    ensures Feed(m, v[index..]).0 ==> !HasNext(Feed(m, v[index..]).1)
    decreases |v| - index, 2
  {
    if j == |es| {
      FeedExhausted(m, v[index..]);
    } else {
      var e := es[j];
      SliceSnoc(v, index, index);
      PartialEmpty(e);
      FeedFrom(m, es, v, d, j, index, index + Dim(e), index);
      SliceOfPrefix(v, d, index, index + Dim(e));
    }
  }

  /**
   * The matcher agrees with `contains`: fed a sequence at least as long as
   * the pattern's dimension, every step matches exactly when the sequence
   * starts with one of the pattern's vectors, and the matcher then has
   * nothing left.
   */
  lemma FeedIsContains(p: Pattern, v: seq<Shape>)
    requires Matchable(p) && DimShapes(p) <= |v|
    ensures Feed(New(p), v).0 <==> v[..DimShapes(p)] in ShapesVecOf(p)
    ensures Feed(New(p), v).0 ==> !HasNext(Feed(New(p), v).1)
  {
    var d := DimShapes(p);
    assert v[0..] == v;
    FeedEnter(New(p), p.elements, v, d, 0, 0);
    ListedIffMatches(p, v[..d]);
  }

  /**
   * Where the agreement stops: `Fixed(BitShapes::empty())` followed by `T`
   * is a pattern `try_new` accepts, and `contains` lists `T` for it, but
   * the matcher finds no shape at index 0 of the empty element and fails
   * on the first shape.
   */
  lemma EmptyFixedDisagrees()
    ensures var p := Pattern([Fixed(BitShapesModel.Empty()), One(T)]);
      TryNew(p.elements) == Ok(p) && Patterns.Expandable(p) && !Matchable(p) && DimShapes(p) == 1 &&
      [T] in ShapesVecOf(p) && !Feed(New(p), [T]).0
  {
    var p := Pattern([Fixed(BitShapesModel.Empty()), One(T)]);
    assert !InvalidPermutation(p.elements[0]) && !InvalidPermutation(p.elements[1]);
    assert DimFrom(p.elements, 2) == 0;
    ListedIffMatches(p, [T]);
    assert [T][0..0] == FixedShapes(BitShapesModel.Empty());
    assert MatchesAt(p.elements, 2, [T], 1);
    assert [T][0..1] == [T];
    assert MatchesAt(p.elements, 1, [T], 0);
    FeedCons(New(p), [T]);
  }
}
