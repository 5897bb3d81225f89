/**
 * `ShapeMatcher2`: matches shapes one at a time against every hold-expanded
 * vector of a pattern at once. Each vector has its own candidate, which
 * remembers how far it got and, for the pattern elements that are shared
 * and not yet used up, the shapes given to them so far.
 */
module HoldExpandedPatternShapeMatchers {
  import opened Shapes
  import opened Wrappers
  import opened ShapeCounters
  import opened PatternElements
  import opened Patterns
  import opened HoldExpandedPatterns

  /** A store entry: a pattern element's index and the shapes it has consumed. */
  type Entry = (nat, ShapeCounter)

  /** `HoldExpandedPatternShapeMatcher`: one candidate vector and how far it got. */
  datatype Candidate = Candidate(vector: nat, stored: seq<Entry>, current: Option<nat>)

  datatype ShapeMatcher2 = ShapeMatcher2(pattern: HoldExpandedPattern, candidates: seq<Candidate>, succeedAlways: bool)

  /** The kinds of element a slot can share. */
  predicate SharedKind(e: PatternElement)
  {
    e.Wildcard? || e.Permutation? || e.Factorial?
  }

  /** Every share in `w` names an expandable element of `p` that can be shared. */
  predicate SharesValid(p: Pattern, w: seq<HoldElement>)
  {
    forall k :: 0 <= k < |w| && w[k].Shared? ==>
      w[k].element < |p.elements| && SharedKind(p.elements[w[k].element]) &&
      PatternElements.Expandable(p.elements[w[k].element])
  }

  predicate PatternValid(h: HoldExpandedPattern)
  {
    forall i :: 0 <= i < |h.expanded| ==> SharesValid(h.pattern, h.expanded[i])
  }

  /** The store is an array of two: at most two entries, for different elements. */
  predicate StoreValid(stored: seq<Entry>)
  {
    && |stored| <= 2
    && (|stored| == 2 ==> stored[0].0 != stored[1].0)
    && forall k :: 0 <= k < |stored| ==> stored[k].1.Valid()
  }

  predicate CandidateValid(h: HoldExpandedPattern, c: Candidate)
  {
    && c.vector < |h.expanded|
    && (c.current.Some? ==> c.current.value < |h.expanded[c.vector]|)
    && StoreValid(c.stored)
  }

  /** What every matcher built by `new` and `match_shape` satisfies. */
  predicate Valid(m: ShapeMatcher2)
  {
    && PatternValid(m.pattern)
    && (forall k :: 0 <= k < |m.candidates| ==> CandidateValid(m.pattern, m.candidates[k]))
    && (m.succeedAlways ==> m.candidates == [])
  }

  /** `new`: one candidate per vector, each at its first slot; the vectors must exist and be non-empty. */
  function New(h: HoldExpandedPattern): (m: ShapeMatcher2)
    requires 0 < |h.expanded|
    requires forall i :: 0 <= i < |h.expanded| ==> h.expanded[i] != []
    ensures PatternValid(h) ==> Valid(m)
    ensures HasNext(m) && !m.succeedAlways && m.pattern == h
    ensures |m.candidates| == |h.expanded|
    ensures forall k :: 0 <= k < |m.candidates| ==> m.candidates[k] == Candidate(k, [], Some(0))
  {
    var m := ShapeMatcher2(h, seq(|h.expanded|, (i: nat) => Candidate(i, [], Some(0))), false);
    assert m.candidates[0].current.Some?;
    m
  }

  /** `has_next`: some candidate still has a slot to fill. */
  predicate HasNext(m: ShapeMatcher2)
  {
    |m.candidates| > 0 && exists k :: 0 <= k < |m.candidates| && m.candidates[k].current.Some?
  }

  /** Where element `j` sits in the store: the source looks at the first two entries only. */
  function StoreIndex(stored: seq<Entry>, j: nat): (r: Option<nat>)
    ensures r.Some? ==> r.value < |stored| && r.value < 2 && stored[r.value].0 == j
    ensures r.None? ==> forall k :: 0 <= k < |stored| && k < 2 ==> stored[k].0 != j
  {
    if 0 < |stored| && stored[0].0 == j then Some(0)
    else if 1 < |stored| && stored[1].0 == j then Some(1)
    else None
  }

  /** Element `j` can be given a shape without a push onto a full store, which panics: it has an entry already, or there is room for one. */
  predicate Room(stored: seq<Entry>, j: nat)
  {
    StoreIndex(stored, j).Some? || |stored| < 2
  }

  /**
   * The store after element `j` (which is `e`) takes `target`: its entry,
   * created empty if absent, counts `target`; `None` if the element cannot
   * take that many of it, and the entry is dropped once the element is used up.
   */
  function SharedStep(e: PatternElement, stored: seq<Entry>, j: nat, target: Shape): (r: Option<seq<Entry>>)
    requires SharedKind(e) && PatternElements.Expandable(e) && StoreValid(stored) && Room(stored, j)
    ensures r.Some? ==> StoreValid(r.value)
  {
    var base := if StoreIndex(stored, j).Some? then stored else stored + [(j, Empty())];
    var k := if StoreIndex(stored, j).Some? then StoreIndex(stored, j).value else |stored|;
    var consumed := Inc(base[k].1, target);
    var updated := base[..k] + [(j, consumed)] + base[k + 1..];
    var matches := if e.Wildcard? then true else ContainsAll(e.counter, consumed);
    if !matches then None
    else if TotalSize(consumed) == Dim(e) then Some(updated[..k] + updated[k + 1..])
    else Some(updated)
  }

  /** The candidate's next slot, if it is shared, does not push onto a full store. */
  predicate CandidateCanStep(h: HoldExpandedPattern, c: Candidate)
    requires CandidateValid(h, c)
  {
    c.current.Some? && h.expanded[c.vector][c.current.value].Shared? ==>
      Room(c.stored, h.expanded[c.vector][c.current.value].element)
  }

  /** No candidate of the matcher would make `match_shape` panic. */
  predicate CanStep(m: ShapeMatcher2)
    requires Valid(m)
  {
    forall k :: 0 <= k < |m.candidates| ==> CandidateCanStep(m.pattern, m.candidates[k])
  }

  /**
   * One candidate taking `target`: `None` if it is finished, if its slot is
   * a different fixed shape or if the shared element refuses the shape;
   * otherwise the candidate moves to its next slot (to `None` after the last).
   */
  function CandidateStep(h: HoldExpandedPattern, c: Candidate, target: Shape): (r: Option<Candidate>)
    requires PatternValid(h) && CandidateValid(h, c) && CandidateCanStep(h, c)
    ensures r.Some? ==> CandidateValid(h, r.value) && r.value.vector == c.vector
    ensures r.Some? ==> c.current.Some? && r.value.current == if c.current.value + 1 < |h.expanded[c.vector]| then Some(c.current.value + 1) else None
  {
    if c.current.None? then None
    else
      var i := c.current.value;
      var w := h.expanded[c.vector];
      assert SharesValid(h.pattern, w);
      var stored := match w[i]
        case FixedShape(s) => if target != s then None else Some(c.stored)
        case Shared(j) => SharedStep(h.pattern.elements[j], c.stored, j, target);
      if stored.None? then None
      else Some(Candidate(c.vector, stored.value, if i + 1 < |w| then Some(i + 1) else None))
  }

  /** The candidates that survive `target`, in their order. */
  function StepAll(h: HoldExpandedPattern, cs: seq<Candidate>, target: Shape): (r: seq<Candidate>)
    requires PatternValid(h)
    requires forall k :: 0 <= k < |cs| ==> CandidateValid(h, cs[k]) && CandidateCanStep(h, cs[k])
    ensures |r| <= |cs|
    ensures forall k :: 0 <= k < |r| ==> CandidateValid(h, r[k])
    decreases |cs|
  {
    if cs == [] then []
    else
      var rest := StepAll(h, cs[..|cs| - 1], target);
      match CandidateStep(h, cs[|cs| - 1], target)
      case None => rest
      case Some(c) => rest + [c]
  }

  /** `match_shape` as a function of the matcher and the shape. */
  function MatchShapeSpec(m: ShapeMatcher2, target: Shape): (r: (bool, ShapeMatcher2))
    requires Valid(m) && CanStep(m)
  {
    if m.succeedAlways then (true, m)
    else if m.candidates == [] then (false, m)
    else
      var next := StepAll(m.pattern, m.candidates, target);
      var succeed := next != [];
      var always := succeed && exists k :: 0 <= k < |next| && next[k].current.None?;
      (succeed, ShapeMatcher2(m.pattern, if always then [] else next, always))
  }

  /**
   * `match_shape`: an always-succeeding matcher stays so; otherwise every
   * candidate takes the shape, the survivors are kept in order, and the
   * match succeeds when some survive. When a survivor has finished its
   * vector, the matcher succeeds from then on.
   */
  method MatchShape(m: ShapeMatcher2, target: Shape) returns (matched: bool, next: ShapeMatcher2)
    requires Valid(m) && CanStep(m)
    ensures (matched, next) == MatchShapeSpec(m, target)
  {
    if m.succeedAlways {
      return true, m;
    }
    if m.candidates == [] {
      return false, m;
    }
    var nextCandidates: seq<Candidate> := [];
    for k := 0 to |m.candidates|
      invariant nextCandidates == StepAll(m.pattern, m.candidates[..k], target)
    {
      assert m.candidates[..k + 1][..k] == m.candidates[..k];
      match CandidateStep(m.pattern, m.candidates[k], target) {
        case None =>
        case Some(c) => nextCandidates := nextCandidates + [c];
      }
    }
    assert m.candidates[..|m.candidates|] == m.candidates;
    var succeed := nextCandidates != [];
    var always := succeed && exists k :: 0 <= k < |nextCandidates| && nextCandidates[k].current.None?;
    matched := succeed;
    next := ShapeMatcher2(m.pattern, if always then [] else nextCandidates, always);
  }

  /**
   * What `match_shape` promises: the result stays valid; a failed match
   * leaves no next shape; an always-succeeding matcher stays as it is; and
   * a successful match keeps a next shape unless the matcher now succeeds always.
   */
  lemma MatchShapeProperties(m: ShapeMatcher2, target: Shape)
    requires Valid(m) && CanStep(m)
    ensures Valid(MatchShapeSpec(m, target).1)
    ensures MatchShapeSpec(m, target).1.pattern == m.pattern
    ensures !MatchShapeSpec(m, target).0 ==> !HasNext(MatchShapeSpec(m, target).1)
    ensures m.succeedAlways ==> MatchShapeSpec(m, target) == (true, m)
    ensures MatchShapeSpec(m, target).1.succeedAlways ==> MatchShapeSpec(m, target).0 && !HasNext(MatchShapeSpec(m, target).1)
    ensures MatchShapeSpec(m, target).0 && !MatchShapeSpec(m, target).1.succeedAlways ==> HasNext(MatchShapeSpec(m, target).1)
  {
    if !m.succeedAlways && m.candidates != [] {
      var next := StepAll(m.pattern, m.candidates, target);
      if next != [] && !exists k :: 0 <= k < |next| && next[k].current.None? {
        assert next[0].current.Some?;
      }
    }
  }

  /**
   * One shape given to a matcher: `match_shape` on the matchers it can
   * take a shape without panicking; any other matcher refuses.
   */
  function Step(m: ShapeMatcher2, target: Shape): (bool, ShapeMatcher2)
  {
    if Valid(m) && CanStep(m) then MatchShapeSpec(m, target) else (false, m)
  }

  /** Shapes given one by one: whether every match succeeded, and the matcher after the last. */
  function Feed(m: ShapeMatcher2, shapes: seq<Shape>): (bool, ShapeMatcher2)
    decreases |shapes|
  {
    if shapes == [] then (true, m)
    else
      var before := Feed(m, shapes[..|shapes| - 1]);
      var after := Step(before.1, shapes[|shapes| - 1]);
      (before.0 && after.0, after.1)
  }
}
