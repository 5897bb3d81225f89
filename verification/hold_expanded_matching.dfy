/**
 * What `ShapeMatcher2` decides. A sequence of shapes fits a hold-expanded
 * vector when every shape fits its slot: a fixed slot takes its own
 * shape, and the slots sharing a pattern element take shapes that element
 * allows. Fed to the matcher built for a pattern, a sequence is accepted
 * exactly when it fits (as far as it goes) one of the pattern's vectors,
 * provided that no vector needs a third store entry, which the
 * two-entry store of each candidate cannot hold.
 */
module HoldExpandedMatching {
  import opened Shapes
  import opened Wrappers
  import opened ShapeCounters
  import opened PatternElements
  import opened Patterns
  import opened HoldExpandedPatterns
  import opened HoldExpandedPatternShapeMatchers

  /** How many of the first `n` slots of `w` share element `j`. */
  function Occ(w: seq<HoldElement>, n: nat, j: nat): nat
    requires n <= |w|
  {
    if n == 0 then 0 else Occ(w, n - 1, j) + if w[n - 1] == Shared(j) then 1 else 0
  }

  /** The shapes `ss` gives to the slots of `w` that share element `j`: as many as those slots. */
  function Consumed(w: seq<HoldElement>, ss: seq<Shape>, j: nat): (r: ShapeCounter)
    requires |ss| <= |w|
    ensures r.Valid() && TotalSize(r) == Occ(w, |ss|, j)
  {
    if ss == [] then Empty()
    else
      var c := Consumed(w, ss[..|ss| - 1], j);
      if w[|ss| - 1] != Shared(j) then c
      else
        IncTotal(c, ss[|ss| - 1]);
        Inc(c, ss[|ss| - 1])
  }

  /** A shared element allows the shapes given to it: a wildcard any, a permutation or factorial those its counter holds. */
  predicate Allows(e: PatternElement, c: ShapeCounter)
    requires SharedKind(e) && PatternElements.Expandable(e) && c.Valid()
  {
    e.Wildcard? || ContainsAll(e.counter, c)
  }

  /** The last shape of `ss` fits its slot of `w`. */
  predicate SlotFits(p: Pattern, w: seq<HoldElement>, ss: seq<Shape>)
    requires 0 < |ss| <= |w| && SharesValid(p, w)
  {
    match w[|ss| - 1]
    case FixedShape(s) => ss[|ss| - 1] == s
    case Shared(j) => Allows(p.elements[j], Consumed(w, ss, j))
  }

  /** `ss` fits the first `|ss|` slots of `w`, shape by shape. */
  predicate Fits(p: Pattern, w: seq<HoldElement>, ss: seq<Shape>)
    requires SharesValid(p, w)
    decreases |ss|
  {
    |ss| <= |w| && (ss == [] || (Fits(p, w, ss[..|ss| - 1]) && SlotFits(p, w, ss)))
  }

  /** Element `j` has had some but not all of its shapes after `n` slots of `w`. */
  predicate Open(p: Pattern, w: seq<HoldElement>, n: nat, j: nat)
    requires n <= |w|
  {
    && j < |p.elements| && PatternElements.Expandable(p.elements[j])
    && 0 < Occ(w, n, j) < Dim(p.elements[j])
  }

  /** No element has more shares in `w` than its dimension. */
  ghost predicate Balanced(p: Pattern, w: seq<HoldElement>)
    requires SharesValid(p, w)
  {
    forall n :: 0 <= n < |w| && w[n].Shared? ==> Occ(w, n + 1, w[n].element) <= Dim(p.elements[w[n].element])
  }

  /** Where an element's first share sits in `w`, at most one other element is open: its entry fits the store. */
  ghost predicate Roomy(p: Pattern, w: seq<HoldElement>)
  {
    forall n, a, b ::
      (0 <= n < |w| && w[n].Shared? && Occ(w, n, w[n].element) == 0 && Open(p, w, n, a) && Open(p, w, n, b))
      ==> a == b
  }

  /** The hold-expanded patterns the theorem is about: non-empty vectors, each balanced and roomy. */
  ghost predicate WellFormed(h: HoldExpandedPattern)
  {
    && 0 < |h.expanded| && PatternValid(h)
    && forall k :: 0 <= k < |h.expanded| ==>
         h.expanded[k] != [] && Balanced(h.pattern, h.expanded[k]) && Roomy(h.pattern, h.expanded[k])
  }

  /** The store after `ss` holds exactly the open elements, each with the shapes it consumed. */
  ghost predicate StoreMatches(p: Pattern, w: seq<HoldElement>, ss: seq<Shape>, stored: seq<Entry>)
    requires |ss| <= |w|
  {
    && StoreValid(stored)
    && (forall k :: 0 <= k < |stored| ==> Open(p, w, |ss|, stored[k].0) && stored[k].1 == Consumed(w, ss, stored[k].0))
    && (forall j :: Open(p, w, |ss|, j) ==> StoreIndex(stored, j).Some?)
  }

  /** A candidate that has taken `ss`: at the next slot, with `ss` fitting its vector so far, and its store right. */
  ghost predicate Follows(h: HoldExpandedPattern, ss: seq<Shape>, c: Candidate)
    requires PatternValid(h) && CandidateValid(h, c)
  {
    var w := h.expanded[c.vector];
    && |ss| < |w| && c.current == Some(|ss|)
    && Fits(h.pattern, w, ss) && StoreMatches(h.pattern, w, ss, c.stored)
  }

  /** A candidate that has just taken the last shape of `ss`, which fits its vector so far. */
  ghost predicate Took(h: HoldExpandedPattern, ss: seq<Shape>, c: Candidate)
    requires PatternValid(h) && CandidateValid(h, c)
  {
    var w := h.expanded[c.vector];
    && |ss| <= |w| && c.current == (if |ss| < |w| then Some(|ss|) else None)
    && Fits(h.pattern, w, ss) && StoreMatches(h.pattern, w, ss, c.stored)
  }

  /** Vector `k` of `h` is no longer than `ss`, and the prefix of `ss` as long as it fits it: the vector is complete. */
  ghost predicate Done(h: HoldExpandedPattern, ss: seq<Shape>, k: int)
    requires PatternValid(h)
  {
    0 <= k < |h.expanded| && |h.expanded[k]| <= |ss| && Fits(h.pattern, h.expanded[k], ss[..|h.expanded[k]|])
  }

  /** Vector `k` of `h` is longer than `ss`, and `ss` fits it so far. */
  ghost predicate Longer(h: HoldExpandedPattern, ss: seq<Shape>, k: int)
    requires PatternValid(h)
  {
    0 <= k < |h.expanded| && |ss| < |h.expanded[k]| && Fits(h.pattern, h.expanded[k], ss)
  }

  /** Some vector of `h` is complete after `ss`. */
  ghost predicate ShortFit(h: HoldExpandedPattern, ss: seq<Shape>)
    requires PatternValid(h)
  {
    exists k :: Done(h, ss, k)
  }

  /** Some vector of `h` longer than `ss` fits it so far. */
  ghost predicate Continues(h: HoldExpandedPattern, ss: seq<Shape>)
    requires PatternValid(h)
  {
    exists k :: Longer(h, ss, k)
  }

  /**
   * The matcher after `ss`: it succeeds always exactly when a vector has
   * been completed; otherwise its candidates are the vectors longer than
   * `ss` that `ss` fits, every one of them.
   */
  ghost predicate Tracks(h: HoldExpandedPattern, ss: seq<Shape>, m: ShapeMatcher2)
  {
    && WellFormed(h) && Valid(m) && m.pattern == h
    && (m.succeedAlways <==> ShortFit(h, ss))
    && (forall i :: 0 <= i < |m.candidates| ==> Follows(h, ss, m.candidates[i]))
    && (!m.succeedAlways ==> forall k :: Longer(h, ss, k) ==> HasCandidate(m.candidates, k))
  }

  /** Some candidate of `cs` is for vector `k`. */
  ghost predicate HasCandidate(cs: seq<Candidate>, k: int)
  {
    exists i :: 0 <= i < |cs| && cs[i].vector == k
  }

  /** A matcher that can still succeed. */
  predicate Live(m: ShapeMatcher2)
  {
    m.succeedAlways || m.candidates != []
  }

  // ---- Small facts about slots ----

  lemma {:induction false} ConsumedSnoc(w: seq<HoldElement>, ss: seq<Shape>, s: Shape, j: nat)
    requires |ss| < |w|
    ensures Consumed(w, ss + [s], j) == if w[|ss|] == Shared(j) then Inc(Consumed(w, ss, j), s) else Consumed(w, ss, j)
  {
    assert (ss + [s])[..|ss|] == ss;
  }

  lemma {:induction false} FitsSnoc(p: Pattern, w: seq<HoldElement>, ss: seq<Shape>, s: Shape)
    requires SharesValid(p, w) && |ss| < |w|
    ensures Fits(p, w, ss + [s]) <==> Fits(p, w, ss) && SlotFits(p, w, ss + [s])
  {
    assert (ss + [s])[..|ss|] == ss;
  }

  /** An element no slot has shared yet has consumed nothing. */
  lemma {:induction false} ConsumedUnused(w: seq<HoldElement>, ss: seq<Shape>, j: nat)
    requires |ss| <= |w| && Occ(w, |ss|, j) == 0
    ensures Consumed(w, ss, j) == Empty()
  {
    if ss != [] {
      ConsumedUnused(w, ss[..|ss| - 1], j);
    }
  }

  /** A slot that does not share `j` leaves `j` as it was. */
  lemma {:induction false} OtherStep(p: Pattern, w: seq<HoldElement>, ss: seq<Shape>, s: Shape, j: nat)
    requires |ss| < |w| && w[|ss|] != Shared(j)
    ensures Occ(w, |ss| + 1, j) == Occ(w, |ss|, j)
    ensures Consumed(w, ss + [s], j) == Consumed(w, ss, j)
    ensures Open(p, w, |ss| + 1, j) <==> Open(p, w, |ss|, j)
  {
    ConsumedSnoc(w, ss, s, j);
  }

  /** The slot that shares `j` counts one more for it. */
  lemma {:induction false} SameStep(w: seq<HoldElement>, ss: seq<Shape>, s: Shape, j: nat)
    requires |ss| < |w| && w[|ss|] == Shared(j)
    ensures Occ(w, |ss| + 1, j) == Occ(w, |ss|, j) + 1
    ensures Consumed(w, ss + [s], j) == Inc(Consumed(w, ss, j), s)
  {
    ConsumedSnoc(w, ss, s, j);
  }

  /** Two store entries are two different open elements, so a roomy vector leaves room where an element starts. */
  lemma {:induction false} StartHasRoom(p: Pattern, w: seq<HoldElement>, ss: seq<Shape>, stored: seq<Entry>)
    requires |ss| < |w| && w[|ss|].Shared? && Occ(w, |ss|, w[|ss|].element) == 0
    requires Roomy(p, w) && StoreMatches(p, w, ss, stored)
    ensures |stored| < 2
  {
    if |stored| == 2 {
      assert false;
    }
  }

  // ---- One slot ----

  /** A fixed slot takes its own shape only, and leaves the store right. */
  lemma {:induction false} FixedStepMeaning(p: Pattern, w: seq<HoldElement>, ss: seq<Shape>, s: Shape, stored: seq<Entry>)
    requires SharesValid(p, w) && |ss| < |w| && w[|ss|].FixedShape?
    requires StoreMatches(p, w, ss, stored)
    ensures SlotFits(p, w, ss + [s]) <==> s == w[|ss|].shape
    ensures StoreMatches(p, w, ss + [s], stored)
  {
    forall k | 0 <= k < |stored|
      ensures Open(p, w, |ss| + 1, stored[k].0) && stored[k].1 == Consumed(w, ss + [s], stored[k].0)
    {
      OtherStep(p, w, ss, s, stored[k].0);
    }
    forall j | Open(p, w, |ss| + 1, j)
      ensures StoreIndex(stored, j).Some?
    {
      OtherStep(p, w, ss, s, j);
    }
  }

  /**
   * A shared slot with the element already in the store: the entry takes
   * the shape; the slot fits when the element allows what it consumed; the
   * entry goes once the element is used up, and the store stays right.
   */
  lemma {:induction false} StoredStepMeaning(p: Pattern, w: seq<HoldElement>, ss: seq<Shape>, s: Shape, stored: seq<Entry>, k: nat)
    requires SharesValid(p, w) && Balanced(p, w) && |ss| < |w| && w[|ss|].Shared?
    requires StoreMatches(p, w, ss, stored)
    requires StoreIndex(stored, w[|ss|].element) == Some(k)
    ensures var j := w[|ss|].element; var r := SharedStep(p.elements[j], stored, j, s);
      (r.Some? <==> SlotFits(p, w, ss + [s])) && (r.Some? ==> StoreMatches(p, w, ss + [s], r.value))
  {
    var j := w[|ss|].element;
    var e := p.elements[j];
    var n := |ss|;
    SameStep(w, ss, s, j);
    var consumed := Inc(stored[k].1, s);
    assert consumed == Consumed(w, ss + [s], j);
    var updated := stored[..k] + [(j, consumed)] + stored[k + 1..];
    var r := SharedStep(e, stored, j, s);
    if r.Some? {
      if TotalSize(consumed) == Dim(e) {
        var rest := updated[..k] + updated[k + 1..];
        assert r.value == rest;
        assert !Open(p, w, n + 1, j);
        RemovedMatches(p, w, ss, s, stored, k, rest);
      } else {
        assert r.value == updated;
        assert Open(p, w, n + 1, j);
        ReplacedMatches(p, w, ss, s, stored, k, updated);
      }
    }
  }

  /** Dropping the entry of the element just used up leaves the store right. */
  lemma {:induction false} RemovedMatches(p: Pattern, w: seq<HoldElement>, ss: seq<Shape>, s: Shape, stored: seq<Entry>, k: nat,
                       rest: seq<Entry>)
    requires |ss| < |w| && k < |stored| && w[|ss|] == Shared(stored[k].0)
    requires StoreMatches(p, w, ss, stored)
    requires !Open(p, w, |ss| + 1, stored[k].0)
    requires rest == stored[..k] + stored[k + 1..]
    ensures StoreMatches(p, w, ss + [s], rest)
  {
    var j := stored[k].0;
    forall i | 0 <= i < |rest|
      ensures Open(p, w, |ss| + 1, rest[i].0) && rest[i].1 == Consumed(w, ss + [s], rest[i].0)
    {
      var o := if i < k then i else i + 1;
      assert rest[i] == stored[o] && o != k;
      OtherStep(p, w, ss, s, stored[o].0);
    }
    forall y | Open(p, w, |ss| + 1, y) ensures StoreIndex(rest, y).Some? {
      OtherStep(p, w, ss, s, y);
      var o := StoreIndex(stored, y).value;
      assert o != k;
      var i := if o < k then o else o - 1;
      assert rest[i] == stored[o];
    }
  }

  /** Replacing the entry of an element still open with what it consumed now leaves the store right. */
  lemma {:induction false} ReplacedMatches(p: Pattern, w: seq<HoldElement>, ss: seq<Shape>, s: Shape, stored: seq<Entry>, k: nat,
                        updated: seq<Entry>)
    requires |ss| < |w| && k < |stored| && w[|ss|] == Shared(stored[k].0)
    requires StoreMatches(p, w, ss, stored)
    requires Open(p, w, |ss| + 1, stored[k].0)
    requires updated == stored[..k] + [(stored[k].0, Consumed(w, ss + [s], stored[k].0))] + stored[k + 1..]
    ensures StoreMatches(p, w, ss + [s], updated)
  {
    var j := stored[k].0;
    assert |updated| == |stored|;
    assert forall i :: 0 <= i < |stored| ==> updated[i].0 == stored[i].0;
    assert updated[k].1 == Consumed(w, ss + [s], j);
    forall i | 0 <= i < |updated| && i != k
      ensures Open(p, w, |ss| + 1, updated[i].0) && updated[i].1 == Consumed(w, ss + [s], updated[i].0)
    {
      assert updated[i] == stored[i];
      OtherStep(p, w, ss, s, stored[i].0);
    }
    forall y | Open(p, w, |ss| + 1, y) ensures StoreIndex(updated, y).Some? {
      if y != j {
        OtherStep(p, w, ss, s, y);
      }
    }
  }

  /**
   * A shared slot whose element has no entry: the element starts here, so
   * the store has room; the entry is pushed, takes the shape, and goes at
   * once if the element has only one shape.
   */
  lemma {:induction false} StartStepMeaning(p: Pattern, w: seq<HoldElement>, ss: seq<Shape>, s: Shape, stored: seq<Entry>)
    requires SharesValid(p, w) && Balanced(p, w) && Roomy(p, w) && |ss| < |w| && w[|ss|].Shared?
    requires StoreMatches(p, w, ss, stored)
    requires StoreIndex(stored, w[|ss|].element).None?
    ensures Room(stored, w[|ss|].element)
    ensures var j := w[|ss|].element; var r := SharedStep(p.elements[j], stored, j, s);
      (r.Some? <==> SlotFits(p, w, ss + [s])) && (r.Some? ==> StoreMatches(p, w, ss + [s], r.value))
  {
    var j := w[|ss|].element;
    var e := p.elements[j];
    var n := |ss|;
    SameStep(w, ss, s, j);
    assert !Open(p, w, n, j);
    assert Occ(w, n + 1, j) <= Dim(e);
    assert Occ(w, n, j) == 0;
    ConsumedUnused(w, ss, j);
    StartHasRoom(p, w, ss, stored);
    var consumed := Inc(Empty(), s);
    assert consumed == Consumed(w, ss + [s], j);
    var updated := stored + [(j, consumed)];
    var r := SharedStep(e, stored, j, s);
    if r.Some? {
      if TotalSize(consumed) == Dim(e) {
        assert r.value == stored;
        assert !Open(p, w, n + 1, j);
        UnchangedMatches(p, w, ss, s, stored, j);
      } else {
        assert r.value == updated;
        assert Open(p, w, n + 1, j);
        PushedMatches(p, w, ss, s, stored, j, updated);
      }
    }
  }

  /** An element that starts and ends at one slot leaves the store right as it was. */
  lemma {:induction false} UnchangedMatches(p: Pattern, w: seq<HoldElement>, ss: seq<Shape>, s: Shape, stored: seq<Entry>, j: nat)
    requires |ss| < |w| && w[|ss|] == Shared(j)
    requires StoreMatches(p, w, ss, stored) && StoreIndex(stored, j).None?
    requires !Open(p, w, |ss| + 1, j)
    ensures StoreMatches(p, w, ss + [s], stored)
  {
    forall i | 0 <= i < |stored|
      ensures Open(p, w, |ss| + 1, stored[i].0) && stored[i].1 == Consumed(w, ss + [s], stored[i].0)
    {
      OtherStep(p, w, ss, s, stored[i].0);
    }
    forall y | Open(p, w, |ss| + 1, y) ensures StoreIndex(stored, y).Some? {
      OtherStep(p, w, ss, s, y);
    }
  }

  /** Pushing the entry of an element that starts here and stays open leaves the store right. */
  lemma {:induction false} PushedMatches(p: Pattern, w: seq<HoldElement>, ss: seq<Shape>, s: Shape, stored: seq<Entry>, j: nat,
                      updated: seq<Entry>)
    requires |ss| < |w| && w[|ss|] == Shared(j)
    requires StoreMatches(p, w, ss, stored) && StoreIndex(stored, j).None? && |stored| < 2
    requires Open(p, w, |ss| + 1, j)
    requires updated == stored + [(j, Consumed(w, ss + [s], j))]
    ensures StoreMatches(p, w, ss + [s], updated)
  {
    forall i | 0 <= i < |stored|
      ensures Open(p, w, |ss| + 1, stored[i].0) && stored[i].1 == Consumed(w, ss + [s], stored[i].0)
    {
      OtherStep(p, w, ss, s, stored[i].0);
    }
    forall y | Open(p, w, |ss| + 1, y) ensures StoreIndex(updated, y).Some? {
      if y != j {
        OtherStep(p, w, ss, s, y);
      }
    }
  }

  // ---- One candidate, all candidates ----

  /** A candidate that has taken `ss` can take one more shape, and survives it exactly when the longer sequence fits its vector. */
  lemma {:induction false} CandidateStepMeaning(h: HoldExpandedPattern, ss: seq<Shape>, c: Candidate, s: Shape)
    requires WellFormed(h) && CandidateValid(h, c) && Follows(h, ss, c)
    ensures CandidateCanStep(h, c)
    ensures CandidateStep(h, c, s).Some? <==> Fits(h.pattern, h.expanded[c.vector], ss + [s])
    ensures CandidateStep(h, c, s).Some? ==> Took(h, ss + [s], CandidateStep(h, c, s).value)
  {
    var p, w := h.pattern, h.expanded[c.vector];
    assert SharesValid(p, w) && Balanced(p, w) && Roomy(p, w);
    FitsSnoc(p, w, ss, s);
    match w[|ss|]
    case FixedShape(x) =>
      FixedStepMeaning(p, w, ss, s, c.stored);
    case Shared(j) =>
      match StoreIndex(c.stored, j)
      case Some(k) => StoredStepMeaning(p, w, ss, s, c.stored, k);
      case None => StartStepMeaning(p, w, ss, s, c.stored);
  }

  /** Every candidate of `cs` is valid and has taken `ss`. */
  ghost predicate AllFollow(h: HoldExpandedPattern, ss: seq<Shape>, cs: seq<Candidate>)
    requires PatternValid(h)
  {
    forall i :: 0 <= i < |cs| ==> CandidateValid(h, cs[i]) && Follows(h, ss, cs[i])
  }

  /** Every candidate of `cs` is valid and has just taken the last shape of `ss`. */
  ghost predicate AllTook(h: HoldExpandedPattern, ss: seq<Shape>, cs: seq<Candidate>)
    requires PatternValid(h)
  {
    forall i :: 0 <= i < |cs| ==> CandidateValid(h, cs[i]) && Took(h, ss, cs[i])
  }

  /** Every candidate of `cs` whose vector `ss` fits has a successor for the same vector in `r`. */
  ghost predicate KeptFitting(h: HoldExpandedPattern, ss: seq<Shape>, cs: seq<Candidate>, r: seq<Candidate>)
    requires PatternValid(h)
  {
    forall i :: 0 <= i < |cs| && cs[i].vector < |h.expanded| && Fits(h.pattern, h.expanded[cs[i].vector], ss) ==>
      HasCandidate(r, cs[i].vector)
  }

  /** Candidates that have taken `ss` can all take one more shape. */
  lemma {:induction false} AllCanStep(h: HoldExpandedPattern, ss: seq<Shape>, cs: seq<Candidate>, s: Shape)
    requires WellFormed(h) && AllFollow(h, ss, cs)
    ensures forall i :: 0 <= i < |cs| ==> CandidateValid(h, cs[i]) && CandidateCanStep(h, cs[i])
  {
    forall i | 0 <= i < |cs| ensures CandidateValid(h, cs[i]) && CandidateCanStep(h, cs[i]) {
      CandidateStepMeaning(h, ss, cs[i], s);
    }
  }

  /** The survivors of a shape have taken it, and every candidate the longer sequence fits survives. */
  lemma {:induction false} StepAllMeaning(h: HoldExpandedPattern, ss: seq<Shape>, cs: seq<Candidate>, s: Shape)
    requires WellFormed(h) && AllFollow(h, ss, cs)
    ensures forall i :: 0 <= i < |cs| ==> CandidateValid(h, cs[i]) && CandidateCanStep(h, cs[i])
    ensures AllTook(h, ss + [s], StepAll(h, cs, s)) && KeptFitting(h, ss + [s], cs, StepAll(h, cs, s))
    decreases |cs|
  {
    AllCanStep(h, ss, cs, s);
    if cs != [] {
      var prefix, c := cs[..|cs| - 1], cs[|cs| - 1];
      assert forall i :: 0 <= i < |prefix| ==> prefix[i] == cs[i];
      StepAllMeaning(h, ss, prefix, s);
      CandidateStepMeaning(h, ss, c, s);
      StepAllSnoc(h, ss + [s], prefix, c, s);
    }
  }

  /** One more candidate at the end: its survivor, if any, joins the survivors of the others. */
  lemma {:induction false} StepAllSnoc(h: HoldExpandedPattern, ss: seq<Shape>, prefix: seq<Candidate>, c: Candidate, s: Shape)
    requires PatternValid(h)
    requires forall i :: 0 <= i < |prefix| ==> CandidateValid(h, prefix[i]) && CandidateCanStep(h, prefix[i])
    requires CandidateValid(h, c) && CandidateCanStep(h, c)
    requires AllTook(h, ss, StepAll(h, prefix, s)) && KeptFitting(h, ss, prefix, StepAll(h, prefix, s))
    requires CandidateStep(h, c, s).Some? <==> Fits(h.pattern, h.expanded[c.vector], ss)
    requires CandidateStep(h, c, s).Some? ==> Took(h, ss, CandidateStep(h, c, s).value)
    ensures AllTook(h, ss, StepAll(h, prefix + [c], s)) && KeptFitting(h, ss, prefix + [c], StepAll(h, prefix + [c], s))
  {
    var cs := prefix + [c];
    assert cs[..|cs| - 1] == prefix && cs[|cs| - 1] == c;
    var rest := StepAll(h, prefix, s);
    var r := StepAll(h, cs, s);
    assert r == if CandidateStep(h, c, s).Some? then rest + [CandidateStep(h, c, s).value] else rest;
    assert forall i :: 0 <= i < |rest| ==> r[i] == rest[i];
    forall i | 0 <= i < |cs| && cs[i].vector < |h.expanded| && Fits(h.pattern, h.expanded[cs[i].vector], ss)
      ensures HasCandidate(r, cs[i].vector)
    {
      if i < |prefix| {
        assert prefix[i] == cs[i];
        var l :| 0 <= l < |rest| && rest[l].vector == cs[i].vector;
        assert r[l] == rest[l];
      } else {
        assert r[|rest|].vector == c.vector;
      }
    }
  }

  // ---- The matcher ----

  /** Sequences that agree on a prefix agree on how a vector no longer than it ends. */
  lemma {:induction false} DoneSnoc(h: HoldExpandedPattern, ss: seq<Shape>, s: Shape, k: int)
    requires PatternValid(h) && 0 <= k < |h.expanded|
    ensures Done(h, ss + [s], k) <==>
      Done(h, ss, k) || (|h.expanded[k]| == |ss| + 1 && Fits(h.pattern, h.expanded[k], ss + [s]))
  {
    var w := h.expanded[k];
    if |w| <= |ss| {
      assert (ss + [s])[..|w|] == ss[..|w|];
    } else if |w| == |ss| + 1 {
      assert (ss + [s])[..|w|] == ss + [s];
    }
  }

  /** A vector the longer sequence fits (and is no shorter than) is one the shorter sequence continues. */
  lemma {:induction false} FitsShorter(h: HoldExpandedPattern, ss: seq<Shape>, s: Shape, k: int)
    requires PatternValid(h) && 0 <= k < |h.expanded| && |ss| < |h.expanded[k]|
    requires Fits(h.pattern, h.expanded[k], ss + [s])
    ensures Longer(h, ss, k)
  {
    FitsSnoc(h.pattern, h.expanded[k], ss, s);
  }

  /** A matcher that has run out of candidates without completing a vector stays so, and refuses. */
  lemma {:induction false} DeadStep(h: HoldExpandedPattern, ss: seq<Shape>, m: ShapeMatcher2, s: Shape)
    requires Tracks(h, ss, m) && !Live(m)
    ensures Tracks(h, ss + [s], m)
  {
    forall k | 0 <= k < |h.expanded|
      ensures !Done(h, ss + [s], k) && !Longer(h, ss + [s], k)
    {
      DoneSnoc(h, ss, s, k);
      assert !Done(h, ss, k);
      if |ss| < |h.expanded[k]| {
        FitsSnoc(h.pattern, h.expanded[k], ss, s);
        assert !HasCandidate(m.candidates, k);
      }
    }
  }

  /** A matcher that has completed a vector stays so. */
  lemma {:induction false} DoneStep(h: HoldExpandedPattern, ss: seq<Shape>, m: ShapeMatcher2, s: Shape)
    requires Tracks(h, ss, m) && m.succeedAlways
    ensures Tracks(h, ss + [s], m)
  {
    var k :| Done(h, ss, k);
    DoneSnoc(h, ss, s, k);
  }

  /**
   * A live matcher that has completed nothing: the survivors are the
   * candidates the longer sequence fits; the matcher succeeds always
   * exactly when one of them has finished its vector.
   */
  lemma {:induction false} LiveStep(h: HoldExpandedPattern, ss: seq<Shape>, m: ShapeMatcher2, s: Shape)
    requires Tracks(h, ss, m) && !m.succeedAlways && m.candidates != []
    ensures CanStep(m)
    ensures Tracks(h, ss + [s], MatchShapeSpec(m, s).1)
  {
    assert AllFollow(h, ss, m.candidates);
    StepAllMeaning(h, ss, m.candidates, s);
    var next := StepAll(h, m.candidates, s);
    var ss' := ss + [s];
    var always := next != [] && exists i :: 0 <= i < |next| && next[i].current.None?;
    // A finished survivor completes its vector.
    if always {
      var i :| 0 <= i < |next| && next[i].current.None?;
      assert Took(h, ss', next[i]);
      DoneSnoc(h, ss, s, next[i].vector);
    }
    // A vector completed now was continued by a candidate, whose survivor has finished.
    forall k | Done(h, ss', k) ensures always {
      DoneSnoc(h, ss, s, k);
      assert !Done(h, ss, k);
      FitsShorter(h, ss, s, k);
      var i :| 0 <= i < |m.candidates| && m.candidates[i].vector == k;
      var l :| 0 <= l < |next| && next[l].vector == k;
      assert Took(h, ss', next[l]);
    }
    if !always {
      forall i | 0 <= i < |next| ensures Follows(h, ss', next[i]) {
        assert Took(h, ss', next[i]);
      }
      forall k | Longer(h, ss', k) ensures HasCandidate(next, k) {
        FitsShorter(h, ss, s, k);
        var i :| 0 <= i < |m.candidates| && m.candidates[i].vector == k;
      }
    }
  }

  /**
   * `match_shape` keeps the matcher tracking the shapes given so far, and
   * succeeds exactly when the matcher could still succeed before and can
   * after; a matcher that can no longer succeed stays as it is.
   */
  lemma {:induction false} TracksStep(h: HoldExpandedPattern, ss: seq<Shape>, m: ShapeMatcher2, s: Shape)
    requires Tracks(h, ss, m)
    ensures Valid(m) && CanStep(m)
    ensures Tracks(h, ss + [s], MatchShapeSpec(m, s).1)
    ensures MatchShapeSpec(m, s).0 <==> Live(m) && Live(MatchShapeSpec(m, s).1)
    ensures !Live(m) ==> MatchShapeSpec(m, s).1 == m
  {
    if m.succeedAlways {
      DoneStep(h, ss, m, s);
    } else if m.candidates == [] {
      DeadStep(h, ss, m, s);
    } else {
      LiveStep(h, ss, m, s);
    }
  }

  /** The fresh matcher tracks the empty sequence: no vector is complete, and every vector has its candidate. */
  lemma NewTracks(h: HoldExpandedPattern)
    requires WellFormed(h)
    ensures Tracks(h, [], New(h)) && Live(New(h))
  {
    var m := New(h);
    forall k | 0 <= k < |h.expanded| ensures !Done(h, [], k) && HasCandidate(m.candidates, k) {
      assert m.candidates[k].vector == k;
    }
    forall i | 0 <= i < |m.candidates| ensures Follows(h, [], m.candidates[i]) {
      assert m.candidates[i] == Candidate(i, [], Some(0));
    }
  }

  /** Feeding shapes one by one to the fresh matcher: it tracks them, and every match succeeded exactly when it can still succeed. */
  lemma {:induction false} FeedTracks(h: HoldExpandedPattern, ss: seq<Shape>)
    requires WellFormed(h)
    ensures Tracks(h, ss, Feed(New(h), ss).1)
    ensures Feed(New(h), ss).0 <==> Live(Feed(New(h), ss).1)
    decreases |ss|
  {
    if ss == [] {
      NewTracks(h);
    } else {
      var prefix := ss[..|ss| - 1];
      FeedTracks(h, prefix);
      TracksStep(h, prefix, Feed(New(h), prefix).1, ss[|ss| - 1]);
      assert prefix + [ss[|ss| - 1]] == ss;
    }
  }

  /**
   * What the matcher built by `new` decides: fed `ss`, every match succeeds
   * exactly when some vector is complete within `ss` or continues it; and
   * it has a next shape to take exactly when no vector is complete and
   * some longer vector fits `ss` so far.
   */
  lemma FeedMatches(h: HoldExpandedPattern, ss: seq<Shape>)
    requires WellFormed(h)
    ensures Feed(New(h), ss).0 <==> ShortFit(h, ss) || Continues(h, ss)
    ensures HasNext(Feed(New(h), ss).1) <==> !ShortFit(h, ss) && Continues(h, ss)
  {
    FeedTracks(h, ss);
    var m := Feed(New(h), ss).1;
    if m.candidates != [] {
      assert Follows(h, ss, m.candidates[0]);
      assert Longer(h, ss, m.candidates[0].vector);
      assert m.candidates[0].current.Some?;
    }
    if !m.succeedAlways && Continues(h, ss) {
      var k :| Longer(h, ss, k);
      assert HasCandidate(m.candidates, k);
    }
    if HasNext(m) {
      assert m.candidates != [];
    }
  }

  // ---- The vectors of a pattern ----

  /** `Occ` counts the shares of `j` among the first `n` slots. */
  lemma {:induction false} OccCount(w: seq<HoldElement>, n: nat, j: nat)
    requires n <= |w|
    ensures Occ(w, n, j) == multiset(w[..n])[Shared(j)]
  {
    if n > 0 {
      OccCount(w, n - 1, j);
      assert w[..n] == w[..n - 1] + [w[n - 1]];
    }
  }

  /** The shares of `j` among the first slots are no more than in the whole vector. */
  lemma OccAtMost(w: seq<HoldElement>, n: nat, j: nat)
    requires n <= |w|
    ensures Occ(w, n, j) <= multiset(w)[Shared(j)]
  {
    OccCount(w, n, j);
    assert w == w[..n] + w[n..];
  }

  /** A slot that shares an element of an order of the flattened pattern names a shared element, shared no more often than its dimension. */
  lemma SharedSlot(p: Pattern, w: seq<HoldElement>, n: nat)
    requires Patterns.Expandable(p) && multiset(w) == multiset(ElementSequence(p))
    requires n < |w| && w[n].Shared?
    ensures var j := w[n].element;
      && j < |p.elements| && SharedKind(p.elements[j]) && PatternElements.Expandable(p.elements[j])
      && multiset(w)[Shared(j)] == Dim(p.elements[j])
  {
    var j := w[n].element;
    FlattenCounts(p);
    assert w[n] in multiset(w);
    if j < |p.elements| && SharedKind(p.elements[j]) {
      SharedCountIsDim(p.elements[j]);
    }
  }

  /**
   * Every vector of a hold-expanded pattern is an order of the flattened
   * pattern, so each share names an element that can be shared, and no
   * element has more shares than its dimension.
   */
  lemma ExpandedValid(h: HoldExpandedPattern)
    requires Patterns.Expandable(h.pattern)
    requires forall v :: v in h.expanded ==> multiset(v) == multiset(ElementSequence(h.pattern))
    ensures PatternValid(h)
    ensures forall k :: 0 <= k < |h.expanded| ==> Balanced(h.pattern, h.expanded[k])
  {
    forall k, n | 0 <= k < |h.expanded| && 0 <= n < |h.expanded[k]| && h.expanded[k][n].Shared?
      ensures var j := h.expanded[k][n].element;
        && j < |h.pattern.elements| && SharedKind(h.pattern.elements[j])
        && PatternElements.Expandable(h.pattern.elements[j])
        && Occ(h.expanded[k], n + 1, j) <= Dim(h.pattern.elements[j])
    {
      assert h.expanded[k] in h.expanded;
      SharedSlot(h.pattern, h.expanded[k], n);
      OccAtMost(h.expanded[k], n + 1, h.expanded[k][n].element);
    }
  }

  /** A vector that shares one element only never opens two at once. */
  lemma OneSharedRoomy(p: Pattern, w: seq<HoldElement>, j: nat)
    requires forall n :: 0 <= n < |w| && w[n].Shared? ==> w[n].element == j
    ensures Roomy(p, w)
  {
    forall n, a | 0 <= n < |w| && Open(p, w, n, a) ensures a == j {
      OccCount(w, n, a);
      assert Shared(a) in multiset(w[..n]);
      var i :| 0 <= i < n && w[..n][i] == Shared(a);
      assert w[i] == Shared(a);
    }
  }
}
