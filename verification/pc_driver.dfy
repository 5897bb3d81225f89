/**
 * The loop that the `pc_possible` executors run over the sequences of a
 * pattern: each sequence without a verdict is searched; a found perfect
 * clear marks the sequence and, with a hold, every input order the hold
 * could have turned into the found sequence; a caller's callback may stop
 * the loop after any sequence.
 */
module PcPossibleDrivers {
  import opened Shapes
  import opened Wrappers
  import opened Boards
  import opened ClippedBoards
  import opened ShapeOrders
  import opened ShapeSequences
  import opened FuzzyShapeOrders
  import opened PcResultTables
  import opened PcSearches

  /** Some order of the inference walk stands for `order`. */
  ghost predicate MatchedBefore(walk: seq<seq<FuzzyShape>>, i: nat, order: seq<Shape>)
  {
    exists j :: 0 <= j < i && j < |walk| && Matches(walk[j], order)
  }

  /** `t` with the keys whose shapes are in `xs` set to `yes`. */
  ghost function MarkIn<V>(t: map<ShapeSequence, V>, xs: seq<seq<Shape>>, yes: V): (r: map<ShapeSequence, V>)
    ensures r.Keys == t.Keys
  {
    map o | o in t :: if o.shapes in xs then yes else t[o]
  }

  /** `t` with the keys that `fuzzy` stands for set to `yes`. */
  ghost function MarkMatching<V>(t: map<ShapeSequence, V>, fuzzy: seq<FuzzyShape>, yes: V): (r: map<ShapeSequence, V>)
    ensures r.Keys == t.Keys
  {
    map o | o in t :: if Matches(fuzzy, o.shapes) then yes else t[o]
  }

  /** `t0` with the keys that the first `i` orders of the walk stand for set to `yes`. */
  ghost function Marked<V>(t0: map<ShapeSequence, V>, walk: seq<seq<FuzzyShape>>, i: nat, yes: V): (t: map<ShapeSequence, V>)
    ensures t.Keys == t0.Keys
  {
    map o | o in t0 :: if MatchedBefore(walk, i, o.shapes) then yes else t0[o]
  }

  /** `after` is `before` with every key that `found` stands for set to `yes`. */
  ghost predicate MarkedFrom<V>(before: map<ShapeSequence, V>, after: map<ShapeSequence, V>, found: seq<Shape>, n: nat, yes: V)
    requires 1 <= n
  {
    && after.Keys == before.Keys
    && forall o :: o in after ==> after[o] == if InferredFrom(found, n, o.shapes) then yes else before[o]
  }

  lemma MarkInNone<V>(t: map<ShapeSequence, V>, yes: V)
    ensures MarkIn(t, [], yes) == t
  {
  }

  /** Setting one expanded order, when it is a key, adds it to the marked ones. */
  lemma MarkInAdd<V>(t: map<ShapeSequence, V>, xs: seq<seq<Shape>>, x: seq<Shape>, yes: V)
    ensures var m := MarkIn(t, xs, yes);
            (if ShapeSequence(x) in m then m[ShapeSequence(x) := yes] else m) == MarkIn(t, xs + [x], yes)
  {
    var m := MarkIn(t, xs, yes);
    var a := if ShapeSequence(x) in m then m[ShapeSequence(x) := yes] else m;
    var b := MarkIn(t, xs + [x], yes);
    forall o | o in a
      ensures a[o] == b[o]
    {
      assert o.shapes in xs + [x] <==> o.shapes in xs || o.shapes == x;
    }
  }

  /** Marking the whole expansion is marking what the fuzzy order stands for. */
  lemma MarkInExpansion<V>(t: map<ShapeSequence, V>, fuzzy: seq<FuzzyShape>, expanded: seq<seq<Shape>>, yes: V)
    requires forall o :: o in expanded <==> Matches(fuzzy, o)
    ensures MarkIn(t, expanded, yes) == MarkMatching(t, fuzzy, yes)
  {
  }

  lemma MarkedNone<V>(t0: map<ShapeSequence, V>, walk: seq<seq<FuzzyShape>>, yes: V)
    ensures Marked(t0, walk, 0, yes) == t0
  {
  }

  /** Marking what the `i`-th order stands for moves the walk on by one. */
  lemma MarkedNext<V>(t0: map<ShapeSequence, V>, walk: seq<seq<FuzzyShape>>, i: nat, yes: V)
    requires i < |walk|
    ensures MarkMatching(Marked(t0, walk, i, yes), walk[i], yes) == Marked(t0, walk, i + 1, yes)
  {
    forall o: seq<Shape>
      ensures MatchedBefore(walk, i + 1, o) <==> MatchedBefore(walk, i, o) || Matches(walk[i], o)
    {
      if Matches(walk[i], o) {
        assert 0 <= i < i + 1;
      }
    }
  }

  /** The whole walk marked is what `found` stands for. */
  lemma MarkedAll<V>(t0: map<ShapeSequence, V>, walk: seq<seq<FuzzyShape>>, found: seq<Shape>, n: nat, yes: V)
    requires 1 <= n && walk == Walk(found, n, SlotsFrom([], 0, n), 0, 0)
    ensures MarkedFrom(t0, Marked(t0, walk, |walk|, yes), found, n, yes)
  {
    forall o: seq<Shape>
      ensures MatchedBefore(walk, |walk|, o) <==> InferredFrom(found, n, o)
    {
      if MatchedBefore(walk, |walk|, o) {
        var j :| 0 <= j < |walk| && Matches(walk[j], o);
        assert walk[j] in Walk(found, n, SlotsFrom([], 0, n), 0, 0);
      }
      if InferredFrom(found, n, o) {
        var f :| f in Walk(found, n, SlotsFrom([], 0, n), 0, 0) && Matches(f, o);
        var j :| 0 <= j < |walk| && walk[j] == f;
      }
    }
  }

  /**
   * The visitor's `visit` for a fuzzy order: expands it and accepts every
   * expansion as a success, which marks exactly the keys it stands for.
   */
  method VisitFuzzy(results: PcResults, fuzzy: seq<FuzzyShape>)
    requires 0 < |fuzzy|
    modifies results
    ensures results.succeed == MarkMatching(old(results.succeed), fuzzy, Some(true))
  {
    ghost var t := results.succeed;
    var expanded := ExpandAsWildcardWalk(FuzzyShapeOrder(fuzzy));
    MarkInNone(t, Some(true));
    for j := 0 to |expanded|
      invariant results.succeed == MarkIn(t, expanded[..j], Some(true))
    {
      assert expanded[..j + 1] == expanded[..j] + [expanded[j]];
      MarkInAdd(t, expanded[..j], expanded[j], Some(true));
      var present := results.AcceptIfPresent(ShapeSequence(expanded[j]), true);
    }
    assert expanded[..|expanded|] == expanded;
    MarkInExpansion(t, fuzzy, expanded, Some(true));
  }

  /**
   * `infer_input_walk` with the visitor: every key that an order of the
   * walk stands for becomes a success; every other key keeps its verdict.
   */
  method MarkInferred(results: PcResults, found: seq<Shape>, inferSize: nat)
    requires 1 <= inferSize
    modifies results
    ensures MarkedFrom(old(results.succeed), results.succeed, found, inferSize, Some(true))
  {
    var walk := InferInputWalk(ShapeSequence(found), inferSize);
    ghost var t0 := results.succeed;
    MarkedNone(t0, walk, Some(true));
    for i := 0 to |walk|
      invariant results.succeed == Marked(t0, walk, i, Some(true))
    {
      assert |walk[i]| == inferSize by {
        assert walk[i] in walk;
      }
      VisitFuzzy(results, walk[i]);
      MarkedNext(t0, walk, i, Some(true));
    }
    MarkedAll(t0, walk, found, inferSize, Some(true));
  }

  /** Every success in the table is a perfect clear the order lets a player draw. */
  ghost predicate Sound(t: Table, moves: MoveGenerator, clipped: ClippedBoard, hold: bool)
  {
    forall o :: o in t && t[o] == Some(true) && 0 < |o.shapes| ==> Clearable(moves, clipped, o.shapes, hold)
  }

  /** The first `k` sequences have a verdict. */
  ghost predicate Decided(t: Table, sequences: seq<ShapeSequence>, k: nat)
  {
    forall j :: 0 <= j < k && j < |sequences| ==> sequences[j] in t && t[sequences[j]].Some?
  }

  /** Accepting a verdict the search justifies keeps the table sound and decides the sequence. */
  lemma AcceptedSound(t: Table, sequences: seq<ShapeSequence>, k: nat, moves: MoveGenerator, clipped: ClippedBoard,
                      hold: bool, flag: bool)
    requires k < |sequences| && sequences[k] in t
    requires Sound(t, moves, clipped, hold) && Decided(t, sequences, k)
    requires flag && 0 < |sequences[k].shapes| ==> Clearable(moves, clipped, sequences[k].shapes, hold)
    ensures Sound(Accepted(t, sequences[k], flag), moves, clipped, hold)
    ensures Decided(Accepted(t, sequences[k], flag), sequences, k + 1)
  {
  }

  /** Marking what a found perfect clear stands for keeps the table sound, when the hold is allowed. */
  lemma MarkedSound(t0: Table, t1: Table, moves: MoveGenerator, clipped: ClippedBoard, found: seq<Shape>, n: nat,
                    sequences: seq<ShapeSequence>, k: nat)
    requires 1 <= n && |found| <= n
    requires Places(moves, clipped.board, clipped.height, found)
    requires Sound(t0, moves, clipped, true) && Decided(t0, sequences, k)
    requires MarkedFrom(t0, t1, found, n, Some(true))
    requires forall o :: o in t0 ==> |o.shapes| == n
    ensures Sound(t1, moves, clipped, true) && Decided(t1, sequences, k)
  {
    forall o | o in t1 && t1[o] == Some(true) && 0 < |o.shapes|
      ensures Clearable(moves, clipped, o.shapes, true)
    {
      if InferredFrom(found, n, o.shapes) {
        InferenceDraws(found, n, o.shapes);
      }
    }
  }

  /**
   * The loop body after a search: the sequence gets its verdict and, when
   * the hold is allowed, a found perfect clear marks every order it stands
   * for; the table stays sound and one more sequence is decided.
   */
  method Record(results: PcResults, sequences: seq<ShapeSequence>, k: nat, found: Option<ShapeSequence>,
                moves: MoveGenerator, clipped: ClippedBoard, hold: bool, inferSize: nat)
    requires k < |sequences| && sequences[k] in results.succeed && 0 < |sequences[k].shapes|
    requires 1 <= inferSize && forall o :: o in results.succeed ==> |o.shapes| == inferSize
    requires Sound(results.succeed, moves, clipped, hold) && Decided(results.succeed, sequences, k)
    requires found.Some? ==> Places(moves, clipped.board, clipped.height, found.value.shapes)
    requires found.Some? ==> Draws(NewCursor(sequences[k].shapes), hold, found.value.shapes)
    modifies results
    ensures results.succeed.Keys == old(results.succeed.Keys)
    ensures Sound(results.succeed, moves, clipped, hold) && Decided(results.succeed, sequences, k + 1)
  {
    var sequence := sequences[k];
    if found.Some? {
      AcceptedSound(results.succeed, sequences, k, moves, clipped, hold, true);
      var present := results.AcceptIfPresent(sequence, true);
      if hold {
        ghost var t0 := results.succeed;
        DrawsWithinUnused(NewCursor(sequence.shapes), true, found.value.shapes);
        MarkInferred(results, found.value.shapes, inferSize);
        MarkedSound(t0, results.succeed, moves, clipped, found.value.shapes, inferSize, sequences, k + 1);
      }
    } else {
      AcceptedSound(results.succeed, sequences, k, moves, clipped, hold, false);
      var present := results.AcceptIfPresent(sequence, false);
    }
  }

  /**
   * The tables handed to the callback, `asked`, record how the loop stops:
   * it visits at most `n` sequences, the callback let it go on after every
   * table but the last, the table returned is the last one the callback
   * saw (nothing is searched after it), and the loop ends before the last
   * sequence only because the callback asked it to.
   */
  ghost predicate StoppedWhenAsked(asked: seq<Table>, stop: Table -> bool, n: nat, last: Table)
  {
    && |asked| <= n
    && (forall i :: 0 <= i < |asked| - 1 ==> !stop(asked[i]))
    && (asked != [] ==> asked[|asked| - 1] == last)
    && (|asked| < n ==> asked != [] && stop(asked[|asked| - 1]))
  }

  /** The first `n` vectors, as sequences, have verdicts in the table. */
  ghost predicate DecidedFirst(t: Table, vectors: seq<seq<Shape>>, n: nat)
  {
    forall i :: 0 <= i < n && i < |vectors| ==> ShapeSequence(vectors[i]) in t && t[ShapeSequence(vectors[i])].Some?
  }

  /**
   * `execute_with_early_stopping`: the keys are the given sequences; every
   * success is a perfect clear that the sequence lets a player draw (with
   * the searcher's hold); when the callback never stops the loop, every
   * sequence gets a verdict; and the tables handed to the callback show
   * that the loop ends right after its first stop, with a verdict for every
   * sequence visited before.
   */
  method ExecuteWithEarlyStopping(searcher: Searcher, clipped: ClippedBoard, sequences: seq<ShapeSequence>,
                                  inferSize: nat, stop: Table -> bool)
    returns (results: PcResults, ghost asked: seq<Table>)
    requires MovesValid(searcher.moves) && clipped.board.Valid() && clipped.height <= Rows
    requires 1 <= inferSize
    requires forall k :: 0 <= k < |sequences| ==> |sequences[k].shapes| == inferSize
    modifies searcher
    ensures fresh(results)
    ensures results.succeed.Keys == set s | s in sequences
    ensures Sound(results.succeed, searcher.moves, clipped, searcher.allowsHold)
    ensures (forall t :: !stop(t)) ==> forall o :: o in results.succeed ==> results.succeed[o].Some?
    ensures StoppedWhenAsked(asked, stop, |sequences|, results.succeed)
    ensures Decided(results.succeed, sequences, |asked|)
  {
    results := new PcResults(sequences);
    asked := [];
    ghost var keys := set s | s in sequences;
    var k := 0;
    var stopped := false;
    while k < |sequences| && !stopped
      invariant 0 <= k <= |sequences|
      invariant results.succeed.Keys == keys
      invariant Sound(results.succeed, searcher.moves, clipped, searcher.allowsHold)
      invariant stopped ==> exists t :: stop(t)
      invariant Decided(results.succeed, sequences, k)
      invariant |asked| == k
      invariant forall i :: 0 <= i < k - 1 ==> !stop(asked[i])
      invariant 0 < k ==> asked[k - 1] == results.succeed
      invariant stopped <==> 0 < k && stop(asked[k - 1])
    {
      var sequence := sequences[k];
      assert sequence in results.succeed;
      if results.Get(sequence).Some? {
        stopped := stop(results.succeed);
      } else {
        if searcher.usesVisited {
          searcher.ClearVisited();
        }
        var found := searcher.SearchPcOrder(clipped, ToShapeOrder(sequence));
        Record(results, sequences, k, found, searcher.moves, clipped, searcher.allowsHold, inferSize);
        stopped := stop(results.succeed);
      }
      asked := asked + [results.succeed];
      k := k + 1;
    }
  }

  /** Sequences made from vectors that have verdicts: the first `n` vectors, as sequences, have verdicts. */
  lemma DecidedVectors(t: Table, sequences: seq<ShapeSequence>, vectors: seq<seq<Shape>>, n: nat)
    requires |sequences| == |vectors| && n <= |sequences|
    requires forall k :: 0 <= k < |sequences| ==> sequences[k].shapes == vectors[k]
    requires Decided(t, sequences, n)
    ensures DecidedFirst(t, vectors, n)
  {
    forall i | 0 <= i < n && i < |vectors|
      ensures ShapeSequence(vectors[i]) in t && t[ShapeSequence(vectors[i])].Some?
    {
      assert sequences[i] == ShapeSequence(vectors[i]);
    }
  }

  /** The keys made from a pattern's shape vectors are the sequences of those vectors. */
  lemma KeysOfVectors(sequences: seq<ShapeSequence>, vectors: seq<seq<Shape>>)
    requires |sequences| == |vectors|
    requires forall k :: 0 <= k < |sequences| ==> sequences[k].shapes == vectors[k]
    ensures forall o: ShapeSequence :: o in (set s | s in sequences) <==> o.shapes in vectors
  {
    forall o: ShapeSequence | o.shapes in vectors
      ensures o in sequences
    {
      var k :| 0 <= k < |vectors| && vectors[k] == o.shapes;
      assert sequences[k] == o;
    }
  }

  /** A table with a verdict for every key has nothing pending, and every key accepted. */
  lemma AllDecided(t: Table)
    requires forall o :: o in t ==> t[o].Some?
    ensures |KeysWith(t, None)| == 0
    ensures |AcceptedKeys(t)| == |t.Keys|
  {
    assert KeysWith(t, None) == {};
    CountsAddUp(t);
  }
}
