/**
 * `visit_all_dyn`: given the pieces of one perfect clear, find an order in
 * which they can be put on the board one after another. The pieces left
 * are a bit mask; at each level the candidates are tried lowest bit first,
 * a candidate is kept when the shape matcher accepts its shape, the piece
 * can be placed on the board and the validator does not prune the
 * placement, and the search backtracks by popping the piece again.
 *
 * The board, the placement and the validator belong to the board library
 * and to the callers: they are parameters of the search (`Env`). The bit
 * mask of the pieces left is the set of their indexes.
 */
module AllPcsVisits {
  import opened Wrappers
  import opened Shapes
  import opened Boards
  import opened Masks

  /**
   * What the search is given: the pieces (`refs`), the shape of a piece,
   * the matcher step, `place_according_to`, whether the validator prunes a
   * placement on a board, and the board after a piece's cells are set.
   */
  datatype Env<!B, !M, !P, !R> = Env(
    refs: seq<R>,
    shapeOf: R -> Shape,
    matchShape: (M, Shape) -> (bool, M),
    placeOn: (B, R) -> Option<P>,
    pruned: (B, P) -> bool,
    setAll: (B, R) -> B)

  /** `PlacedPieceBlocksFlow`: the board the pieces start from and the pieces in the order found. */
  datatype Flow<B, R> = Flow(board: B, refs: seq<R>)

  predicate InRefs<B, M, P, R>(env: Env<B, M, P, R>, remaining: set<nat>)
  {
    forall i :: i in remaining ==> i < |env.refs|
  }

  /** The pieces of a list of indexes. */
  function Refs<R>(refs: seq<R>, path: seq<nat>): (r: seq<R>)
    requires forall k :: 0 <= k < |path| ==> path[k] < |refs|
    ensures |r| == |path| && forall k :: 0 <= k < |path| ==> r[k] == refs[path[k]]
  {
    seq(|path|, k requires 0 <= k < |path| => refs[path[k]])
  }

  /**
   * Putting the pieces `path` in turn from `board` with `matcher`: every
   * shape matches, every piece can be placed, and the validator keeps
   * every placement.
   */
  ghost predicate Accepts<B, M, P, R>(env: Env<B, M, P, R>, board: B, matcher: M, path: seq<nat>)
    decreases |path|
  {
    path == [] ||
    (&& path[0] < |env.refs|
     && var r := env.refs[path[0]];
        var step := env.matchShape(matcher, env.shapeOf(r));
        && step.0
        && env.placeOn(board, r).Some?
        && !env.pruned(board, env.placeOn(board, r).value)
        && Accepts(env, env.setAll(board, r), step.1, path[1..]))
  }

  /** `path` lists every index of `remaining` exactly once. */
  predicate IsOrderOf(path: seq<nat>, remaining: set<nat>)
  {
    && (forall k :: 0 <= k < |path| ==> path[k] in remaining)
    && (forall i :: i in remaining ==> i in path)
    && (forall j, k :: 0 <= j < k < |path| ==> path[j] != path[k])
  }

  /** What `build` finds from `board` with the pieces `remaining` left: the first order of them it accepts, if any. */
  function Search<B, M, P, R>(env: Env<B, M, P, R>, board: B, remaining: set<nat>, matcher: M): (r: Option<seq<nat>>)
    requires InRefs(env, remaining)
    ensures r.Some? ==> forall k :: 0 <= k < |r.value| ==> r.value[k] in remaining
    decreases |remaining|, 2, 0
  {
    TryFrom(env, board, remaining, matcher, remaining)
  }

  /** The loop of `build` once the candidates before `candidates` failed: the lowest candidate first, then the others. */
  function TryFrom<B, M, P, R>(env: Env<B, M, P, R>, board: B, remaining: set<nat>, matcher: M,
                               candidates: set<nat>): (r: Option<seq<nat>>)
    requires InRefs(env, remaining) && candidates <= remaining
    ensures r.Some? ==> forall k :: 0 <= k < |r.value| ==> r.value[k] in remaining
    decreases |remaining|, 1, |candidates|
  {
    if candidates == {} then None
    else
      var bit := Lowest(candidates);
      match Take(env, board, remaining, matcher, bit)
      case Some(path) => Some(path)
      case None => TryFrom(env, board, remaining, matcher, candidates - {bit})
  }

  /**
   * One candidate of the loop of `build`: nothing when its shape does not
   * match, it cannot be placed or the validator prunes it; otherwise the
   * candidate alone when it was the last piece, else the candidate followed
   * by what the search finds for the pieces after it.
   */
  function Take<B, M, P, R>(env: Env<B, M, P, R>, board: B, remaining: set<nat>, matcher: M, bit: nat): (r: Option<seq<nat>>)
    requires InRefs(env, remaining) && bit in remaining
    ensures r.Some? ==> forall k :: 0 <= k < |r.value| ==> r.value[k] in remaining
    decreases |remaining|, 0, 0
  {
    var r := env.refs[bit];
    var step := env.matchShape(matcher, env.shapeOf(r));
    if !step.0 then None
    else
      match env.placeOn(board, r)
      case None => None
      case Some(placement) =>
        if env.pruned(board, placement) then None
        else if remaining - {bit} == {} then Some([bit])
        else
          match Search(env, env.setAll(board, r), remaining - {bit}, step.1)
          case Some(path) => Some([bit] + path)
          case None => None
  }

  /** A candidate taken starts the order it leads to, which holds every piece left once and whose every step is accepted. */
  lemma {:induction false} TakeSound<B, M, P, R>(env: Env<B, M, P, R>, board: B, remaining: set<nat>, matcher: M, bit: nat)
    requires InRefs(env, remaining) && bit in remaining
    ensures var r := Take(env, board, remaining, matcher, bit);
      r.Some? ==> r.value != [] && r.value[0] == bit && IsOrderOf(r.value, remaining) && Accepts(env, board, matcher, r.value)
    decreases |remaining|, 0
  {
    var r := env.refs[bit];
    var step := env.matchShape(matcher, env.shapeOf(r));
    var res := Take(env, board, remaining, matcher, bit);
    if res.Some? {
      assert step.0 && env.placeOn(board, r).Some? && !env.pruned(board, env.placeOn(board, r).value);
      if remaining - {bit} == {} {
        assert res.value == [bit];
        assert Accepts(env, env.setAll(board, r), step.1, res.value[1..]);
        forall i | i in remaining ensures i in res.value {
          assert i !in remaining - {bit};
        }
      } else {
        var next := Search(env, env.setAll(board, r), remaining - {bit}, step.1);
        SearchSound(env, env.setAll(board, r), remaining - {bit}, step.1);
        assert res.value == [bit] + next.value;
        assert res.value[1..] == next.value;
        forall i | i in remaining ensures i in res.value {
          if i != bit {
            assert i in remaining - {bit};
          }
        }
      }
    }
  }

  /** The order `build` finds, from any of the candidates, holds every piece left once, and each of its steps is accepted. */
  lemma {:induction false} TryFromSound<B, M, P, R>(env: Env<B, M, P, R>, board: B, remaining: set<nat>, matcher: M,
                                                     candidates: set<nat>)
    requires InRefs(env, remaining) && candidates <= remaining
    ensures var r := TryFrom(env, board, remaining, matcher, candidates);
      r.Some? ==> r.value != [] && r.value[0] in candidates && IsOrderOf(r.value, remaining) && Accepts(env, board, matcher, r.value)
    decreases |remaining|, 1, |candidates|
  {
    if candidates != {} {
      var bit := Lowest(candidates);
      TakeSound(env, board, remaining, matcher, bit);
      TryFromSound(env, board, remaining, matcher, candidates - {bit});
    }
  }

  /** `Search` finds only orders of every piece left whose every step is accepted. */
  lemma {:induction false} SearchSound<B, M, P, R>(env: Env<B, M, P, R>, board: B, remaining: set<nat>, matcher: M)
    requires InRefs(env, remaining)
    ensures var r := Search(env, board, remaining, matcher);
      r.Some? ==> IsOrderOf(r.value, remaining) && Accepts(env, board, matcher, r.value)
    decreases |remaining|, 2
  {
    TryFromSound(env, board, remaining, matcher, remaining);
  }

  /** A candidate that starts an accepted order of the pieces left is taken. */
  lemma {:induction false} TakeComplete<B, M, P, R>(env: Env<B, M, P, R>, board: B, remaining: set<nat>, matcher: M,
                                                     path: seq<nat>)
    requires InRefs(env, remaining)
    requires path != [] && IsOrderOf(path, remaining) && Accepts(env, board, matcher, path)
    ensures Take(env, board, remaining, matcher, path[0]).Some?
    decreases |remaining|, 0
  {
    var bit := path[0];
    var r := env.refs[bit];
    var step := env.matchShape(matcher, env.shapeOf(r));
    assert step.0 && env.placeOn(board, r).Some? && !env.pruned(board, env.placeOn(board, r).value);
    if remaining - {bit} != {} {
      var tail := path[1..];
      TailIsOrder(path, remaining);
      var x :| x in remaining - {bit};
      assert tail != [] by {
        assert x in path && x != path[0];
      }
      assert Accepts(env, env.setAll(board, r), step.1, tail);
      TryFromComplete(env, env.setAll(board, r), remaining - {bit}, step.1, remaining - {bit}, tail);
    }
  }

  /**
   * When some order of the pieces left starting at one of the candidates
   * is accepted, the loop from those candidates finds an order.
   */
  lemma {:induction false} TryFromComplete<B, M, P, R>(env: Env<B, M, P, R>, board: B, remaining: set<nat>, matcher: M,
                                                        candidates: set<nat>, path: seq<nat>)
    requires InRefs(env, remaining) && candidates <= remaining
    requires path != [] && path[0] in candidates && IsOrderOf(path, remaining) && Accepts(env, board, matcher, path)
    ensures TryFrom(env, board, remaining, matcher, candidates).Some?
    decreases |remaining|, 1, |candidates|
  {
    var bit := Lowest(candidates);
    if bit != path[0] {
      TryFromComplete(env, board, remaining, matcher, candidates - {bit}, path);
    } else {
      TakeComplete(env, board, remaining, matcher, path);
    }
  }

  /** Dropping the first index of an order of `remaining` leaves an order of the rest. */
  lemma TailIsOrder(path: seq<nat>, remaining: set<nat>)
    requires path != [] && IsOrderOf(path, remaining)
    ensures IsOrderOf(path[1..], remaining - {path[0]})
  {
    forall i | i in remaining - {path[0]} ensures i in path[1..] {
      var k :| 0 <= k < |path| && path[k] == i;
      assert path[1..][k - 1] == i;
    }
  }

  /** `Search` finds an order exactly when some order of every piece left is accepted. */
  lemma SearchComplete<B, M, P, R>(env: Env<B, M, P, R>, board: B, remaining: set<nat>, matcher: M, path: seq<nat>)
    requires InRefs(env, remaining) && remaining != {}
    requires IsOrderOf(path, remaining) && Accepts(env, board, matcher, path)
    ensures Search(env, board, remaining, matcher).Some?
  {
    var x :| x in remaining;
    assert x in path;
    TryFromComplete(env, board, remaining, matcher, remaining, path);
  }

  /** The `Builder` of `visit_all_dyn`: the pieces and the pieces put so far. */
  class Builder<B, M, P, R> {
    const env: Env<B, M, P, R>
    var results: seq<R>

    constructor (env: Env<B, M, P, R>)
      ensures this.env == env && results == []
    {
      this.env := env;
      results := [];
    }

    /**
     * `build`: succeeds exactly when `Search` finds an order, and then
     * leaves the pieces of that order after the ones already put; on
     * failure every piece pushed was popped again.
     */
    method Build(board: B, remaining: set<nat>, matcher: M) returns (found: bool)
      requires InRefs(env, remaining)
      modifies this
      ensures found <==> Search(env, board, remaining, matcher).Some?
      ensures found ==> results == old(results) + Refs(env.refs, Search(env, board, remaining, matcher).value)
      ensures !found ==> results == old(results)
      decreases |remaining|, 1
    {
      var candidates := remaining;
      while candidates != {}
        invariant candidates <= remaining
        invariant Search(env, board, remaining, matcher) == TryFrom(env, board, remaining, matcher, candidates)
        invariant results == old(results)
        decreases |candidates|
      {
        var bit := Lowest(candidates);
        candidates := candidates - {bit};
        found := TakeCandidate(board, remaining, matcher, bit);
        if found {
          return;
        }
      }
      return false;
    }

    /** The body of the loop of `build` for one candidate: push it, search on, pop it again when that fails. */
    method TakeCandidate(board: B, remaining: set<nat>, matcher: M, bit: nat) returns (found: bool)
      requires InRefs(env, remaining) && bit in remaining
      modifies this
      ensures found <==> Take(env, board, remaining, matcher, bit).Some?
      ensures found ==> results == old(results) + Refs(env.refs, Take(env, board, remaining, matcher, bit).value)
      ensures !found ==> results == old(results)
      decreases |remaining|, 0
    {
      var nextRemaining := remaining - {bit};
      var r := env.refs[bit];
      var step := env.matchShape(matcher, env.shapeOf(r));
      if !step.0 {
        return false;
      }
      var placement := env.placeOn(board, r);
      if placement.None? || env.pruned(board, placement.value) {
        return false;
      }
      results := results + [r];
      if nextRemaining == {} {
        assert Refs(env.refs, [bit]) == [r];
        return true;
      }
      found := Build(env.setAll(board, r), nextRemaining, step.1);
      if found {
        ghost var path := Search(env, env.setAll(board, r), nextRemaining, step.1).value;
        assert Refs(env.refs, [bit] + path) == [r] + Refs(env.refs, path);
      } else {
        results := results[..|results| - 1];
      }
    }
  }

  /**
   * `visit_all_dyn`: no pieces give no order; otherwise (at most 63
   * pieces) the flow from the initial board with the pieces of the order
   * `Search` finds over all of them, if it finds one.
   */
  method VisitAllDyn<B, M, P, R>(env: Env<B, M, P, R>, initialBoard: B, matcher: M) returns (r: Option<Flow<B, R>>)
    requires |env.refs| < 64
    ensures env.refs == [] ==> r == None
    ensures r.Some? <==> env.refs != [] && Search(env, initialBoard, Range(|env.refs|), matcher).Some?
    ensures r.Some? ==> r.value == Flow(initialBoard, Refs(env.refs, Search(env, initialBoard, Range(|env.refs|), matcher).value))
  {
    if env.refs == [] {
      return None;
    }
    var builder := new Builder(env);
    var found := builder.Build(initialBoard, Range(|env.refs|), matcher);
    if found {
      r := Some(Flow(initialBoard, builder.results));
    } else {
      r := None;
    }
  }

  /**
   * What `visit_all_dyn` promises: a flow exactly when some order of all
   * the pieces is accepted, and then the flow holds every piece once, in
   * an order whose every step was accepted.
   */
  lemma VisitAllDynMeaning<B, M, P, R>(env: Env<B, M, P, R>, initialBoard: B, matcher: M)
    requires env.refs != []
    ensures var all := Range(|env.refs|);
      (Search(env, initialBoard, all, matcher).Some? <==>
        exists path :: IsOrderOf(path, all) && Accepts(env, initialBoard, matcher, path))
    ensures var r := Search(env, initialBoard, Range(|env.refs|), matcher);
      r.Some? ==> |r.value| == |env.refs| && IsOrderOf(r.value, Range(|env.refs|))
  {
    var all := Range(|env.refs|);
    assert 0 in all;
    SearchSound(env, initialBoard, all, matcher);
    if exists path :: IsOrderOf(path, all) && Accepts(env, initialBoard, matcher, path) {
      var path :| IsOrderOf(path, all) && Accepts(env, initialBoard, matcher, path);
      SearchComplete(env, initialBoard, all, matcher, path);
    }
    var r := Search(env, initialBoard, all, matcher);
    if r.Some? {
      OrderLength(r.value, all);
    }
  }

  /** An order of a set is as long as the set is large. */
  lemma {:induction false} OrderLength(path: seq<nat>, remaining: set<nat>)
    requires IsOrderOf(path, remaining)
    ensures |path| == |remaining|
    decreases |path|
  {
    if path != [] {
      TailIsOrder(path, remaining);
      OrderLength(path[1..], remaining - {path[0]});
    }
  }
}
