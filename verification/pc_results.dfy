/**
 * `PcResults`: the verdict for every shape sequence of a search, in three
 * states: succeeded (`Some(true)`), failed (`Some(false)`) or pending
 * (`None`). The set of sequences is fixed when the table is made.
 */
module PcResultTables {
  import opened Shapes
  import opened Wrappers
  import opened ShapeSequences

  type Table = map<ShapeSequence, Option<bool>>

  /** Every sequence of `sequences`, pending. */
  function Pending(sequences: seq<ShapeSequence>): (t: Table)
    ensures t.Keys == set s | s in sequences
    ensures forall s :: s in t ==> t[s].None?
  {
    map s | s in sequences :: None
  }

  /** The table after `accept_if_present`: the verdict is recorded only for a key already there. */
  function Accepted(t: Table, sequence: ShapeSequence, succeed: bool): Table
  {
    if sequence in t then t[sequence := Some(succeed)] else t
  }

  /** The keys holding verdict `v`. */
  function KeysWith(t: Table, v: Option<bool>): set<ShapeSequence>
  {
    set s | s in t && t[s] == v
  }

  /** The keys holding some verdict. */
  function AcceptedKeys(t: Table): set<ShapeSequence>
  {
    set s | s in t && t[s].Some?
  }

  /** `get`: the verdict, `None` both for pending keys and for sequences not in the table. */
  function GetIn(t: Table, sequence: ShapeSequence): (r: Option<bool>)
    ensures r.Some? <==> sequence in AcceptedKeys(t)
    ensures r.Some? ==> t[sequence] == r
  {
    if sequence in t then t[sequence] else None
  }

  /**
   * The counts add up: succeeded and failed are the accepted ones, and
   * accepted and pending are all the keys.
   */
  lemma CountsAddUp(t: Table)
    ensures |KeysWith(t, Some(true))| + |KeysWith(t, Some(false))| == |AcceptedKeys(t)|
    ensures |AcceptedKeys(t)| + |KeysWith(t, None)| == |t.Keys|
  {
    forall s | s in AcceptedKeys(t) ensures s in KeysWith(t, Some(true)) + KeysWith(t, Some(false)) {
      if t[s].value {
        assert s in KeysWith(t, Some(true));
      } else {
        assert s in KeysWith(t, Some(false));
      }
    }
    assert AcceptedKeys(t) == KeysWith(t, Some(true)) + KeysWith(t, Some(false));
    assert KeysWith(t, Some(true)) * KeysWith(t, Some(false)) == {};
    assert t.Keys == AcceptedKeys(t) + KeysWith(t, None);
    assert AcceptedKeys(t) * KeysWith(t, None) == {};
  }

  /**
   * Accepting keeps the key set; for a key, it records the verdict and
   * leaves every other verdict alone; for a stranger, it changes nothing.
   */
  lemma AcceptedKeepsKeys(t: Table, sequence: ShapeSequence, succeed: bool)
    ensures Accepted(t, sequence, succeed).Keys == t.Keys
    ensures sequence in t ==> GetIn(Accepted(t, sequence, succeed), sequence) == Some(succeed)
    ensures forall s :: s != sequence ==> GetIn(Accepted(t, sequence, succeed), s) == GetIn(t, s)
    ensures sequence !in t ==> Accepted(t, sequence, succeed) == t
  {
  }

  /**
   * Deciding a pending key moves it from the pending count to the count of
   * its verdict, and leaves the number of keys unchanged.
   */
  lemma AcceptPendingCounts(t: Table, sequence: ShapeSequence, succeed: bool)
    requires sequence in t && t[sequence].None?
    ensures |KeysWith(Accepted(t, sequence, succeed), None)| + 1 == |KeysWith(t, None)|
    ensures |KeysWith(Accepted(t, sequence, succeed), Some(succeed))| == |KeysWith(t, Some(succeed))| + 1
    ensures |KeysWith(Accepted(t, sequence, succeed), Some(!succeed))| == |KeysWith(t, Some(!succeed))|
    ensures |AcceptedKeys(Accepted(t, sequence, succeed))| == |AcceptedKeys(t)| + 1
  {
    var u := Accepted(t, sequence, succeed);
    assert KeysWith(u, None) == KeysWith(t, None) - {sequence};
    assert KeysWith(u, Some(succeed)) == KeysWith(t, Some(succeed)) + {sequence};
    assert KeysWith(u, Some(!succeed)) == KeysWith(t, Some(!succeed));
    assert AcceptedKeys(u) == AcceptedKeys(t) + {sequence};
  }

  /** A fresh table has every key pending and nothing accepted. */
  lemma PendingCounts(sequences: seq<ShapeSequence>)
    ensures |KeysWith(Pending(sequences), None)| == |Pending(sequences).Keys|
    ensures AcceptedKeys(Pending(sequences)) == {}
  {
    assert KeysWith(Pending(sequences), None) == Pending(sequences).Keys;
  }

  /** A sequence without repeats has as many elements as its set. */
  lemma {:induction false} DistinctCard<T>(r: seq<T>)
    requires forall i, j :: 0 <= i < j < |r| ==> r[i] != r[j]
    ensures |set s | s in r| == |r|
  {
    if r != [] {
      var front := r[..|r| - 1];
      DistinctCard(front);
      assert (set s | s in r) == (set s | s in front) + {r[|r| - 1]};
      assert r[|r| - 1] !in front;
    }
  }

  class PcResults {
    var succeed: Table

    /** `new`: every given sequence, pending; a repeated sequence is one key. */
    constructor (sequences: seq<ShapeSequence>)
      ensures succeed == Pending(sequences)
    {
      var t: Table := map[];
      for k := 0 to |sequences|
        invariant t == Pending(sequences[..k])
      {
        assert sequences[..k + 1] == sequences[..k] + [sequences[k]];
        t := t[sequences[k] := None];
      }
      assert sequences[..|sequences|] == sequences;
      succeed := t;
    }

    /** `accept_if_present`: records the verdict and answers `true` exactly when the sequence is a key. */
    method AcceptIfPresent(sequence: ShapeSequence, flag: bool) returns (present: bool)
      modifies this
      ensures present == (sequence in old(succeed))
      ensures succeed == Accepted(old(succeed), sequence, flag)
    {
      if sequence in succeed {
        succeed := succeed[sequence := Some(flag)];
        return true;
      }
      return false;
    }

    /** `contains_key`. */
    function ContainsKey(sequence: ShapeSequence): bool
      reads this
    {
      sequence in succeed
    }

    /** `get`. */
    function Get(sequence: ShapeSequence): Option<bool>
      reads this
    {
      GetIn(succeed, sequence)
    }

    function CountSucceed(): nat
      reads this
    {
      |KeysWith(succeed, Some(true))|
    }

    function CountFailed(): nat
      reads this
    {
      |KeysWith(succeed, Some(false))|
    }

    function CountAccepted(): nat
      reads this
    {
      |AcceptedKeys(succeed)|
    }

    function CountPending(): nat
      reads this
    {
      |KeysWith(succeed, None)|
    }

    function CountKeys(): nat
      reads this
    {
      |succeed.Keys|
    }

    /**
     * `accepted_shape_sequences`: every decided key once; the order is the
     * map's iteration order, which is left unspecified.
     */
    method AcceptedShapeSequences() returns (r: seq<ShapeSequence>)
      ensures forall s :: s in r <==> s in AcceptedKeys(succeed)
      ensures forall i, j :: 0 <= i < j < |r| ==> r[i] != r[j]
      ensures |r| == CountAccepted()
    {
      r := [];
      var rest := succeed.Keys;
      while rest != {}
        invariant rest <= succeed.Keys
        invariant forall s :: s in r <==> s in succeed && succeed[s].Some? && s !in rest
        invariant forall i, j :: 0 <= i < j < |r| ==> r[i] != r[j]
        decreases |rest|
      {
        var s :| s in rest;
        if succeed[s].Some? {
          r := r + [s];
        }
        rest := rest - {s};
      }
      DistinctCard(r);
      assert (set s | s in r) == AcceptedKeys(succeed);
    }
  }

  /**
   * The test table of sequences ITO, ITS and ITZ: ITS succeeds, ITZ fails,
   * ZZZ is refused; one key stays pending throughout.
   */
  lemma TableExample()
    ensures var ito, its, itz, zzz := ShapeSequence([I, T, O]), ShapeSequence([I, T, S]), ShapeSequence([I, T, Z]), ShapeSequence([Z, Z, Z]);
            var t0 := Pending([ito, its, itz]);
            var t1 := Accepted(t0, its, true);
            var t2 := Accepted(t1, itz, false);
            && |t0.Keys| == 3 && |KeysWith(t0, None)| == 3
            && |KeysWith(t1, Some(true))| == 1 && |KeysWith(t1, None)| == 2
            && |KeysWith(t2, Some(false))| == 1 && |AcceptedKeys(t2)| == 2 && |KeysWith(t2, None)| == 1
            && zzz !in t2 && Accepted(t2, zzz, true) == t2
            && GetIn(t2, its) == Some(true) && GetIn(t2, itz) == Some(false)
            && GetIn(t2, ito) == None && GetIn(t2, zzz) == None
  {
    var ito, its, itz, zzz := ShapeSequence([I, T, O]), ShapeSequence([I, T, S]), ShapeSequence([I, T, Z]), ShapeSequence([Z, Z, Z]);
    var t0 := Pending([ito, its, itz]);
    assert t0.Keys == {ito, its, itz};
    assert ito != its && its != itz && ito != itz;
    PendingCounts([ito, its, itz]);
    AcceptPendingCounts(t0, its, true);
    var t1 := Accepted(t0, its, true);
    AcceptPendingCounts(t1, itz, false);
    assert KeysWith(t0, Some(true)) == {};
    assert KeysWith(t1, Some(false)) == {};
  }
}
