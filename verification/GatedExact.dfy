/**
 What can be told at the freeze: exactly the freezes with no commit outstanding are safe against every continuation.
 */
module GatedExact {
  import opened CommitOrders
  import opened SnapshotReplays
  import opened GatedRuns
  import Gates = FreezeGates
  import Recoveries

  /** A run that has gone the same way up to point `f`. */
  ghost predicate Continues<S, Op>(run: seq<Joint<S, Op>>, f: nat, run': seq<Joint<S, Op>>) {
    f < |run| && f < |run'| && run'[..f + 1] == run[..f + 1]
  }

  /** The crash at the end of `run'` is survived: recovery from the snapshot taken at `f` reflects just what a replay
      from the head plays. */
  ghost predicate Survives<S, Op(!new)>(run': seq<Joint<S, Op>>, f: nat)
    requires f < |run'|
  {
    var a, b := run'[f].world, run'[|run'| - 1].world;
    forall fromSnapshot: seq<nat>, fromHead: seq<nat> ::
      Replays(b, fromSnapshot, |a.log|, |a.order|) && Replays(b, fromHead, 0, 0) ==>
        Reflected(|a.log|, fromSnapshot) == Entries(fromHead)
  }

  /** Whatever happens after the freeze at `f`, and wherever it stops. */
  ghost predicate AlwaysSurvives<S(!new), Op(!new)>(run: seq<Joint<S, Op>>, f: nat, init: S, apply: (S, Op) -> S,
                                                    lock: Op -> nat) {
    forall run', moves' :: IsJointRun(run', moves', init, apply, lock) && Continues(run, f, run') ==> Survives(run', f)
  }

  /** Some replay exists. */
  lemma SomeReplay<S, Op(!new)>(w: World<S, Op>, tail: nat, last: nat) returns (played: seq<nat>)
    ensures Replays(w, played, tail, last)
  {
    var ids := StoredIds(w, tail);
    Recoveries.RunEndLongest(ids, last);
    played := ReplayUpTo(w, tail, last, Recoveries.RunEnd(ids, last) - last);
  }

  lemma {:induction false} ReplayUpTo<S, Op(!new)>(w: World<S, Op>, tail: nat, last: nat, n: nat)
    returns (played: seq<nat>)
    requires forall i :: last < i <= last + n ==> i in StoredIds(w, tail)
    ensures |played| == n
    ensures forall k :: 0 <= k < n ==>
      tail <= played[k] < |w.log| && w.log[played[k]].stored && w.log[played[k]].id == last + 1 + k
  {
    played := [];
    if 0 < n {
      played := ReplayUpTo(w, tail, last, n - 1);
      assert last + n in StoredIds(w, tail);
      var e :| tail <= e < |w.log| && w.log[e].stored && w.log[e].id == last + n;
      played := played + [e];
    }
  }

  /** A crash right at a freeze that finds an id not stored: the snapshot holds an operation that no replay plays. */
  lemma FrozenExtra<S, Op(!new)>(run: seq<Joint<S, Op>>, f: nat, e: nat)
    requires f + 1 == |run| && e < |run[f].world.log| && !run[f].world.log[e].stored
    ensures !Survives(run, f)
  {
    var w := run[f].world;
    var fromSnapshot := SomeReplay(w, |w.log|, |w.order|);
    var fromHead := SomeReplay(w, 0, 0);
    assert Before(e, |w.log|) && e in Reflected(|w.log|, fromSnapshot);
    assert e !in Entries(fromHead);
  }

  lemma CutRun<S, Op(!new)>(run: seq<Joint<S, Op>>, moves: seq<Move<Op>>, f: nat, init: S, apply: (S, Op) -> S,
                            lock: Op -> nat)
    requires IsJointRun(run, moves, init, apply, lock) && f < |run|
    ensures IsJointRun(run[..f + 1], moves[..f], init, apply, lock) && Continues(run, f, run[..f + 1])
  {
  }

  /** At a freeze, no thread is between its count-down and its commit if and only if every crash of every continuation
      is survived. */
  lemma FreezeExact<S(!new), Op(!new)>(run: seq<Joint<S, Op>>, moves: seq<Move<Op>>, f: nat, init: S,
                                       apply: (S, Op) -> S, lock: Op -> nat)
    requires IsJointRun(run, moves, init, apply, lock) && Commutes(apply, lock) && f < |run|
    requires run[f].gate.snapshot == Gates.Frozen
    ensures (forall t: nat :: !Gates.At(run[f].gate, t, Gates.Committing)) <==>
      AlwaysSurvives(run, f, init, apply, lock)
  {
    if forall t: nat :: !Gates.At(run[f].gate, t, Gates.Committing) {
      forall run', moves' | IsJointRun(run', moves', init, apply, lock) && Continues(run, f, run')
        ensures Survives(run', f) {
        CleanSurvives(run, run', moves', f, init, apply, lock);
      }
    }
    if AlwaysSurvives(run, f, init, apply, lock) {
      CutRun(run, moves, f, init, apply, lock);
      assert Survives(run[..f + 1], f);
      forall e | 0 <= e < |run[f].world.log| ensures run[f].world.log[e].stored {
        if !run[f].world.log[e].stored { FrozenExtra(run[..f + 1], f, e); }
      }
      NoneCommitting(run, moves, f, init, apply, lock);
    }
  }

  lemma CleanSurvives<S(!new), Op(!new)>(run: seq<Joint<S, Op>>, run': seq<Joint<S, Op>>, moves': seq<Move<Op>>, f: nat,
                                         init: S, apply: (S, Op) -> S, lock: Op -> nat)
    requires IsJointRun(run', moves', init, apply, lock) && Commutes(apply, lock) && Continues(run, f, run')
    requires run[f].gate.snapshot == Gates.Frozen && forall t: nat :: !Gates.At(run[f].gate, t, Gates.Committing)
    ensures Survives(run', f)
  {
    assert run'[f] == run[f] by { assert run'[..f + 1][f] == run[..f + 1][f]; }
    var a, b := run'[f].world, run'[|run'| - 1].world;
    forall fromSnapshot: seq<nat>, fromHead: seq<nat> | Replays(b, fromSnapshot, |a.log|, |a.order|)
        && Replays(b, fromHead, 0, 0)
      ensures Reflected(|a.log|, fromSnapshot) == Entries(fromHead)
    {
      GatedEndToEnd(run', moves', f, |run'| - 1, fromSnapshot, fromHead, init, apply, lock);
    }
  }
}
