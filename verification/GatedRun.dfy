/**
 The freeze gate and the calls on one object as one machine: a call begins when its thread passes the gate, its thread
 counts itself out once the call is applied and logged, and gets its commit id after that.
 */
module GatedRuns {
  import opened CommitOrders
  import opened SnapshotReplays
  import Gates = FreezeGates

  datatype Joint<S, Op> = Joint(gate: Gates.State, world: World<S, Op>)

  /** A step of the gate alone; passing the gate with a call; a step of the call alone; counting out; the store of the
      commit id. */
  datatype Move<Op> = Gate(g: Gates.Step) | Pass(t: nat, op: Op) | Work(w: Step<Op>) | CountOut(t: nat) | Finish(t: nat)

  /** The thread reads a cleared lock at the gate, or counts itself in again after it was held. */
  predicate LetsIn(s: Gates.State, t: nat) {
    || (Gates.Enabled(s, Gates.Check(t)) && !s.locks[s.threads[t].obj])
    || Gates.Enabled(s, Gates.Resume(t))
  }

  ghost predicate CanMove<S, Op(!new)>(j: Joint<S, Op>, lock: Op -> nat, m: Move<Op>) {
    match m
    case Gate(g) => Gates.Enabled(j.gate, g) && GateAlone(j, g)
    case Pass(t, op) => LetsIn(j.gate, t) && Enabled(j.world, lock, Call(t, op))
    case Work(w) => Enabled(j.world, lock, w) && Allowed(j.gate, w)
    case CountOut(t) =>
        Gates.Enabled(j.gate, Gates.CountDown(t)) && AtPhase(j.world.threads, t, Applied)
            && 0 <= j.world.threads[t].entry
    case Finish(t) => Gates.Enabled(j.gate, Gates.Commit(t)) && Enabled(j.world, lock, Store(t))
  }

  /** A new transaction begins after the last call has ended; steps that the call takes part in are not the gate's
      alone. */
  predicate GateAlone<S, Op>(j: Joint<S, Op>, g: Gates.Step)
    requires Gates.Enabled(j.gate, g)
  {
    match g
    case Enter(t, obj) => t < |j.world.threads| && j.world.threads[t].Out?
    case Check(t) => j.gate.locks[j.gate.threads[t].obj]
    case Resume(_) => false
    case CountDown(_) => false
    case Commit(_) => false
    case _ => true
  }

  /** Where the thread is in the transaction when the call makes its own steps. */
  predicate Allowed<Op>(s: Gates.State, w: Step<Op>) {
    match w
    case Call(_, _) => false
    case Log(t) => Gates.IsPast(s, t)
    case Acquire(t) => Gates.IsPast(s, t)
    case Apply(t) => Gates.IsPast(s, t)
    case Assign(t) => Gates.At(s, t, Gates.Committing)
    case Store(_) => false
    case Release(t) => Gates.At(s, t, Gates.Outside)
  }

  ghost function Moved<S, Op(!new)>(j: Joint<S, Op>, apply: (S, Op) -> S, lock: Op -> nat, m: Move<Op>): Joint<S, Op>
    requires CanMove(j, lock, m)
  {
    match m
    case Gate(g) => j.(gate := Gates.Next(j.gate, g))
    case Pass(t, op) =>
      Joint(Gates.Next(j.gate, if Gates.Enabled(j.gate, Gates.Resume(t)) then Gates.Resume(t) else Gates.Check(t)),
            Next(j.world, apply, lock, Call(t, op)))
    case Work(w) => j.(world := Next(j.world, apply, lock, w))
    case CountOut(t) => j.(gate := Gates.Next(j.gate, Gates.CountDown(t)))
    case Finish(t) => Joint(Gates.Next(j.gate, Gates.Commit(t)), Next(j.world, apply, lock, Store(t)))
  }

  ghost predicate Starts<S, Op>(j: Joint<S, Op>, init: S) {
    Gates.Init(j.gate) && Init(j.world, init) && |j.world.threads| == |j.gate.threads|
  }

  ghost predicate IsJointRun<S, Op(!new)>(run: seq<Joint<S, Op>>, moves: seq<Move<Op>>, init: S, apply: (S, Op) -> S,
                                          lock: Op -> nat) {
    && |run| == |moves| + 1 && Starts(run[0], init)
    && forall i :: 0 <= i < |moves| ==>
         CanMove(run[i], lock, moves[i]) && run[i + 1] == Moved(run[i], apply, lock, moves[i])
  }

  // ---------------------------------------------------------------- the two agree

  /** What the place of a thread at the gate says about its call. */
  predicate ThreadAgrees<Op>(pc: Gates.Pc, th: Thread<Op>) {
    match pc
    case Outside => th.Out? || th.phase == Stored
    case Past(_) => th.In? && (th.phase == Called || th.phase == Holding || th.phase == Applied)
    case Committing => th.In? && 0 <= th.entry && (th.phase == Applied || th.phase == Assigned)
    case _ => th.Out?
  }

  ghost predicate Agrees<S, Op>(j: Joint<S, Op>) {
    && |j.world.threads| == |j.gate.threads|
    && forall t :: 0 <= t < |j.gate.threads| ==> ThreadAgrees(j.gate.threads[t].pc, j.world.threads[t])
  }

  lemma MovedAgrees<S, Op(!new)>(j: Joint<S, Op>, m: Move<Op>, apply: (S, Op) -> S, lock: Op -> nat)
    requires Agrees(j) && Gates.Inv(j.gate) && CanMove(j, lock, m)
    ensures Agrees(Moved(j, apply, lock, m)) && Gates.Inv(Moved(j, apply, lock, m).gate)
  {
    match m
    case Gate(g) => Gates.NextInv(j.gate, g);
    case Pass(t, op) => PassAgrees(j, t, op, apply, lock);
    case Work(w) => WorkAgrees(j, w, apply, lock);
    case CountOut(t) => Gates.NextInv(j.gate, Gates.CountDown(t));
    case Finish(t) => FinishAgrees(j, t, apply, lock);
  }

  lemma PassAgrees<S, Op(!new)>(j: Joint<S, Op>, t: nat, op: Op, apply: (S, Op) -> S, lock: Op -> nat)
    requires Agrees(j) && Gates.Inv(j.gate) && CanMove(j, lock, Pass(t, op))
    ensures
      var j' := Moved(j, apply, lock, Pass(t, op));
      Agrees(j') && Gates.Inv(j'.gate)
  {
    Gates.NextInv(j.gate, if Gates.Enabled(j.gate, Gates.Resume(t)) then Gates.Resume(t) else Gates.Check(t));
  }

  lemma FinishAgrees<S, Op(!new)>(j: Joint<S, Op>, t: nat, apply: (S, Op) -> S, lock: Op -> nat)
    requires Agrees(j) && Gates.Inv(j.gate) && CanMove(j, lock, Finish(t))
    ensures
      var j' := Moved(j, apply, lock, Finish(t));
      Agrees(j') && Gates.Inv(j'.gate)
  {
    Gates.NextInv(j.gate, Gates.Commit(t));
  }

  lemma WorkAgrees<S, Op(!new)>(j: Joint<S, Op>, w: Step<Op>, apply: (S, Op) -> S, lock: Op -> nat)
    requires Agrees(j) && Enabled(j.world, lock, w) && Allowed(j.gate, w)
    ensures Agrees(j.(world := Next(j.world, apply, lock, w)))
  {
  }

  lemma {:induction false} JointInv<S, Op(!new)>(run: seq<Joint<S, Op>>, moves: seq<Move<Op>>, i: nat, init: S,
                                                 apply: (S, Op) -> S, lock: Op -> nat)
    requires IsJointRun(run, moves, init, apply, lock) && i < |run|
    ensures Agrees(run[i]) && Gates.Inv(run[i].gate)
  {
    if i != 0 {
      JointInv(run, moves, i - 1, init, apply, lock);
      MovedAgrees(run[i - 1], moves[i - 1], apply, lock);
    }
  }

  /** While the gate is frozen every call under way is applied and logged. */
  lemma FrozenAtFreeze<S, Op(!new)>(run: seq<Joint<S, Op>>, moves: seq<Move<Op>>, f: nat, init: S, apply: (S, Op) -> S,
                                    lock: Op -> nat)
    requires IsJointRun(run, moves, init, apply, lock) && f < |run| && run[f].gate.snapshot == Gates.Frozen
    requires forall t :: 0 <= t < |run[f].world.threads| ==> ThreadOk(run[f].world, t)
    ensures AtFreeze(run[f].world) && InStep(run[f].world)
  {
    JointInv(run, moves, f, init, apply, lock);
    var j := run[f];
    forall t | 0 <= t < |j.world.threads| && j.world.threads[t].In?
      ensures 0 <= j.world.threads[t].entry && j.world.threads[t].phase != Called && j.world.threads[t].phase != Holding
    {
      assert !Gates.IsPast(j.gate, t) && ThreadAgrees(j.gate.threads[t].pc, j.world.threads[t]) && ThreadOk(j.world, t);
    }
  }

  // ---------------------------------------------------------------- the calls of a joint run

  datatype Maybe<T> = None | Some(value: T)

  /** What a move does to the call. */
  function WorldStep<Op>(m: Move<Op>): Maybe<Step<Op>> {
    match m
    case Gate(_) => None
    case Pass(t, op) => Some(Call(t, op))
    case Work(w) => Some(w)
    case CountOut(_) => None
    case Finish(t) => Some(Store(t))
  }

  lemma MovedWorld<S, Op(!new)>(j: Joint<S, Op>, m: Move<Op>, apply: (S, Op) -> S, lock: Op -> nat)
    requires CanMove(j, lock, m)
    ensures
      match WorldStep(m)
      case None => Moved(j, apply, lock, m).world == j.world
      case Some(step) =>
          Enabled(j.world, lock, step) && Moved(j, apply, lock, m).world == Next(j.world, apply, lock, step)
  {
  }

  /** `at[i]` is where the world of point `i` stands in `worlds`. */
  ghost predicate Stands<S, Op>(run: seq<Joint<S, Op>>, worlds: seq<World<S, Op>>, at: seq<nat>) {
    && 0 < |at| <= |run| && at[|at| - 1] == |worlds| - 1
    && (forall i, k :: 0 <= i <= k < |at| ==> at[i] <= at[k])
    && forall i :: 0 <= i < |at| ==> at[i] < |worlds| && worlds[at[i]] == run[i].world
  }

  /** The calls of a joint run are a run of their own. */
  lemma {:induction false} WorldRun<S, Op(!new)>(run: seq<Joint<S, Op>>, moves: seq<Move<Op>>, n: nat, init: S,
                                                 apply: (S, Op) -> S, lock: Op -> nat)
    returns (worlds: seq<World<S, Op>>, steps: seq<Step<Op>>, at: seq<nat>)
    requires IsJointRun(run, moves, init, apply, lock) && n < |run|
    ensures IsRun(worlds, steps, init, apply, lock) && |at| == n + 1 && Stands(run, worlds, at)
  {
    if n == 0 {
      worlds, steps, at := [run[0].world], [], [0];
    } else {
      worlds, steps, at := WorldRun(run, moves, n - 1, init, apply, lock);
      MovedWorld(run[n - 1], moves[n - 1], apply, lock);
      match WorldStep(moves[n - 1])
      case None =>
        StandsStill(run, worlds, at);
        at := at + [|worlds| - 1];
      case Some(step) =>
        StandsNext(run, worlds, at);
        Goes(worlds, steps, step, run[n].world, init, apply, lock);
        worlds, steps, at := worlds + [run[n].world], steps + [step], at + [|worlds|];
    }
  }

  lemma StandsStill<S, Op>(run: seq<Joint<S, Op>>, worlds: seq<World<S, Op>>, at: seq<nat>)
    requires Stands(run, worlds, at) && |at| < |run| && run[|at|].world == run[|at| - 1].world && 0 < |worlds|
    ensures Stands(run, worlds, at + [|worlds| - 1])
  {
  }

  lemma StandsNext<S, Op>(run: seq<Joint<S, Op>>, worlds: seq<World<S, Op>>, at: seq<nat>)
    requires Stands(run, worlds, at) && |at| < |run|
    ensures Stands(run, worlds + [run[|at|].world], at + [|worlds|])
  {
  }

  lemma Goes<S, Op(!new)>(worlds: seq<World<S, Op>>, steps: seq<Step<Op>>, step: Step<Op>, w: World<S, Op>, init: S,
                          apply: (S, Op) -> S, lock: Op -> nat)
    requires IsRun(worlds, steps, init, apply, lock) && Enabled(worlds[|worlds| - 1], lock, step)
    requires w == Next(worlds[|worlds| - 1], apply, lock, step)
    ensures IsRun(worlds + [w], steps + [step], init, apply, lock)
  {
  }

  /** For every run of gate and calls, every point `f` where the gate is frozen and every later crash `c`: recovery
      reflects exactly the entries that a replay from the log head plays if and only if none of those in the snapshot is
      missing there and no entry before the saved tail got its id before one behind it; and then it ends in the same
      state. */
  lemma GatedRestore<S(!new), Op(!new)>(run: seq<Joint<S, Op>>, moves: seq<Move<Op>>, f: nat, c: nat,
                                        fromSnapshot: seq<nat>, fromHead: seq<nat>, init: S, apply: (S, Op) -> S,
                                        lock: Op -> nat)
    requires IsJointRun(run, moves, init, apply, lock) && Commutes(apply, lock) && f <= c < |run|
    requires run[f].gate.snapshot == Gates.Frozen
    requires Replays(run[c].world, fromSnapshot, |run[f].world.log|, |run[f].world.order|)
    requires Replays(run[c].world, fromHead, 0, 0)
    ensures
      var a, b := run[f].world, run[c].world;
      && (Reflected(|a.log|, fromSnapshot) == Entries(fromHead) <==>
          NoneExtra(|a.log|, fromHead) && NoneLost(|a.log|, |a.order|, fromHead))
      && (Reflected(|a.log|, fromSnapshot) == Entries(fromHead) ==>
            Fold(a.live, PlayedOps(b, fromSnapshot), apply) == Fold(init, PlayedOps(b, fromHead), apply))
  {
    var worlds, steps, at := WorldRun(run, moves, |run| - 1, init, apply, lock);
    RunGood(worlds, steps, at[f], at[c], init, apply, lock);
    FrozenAtFreeze(run, moves, f, init, apply, lock);
    RestoreExact(run[f].world, run[c].world, fromSnapshot, fromHead, lock);
    if NoneExtra(|run[f].world.log|, fromHead) && NoneLost(|run[f].world.log|, |run[f].world.order|, fromHead) {
      RestoredState(worlds, steps, at[f], at[c], fromSnapshot, fromHead, init, apply, lock);
    }
  }

  /** While the gate is frozen, no thread is between its count-down and its commit exactly when every logged entry has
      its id stored. */
  lemma NoneCommitting<S(!new), Op(!new)>(run: seq<Joint<S, Op>>, moves: seq<Move<Op>>, f: nat, init: S,
                                          apply: (S, Op) -> S, lock: Op -> nat)
    requires IsJointRun(run, moves, init, apply, lock) && Commutes(apply, lock) && f < |run|
    requires run[f].gate.snapshot == Gates.Frozen
    ensures (forall t: nat :: !Gates.At(run[f].gate, t, Gates.Committing)) <==>
      forall e :: 0 <= e < |run[f].world.log| ==> run[f].world.log[e].stored
  {
    var worlds, steps, at := WorldRun(run, moves, f, init, apply, lock);
    RunInv(worlds, steps, at[f], init, apply, lock);
    JointInv(run, moves, f, init, apply, lock);
    var j := run[f];
    if forall t: nat :: !Gates.At(j.gate, t, Gates.Committing) {
      forall e | 0 <= e < |j.world.log| ensures j.world.log[e].stored {
        QuietEntry(j, e, lock);
      }
    }
    if forall e :: 0 <= e < |j.world.log| ==> j.world.log[e].stored {
      forall t: nat ensures !Gates.At(j.gate, t, Gates.Committing) {
        if t < |j.gate.threads| {
          assert ThreadAgrees(j.gate.threads[t].pc, j.world.threads[t]) && ThreadOk(j.world, t);
        }
      }
    }
  }

  lemma QuietEntry<S, Op(!new)>(j: Joint<S, Op>, e: nat, lock: Op -> nat)
    requires Agrees(j) && Gates.Inv(j.gate) && Shaped(j.world, lock) && j.gate.snapshot == Gates.Frozen
    requires e < |j.world.log|
    requires forall t: nat :: !Gates.At(j.gate, t, Gates.Committing)
    ensures j.world.log[e].stored
  {
    assert EntryOk(j.world, e);
    if Owned(j.world, e) {
      var t :| 0 <= t < |j.world.threads| && j.world.threads[t].In? && j.world.threads[t].entry == e;
      assert !Gates.IsPast(j.gate, t) && !Gates.At(j.gate, t, Gates.Committing)
          && ThreadAgrees(j.gate.threads[t].pc, j.world.threads[t]);
      assert ThreadOk(j.world, t);
    }
  }

  /** So a freeze with no commit outstanding loses nothing, whatever happens until the crash. */
  lemma GatedEndToEnd<S(!new), Op(!new)>(run: seq<Joint<S, Op>>, moves: seq<Move<Op>>, f: nat, c: nat,
                                         fromSnapshot: seq<nat>, fromHead: seq<nat>, init: S, apply: (S, Op) -> S,
                                         lock: Op -> nat)
    requires IsJointRun(run, moves, init, apply, lock) && Commutes(apply, lock) && f <= c < |run|
    requires run[f].gate.snapshot == Gates.Frozen
    requires forall t: nat :: !Gates.At(run[f].gate, t, Gates.Committing)
    requires Replays(run[c].world, fromSnapshot, |run[f].world.log|, |run[f].world.order|)
    requires Replays(run[c].world, fromHead, 0, 0)
    ensures Reflected(|run[f].world.log|, fromSnapshot) == Entries(fromHead)
    ensures Fold(run[f].world.live, PlayedOps(run[c].world, fromSnapshot), apply) ==
      Fold(init, PlayedOps(run[c].world, fromHead), apply)
    ensures Quiet(run[c].world) ==>
      Fold(run[f].world.live, PlayedOps(run[c].world, fromSnapshot), apply) == run[c].world.live
  {
    var worlds, steps, at := WorldRun(run, moves, |run| - 1, init, apply, lock);
    RunGood(worlds, steps, at[f], at[c], init, apply, lock);
    GatedClean(run, moves, f, run[c].world, init, apply, lock);
    EndToEnd(worlds, steps, at[f], at[c], fromSnapshot, fromHead, init, apply, lock);
  }

  lemma GatedClean<S(!new), Op(!new)>(run: seq<Joint<S, Op>>, moves: seq<Move<Op>>, f: nat, b: World<S, Op>, init: S,
                                      apply: (S, Op) -> S, lock: Op -> nat)
    requires IsJointRun(run, moves, init, apply, lock) && Commutes(apply, lock) && f < |run|
    requires run[f].gate.snapshot == Gates.Frozen
    requires Shaped(run[f].world, lock) && Extends(run[f].world, b)
    requires forall t: nat :: !Gates.At(run[f].gate, t, Gates.Committing)
    ensures Clean(run[f].world) && IdsStored(run[f].world, b)
  {
    NoneCommitting(run, moves, f, init, apply, lock);
    FrozenAtFreeze(run, moves, f, init, apply, lock);
    StoredIsClean(run[f].world, b, lock);
  }

  lemma StoredIsClean<S, Op(!new)>(a: World<S, Op>, b: World<S, Op>, lock: Op -> nat)
    requires Shaped(a, lock) && Extends(a, b) && forall e :: 0 <= e < |a.log| ==> a.log[e].stored
    requires forall t: nat :: AtPhase(a.threads, t, Applied) ==> 0 <= a.threads[t].entry
    ensures Clean(a) && IdsStored(a, b)
  {
    forall t: nat ensures !AtPhase(a.threads, t, Applied) {
      if t < |a.threads| { assert ThreadOk(a, t); }
    }
    forall e | 0 <= e < |a.log| ensures 0 < a.log[e].id { assert EntryOk(a, e); }
    forall i | 0 < i <= |a.order| ensures i in StoredIds(b, 0) {
      assert OrderOk(a, i - 1);
      assert b.log[a.order[i - 1].who].id == i;
    }
  }

  // ---------------------------------------------------------------- a commit outstanding at the freeze

  lemma Go<S, Op(!new)>(run: seq<Joint<S, Op>>, moves: seq<Move<Op>>, m: Move<Op>, init: S, apply: (S, Op) -> S,
                        lock: Op -> nat)
    returns (run': seq<Joint<S, Op>>, moves': seq<Move<Op>>)
    requires IsJointRun(run, moves, init, apply, lock) && CanMove(run[|run| - 1], lock, m)
    ensures IsJointRun(run', moves', init, apply, lock) && run <= run'
    ensures run'[|run'| - 1] == Moved(run[|run| - 1], apply, lock, m)
  {
    run', moves' := run + [Moved(run[|run| - 1], apply, lock, m)], moves + [m];
  }

  ghost predicate Reaches(run: seq<Joint<int, int>>, moves: seq<Move<int>>, j: Joint<int, int>,
                          apply: (int, int) -> int, lock: int -> nat) {
    IsJointRun(run, moves, 0, apply, lock) && run[|run| - 1] == j
  }

  /** One object, one thread at `pc`, and its call. */
  function One(locked: bool, pc: Gates.Pc, count: nat, snapshot: Gates.Snapshot, w: World<int, int>): Joint<int, int> {
    Joint(Gates.State([locked], [Gates.Thread(pc, 0, count)], snapshot), w)
  }

  /** No call is under way, and none waits for an id. */
  predicate Idle(w: World<int, int>) {
    w.threads == [Out] && w.pending == []
  }

  /** A call passes an open gate, and runs up to its count-down. */
  lemma CountedOut(run: seq<Joint<int, int>>, moves: seq<Move<int>>, snapshot: Gates.Snapshot, w: World<int, int>,
                   op: int, apply: (int, int) -> int, lock: int -> nat)
                     returns (run': seq<Joint<int, int>>, moves': seq<Move<int>>)
    requires Reaches(run, moves, One(false, Gates.Outside, 0, snapshot, w), apply, lock) && Idle(w)
    ensures Reaches(run', moves', One(false, Gates.Committing, 0, snapshot, AppliedOne(w, op, apply)), apply, lock)
    ensures run <= run'
  {
    run', moves' := PassGate(run, moves, snapshot, w, op, apply, lock);
    run', moves' := ApplyPast(run', moves', snapshot, w, op, apply, lock);
    run', moves' := Go(run', moves', CountOut(0), 0, apply, lock);
  }

  lemma PassGate(run: seq<Joint<int, int>>, moves: seq<Move<int>>, snapshot: Gates.Snapshot, w: World<int, int>,
                 op: int, apply: (int, int) -> int, lock: int -> nat)
                   returns (run': seq<Joint<int, int>>, moves': seq<Move<int>>)
    requires Reaches(run, moves, One(false, Gates.Outside, 0, snapshot, w), apply, lock) && Idle(w)
    ensures run <= run' &&
      Reaches(run', moves', One(false, Gates.Past(1), 1, snapshot, w.(threads := [In(op, -1, Called)])), apply, lock)
  {
    run', moves' := Go(run, moves, Gate(Gates.Enter(0, 0)), 0, apply, lock);
    assert run'[|run'| - 1] == One(false, Gates.AtGate, 1, snapshot, w);
    run', moves' := Go(run', moves', Pass(0, op), 0, apply, lock);
  }

  lemma ApplyPast(run: seq<Joint<int, int>>, moves: seq<Move<int>>, snapshot: Gates.Snapshot, w: World<int, int>,
                  op: int, apply: (int, int) -> int, lock: int -> nat)
                    returns (run': seq<Joint<int, int>>, moves': seq<Move<int>>)
    requires Reaches(run, moves, One(false, Gates.Past(1), 1, snapshot, w.(threads := [In(op, -1, Called)])), apply,
                     lock)
    requires Idle(w)
    ensures Reaches(run', moves', One(false, Gates.Past(1), 1, snapshot, AppliedOne(w, op, apply)), apply, lock)
    ensures run <= run'
  {
    var log := w.log + [LogEntry(op, 0, false)];
    run', moves' := Go(run, moves, Work(Log(0)), 0, apply, lock);
    assert run'[|run'| - 1].world == w.(log := log, threads := [In(op, |w.log|, Called)]);
    run', moves' := Go(run', moves', Work(Acquire(0)), 0, apply, lock);
    assert run'[|run'| - 1].world == w.(log := log, threads := [In(op, |w.log|, Holding)]);
    run', moves' := Go(run', moves', Work(Apply(0)), 0, apply, lock);
  }

  /** The call that has counted out gets its id, stores it and ends. */
  lemma EndCall(run: seq<Joint<int, int>>, moves: seq<Move<int>>, locked: bool, snapshot: Gates.Snapshot, w: World<int,
                int>, op: int, apply: (int, int) -> int, lock: int -> nat)
                  returns (run': seq<Joint<int, int>>, moves': seq<Move<int>>)
    requires Reaches(run, moves, One(locked, Gates.Committing, 0, snapshot, w), apply, lock)
    requires 0 < |w.log| && w.threads == [In(op, |w.log| - 1, Applied)] && w.pending == [Tagged(0, op)]
    ensures Reaches(run', moves', One(locked, Gates.Outside, 0, snapshot, CommittedOne(w, op)), apply, lock)
    ensures run <= run'
  {
    run', moves' := AssignCall(run, moves, locked, snapshot, w, op, apply, lock);
    run', moves' := Go(run', moves', Finish(0), 0, apply, lock);
    run', moves' := Go(run', moves', Work(Release(0)), 0, apply, lock);
  }

  function AssignedOne(w: World<int, int>, op: int): World<int, int>
    requires 0 < |w.log|
  {
    var e := |w.log| - 1;
    World(w.live, w.log[e := w.log[e].(id := |w.order| + 1)], w.order + [Tagged(e, op)], [In(op, e, Assigned)], [])
  }

  lemma AssignCall(run: seq<Joint<int, int>>, moves: seq<Move<int>>, locked: bool, snapshot: Gates.Snapshot,
                   w: World<int, int>, op: int, apply: (int, int) -> int, lock: int -> nat)
                     returns (run': seq<Joint<int, int>>, moves': seq<Move<int>>)
    requires Reaches(run, moves, One(locked, Gates.Committing, 0, snapshot, w), apply, lock)
    requires 0 < |w.log| && w.threads == [In(op, |w.log| - 1, Applied)] && w.pending == [Tagged(0, op)]
    ensures Reaches(run', moves', One(locked, Gates.Committing, 0, snapshot, AssignedOne(w, op)), apply, lock)
    ensures run <= run'
  {
    AssignOne(w, op, apply, lock);
    run', moves' := Go(run, moves, Work(Assign(0)), 0, apply, lock);
  }

  lemma AssignOne(w: World<int, int>, op: int, apply: (int, int) -> int, lock: int -> nat)
    requires 0 < |w.log| && w.threads == [In(op, |w.log| - 1, Applied)] && w.pending == [Tagged(0, op)]
    ensures Enabled(w, lock, Assign(0)) && Next(w, apply, lock, Assign(0)) == AssignedOne(w, op)
  {
    assert w.pending[0].who == 0 && Drop(w.pending, 0) == [];
  }

  /** The freeze finds a call that is applied and has no commit id: the point from which a commit can be lost. */
  lemma AppliedAtFreezeExample(apply: (int, int) -> int, lock: int -> nat)
    returns (run: seq<Joint<int, int>>, moves: seq<Move<int>>)
    ensures Reaches(run, moves, One(true, Gates.Committing, 0, Gates.Frozen, AppliedOne(EMPTY, 1, apply)), apply, lock)
  {
    run, moves := [One(false, Gates.Outside, 0, Gates.NotBegun, EMPTY)], [];
    run, moves := CountedOut(run, moves, Gates.NotBegun, EMPTY, 1, apply, lock);
    run, moves := SetLocks(run, moves, AppliedOne(EMPTY, 1, apply), apply, lock);
    run, moves := Go(run, moves, Gate(Gates.Scan), 0, apply, lock);
    run, moves := Go(run, moves, Gate(Gates.Scan), 0, apply, lock);
  }

  lemma SetLocks(run: seq<Joint<int, int>>, moves: seq<Move<int>>, w: World<int, int>, apply: (int, int) -> int,
                 lock: int -> nat)
    returns (run': seq<Joint<int, int>>, moves': seq<Move<int>>)
    requires Reaches(run, moves, One(false, Gates.Committing, 0, Gates.NotBegun, w), apply, lock)
    ensures Reaches(run', moves', One(true, Gates.Committing, 0, Gates.Scanning(0), w), apply, lock)
  {
    run', moves' := Go(run, moves, Gate(Gates.Begin), 0, apply, lock);
    run', moves' := Go(run', moves', Gate(Gates.SetLock), 0, apply, lock);
    assert [false][0 := true] == [true];
    run', moves' := Go(run', moves', Gate(Gates.SetLock), 0, apply, lock);
  }

  const EMPTY: World<int, int> := World(0, [], [], [Out], [])

  /** The gate opens again. */
  lemma OpenAgain(run: seq<Joint<int, int>>, moves: seq<Move<int>>, w: World<int, int>, apply: (int, int) -> int,
                  lock: int -> nat)
    returns (run': seq<Joint<int, int>>, moves': seq<Move<int>>)
    requires Reaches(run, moves, One(true, Gates.Outside, 0, Gates.Frozen, w), apply, lock)
    ensures Reaches(run', moves', One(false, Gates.Outside, 0, Gates.Over, w), apply, lock) && run <= run'
  {
    run', moves' := Go(run, moves, Gate(Gates.Release), 0, apply, lock);
    run', moves' := Go(run', moves', Gate(Gates.ClearLock), 0, apply, lock);
    assert [true][0 := false] == [false];
    run', moves' := Go(run', moves', Gate(Gates.ClearLock), 0, apply, lock);
  }

  /** From there to the lost commit, in one run of gate and calls. The freeze at `f` finds the first call applied and
      without id; it ends, the gate opens, and a second call commits with id 2. Recovery from the snapshot plays nothing
      and ends with 1, where the live state and a replay from the head have 3. */
  lemma LostThroughGate() returns (run: seq<Joint<int, int>>, moves: seq<Move<int>>, f: nat)
    ensures IsJointRun(run, moves, 0, (s: int, x: int) => s + x, (x: int) => 0)
    ensures Commutes((s: int, x: int) => s + x, (x: int) => 0)
    ensures f < |run| && run[f].gate.snapshot == Gates.Frozen && run[f].world.live == 1
    ensures
      var a, b := run[f].world, run[|run| - 1].world;
      && Quiet(b) && b.live == 3 && Replays(b, [], |a.log|, |a.order|) && Replays(b, [0, 1], 0, 0)
      && Fold(a.live, PlayedOps(b, []), (s: int, x: int) => s + x) == 1
      && Fold(0, PlayedOps(b, [0, 1]), (s: int, x: int) => s + x) == 3
  {
    run, moves, f := LostGated((s: int, x: int) => s + x, (x: int) => 0);
    LostReplays(run[|run| - 1].world);
    LostFolds(run[|run| - 1].world, (s: int, x: int) => s + x);
  }

  lemma LostGated(apply: (int, int) -> int, lock: int -> nat)
    returns (run: seq<Joint<int, int>>, moves: seq<Move<int>>, f: nat)
    ensures IsJointRun(run, moves, 0, apply, lock) && f < |run| && run[f].gate.snapshot == Gates.Frozen
    ensures run[f].world == AppliedOne(EMPTY, 1, apply)
    ensures var b := run[|run| - 1].world;
      b.live == apply(apply(0, 1), 2) && b.log == [LogEntry(1, 1, true), LogEntry(2, 2, true)] && b.threads == [Out]
  {
    run, moves := AppliedAtFreezeExample(apply, lock);
    f := |run| - 1;
    var w := AppliedOne(EMPTY, 1, apply);
    run, moves := EndCall(run, moves, true, Gates.Frozen, w, 1, apply, lock);
    run, moves := SecondCall(run, moves, CommittedOne(w, 1), apply, lock);
  }

  lemma SecondCall(run: seq<Joint<int, int>>, moves: seq<Move<int>>, w: World<int, int>, apply: (int, int) -> int,
                   lock: int -> nat)
    returns (run': seq<Joint<int, int>>, moves': seq<Move<int>>)
    requires Reaches(run, moves, One(true, Gates.Outside, 0, Gates.Frozen, w), apply, lock) && Idle(w)
    ensures IsJointRun(run', moves', 0, apply, lock) && run <= run'
    ensures run'[|run'| - 1].world == CommittedOne(AppliedOne(w, 2, apply), 2)
  {
    run', moves' := OpenAgain(run, moves, w, apply, lock);
    run', moves' := CountedOut(run', moves', Gates.Over, w, 2, apply, lock);
    run', moves' := EndCall(run', moves', false, Gates.Over, AppliedOne(w, 2, apply), 2, apply, lock);
  }
}
