/**
 The freeze gate: threads enter and leave transactions while one snapshot sets the lock of every object,
 waits until it has seen every thread inactive, and later clears the locks. One step is one load or store.
 */
module FreezeGates {

  /** Outside; counted and about to read the object's lock; having read a set lock and about to count down;
      asleep; having read a cleared lock and about to count up again; past the gate at some nesting depth; counted
      down, with the commit still to be written. */
  datatype Pc = Outside | AtGate | Backing | Asleep | Woken | Past(depth: nat) | Committing

  /** A registered thread: where it is, the object of its outermost transaction, and its active count. */
  datatype Thread = Thread(pc: Pc, obj: nat, count: nat)

  /** The snapshot: not begun; setting locks below `k`; scanning, with threads below `i` seen inactive in this pass;
      frozen; clearing locks; done. */
  datatype Snapshot = NotBegun | Setting(k: nat) | Scanning(i: nat) | Frozen | Clearing(k: nat) | Over

  datatype State = State(locks: seq<bool>, threads: seq<Thread>, snapshot: Snapshot)

  datatype Step =
    | Enter(t: nat, obj: nat) | Check(t: nat) | BackOff(t: nat) | Wake(t: nat) | Resume(t: nat)
    | Nest(t: nat) | Unnest(t: nat) | CountDown(t: nat) | Commit(t: nat)
    | Begin | SetLock | Scan | Release | ClearLock

  predicate At(s: State, t: nat, pc: Pc) {
    t < |s.threads| && s.threads[t].pc == pc
  }

  predicate IsPast(s: State, t: nat) {
    t < |s.threads| && s.threads[t].pc.Past?
  }

  predicate Enabled(s: State, step: Step) {
    match step
    case Enter(t, obj) => At(s, t, Outside) && obj < |s.locks|
    case Check(t) => At(s, t, AtGate) && s.threads[t].obj < |s.locks|
    case BackOff(t) => At(s, t, Backing)
    case Wake(t) => At(s, t, Asleep) && s.threads[t].obj < |s.locks| && !s.locks[s.threads[t].obj]
    case Resume(t) => At(s, t, Woken)
    case Nest(t) => IsPast(s, t)
    case Unnest(t) => IsPast(s, t) && 1 < s.threads[t].pc.depth
    case CountDown(t) => IsPast(s, t) && s.threads[t].pc.depth == 1
    case Commit(t) => At(s, t, Committing)
    case Begin => s.snapshot == NotBegun
    case SetLock => s.snapshot.Setting? && s.snapshot.k <= |s.locks|
    case Scan => s.snapshot.Scanning? && s.snapshot.i <= |s.threads|
    case Release => s.snapshot == Frozen
    case ClearLock => s.snapshot.Clearing? && s.snapshot.k <= |s.locks|
  }

  function Put(s: State, t: nat, pc: Pc, count: nat): State
    requires t < |s.threads|
  {
    s.(threads := s.threads[t := s.threads[t].(pc := pc, count := count)])
  }

  /** A pass of the scan that finds an active thread starts over; one that finds none ends the wait. */
  function Next(s: State, step: Step): State
    requires Enabled(s, step)
  {
    match step
    case Enter(t, obj) => s.(threads := s.threads[t := Thread(AtGate, obj, 1)])
    case Check(t) => if s.locks[s.threads[t].obj] then Put(s, t, Backing, 1) else Put(s, t, Past(1), 1)
    case BackOff(t) => Put(s, t, Asleep, 0)
    case Wake(t) => Put(s, t, Woken, 0)
    case Resume(t) => Put(s, t, Past(1), 1)
    case Nest(t) => Put(s, t, Past(s.threads[t].pc.depth + 1), s.threads[t].count + 1)
    case Unnest(t) => Put(s, t, Past(s.threads[t].pc.depth - 1), s.threads[t].pc.depth - 1)
    case CountDown(t) => Put(s, t, Committing, 0)
    case Commit(t) => Put(s, t, Outside, 0)
    case Begin => s.(snapshot := Setting(0))
    case SetLock => if s.snapshot.k < |s.locks|
        then s.(locks := s.locks[s.snapshot.k := true], snapshot := Setting(s.snapshot.k + 1))
                    else s.(snapshot := Scanning(0))
    case Scan => if s.snapshot.i == |s.threads| then s.(snapshot := Frozen)
                 else if s.threads[s.snapshot.i].count == 0 then s.(snapshot := Scanning(s.snapshot.i + 1))
                 else s.(snapshot := Scanning(0))
    case Release => s.(snapshot := Clearing(0))
    case ClearLock => if s.snapshot.k < |s.locks|
        then s.(locks := s.locks[s.snapshot.k := false], snapshot := Clearing(s.snapshot.k + 1))
                      else s.(snapshot := Over)
  }

  ghost predicate Init(s: State) {
    && s.snapshot == NotBegun && (forall o :: 0 <= o < |s.locks| ==> !s.locks[o])
    && forall t :: 0 <= t < |s.threads| ==> s.threads[t].pc == Outside && s.threads[t].count == 0
  }

  // ---------------------------------------------------------------- invariant

  /** Locks are only ever set before the release. */
  predicate Unreleased(s: State) {
    s.snapshot == NotBegun || s.snapshot.Setting? || s.snapshot.Scanning? || s.snapshot == Frozen
  }

  /** The active count of a thread at each place: it is active from the entry on, but for the time it is held. */
  function CountAt(pc: Pc): nat {
    match pc
    case AtGate => 1
    case Backing => 1
    case Past(depth) => depth
    case _ => 0
  }

  ghost predicate ThreadOk(s: State, t: nat)
    requires t < |s.threads|
  {
    var th := s.threads[t];
    && th.count == CountAt(th.pc) && (th.pc.Past? ==> 0 < th.pc.depth)
    && (th.pc != Outside ==> th.obj < |s.locks|)
    && (th.pc == Backing || th.pc == Asleep ==> Unreleased(s) ==> s.locks[th.obj])
    && (th.pc == Woken ==> !Unreleased(s))
  }

  ghost predicate AllClear(locks: seq<bool>) {
    forall o :: 0 <= o < |locks| ==> !locks[o]
  }

  /** From the scan on every lock is set, and a thread seen inactive is not past the gate. */
  ghost predicate GateOk(s: State) {
    && (s.snapshot.Setting? ==> s.snapshot.k <= |s.locks| && forall o :: 0 <= o < s.snapshot.k ==> s.locks[o])
    && (s.snapshot.Scanning? || s.snapshot == Frozen ==> forall o :: 0 <= o < |s.locks| ==> s.locks[o])
    && (s.snapshot.Scanning? ==> s.snapshot.i <= |s.threads| && forall t :: 0 <= t < s.snapshot.i ==> !IsPast(s, t))
    && (s.snapshot == Frozen ==> forall t :: 0 <= t < |s.threads| ==> !IsPast(s, t))
    && (s.snapshot.Clearing? ==> s.snapshot.k <= |s.locks| && forall o :: 0 <= o < s.snapshot.k ==> !s.locks[o])
    && (s.snapshot == Over || s.snapshot == NotBegun ==> AllClear(s.locks))
  }

  ghost predicate Inv(s: State) {
    GateOk(s) && forall t :: 0 <= t < |s.threads| ==> ThreadOk(s, t)
  }

  lemma NextInv(s: State, step: Step)
    requires Inv(s) && Enabled(s, step)
    ensures Inv(Next(s, step))
  {
    var s' := Next(s, step);
    forall t | 0 <= t < |s'.threads| ensures ThreadOk(s', t) { ThreadStep(s, step, t); }
    GateStep(s, step);
  }

  lemma ThreadStep(s: State, step: Step, t: nat)
    requires Inv(s) && Enabled(s, step) && t < |s.threads|
    ensures |Next(s, step).threads| == |s.threads| && ThreadOk(Next(s, step), t)
  {
    assert ThreadOk(s, t);
  }

  lemma GateStep(s: State, step: Step)
    requires Inv(s) && Enabled(s, step)
    ensures GateOk(Next(s, step))
  {
    if OfGate(step) {
      assert forall t: nat :: IsPast(Next(s, step), t) <==> IsPast(s, t);
      if step.Scan? && s.snapshot.i < |s.threads| { assert ThreadOk(s, s.snapshot.i); }
    } else {
      ThreadGate(s, step);
    }
  }

  lemma ThreadGate(s: State, step: Step)
    requires Inv(s) && Enabled(s, step) && !OfGate(step)
    ensures GateOk(Next(s, step))
  {
    var s' := Next(s, step);
    assert s'.locks == s.locks && s'.snapshot == s.snapshot && |s'.threads| == |s.threads|;
    forall t: nat | IsPast(s', t) ensures IsPast(s, t) || !(s.snapshot.Scanning? || s.snapshot == Frozen) {
      PassesOpen(s, step, t);
    }
  }

  /** A step of the snapshot, not of a thread. */
  predicate OfGate(step: Step) {
    step == Begin || step == SetLock || step == Scan || step == Release || step == ClearLock
  }

  /** A thread gets past the gate by finding its lock clear or after the release. */
  lemma PassesOpen(s: State, step: Step, t: nat)
    requires Inv(s) && Enabled(s, step) && !OfGate(step) && IsPast(Next(s, step), t)
    ensures IsPast(s, t) || !(s.snapshot.Scanning? || s.snapshot == Frozen)
  {
    if step.Resume? { assert ThreadOk(s, step.t); }
  }

  ghost predicate IsRun(run: seq<State>, steps: seq<Step>) {
    && |run| == |steps| + 1 && Init(run[0])
    && forall i :: 0 <= i < |steps| ==> Enabled(run[i], steps[i]) && run[i + 1] == Next(run[i], steps[i])
  }

  lemma {:induction false} RunInv(run: seq<State>, steps: seq<Step>, i: nat)
    requires IsRun(run, steps) && i < |run|
    ensures Inv(run[i])
  {
    if i != 0 {
      RunInv(run, steps, i - 1);
      NextInv(run[i - 1], steps[i - 1]);
    }
  }

  /** In every interleaving, from the end of the scan to the release no registered thread is past the gate of an
      outermost transaction, whatever its active count flickers to. */
  lemma NoneRunsWhileFrozen(run: seq<State>, steps: seq<Step>, i: nat, t: nat)
    requires IsRun(run, steps) && i < |run| && run[i].snapshot == Frozen && t < |run[i].threads|
    ensures !run[i].threads[t].pc.Past?
  {
    RunInv(run, steps, i);
    assert !IsPast(run[i], t);
  }

  /** And a thread held back comes past the gate only after the release. */
  lemma HeldUntilRelease(run: seq<State>, steps: seq<Step>, i: nat, t: nat)
    requires IsRun(run, steps) && i < |run| && At(run[i], t, Woken)
    ensures run[i].snapshot.Clearing? || run[i].snapshot == Over
  {
    RunInv(run, steps, i);
    assert ThreadOk(run[i], t);
  }

  /** The release opens the gate: once it is over, in every run, a thread asleep can wake, one that has read a set lock
      can go to sleep and then wake, and one at the gate is let in. */
  lemma ReleaseOpens(run: seq<State>, steps: seq<Step>, i: nat, t: nat)
    requires IsRun(run, steps) && i < |run| && run[i].snapshot == Over && t < |run[i].threads|
    ensures At(run[i], t, Asleep) ==> Enabled(run[i], Wake(t))
    ensures At(run[i], t, Backing) ==> Enabled(run[i], BackOff(t)) && Enabled(Next(run[i], BackOff(t)), Wake(t))
    ensures Enabled(run[i], Check(t)) ==> IsPast(Next(run[i], Check(t)), t)
  {
    RunInv(run, steps, i);
    assert ThreadOk(run[i], t);
  }

  // ---------------------------------------------------------------- the freeze and the release come about

  /** Steps a thread takes until it is inactive if it enters nothing new: it leaves its transactions, or is held. */
  function StepsOut(pc: Pc): nat {
    match pc
    case AtGate => 2
    case Backing => 1
    case Past(depth) => depth
    case _ => 0
  }

  function AllOut(threads: seq<Thread>): nat {
    if threads == [] then 0 else StepsOut(threads[0].pc) + AllOut(threads[1..])
  }

  lemma {:induction false} AllOutUpdate(threads: seq<Thread>, t: nat, th: Thread)
    requires t < |threads|
    ensures AllOut(threads[t := th]) == AllOut(threads) - StepsOut(threads[t].pc) + StepsOut(th.pc)
  {
    if t == 0 {
      assert threads[t := th][1..] == threads[1..];
    } else {
      assert threads[t := th][1..] == threads[1..][t - 1 := th];
      AllOutUpdate(threads[1..], t - 1, th);
    }
  }

  /** The next step of an active thread towards that. */
  function StepOut(t: nat, pc: Pc): Step {
    match pc
    case AtGate => Check(t)
    case Backing => BackOff(t)
    case Past(depth) => if 1 < depth then Unnest(t) else CountDown(t)
    case _ => Wake(t)
  }

  /** During the scan every active thread can take that step, and it brings the freeze closer. */
  lemma ActiveLeaves(s: State, t: nat)
    requires Inv(s) && s.snapshot.Scanning? && t < |s.threads| && s.threads[t].count != 0
    ensures var step := StepOut(t, s.threads[t].pc);
      && Enabled(s, step) && Next(s, step).snapshot == s.snapshot && Next(s, step).locks == s.locks
      && |Next(s, step).threads| == |s.threads| && AllOut(Next(s, step).threads) < AllOut(s.threads)
  {
    assert ThreadOk(s, t);
    var s' := Next(s, StepOut(t, s.threads[t].pc));
    AllOutUpdate(s.threads, t, s'.threads[t]);
    assert s'.threads == s.threads[t := s'.threads[t]];
  }

  /** From every reachable state of the scan the snapshot can freeze the system: threads leave, and the scan goes on. */
  lemma {:induction false} FreezeComes(run: seq<State>, steps: seq<Step>) returns (run': seq<State>, steps': seq<Step>)
    requires IsRun(run, steps) && run[|run| - 1].snapshot.Scanning?
    ensures IsRun(run', steps') && run <= run' && run'[|run'| - 1].snapshot == Frozen
    decreases AllOut(run[|run| - 1].threads), |run[|run| - 1].threads| - run[|run| - 1].snapshot.i
  {
    var s := run[|run| - 1];
    run', steps' := FreezeStep(run, steps);
    if run'[|run'| - 1].snapshot != Frozen { run', steps' := FreezeComes(run', steps'); }
  }

  /** One such step. */
  lemma FreezeStep(run: seq<State>, steps: seq<Step>) returns (run': seq<State>, steps': seq<Step>)
    requires IsRun(run, steps) && run[|run| - 1].snapshot.Scanning?
    ensures IsRun(run', steps') && run <= run'
    ensures var s, s' := run[|run| - 1], run'[|run'| - 1];
      || s'.snapshot == Frozen
      || (s'.snapshot.Scanning? && AllOut(s'.threads) < AllOut(s.threads))
      || (s'.snapshot.Scanning? && s'.threads == s.threads && s.snapshot.i < s'.snapshot.i <= |s.threads|)
  {
    RunInv(run, steps, |run| - 1);
    var s := run[|run| - 1];
    var i := s.snapshot.i;
    if i < |s.threads| && s.threads[i].count != 0 {
      ActiveLeaves(s, i);
      run', steps' := Extend(run, steps, StepOut(i, s.threads[i].pc));
    } else {
      run', steps' := Extend(run, steps, Scan);
    }
  }

  /** From the freeze on the release comes to its end, and opens all locks. */
  lemma {:induction false} ReleaseComes(run: seq<State>, steps: seq<Step>) returns (run': seq<State>, steps': seq<Step>)
    requires IsRun(run, steps) && (run[|run| - 1].snapshot == Frozen || run[|run| - 1].snapshot.Clearing?)
    ensures IsRun(run', steps') && run <= run' && run'[|run'| - 1].snapshot == Over
    ensures run'[|run'| - 1].threads == run[|run| - 1].threads
    ensures AllClear(run'[|run'| - 1].locks)
    decreases
      if run[|run| - 1].snapshot == Frozen then |run[|run| - 1].locks| + 1
      else |run[|run| - 1].locks| - run[|run| - 1].snapshot.k
  {
    RunInv(run, steps, |run| - 1);
    var s := run[|run| - 1];
    run', steps' := Extend(run, steps, if s.snapshot == Frozen then Release else ClearLock);
    if s.snapshot == Frozen || s.snapshot.k < |s.locks| {
      run', steps' := ReleaseComes(run', steps');
    } else {
      RunInv(run', steps', |run'| - 1);
    }
  }

  /** A run goes on by one step. */
  lemma Extend(run: seq<State>, steps: seq<Step>, step: Step) returns (run': seq<State>, steps': seq<Step>)
    requires IsRun(run, steps) && Enabled(run[|run| - 1], step)
    ensures IsRun(run', steps') && run <= run' && run'[|run'| - 1] == Next(run[|run| - 1], step)
  {
    run', steps' := run + [Next(run[|run| - 1], step)], steps + [step];
  }

  ghost predicate Reaches(run: seq<State>, steps: seq<Step>, s: State) {
    IsRun(run, steps) && run[|run| - 1] == s
  }

  /** The snapshot freezes a system of one object and one inactive thread. */
  lemma FreezeOne(run: seq<State>, steps: seq<Step>, th: Thread) returns (run': seq<State>, steps': seq<Step>)
    requires Reaches(run, steps, State([false], [th], NotBegun)) && th.count == 0
    ensures Reaches(run', steps', State([true], [th], Frozen))
  {
    run', steps' := Extend(run, steps, Begin);
    run', steps' := Extend(run', steps', SetLock);
    assert [false][0 := true] == [true];
    run', steps' := Extend(run', steps', SetLock);
    run', steps' := Extend(run', steps', Scan);
    run', steps' := Extend(run', steps', Scan);
  }

  /** The active count alone does not tell: it can be one while the system is frozen. */
  lemma FlickerExample() returns (run: seq<State>, steps: seq<Step>)
    ensures Reaches(run, steps, State([true], [Thread(AtGate, 0, 1)], Frozen))
  {
    var th := Thread(Outside, 0, 0);
    run, steps := FreezeOne([State([false], [th], NotBegun)], [], th);
    run, steps := Extend(run, steps, Enter(0, 0));
    assert [th][0 := Thread(AtGate, 0, 1)] == [Thread(AtGate, 0, 1)];
  }

  /** Since a transaction counts down before it commits, a commit can still be outstanding when the system is frozen. */
  lemma CommitWhileFrozenExample() returns (run: seq<State>, steps: seq<Step>)
    ensures Reaches(run, steps, State([true], [Thread(Committing, 0, 0)], Frozen))
  {
    var th := Thread(Outside, 0, 0);
    run, steps := Extend([State([false], [th], NotBegun)], [], Enter(0, 0));
    run, steps := Extend(run, steps, Check(0));
    run, steps := Extend(run, steps, CountDown(0));
    assert run[|run| - 1].threads == [Thread(Committing, 0, 0)];
    run, steps := FreezeOne(run, steps, Thread(Committing, 0, 0));
  }
}
