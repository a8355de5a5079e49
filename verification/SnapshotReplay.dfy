/**
 What a snapshot and the log give back after a crash, for every run, every freeze and every crash point. A freeze
 saves the object state, the log tail and the last commit id; recovery restores the state and replays the log from
 the saved tail with ids above the saved one.
 */
module SnapshotReplays {
  import opened CommitOrders
  import Recoveries

  /** No thread is inside a call. */
  ghost predicate Quiet<S, Op>(w: World<S, Op>) {
    forall t :: 0 <= t < |w.threads| ==> w.threads[t].Out?
  }

  /** Every call under way has been applied and logged: what the freeze gate establishes, since a thread counts
      itself out before it gets its commit id. */
  ghost predicate AtFreeze<S, Op>(w: World<S, Op>) {
    forall t :: 0 <= t < |w.threads| && w.threads[t].In? ==>
      0 <= w.threads[t].entry && w.threads[t].phase != Called && w.threads[t].phase != Holding
  }

  /** A call under way is applied exactly when it is logged. */
  ghost predicate InStep<S, Op>(w: World<S, Op>) {
    forall t :: 0 <= t < |w.threads| && w.threads[t].In? ==>
      (0 <= w.threads[t].entry <==> w.threads[t].phase != Called && w.threads[t].phase != Holding)
  }

  /** Every logged entry has its commit id, and no applied operation waits for one. */
  ghost predicate Clean<S, Op>(w: World<S, Op>) {
    && (forall t: nat :: !AtPhase(w.threads, t, Applied))
    && forall e :: 0 <= e < |w.log| ==> 0 < w.log[e].id
  }

  /** Commit ids found in the log from entry `tail` on. */
  ghost function StoredIds<S, Op>(w: World<S, Op>, tail: nat): set<nat> {
    set e | tail <= e < |w.log| && w.log[e].stored :: w.log[e].id
  }

  /** The ids assigned at the freeze `a` are all stored at `b`. */
  ghost predicate IdsStored<S, Op>(a: World<S, Op>, b: World<S, Op>) {
    forall i :: 0 < i <= |a.order| ==> i in StoredIds(b, 0)
  }

  /** `played` are entries from `tail` on with stored ids `last + 1`, `last + 2`, ..., as far as these go. */
  ghost predicate Replays<S, Op>(w: World<S, Op>, played: seq<nat>, tail: nat, last: nat) {
    && |played| == Recoveries.RunEnd(StoredIds(w, tail), last) - last
    && forall k :: 0 <= k < |played| ==>
         tail <= played[k] < |w.log| && w.log[played[k]].stored && w.log[played[k]].id == last + 1 + k
  }

  function PlayedOps<S, Op>(w: World<S, Op>, played: seq<nat>): (r: seq<Op>)
    requires forall k :: 0 <= k < |played| ==> played[k] < |w.log|
    ensures |r| == |played| && forall k :: 0 <= k < |played| ==> r[k] == w.log[played[k]].op
  {
    seq(|played|, k requires 0 <= k < |played| => w.log[played[k]].op)
  }

  // ---------------------------------------------------------------- which entries come back

  ghost function Entries(played: seq<nat>): set<nat> {
    set k | 0 <= k < |played| :: played[k]
  }

  predicate Before(e: nat, tail: nat) {
    e < tail
  }

  /** The entries whose operations the recovered state reflects: those applied at the freeze, and those played. */
  ghost function Reflected(tail: nat, fromSnapshot: seq<nat>): set<nat> {
    (set e: nat | e < tail && Before(e, tail)) + Entries(fromSnapshot)
  }

  /** Every operation in the snapshot is among those a replay from the log head plays. */
  ghost predicate NoneExtra(tail: nat, fromHead: seq<nat>) {
    forall e: nat :: Before(e, tail) ==> e in Entries(fromHead)
  }

  /** No entry behind the saved tail got its id after an entry before the tail that had none at the freeze. */
  ghost predicate NoneLost(tail: nat, last: nat, fromHead: seq<nat>) {
    forall i, j :: last <= i < j < |fromHead| && fromHead[i] < tail ==> fromHead[j] < tail
  }

  /** What is played with id `last + 1 + k` stands at place `last + k` of the order. */
  lemma PlayedAt<S, Op(!new)>(w: World<S, Op>, played: seq<nat>, tail: nat, last: nat, lock: Op -> nat)
    requires Shaped(w, lock) && Replays(w, played, tail, last)
    ensures played == [] || last + |played| <= |w.order|
    ensures forall k :: 0 <= k < |played| ==>
      last + k < |w.order| && w.order[last + k] == Tagged(played[k], w.log[played[k]].op)
  {
    forall k | 0 <= k < |played|
      ensures last + k < |w.order| && w.order[last + k] == Tagged(played[k], w.log[played[k]].op) {
      assert EntryOk(w, played[k]);
      assert OrderOk(w, last + k);
    }
    if played != [] {
      var k := |played| - 1;
      assert EntryOk(w, played[k]);
    }
  }

  /** An id assigned before the freeze is at an entry before the tail. */
  lemma EarlyIds<S, Op(!new)>(a: World<S, Op>, b: World<S, Op>, lock: Op -> nat, e: nat)
    requires Shaped(a, lock) && Shaped(b, lock) && Extends(a, b) && e < |b.log| && 0 < b.log[e].id
    ensures b.log[e].id <= |a.order| ==> e < |a.log| && a.log[e].id == b.log[e].id
    ensures e < |a.log| && 0 < a.log[e].id ==> a.log[e].id == b.log[e].id <= |a.order|
  {
    assert EntryOk(b, e);
    if b.log[e].id <= |a.order| { assert OrderOk(a, b.log[e].id - 1); }
    if e < |a.log| && 0 < a.log[e].id {
      assert EntryOk(a, e);
      assert OrderOk(b, a.log[e].id - 1);
    }
  }

  /** An id that is assigned stays. */
  lemma IdsKept<S, Op(!new)>(a: World<S, Op>, b: World<S, Op>, lock: Op -> nat)
    requires Shaped(a, lock) && Shaped(b, lock) && Extends(a, b)
    ensures forall e :: 0 <= e < |a.log| && 0 < a.log[e].id ==> b.log[e].id == a.log[e].id <= |a.order|
  {
    forall e | 0 <= e < |a.log| && 0 < a.log[e].id ensures b.log[e].id == a.log[e].id <= |a.order| {
      assert EntryOk(a, e);
      assert OrderOk(b, a.log[e].id - 1);
    }
  }

  /** An id is found in the log exactly when its entry has it stored. */
  lemma StoredAt<S, Op(!new)>(w: World<S, Op>, tail: nat, i: nat, lock: Op -> nat)
    requires Shaped(w, lock) && 0 < i <= |w.order|
    ensures w.order[i - 1].who < |w.log|
    ensures i in StoredIds(w, tail) <==> tail <= w.order[i - 1].who && w.log[w.order[i - 1].who].stored
  {
    assert OrderOk(w, i - 1);
    if i in StoredIds(w, tail) {
      var e :| tail <= e < |w.log| && w.log[e].stored && w.log[e].id == i;
      assert EntryOk(w, e);
    }
  }

  /** The replay from the snapshot goes as far as the ids behind the saved one are at entries behind the tail. */
  lemma SnapshotRun<S, Op(!new)>(a: World<S, Op>, b: World<S, Op>, fromSnapshot: seq<nat>, fromHead: seq<nat>,
                                 lock: Op -> nat, j: nat)
    requires Shaped(a, lock) && Shaped(b, lock) && Extends(a, b)
    requires Replays(b, fromSnapshot, |a.log|, |a.order|) && Replays(b, fromHead, 0, 0)
    requires |a.order| <= j < |fromHead| && |a.log| <= fromHead[j]
    ensures fromHead[j] in Entries(fromSnapshot) <==> forall i :: |a.order| <= i < j ==> |a.log| <= fromHead[i]
  {
    var n, tail := |a.order|, |a.log|;
    PlayedAt(b, fromHead, 0, 0, lock);
    PlayedAt(b, fromSnapshot, tail, n, lock);
    Recoveries.RunEndLongest(StoredIds(b, tail), n);
    if j - n < |fromSnapshot| {
      forall i | n <= i <= j ensures tail <= fromHead[i] && fromSnapshot[i - n] == fromHead[i] {
        assert b.order[n + (i - n)] == Tagged(fromSnapshot[i - n], b.log[fromSnapshot[i - n]].op);
      }
      assert fromSnapshot[j - n] in Entries(fromSnapshot);
    } else {
      var i := n + |fromSnapshot|;
      StoredAt(b, tail, i + 1, lock);
      assert b.order[i].who == fromHead[i] && b.log[fromHead[i]].stored;
      assert fromHead[i] < tail;
      forall k | 0 <= k < |fromSnapshot| ensures fromSnapshot[k] != fromHead[j] {
        assert b.log[fromSnapshot[k]].id == n + 1 + k;
      }
    }
  }

  /** Nothing that a replay from the head plays is missing exactly when no entry before the tail gets its id
      before an entry behind it. */
  lemma LostExact<S, Op(!new)>(a: World<S, Op>, b: World<S, Op>, fromSnapshot: seq<nat>, fromHead: seq<nat>,
                               lock: Op -> nat)
    requires Shaped(a, lock) && Shaped(b, lock) && Extends(a, b)
    requires Replays(b, fromSnapshot, |a.log|, |a.order|) && Replays(b, fromHead, 0, 0)
    ensures Entries(fromHead) <= Reflected(|a.log|, fromSnapshot) <==> NoneLost(|a.log|, |a.order|, fromHead)
  {
    var n, tail := |a.order|, |a.log|;
    if NoneLost(tail, n, fromHead) {
      forall j | 0 <= j < |fromHead| ensures fromHead[j] in Reflected(tail, fromSnapshot) {
        EarlyIds(a, b, lock, fromHead[j]);
        if tail <= fromHead[j] { SnapshotRun(a, b, fromSnapshot, fromHead, lock, j); }
      }
    }
    if Entries(fromHead) <= Reflected(tail, fromSnapshot) {
      forall i, j | n <= i < j < |fromHead| && fromHead[i] < tail ensures fromHead[j] < tail {
        assert fromHead[j] in Entries(fromHead);
        if tail <= fromHead[j] { SnapshotRun(a, b, fromSnapshot, fromHead, lock, j); }
      }
    }
  }

  /** The replay from the snapshot plays nothing that a replay from the head does not, once all that the snapshot holds
      is in the latter. */
  lemma ExtraExact<S, Op(!new)>(a: World<S, Op>, b: World<S, Op>, fromSnapshot: seq<nat>, fromHead: seq<nat>,
                                lock: Op -> nat)
    requires Shaped(a, lock) && Shaped(b, lock) && Extends(a, b)
    requires Replays(b, fromSnapshot, |a.log|, |a.order|) && Replays(b, fromHead, 0, 0)
    ensures Reflected(|a.log|, fromSnapshot) <= Entries(fromHead) <==> NoneExtra(|a.log|, fromHead)
    ensures NoneExtra(|a.log|, fromHead) ==> |a.order| + |fromSnapshot| <= |fromHead|
  {
    var n, tail := |a.order|, |a.log|;
    PlayedAt(b, fromHead, 0, 0, lock);
    PlayedAt(b, fromSnapshot, tail, n, lock);
    if NoneExtra(tail, fromHead) {
      HeadReaches(a, b, fromHead, lock);
      HeadCovers(a, b, fromSnapshot, fromHead, lock);
      forall k | 0 <= k < |fromSnapshot| ensures fromSnapshot[k] in Entries(fromHead) {
        assert b.order[n + k] == Tagged(fromSnapshot[k], b.log[fromSnapshot[k]].op);
        assert b.order[n + k] == Tagged(fromHead[n + k], b.log[fromHead[n + k]].op);
      }
    }
    if Reflected(tail, fromSnapshot) <= Entries(fromHead) {
      forall e: nat | Before(e, tail) ensures e in Entries(fromHead) { assert e in Reflected(tail, fromSnapshot); }
    }
  }

  /** If the replay from the head plays all that was logged at the freeze, it reaches the id saved there. */
  lemma HeadReaches<S, Op(!new)>(a: World<S, Op>, b: World<S, Op>, fromHead: seq<nat>, lock: Op -> nat)
    requires Shaped(a, lock) && Shaped(b, lock) && Extends(a, b) && Replays(b, fromHead, 0, 0)
    requires NoneExtra(|a.log|, fromHead)
    ensures |a.order| <= |fromHead|
  {
    var n := |a.order|;
    if 0 < n {
      assert OrderOk(a, n - 1);
      var e := a.order[n - 1].who;
      assert Before(e, |a.log|);
      var k :| 0 <= k < |fromHead| && fromHead[k] == e;
      assert OrderOk(b, n - 1);
    }
  }

  lemma HeadCovers<S, Op(!new)>(a: World<S, Op>, b: World<S, Op>, fromSnapshot: seq<nat>, fromHead: seq<nat>,
                                lock: Op -> nat)
    requires Shaped(a, lock) && Shaped(b, lock) && Extends(a, b) && |a.order| <= |fromHead|
    requires Replays(b, fromSnapshot, |a.log|, |a.order|) && Replays(b, fromHead, 0, 0)
    ensures |a.order| + |fromSnapshot| <= |fromHead|
  {
    var n, h := |a.order|, |fromHead|;
    Recoveries.RunEndLongest(StoredIds(b, 0), 0);
    forall i | n < i <= n + |fromSnapshot| ensures i in StoredIds(b, 0) {
      assert b.log[fromSnapshot[i - n - 1]].id == i;
    }
  }

  /** The recovered state reflects exactly the entries a replay from the log head plays if and only if nothing is extra
      and nothing is lost. */
  lemma RestoreExact<S, Op(!new)>(a: World<S, Op>, b: World<S, Op>, fromSnapshot: seq<nat>, fromHead: seq<nat>,
                                  lock: Op -> nat)
    requires Shaped(a, lock) && Shaped(b, lock) && Extends(a, b)
    requires Replays(b, fromSnapshot, |a.log|, |a.order|) && Replays(b, fromHead, 0, 0)
    ensures Reflected(|a.log|, fromSnapshot) == Entries(fromHead) <==>
      NoneExtra(|a.log|, fromHead) && NoneLost(|a.log|, |a.order|, fromHead)
  {
    LostExact(a, b, fromSnapshot, fromHead, lock);
    ExtraExact(a, b, fromSnapshot, fromHead, lock);
  }

  /** The operation of entry `e` is one of those the live state is the replay of. */
  ghost predicate InState<S, Op>(w: World<S, Op>, e: nat) {
    || (exists k :: 0 <= k < |w.order| && w.order[k].who == e)
    || (exists t: nat :: Has(w.pending, t) && t < |w.threads| && w.threads[t].In? && w.threads[t].entry == e)
  }

  /** At a freeze these are the entries before the saved tail, no more and no fewer. */
  lemma FrozenEntries<S, Op(!new)>(a: World<S, Op>, lock: Op -> nat)
    requires Shaped(a, lock) && AtFreeze(a)
    ensures forall e: nat :: e in Reflected(|a.log|, []) <==> InState(a, e)
  {
    forall e: nat ensures e in Reflected(|a.log|, []) <==> InState(a, e) {
      if e in Reflected(|a.log|, []) {
        assert EntryOk(a, e);
        if !a.log[e].stored {
          var t :| 0 <= t < |a.threads| && a.threads[t].In? && a.threads[t].entry == e;
          assert ThreadOk(a, t);
          assert 0 < a.log[e].id || AtPhase(a.threads, t, Applied);
        }
      }
      if k :| 0 <= k < |a.order| && a.order[k].who == e {
        assert OrderOk(a, k) && Before(e, |a.log|);
      }
      if t: nat :| Has(a.pending, t) && t < |a.threads| && a.threads[t].In? && a.threads[t].entry == e {
        assert ThreadOk(a, t) && Before(e, |a.log|);
      }
    }
  }

  // ---------------------------------------------------------------- the recovered state

  lemma OpsConcat<Op>(a: seq<Tagged<Op>>, b: seq<Tagged<Op>>)
    ensures Ops(a + b) == Ops(a) + Ops(b)
  {
  }

  /** Two groups of operations whose locks differ can change places. */
  lemma {:induction false} SwapGroups<S(!new), Op(!new)>(s: S, a: seq<Op>, b: seq<Op>, apply: (S, Op) -> S,
                                                         lock: Op -> nat)
    requires Commutes(apply, lock) && forall i, j :: 0 <= i < |a| && 0 <= j < |b| ==> lock(a[i]) != lock(b[j])
    ensures Fold(s, a + b, apply) == Fold(s, b + a, apply)
    decreases |b|
  {
    if b == [] {
      assert a + b == a && b + a == a;
    } else {
      MoveFirst(s, a + b, |a|, apply, lock);
      assert Drop(a + b, |a|) == a + b[1..] && (a + b)[|a|] == b[0];
      SwapGroups(apply(s, b[0]), a, b[1..], apply, lock);
      assert (b + a)[1..] == b[1..] + a && (b + a)[0] == b[0];
    }
  }

  /** The same operations, each under its own key. */
  ghost predicate SameKeyed<Op(!new)>(x: seq<Tagged<Op>>, y: seq<Tagged<Op>>) {
    && (forall i, j :: 0 <= i < j < |x| ==> x[i].who != x[j].who)
    && (forall i, j :: 0 <= i < j < |y| ==> y[i].who != y[j].who)
    && forall e :: e in x <==> e in y
  }

  /** Operations with pairwise different locks give the same state in any order. */
  lemma {:induction false} AnyOrder<S(!new), Op(!new)>(s: S, x: seq<Tagged<Op>>, y: seq<Tagged<Op>>,
                                                       apply: (S, Op) -> S, lock: Op -> nat)
    requires Commutes(apply, lock) && SameKeyed(x, y)
    requires OwnLocks(y, lock)
    ensures Fold(s, Ops(x), apply) == Fold(s, Ops(y), apply)
    decreases |x|
  {
    SameEmpty(x, y);
    if x != [] {
      assert x[0] in y;
      var k :| 0 <= k < |y| && y[k] == x[0];
      FoldFrom(s, y, k, apply, lock);
      assert Ops(x)[1..] == Ops(x[1..]);
      KeyedWithout(x, y, k);
      AnyOrder(apply(s, x[0].op), x[1..], Drop(y, k), apply, lock);
    }
  }

  /** An operation with a lock of its own can come first. */
  lemma FoldFrom<S(!new), Op(!new)>(s: S, y: seq<Tagged<Op>>, k: nat, apply: (S, Op) -> S, lock: Op -> nat)
    requires Commutes(apply, lock) && OwnLocks(y, lock) && k < |y|
    ensures Fold(s, Ops(y), apply) == Fold(apply(s, y[k].op), Ops(Drop(y, k)), apply)
  {
    MoveFirst(s, Ops(y), k, apply, lock);
    OpsDrop(y, k);
  }

  lemma SameEmpty<Op(!new)>(x: seq<Tagged<Op>>, y: seq<Tagged<Op>>)
    requires SameKeyed(x, y)
    ensures y == [] <==> x == []
  {
    if y != [] { assert y[0] in x; }
    if x != [] { assert x[0] in y; }
  }

  lemma OpsDrop<Op>(y: seq<Tagged<Op>>, k: nat)
    requires k < |y|
    ensures Drop(Ops(y), k) == Ops(Drop(y, k))
  {
  }

  ghost predicate OwnLocks<Op(!new)>(y: seq<Tagged<Op>>, lock: Op -> nat) {
    forall i, j :: 0 <= i < j < |y| ==> lock(y[i].op) != lock(y[j].op)
  }

  lemma KeyedWithout<Op(!new)>(x: seq<Tagged<Op>>, y: seq<Tagged<Op>>, k: nat)
    requires SameKeyed(x, y) && x != [] && k < |y| && y[k] == x[0]
    ensures SameKeyed(x[1..], Drop(y, k))
  {
    var x', y' := x[1..], Drop(y, k);
    forall e | e in x' ensures e in y' {
      assert e in y;
      var j :| 0 <= j < |y| && y[j] == e;
      assert y'[if j < k then j else j - 1] == e;
    }
    forall e | e in y' ensures e in x' {
      var i :| 0 <= i < |y'| && y'[i] == e;
      assert y[if i < k then i else i + 1] in x;
      var j :| 0 <= j < |x| && x[j] == e;
      assert x'[j - 1] == e;
    }
  }

  /** A thread that has applied and logged its call stays put until its entry gets an id. */
  lemma {:induction false} StillApplied<S(!new), Op(!new)>(run: seq<World<S, Op>>, steps: seq<Step<Op>>, f: nat,
                                                           g: nat, t: nat, init: S, apply: (S, Op) -> S,
                                                           lock: Op -> nat)
    requires IsRun(run, steps, init, apply, lock) && Commutes(apply, lock) && f <= g < |run|
    requires AtPhase(run[f].threads, t, Applied) && 0 <= run[f].threads[t].entry < |run[f].log|
    ensures |run[f].log| <= |run[g].log| && |run[g].threads| == |run[f].threads|
    ensures run[g].log[run[f].threads[t].entry].id == 0 ==> run[g].threads[t] == run[f].threads[t]
    decreases g - f
  {
    if f < g {
      StillApplied(run, steps, f, g - 1, t, init, apply, lock);
      RunInv(run, steps, g - 1, init, apply, lock);
      IdStays(run[g - 1], steps[g - 1], run[f].threads[t].entry, apply, lock);
    }
  }

  /** An id that is assigned stays, and only a step of its thread assigns one. */
  lemma IdStays<S, Op(!new)>(w: World<S, Op>, step: Step<Op>, e: nat, apply: (S, Op) -> S, lock: Op -> nat)
    requires Shaped(w, lock) && Enabled(w, lock, step) && e < |w.log|
    ensures var w' := Next(w, apply, lock, step);
      && e < |w'.log| && |w'.threads| == |w.threads| && (w'.log[e].id == 0 ==> w.log[e].id == 0)
      && forall t ::
           0 <= t < |w.threads| && AtPhase(w.threads, t, Applied) && w.threads[t].entry == e && w'.log[e].id == 0 ==>
               w'.threads[t] == w.threads[t]
  {
    if step.Assign? || step.Store? { assert ThreadOk(w, step.t); }
  }

  /** The step that assigned id `i + 1`. */
  lemma {:induction false} AssignedAt<S(!new), Op(!new)>(run: seq<World<S, Op>>, steps: seq<Step<Op>>, f: nat, c: nat,
                                                         i: nat, init: S, apply: (S, Op) -> S, lock: Op -> nat)
                                                           returns (g: nat)
    requires IsRun(run, steps, init, apply, lock) && Commutes(apply, lock) && f <= c < |run|
    requires |run[f].order| <= i < |run[c].order|
    ensures f <= g < c && Assigns(run[g], steps[g], i, run[c].order[i])
    decreases c
  {
    if |run[c - 1].order| <= i {
      g := c - 1;
      AssignsLast(run[g], steps[g], apply, lock, i);
    } else {
      g := AssignedAt(run, steps, f, c - 1, i, init, apply, lock);
      OrderStays(run[c - 1], steps[c - 1], apply, lock, i);
    }
  }

  /** The step gives id `i + 1` to the operation `x` of its thread. */
  ghost predicate Assigns<S, Op>(w: World<S, Op>, step: Step<Op>, i: nat, x: Tagged<Op>) {
    && step.Assign? && |w.order| == i && AtPhase(w.threads, step.t, Applied) && 0 <= w.threads[step.t].entry
    && x == Tagged(w.threads[step.t].entry, w.threads[step.t].op)
  }

  lemma OrderStays<S, Op(!new)>(w: World<S, Op>, step: Step<Op>, apply: (S, Op) -> S, lock: Op -> nat, i: nat)
    requires Enabled(w, lock, step) && i < |w.order|
    ensures i < |Next(w, apply, lock, step).order| && Next(w, apply, lock, step).order[i] == w.order[i]
  {
  }

  /** Only the step that assigns an id makes the order longer. */
  lemma AssignsLast<S, Op(!new)>(w: World<S, Op>, step: Step<Op>, apply: (S, Op) -> S, lock: Op -> nat, i: nat)
    requires Enabled(w, lock, step) && |w.order| <= i < |Next(w, apply, lock, step).order|
    ensures Assigns(w, step, i, Next(w, apply, lock, step).order[i])
  {
  }

  /** An operation that gets its id while thread `t` waits for its own has another lock. */
  lemma LaterLocks<S(!new), Op(!new)>(run: seq<World<S, Op>>, steps: seq<Step<Op>>, f: nat, c: nat, t: nat, i: nat,
                                      init: S, apply: (S, Op) -> S, lock: Op -> nat)
    requires IsRun(run, steps, init, apply, lock) && Commutes(apply, lock) && f <= c < |run|
    requires |run[f].order| <= i < |run[c].order|
    requires AtPhase(run[f].threads, t, Applied) && 0 <= run[f].threads[t].entry < |run[f].log|
    requires var e := run[f].threads[t].entry;
      e < |run[c].log| && e != run[c].order[i].who && (run[c].log[e].id == 0 || i < run[c].log[e].id)
    ensures lock(run[c].order[i].op) != lock(run[f].threads[t].op)
  {
    var e := run[f].threads[t].entry;
    var g := AssignedAt(run, steps, f, c, i, init, apply, lock);
    RunInv(run, steps, g, init, apply, lock);
    RunInv(run, steps, c, init, apply, lock);
    RunExtends(run, steps, f, g, init, apply, lock);
    RunExtends(run, steps, g, c, init, apply, lock);
    IdsKept(run[g], run[c], lock);
    StillApplied(run, steps, f, g, t, init, apply, lock);
    assert Locks(run[g].threads, t) && Locks(run[g].threads, steps[g].t);
  }

  function EntryOf<Op>(threads: seq<Thread<Op>>, t: nat): nat {
    if t < |threads| && threads[t].In? && 0 <= threads[t].entry then threads[t].entry else 0
  }

  /** The pending operations under the keys of their log entries. */
  function Waiting<S, Op>(w: World<S, Op>): (r: seq<Tagged<Op>>)
    ensures |r| == |w.pending|
    ensures forall i :: 0 <= i < |r| ==> r[i] == Tagged(EntryOf(w.threads, w.pending[i].who), w.pending[i].op)
  {
    seq(|w.pending|, i requires 0 <= i < |w.pending| => Tagged(EntryOf(w.threads, w.pending[i].who), w.pending[i].op))
  }

  /** All that recovery needs, at a freeze `a` and a crash `b`, for nothing to be extra or lost. */
  ghost predicate Good<S, Op(!new)>(a: World<S, Op>, b: World<S, Op>, fromSnapshot: seq<nat>, fromHead: seq<nat>,
                                    lock: Op -> nat) {
    && Shaped(a, lock) && Shaped(b, lock) && Extends(a, b) && InStep(a)
    && Replays(b, fromSnapshot, |a.log|, |a.order|) && Replays(b, fromHead, 0, 0)
    && NoneExtra(|a.log|, fromHead) && NoneLost(|a.log|, |a.order|, fromHead)
  }

  /** Then the order from the head is that of the freeze, what the snapshot's replay plays, and entries before the
      tail. */
  lemma GoodSplit<S, Op(!new)>(a: World<S, Op>, b: World<S, Op>, fromSnapshot: seq<nat>, fromHead: seq<nat>,
                               lock: Op -> nat)
    requires Good(a, b, fromSnapshot, fromHead, lock)
    ensures |a.order| + |fromSnapshot| <= |fromHead| <= |b.order|
    ensures forall k :: 0 <= k < |fromHead| ==> b.order[k] == Tagged(fromHead[k], b.log[fromHead[k]].op)
    ensures forall k :: |a.order| <= k < |fromHead| ==> (fromHead[k] < |a.log| <==> |a.order| + |fromSnapshot| <= k)
    ensures PlayedOps(b, fromSnapshot) == Ops(b.order[|a.order|..|a.order| + |fromSnapshot|])
    ensures PlayedOps(b, fromHead) == Ops(b.order[..|fromHead|])
  {
    ExtraExact(a, b, fromSnapshot, fromHead, lock);
    PlayedAt(b, fromHead, 0, 0, lock);
    forall k | |a.order| <= k < |fromHead| ensures fromHead[k] < |a.log| <==> |a.order| + |fromSnapshot| <= k {
      BeforeTail(a, b, fromSnapshot, fromHead, lock, k);
    }
    PlayedSlice(b, fromSnapshot, |a.log|, |a.order|, lock);
    PlayedSlice(b, fromHead, 0, 0, lock);
  }

  /** An entry played from the head is before the tail exactly if the snapshot's replay does not play it. */
  lemma BeforeTail<S, Op(!new)>(a: World<S, Op>, b: World<S, Op>, fromSnapshot: seq<nat>, fromHead: seq<nat>,
                                lock: Op -> nat, k: nat)
    requires Good(a, b, fromSnapshot, fromHead, lock) && |a.order| <= k < |fromHead|
    ensures fromHead[k] < |a.log| <==> |a.order| + |fromSnapshot| <= k
  {
    var n, m, tail := |a.order|, |fromSnapshot|, |a.log|;
    PlayedAt(b, fromHead, 0, 0, lock);
    PlayedAt(b, fromSnapshot, tail, n, lock);
    if k < n + m {
      assert b.order[n + (k - n)] == Tagged(fromSnapshot[k - n], b.log[fromSnapshot[k - n]].op);
    } else {
      Recoveries.RunEndLongest(StoredIds(b, tail), n);
      StoredAt(b, tail, n + m + 1, lock);
      assert fromHead[n + m] < tail;
    }
  }

  /** What is played are the operations of a slice of the order. */
  lemma PlayedSlice<S, Op(!new)>(w: World<S, Op>, played: seq<nat>, tail: nat, last: nat, lock: Op -> nat)
    requires Shaped(w, lock) && Replays(w, played, tail, last) && last + |played| <= |w.order|
    ensures PlayedOps(w, played) == Ops(w.order[last..last + |played|])
  {
    PlayedAt(w, played, tail, last, lock);
    forall k | 0 <= k < |played| ensures w.order[last..last + |played|][k].op == w.log[played[k]].op {
      assert w.order[last + k] == Tagged(played[k], w.log[played[k]].op);
    }
  }

  /** A thread pending at the freeze gets an id behind those of the snapshot's replay. */
  lemma PendingLater<S, Op(!new)>(a: World<S, Op>, b: World<S, Op>, fromSnapshot: seq<nat>, fromHead: seq<nat>,
                                  lock: Op -> nat, t: nat) returns (k: nat)
    requires Good(a, b, fromSnapshot, fromHead, lock) && AtPhase(a.threads, t, Applied)
    ensures 0 <= a.threads[t].entry < |a.log| && |a.order| + |fromSnapshot| <= k < |fromHead|
    ensures fromHead[k] == a.threads[t].entry && b.log[fromHead[k]].id == k + 1
    ensures b.log[fromHead[k]].op == a.threads[t].op
  {
    GoodSplit(a, b, fromSnapshot, fromHead, lock);
    assert ThreadOk(a, t);
    var e := a.threads[t].entry;
    assert Before(e, |a.log|);
    k :| 0 <= k < |fromHead| && fromHead[k] == e;
    EarlyIds(a, b, lock, e);
  }

  /** Conversely, what gets an id that late from before the tail was pending at the freeze. */
  lemma LaterPending<S, Op(!new)>(a: World<S, Op>, b: World<S, Op>, fromSnapshot: seq<nat>, fromHead: seq<nat>,
                                  lock: Op -> nat, k: nat) returns (i: nat)
    requires Good(a, b, fromSnapshot, fromHead, lock) && |a.order| + |fromSnapshot| <= k < |fromHead|
    ensures i < |a.pending| && AtPhase(a.threads, a.pending[i].who, Applied)
    ensures a.threads[a.pending[i].who].entry == fromHead[k] && b.log[fromHead[k]].op == a.pending[i].op
  {
    GoodSplit(a, b, fromSnapshot, fromHead, lock);
    var e := fromHead[k];
    assert b.log[e].id == k + 1;
    IdsKept(a, b, lock);
    assert EntryOk(a, e) && Owned(a, e);
    var t :| 0 <= t < |a.threads| && a.threads[t].In? && a.threads[t].entry == e;
    assert ThreadOk(a, t);
    assert AtPhase(a.threads, t, Applied) && Has(a.pending, t);
    i :| 0 <= i < |a.pending| && a.pending[i].who == t;
  }

  /** The operations pending at the freeze are those at the end of the order from the head. */
  lemma WaitingIsRest<S, Op(!new)>(a: World<S, Op>, b: World<S, Op>, fromSnapshot: seq<nat>, fromHead: seq<nat>,
                                   lock: Op -> nat)
    requires Good(a, b, fromSnapshot, fromHead, lock)
    ensures |a.order| + |fromSnapshot| <= |fromHead| <= |b.order|
    ensures SameKeyed(b.order[|a.order| + |fromSnapshot|..|fromHead|], Waiting(a))
  {
    GoodSplit(a, b, fromSnapshot, fromHead, lock);
    var from := |a.order| + |fromSnapshot|;
    var x, y := b.order[from..|fromHead|], Waiting(a);
    forall e | e in x ensures e in y {
      var i :| 0 <= i < |x| && x[i] == e;
      RestPending(a, b, fromSnapshot, fromHead, lock, from + i);
    }
    forall e | e in y ensures e in x {
      var i :| 0 <= i < |y| && y[i] == e;
      PendingInRest(a, b, fromSnapshot, fromHead, lock, i);
    }
    RestKeys(b, from, |fromHead|, lock);
    WaitingKeys(a, lock);
  }

  lemma RestPending<S, Op(!new)>(a: World<S, Op>, b: World<S, Op>, fromSnapshot: seq<nat>, fromHead: seq<nat>,
                                 lock: Op -> nat, k: nat)
    requires Good(a, b, fromSnapshot, fromHead, lock) && |a.order| + |fromSnapshot| <= k < |fromHead|
    ensures k < |b.order| && b.order[k] in Waiting(a)
  {
    GoodSplit(a, b, fromSnapshot, fromHead, lock);
    var p := LaterPending(a, b, fromSnapshot, fromHead, lock, k);
    assert Waiting(a)[p] == b.order[k];
  }

  lemma PendingInRest<S, Op(!new)>(a: World<S, Op>, b: World<S, Op>, fromSnapshot: seq<nat>, fromHead: seq<nat>,
                                   lock: Op -> nat, i: nat)
    requires Good(a, b, fromSnapshot, fromHead, lock) && i < |a.pending|
    ensures |a.order| + |fromSnapshot| <= |fromHead| <= |b.order|
    ensures Waiting(a)[i] in b.order[|a.order| + |fromSnapshot|..|fromHead|]
  {
    GoodSplit(a, b, fromSnapshot, fromHead, lock);
    var from := |a.order| + |fromSnapshot|;
    var k := PendingLater(a, b, fromSnapshot, fromHead, lock, a.pending[i].who);
    assert b.order[from..|fromHead|][k - from] == Waiting(a)[i];
  }

  /** Pending threads work on different entries, under different locks. */
  lemma WaitingKeys<S, Op(!new)>(a: World<S, Op>, lock: Op -> nat)
    requires Shaped(a, lock) && InStep(a)
    ensures forall i, j :: 0 <= i < j < |a.pending| ==> Waiting(a)[i].who != Waiting(a)[j].who
    ensures OwnLocks(Waiting(a), lock)
  {
    forall i, j | 0 <= i < j < |a.pending|
      ensures Waiting(a)[i].who != Waiting(a)[j].who && lock(Waiting(a)[i].op) != lock(Waiting(a)[j].op)
    {
      var t, u := a.pending[i].who, a.pending[j].who;
      assert AtPhase(a.threads, t, Applied) && AtPhase(a.threads, u, Applied) && t != u;
      assert Locks(a.threads, t) && Locks(a.threads, u);
    }
  }

  lemma RestKeys<S, Op(!new)>(w: World<S, Op>, lo: nat, hi: nat, lock: Op -> nat)
    requires Shaped(w, lock) && lo <= hi <= |w.order|
    ensures forall i, j :: 0 <= i < j < hi - lo ==> w.order[lo..hi][i].who != w.order[lo..hi][j].who
  {
    forall i, j | 0 <= i < j < hi - lo ensures w.order[lo..hi][i].who != w.order[lo..hi][j].who {
      assert OrderOk(w, lo + i) && OrderOk(w, lo + j);
    }
  }

  /** What the snapshot's replay plays has other locks than what was pending at the freeze. */
  lemma GroupLocks<S(!new), Op(!new)>(run: seq<World<S, Op>>, steps: seq<Step<Op>>, f: nat, c: nat,
                                      fromSnapshot: seq<nat>, fromHead: seq<nat>, init: S, apply: (S, Op) -> S,
                                      lock: Op -> nat, i: nat, j: nat)
    requires IsRun(run, steps, init, apply, lock) && Commutes(apply, lock) && f <= c < |run|
    requires Good(run[f], run[c], fromSnapshot, fromHead, lock)
    requires i < |run[f].pending| && j < |fromSnapshot|
    ensures |run[f].order| + j < |run[c].order|
    ensures lock(Waiting(run[f])[i].op) != lock(run[c].order[|run[f].order| + j].op)
  {
    var a, b := run[f], run[c];
    GoodSplit(a, b, fromSnapshot, fromHead, lock);
    var t, n := a.pending[i].who, |a.order|;
    var k := PendingLater(a, b, fromSnapshot, fromHead, lock, t);
    assert b.order[n + j] == Tagged(fromHead[n + j], b.log[fromHead[n + j]].op) && |a.log| <= fromHead[n + j];
    LaterLocks(run, steps, f, c, t, n + j, init, apply, lock);
  }

  ghost predicate LocksApart<Op(!new)>(x: seq<Tagged<Op>>, y: seq<Tagged<Op>>, lock: Op -> nat) {
    forall i, j :: 0 <= i < |x| && 0 <= j < |y| ==> lock(x[i].op) != lock(y[j].op)
  }

  /** Operations of a state, a middle part and a rest, in two orders. */
  lemma ThreeFolds<S(!new), Op(!new)>(s: S, waiting: seq<Tagged<Op>>, snap: seq<Tagged<Op>>, rest: seq<Tagged<Op>>,
                                      apply: (S, Op) -> S, lock: Op -> nat)
    requires Commutes(apply, lock) && SameKeyed(rest, waiting) && OwnLocks(waiting, lock)
    requires LocksApart(waiting, snap, lock)
    ensures Fold(Fold(s, Ops(waiting), apply), Ops(snap), apply) == Fold(s, Ops(snap) + Ops(rest), apply)
  {
    FoldConcat(s, Ops(waiting), Ops(snap), apply);
    SwapGroups(s, Ops(waiting), Ops(snap), apply, lock);
    FoldConcat(s, Ops(snap), Ops(waiting), apply);
    AnyOrder(Fold(s, Ops(snap), apply), rest, waiting, apply, lock);
    FoldConcat(s, Ops(snap), Ops(rest), apply);
  }

  /** The recovered state. If at the freeze the calls under way were applied exactly as far as logged, and nothing is
      extra and nothing is lost, it is the state a replay of the whole log from its head gives. */
  lemma RestoredState<S(!new), Op(!new)>(run: seq<World<S, Op>>, steps: seq<Step<Op>>, f: nat, c: nat,
                                         fromSnapshot: seq<nat>, fromHead: seq<nat>, init: S, apply: (S, Op) -> S,
                                         lock: Op -> nat)
    requires IsRun(run, steps, init, apply, lock) && Commutes(apply, lock) && f <= c < |run| && InStep(run[f])
    requires Replays(run[c], fromSnapshot, |run[f].log|, |run[f].order|) && Replays(run[c], fromHead, 0, 0)
    requires NoneExtra(|run[f].log|, fromHead) && NoneLost(|run[f].log|, |run[f].order|, fromHead)
    ensures Fold(run[f].live, PlayedOps(run[c], fromSnapshot), apply) == Fold(init, PlayedOps(run[c], fromHead), apply)
  {
    RunGood(run, steps, f, c, init, apply, lock);
    GroupsApart(run, steps, f, c, fromSnapshot, fromHead, init, apply, lock);
    RestoredGood(run[f], run[c], fromSnapshot, fromHead, init, apply, lock);
  }

  lemma RestoredGood<S(!new), Op(!new)>(a: World<S, Op>, b: World<S, Op>, fromSnapshot: seq<nat>, fromHead: seq<nat>,
                                        init: S, apply: (S, Op) -> S, lock: Op -> nat)
    requires Good(a, b, fromSnapshot, fromHead, lock) && Commutes(apply, lock)
    requires |a.order| + |fromSnapshot| <= |b.order|
    requires a.live == Fold(Fold(init, Ops(a.order), apply), Ops(a.pending), apply)
    requires LocksApart(Waiting(a), b.order[|a.order|..|a.order| + |fromSnapshot|], lock)
    ensures Fold(a.live, PlayedOps(b, fromSnapshot), apply) == Fold(init, PlayedOps(b, fromHead), apply)
  {
    GoodSplits(a, b, fromSnapshot, fromHead, lock);
    RestoredFolds(a, b, fromSnapshot, fromHead, init, apply, lock);
  }

  lemma RunGood<S(!new), Op(!new)>(run: seq<World<S, Op>>, steps: seq<Step<Op>>, f: nat, c: nat, init: S,
                                   apply: (S, Op) -> S, lock: Op -> nat)
    requires IsRun(run, steps, init, apply, lock) && Commutes(apply, lock) && f <= c < |run|
    ensures Shaped(run[f], lock) && Shaped(run[c], lock) && Extends(run[f], run[c])
    ensures run[f].live == Fold(Fold(init, Ops(run[f].order), apply), Ops(run[f].pending), apply)
    ensures run[c].live == Fold(Fold(init, Ops(run[c].order), apply), Ops(run[c].pending), apply)
  {
    RunInv(run, steps, f, init, apply, lock);
    RunInv(run, steps, c, init, apply, lock);
    RunExtends(run, steps, f, c, init, apply, lock);
  }

  lemma GroupsApart<S(!new), Op(!new)>(run: seq<World<S, Op>>, steps: seq<Step<Op>>, f: nat, c: nat,
                                       fromSnapshot: seq<nat>, fromHead: seq<nat>, init: S, apply: (S, Op) -> S,
                                       lock: Op -> nat)
    requires IsRun(run, steps, init, apply, lock) && Commutes(apply, lock) && f <= c < |run|
    requires Good(run[f], run[c], fromSnapshot, fromHead, lock)
    ensures |run[f].order| + |fromSnapshot| <= |run[c].order|
    ensures LocksApart(Waiting(run[f]), run[c].order[|run[f].order|..|run[f].order| + |fromSnapshot|], lock)
  {
    GoodSplit(run[f], run[c], fromSnapshot, fromHead, lock);
    var n, m := |run[f].order|, |fromSnapshot|;
    var x, y := Waiting(run[f]), run[c].order[n..n + m];
    forall i, j | 0 <= i < |x| && 0 <= j < |y| ensures lock(x[i].op) != lock(y[j].op) {
      GroupLocks(run, steps, f, c, fromSnapshot, fromHead, init, apply, lock, i, j);
    }
  }

  /** The operations behind the freeze fall into those the snapshot's replay plays and those that were pending. */
  ghost predicate Splits<S, Op(!new)>(a: World<S, Op>, b: World<S, Op>, fromSnapshot: seq<nat>, fromHead: seq<nat>,
                                      lock: Op -> nat) {
    && (forall k :: 0 <= k < |fromSnapshot| ==> fromSnapshot[k] < |b.log|)
    && (forall k :: 0 <= k < |fromHead| ==> fromHead[k] < |b.log|)
    && var n, m, h := |a.order|, |fromSnapshot|, |fromHead|;
    && n + m <= h <= |b.order| && a.order == b.order[..n]
    && PlayedOps(b, fromSnapshot) == Ops(b.order[n..n + m]) && PlayedOps(b, fromHead) == Ops(b.order[..h])
    && SameKeyed(b.order[n + m..h], Waiting(a)) && OwnLocks(Waiting(a), lock)
  }

  lemma GoodSplits<S, Op(!new)>(a: World<S, Op>, b: World<S, Op>, fromSnapshot: seq<nat>, fromHead: seq<nat>,
                                lock: Op -> nat)
    requires Good(a, b, fromSnapshot, fromHead, lock)
    ensures Splits(a, b, fromSnapshot, fromHead, lock)
  {
    GoodSplit(a, b, fromSnapshot, fromHead, lock);
    WaitingIsRest(a, b, fromSnapshot, fromHead, lock);
    WaitingKeys(a, lock);
  }

  lemma WaitingOps<S, Op>(w: World<S, Op>)
    ensures Ops(Waiting(w)) == Ops(w.pending)
  {
  }

  lemma ThreeParts<T>(o: seq<T>, i: nat, j: nat, k: nat)
    requires i <= j <= k <= |o|
    ensures o[..k] == o[..i] + (o[i..j] + o[j..k])
  {
  }

  lemma RestoredFolds<S(!new), Op(!new)>(a: World<S, Op>, b: World<S, Op>, fromSnapshot: seq<nat>, fromHead: seq<nat>,
                                         init: S, apply: (S, Op) -> S, lock: Op -> nat)
    requires Splits(a, b, fromSnapshot, fromHead, lock) && Commutes(apply, lock)
    requires a.live == Fold(Fold(init, Ops(a.order), apply), Ops(a.pending), apply)
    requires LocksApart(Waiting(a), b.order[|a.order|..|a.order| + |fromSnapshot|], lock)
    ensures Fold(a.live, PlayedOps(b, fromSnapshot), apply) == Fold(init, PlayedOps(b, fromHead), apply)
  {
    WaitingOps(a);
    FoldSlices(a.live, init, b.order, |a.order|, |a.order| + |fromSnapshot|, |fromHead|, Waiting(a), apply, lock);
  }

  /** A state in which the waiting operations are applied after the first `i`, continued with those up to `j`, is that
      of all up to `k`. */
  lemma FoldSlices<S(!new), Op(!new)>(live: S, init: S, order: seq<Tagged<Op>>, i: nat, j: nat, k: nat,
                                      waiting: seq<Tagged<Op>>, apply: (S, Op) -> S, lock: Op -> nat)
    requires i <= j <= k <= |order| && Commutes(apply, lock)
    requires SameKeyed(order[j..k], waiting) && OwnLocks(waiting, lock) && LocksApart(waiting, order[i..j], lock)
    requires live == Fold(Fold(init, Ops(order[..i]), apply), Ops(waiting), apply)
    ensures Fold(live, Ops(order[i..j]), apply) == Fold(init, Ops(order[..k]), apply)
  {
    ThreeParts(order, i, j, k);
    FoldParts(live, init, order[..i], waiting, order[i..j], order[j..k], apply, lock);
  }

  lemma FoldParts<S(!new), Op(!new)>(live: S, init: S, order: seq<Tagged<Op>>, waiting: seq<Tagged<Op>>,
                                     snap: seq<Tagged<Op>>, rest: seq<Tagged<Op>>, apply: (S, Op) -> S, lock: Op -> nat)
    requires Commutes(apply, lock) && SameKeyed(rest, waiting) && OwnLocks(waiting, lock)
    requires LocksApart(waiting, snap, lock)
    requires live == Fold(Fold(init, Ops(order), apply), Ops(waiting), apply)
    ensures Fold(live, Ops(snap), apply) == Fold(init, Ops(order + (snap + rest)), apply)
  {
    ThreeFolds(Fold(init, Ops(order), apply), waiting, snap, rest, apply, lock);
    OpsConcat(order, snap + rest);
    OpsConcat(snap, rest);
    FoldConcat(init, Ops(order), Ops(snap) + Ops(rest), apply);
  }

  /** A clean freeze whose ids are all stored at the crash makes nothing extra and nothing lost. */
  lemma CleanGood<S, Op(!new)>(a: World<S, Op>, b: World<S, Op>, fromHead: seq<nat>, lock: Op -> nat)
    requires Shaped(a, lock) && Shaped(b, lock) && Extends(a, b) && Clean(a) && IdsStored(a, b)
    requires Replays(b, fromHead, 0, 0)
    ensures NoneExtra(|a.log|, fromHead) && NoneLost(|a.log|, |a.order|, fromHead) && InStep(a)
  {
    Recoveries.RunEndLongest(StoredIds(b, 0), 0);
    IdsKept(a, b, lock);
    PlayedAt(b, fromHead, 0, 0, lock);
    forall e: nat | Before(e, |a.log|) ensures e in Entries(fromHead) {
      assert EntryOk(b, e);
      var k := b.log[e].id - 1;
      assert k < |fromHead| && b.order[k] == Tagged(fromHead[k], b.log[fromHead[k]].op);
      assert fromHead[k] in Entries(fromHead);
    }
    forall t | 0 <= t < |a.threads| && a.threads[t].In?
      ensures 0 <= a.threads[t].entry <==> a.threads[t].phase != Called && a.threads[t].phase != Holding
    {
      assert ThreadOk(a, t) && !AtPhase(a.threads, t, Applied);
    }
  }

  /** Whenever no call is under way all ids are stored. */
  lemma QuietEnd<S, Op(!new)>(w: World<S, Op>, fromHead: seq<nat>, lock: Op -> nat)
    requires Shaped(w, lock) && Quiet(w) && Replays(w, fromHead, 0, 0)
    ensures w.pending == [] && |fromHead| == |w.order| && PlayedOps(w, fromHead) == Ops(w.order)
  {
    assert |w.pending| == 0 || AtPhase(w.threads, w.pending[0].who, Applied);
    Recoveries.RunEndLongest(StoredIds(w, 0), 0);
    forall i | 0 < i <= |w.order| ensures i in StoredIds(w, 0) {
      assert OrderOk(w, i - 1);
      assert EntryOk(w, w.order[i - 1].who);
    }
    PlayedAt(w, fromHead, 0, 0, lock);
    assert PlayedOps(w, fromHead) == Ops(w.order[..|fromHead|]);
  }

  /** End to end. Take any run, any point `f` of it where every logged entry has its id and no applied operation waits
      for one, and any later point `c` where the program stops and by which the ids assigned at `f` are stored.
      Restoring the object state of `f` and replaying the log from the tail saved at `f`, with ids above the one saved
      at `f`, gives the same state as replaying the whole log from its head into the initial state; and when no call was
      under way it is the live state itself. */
  lemma EndToEnd<S(!new), Op(!new)>(run: seq<World<S, Op>>, steps: seq<Step<Op>>, f: nat, c: nat,
                                    fromSnapshot: seq<nat>, fromHead: seq<nat>, init: S, apply: (S, Op) -> S,
                                    lock: Op -> nat)
    requires IsRun(run, steps, init, apply, lock) && Commutes(apply, lock) && f <= c < |run| && Clean(run[f])
    requires IdsStored(run[f], run[c])
    requires Replays(run[c], fromSnapshot, |run[f].log|, |run[f].order|) && Replays(run[c], fromHead, 0, 0)
    ensures Reflected(|run[f].log|, fromSnapshot) == Entries(fromHead)
    ensures Fold(run[f].live, PlayedOps(run[c], fromSnapshot), apply) == Fold(init, PlayedOps(run[c], fromHead), apply)
    ensures Quiet(run[c]) ==> Fold(run[f].live, PlayedOps(run[c], fromSnapshot), apply) == run[c].live
  {
    RunGood(run, steps, f, c, init, apply, lock);
    CleanGood(run[f], run[c], fromHead, lock);
    RestoreExact(run[f], run[c], fromSnapshot, fromHead, lock);
    RestoredState(run, steps, f, c, fromSnapshot, fromHead, init, apply, lock);
    if Quiet(run[c]) { QuietEnd(run[c], fromHead, lock); }
  }

  /** A call that was applied and had no id at the freeze, and another that was logged later and got a later id, both
      played from the log head: the second is lost to recovery from the snapshot. */
  lemma LaterCommitLost<S(!new), Op(!new)>(run: seq<World<S, Op>>, steps: seq<Step<Op>>, f: nat, c: nat,
                                           fromSnapshot: seq<nat>, fromHead: seq<nat>, t: nat, j: nat, init: S,
                                           apply: (S, Op) -> S, lock: Op -> nat)
    requires IsRun(run, steps, init, apply, lock) && Commutes(apply, lock) && f <= c < |run|
    requires Replays(run[c], fromSnapshot, |run[f].log|, |run[f].order|) && Replays(run[c], fromHead, 0, 0)
    requires AtPhase(run[f].threads, t, Applied) && 0 <= run[f].threads[t].entry < |run[c].log|
    requires j < |fromHead| && |run[f].log| <= fromHead[j] && 0 < run[c].log[run[f].threads[t].entry].id <= j
    ensures fromHead[j] !in Reflected(|run[f].log|, fromSnapshot)
  {
    RunGood(run, steps, f, c, init, apply, lock);
    LostAfter(run[f], run[c], fromSnapshot, fromHead, lock, t, j);
  }

  lemma LostAfter<S, Op(!new)>(a: World<S, Op>, b: World<S, Op>, fromSnapshot: seq<nat>, fromHead: seq<nat>,
                               lock: Op -> nat, t: nat, j: nat)
    requires Shaped(a, lock) && Shaped(b, lock) && Extends(a, b)
    requires Replays(b, fromSnapshot, |a.log|, |a.order|) && Replays(b, fromHead, 0, 0)
    requires AtPhase(a.threads, t, Applied) && 0 <= a.threads[t].entry < |b.log|
    requires j < |fromHead| && |a.log| <= fromHead[j] && 0 < b.log[a.threads[t].entry].id <= j
    ensures fromHead[j] !in Reflected(|a.log|, fromSnapshot)
  {
    var i := AppliedAt(a, b, fromHead, lock, t, j);
    EarlyIds(a, b, lock, fromHead[j]);
    SnapshotRun(a, b, fromSnapshot, fromHead, lock, j);
  }

  /** The entry that had no id at the freeze is before the tail, and played before `j` with an id behind the saved
      one. */
  lemma AppliedAt<S, Op(!new)>(a: World<S, Op>, b: World<S, Op>, fromHead: seq<nat>, lock: Op -> nat, t: nat, j: nat)
    returns (i: nat)
    requires Shaped(a, lock) && Shaped(b, lock) && Extends(a, b) && Replays(b, fromHead, 0, 0)
    requires AtPhase(a.threads, t, Applied) && 0 <= a.threads[t].entry < |b.log|
    requires j < |fromHead| && 0 < b.log[a.threads[t].entry].id <= j
    ensures |a.order| <= i < j && fromHead[i] < |a.log|
  {
    assert ThreadOk(a, t);
    var e := a.threads[t].entry;
    EarlyIds(a, b, lock, e);
    PlayedAt(b, fromHead, 0, 0, lock);
    i := b.log[e].id - 1;
    assert EntryOk(b, e) && fromHead[i] == e;
  }

  // ---------------------------------------------------------------- a lost commit

  lemma Extend<S, Op(!new)>(run: seq<World<S, Op>>, steps: seq<Step<Op>>, step: Step<Op>, init: S, apply: (S, Op) -> S,
                            lock: Op -> nat)
    returns (run': seq<World<S, Op>>, steps': seq<Step<Op>>)
    requires IsRun(run, steps, init, apply, lock) && Enabled(run[|run| - 1], lock, step)
    ensures IsRun(run', steps', init, apply, lock) && |run'| == |run| + 1
    ensures run' == run + [Next(run[|run| - 1], apply, lock, step)]
  {
    run', steps' := run + [Next(run[|run| - 1], apply, lock, step)], steps + [step];
  }

  function AppliedOne(w: World<int, int>, op: int, apply: (int, int) -> int): World<int, int> {
    World(apply(w.live, op), w.log + [LogEntry(op, 0, false)], w.order, [In(op, |w.log|, Applied)], [Tagged(0, op)])
  }

  function CommittedOne(w: World<int, int>, op: int): World<int, int>
    requires 0 < |w.log|
  {
    var e := |w.log| - 1;
    World(w.live, w.log[e := LogEntry(w.log[e].op, |w.order| + 1, true)], w.order + [Tagged(e, op)], [Out], [])
  }

  /** One call of a single thread, from the call to its application. */
  lemma ApplyOne(run: seq<World<int, int>>, steps: seq<Step<int>>, op: int, apply: (int, int) -> int, lock: int -> nat)
    returns (run': seq<World<int, int>>, steps': seq<Step<int>>)
    requires IsRun(run, steps, 0, apply, lock)
    requires var w := run[|run| - 1]; w.threads == [Out] && w.pending == []
    ensures IsRun(run', steps', 0, apply, lock) && |run'| == |run| + 4
    ensures forall i :: 0 <= i < |run| ==> run'[i] == run[i]
    ensures run'[|run'| - 1] == AppliedOne(run[|run| - 1], op, apply)
  {
    var w := run[|run| - 1];
    run', steps' := Extend(run, steps, Call(0, op), 0, apply, lock);
    run', steps' := Extend(run', steps', Log(0), 0, apply, lock);
    run', steps' := Extend(run', steps', Acquire(0), 0, apply, lock);
    run', steps' := Extend(run', steps', Apply(0), 0, apply, lock);
    var n := |w.log|;
    assert [Out][0 := In(op, -1, Called)][0 := In(op, n, Called)][0 := In(op, n, Holding)][0 := In(op, n, Applied)]
        == [In(op, n, Applied)];
  }

  /** And from there to its end. */
  lemma CommitOne(run: seq<World<int, int>>, steps: seq<Step<int>>, op: int, apply: (int, int) -> int, lock: int -> nat)
    returns (run': seq<World<int, int>>, steps': seq<Step<int>>)
    requires IsRun(run, steps, 0, apply, lock)
    requires var w := run[|run| - 1];
      0 < |w.log| && w.threads == [In(op, |w.log| - 1, Applied)] && w.pending == [Tagged(0, op)]
    ensures IsRun(run', steps', 0, apply, lock) && |run'| == |run| + 3
    ensures forall i :: 0 <= i < |run| ==> run'[i] == run[i]
    ensures run'[|run'| - 1] == CommittedOne(run[|run| - 1], op)
  {
    var w := run[|run| - 1];
    var e := |w.log| - 1;
    assert w.pending[0].who == 0;
    run', steps' := Extend(run, steps, Assign(0), 0, apply, lock);
    assert Drop(w.pending, 0) == [];
    run', steps' := Extend(run', steps', Store(0), 0, apply, lock);
    run', steps' := Extend(run', steps', Release(0), 0, apply, lock);
  }

  /** A durable commit that recovery loses. The freeze finds the first call applied and without id; it then gets id 1,
      and a second call gets id 2. The tail saved at the freeze is behind the entry with id 1, so recovery from the
      snapshot finds no id 1 and plays nothing: it ends with 1 where a replay from the head, and the live state, have
      3. */
  lemma LostCommitExample() returns (run: seq<World<int, int>>, steps: seq<Step<int>>, f: nat, c: nat)
    ensures IsRun(run, steps, 0, (s: int, x: int) => s + x, (x: int) => 0)
    ensures Commutes((s: int, x: int) => s + x, (x: int) => 0)
    ensures f < c < |run| && AtFreeze(run[f]) && Quiet(run[c]) && run[f].live == 1 && run[c].live == 3
    ensures Replays(run[c], [], |run[f].log|, |run[f].order|) && Replays(run[c], [0, 1], 0, 0)
    ensures Fold(run[f].live, PlayedOps(run[c], []), (s: int, x: int) => s + x)
      != Fold(0, PlayedOps(run[c], [0, 1]), (s: int, x: int) => s + x)
  {
    run, steps, f, c := LostRun((s: int, x: int) => s + x, (x: int) => 0);
    LostReplays(run[c]);
    LostFolds(run[c], (s: int, x: int) => s + x);
  }

  lemma LostRun(apply: (int, int) -> int, lock: int -> nat)
    returns (run: seq<World<int, int>>, steps: seq<Step<int>>, f: nat, c: nat)
    ensures IsRun(run, steps, 0, apply, lock) && f < c < |run|
    ensures run[f] == World(apply(0, 1), [LogEntry(1, 0, false)], [], [In(1, 0, Applied)], [Tagged(0, 1)])
    ensures run[c].live == apply(apply(0, 1), 2) && run[c].log == [LogEntry(1, 1, true), LogEntry(2, 2, true)]
    ensures run[c].threads == [Out]
  {
    run, steps, f := FirstCommit(apply, lock);
    run, steps := ApplyOne(run, steps, 2, apply, lock);
    run, steps := CommitOne(run, steps, 2, apply, lock);
    c := |run| - 1;
  }

  lemma FirstCommit(apply: (int, int) -> int, lock: int -> nat)
    returns (run: seq<World<int, int>>, steps: seq<Step<int>>, f: nat)
    ensures IsRun(run, steps, 0, apply, lock) && f < |run|
    ensures run[f] == World(apply(0, 1), [LogEntry(1, 0, false)], [], [In(1, 0, Applied)], [Tagged(0, 1)])
    ensures run[|run| - 1] == World(apply(0, 1), [LogEntry(1, 1, true)], [Tagged(0, 1)], [Out], [])
  {
    run, steps := [World(0, [], [], [Out], [])], [];
    run, steps := ApplyOne(run, steps, 1, apply, lock);
    f := |run| - 1;
    run, steps := CommitOne(run, steps, 1, apply, lock);
  }

  lemma LostFolds(b: World<int, int>, apply: (int, int) -> int)
    requires b.log == [LogEntry(1, 1, true), LogEntry(2, 2, true)] && forall s, x :: apply(s, x) == s + x
    ensures Fold(1, PlayedOps(b, []), apply) == 1 && Fold(0, PlayedOps(b, [0, 1]), apply) == 3
  {
    assert PlayedOps(b, [0, 1]) == [1, 2] && PlayedOps(b, []) == [];
    assert [1, 2][1..] == [2] && [2][1..] == [];
    assert Fold(1, [2], apply) == Fold(apply(1, 2), [], apply);
    assert Fold(0, [1, 2], apply) == Fold(apply(0, 1), [2], apply);
  }

  lemma LostReplays(b: World<int, int>)
    requires b.log == [LogEntry(1, 1, true), LogEntry(2, 2, true)]
    ensures Replays(b, [], 1, 0) && Replays(b, [0, 1], 0, 0)
  {
    assert b.log[0].id == 1 && b.log[1].id == 2;
    assert StoredIds(b, 1) == {2} && StoredIds(b, 0) == {1, 2};
    assert Recoveries.RunEnd({2}, 0) == 0;
    assert Recoveries.RunEnd({1, 2}, 2) == 2;
    assert Recoveries.RunEnd({1, 2}, 1) == 2;
    assert Recoveries.RunEnd({1, 2}, 0) == 2;
  }
}
