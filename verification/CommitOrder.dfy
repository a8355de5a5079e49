/**
 Execution, commit order and replay of a logged object.

 A thread calls a method, takes the lock the call needs, applies the operation, waits until the
 persister has logged it, gets the next commit id, stores the id into the log entry and releases the
 lock. Logging happens at any time between the call and the wait.
 */
module CommitOrders {
  datatype Phase = Called | Holding | Applied | Assigned | Stored

  /** A thread outside or inside a call; `entry` is -1 until the persister has logged the call. */
  datatype Thread<Op> = Out | In(op: Op, entry: int, phase: Phase)

  /** A log entry: its operation, its commit id (0 when not yet assigned), whether the id is stored. */
  datatype LogEntry<Op> = LogEntry(op: Op, id: nat, stored: bool)

  datatype Tagged<Op> = Tagged(who: nat, op: Op)

  /** `order[k]` is the log entry with commit id `k + 1` and its operation; `pending` are the threads, in the
      order in which they applied, that have applied and have no commit id yet, with their operations. */
  datatype World<S, Op> = World(live: S, log: seq<LogEntry<Op>>, order: seq<Tagged<Op>>, threads: seq<Thread<Op>>,
                                pending: seq<Tagged<Op>>)

  function Ops<Op>(s: seq<Tagged<Op>>): (r: seq<Op>)
    ensures |r| == |s| && forall i :: 0 <= i < |s| ==> r[i] == s[i].op
  {
    seq(|s|, i requires 0 <= i < |s| => s[i].op)
  }

  datatype Step<Op> =
    | Call(t: nat, op: Op) | Log(t: nat) | Acquire(t: nat) | Apply(t: nat)
    | Assign(t: nat) | Store(t: nat) | Release(t: nat)

  predicate AtPhase<Op>(threads: seq<Thread<Op>>, t: nat, phase: Phase) {
    t < |threads| && threads[t].In? && threads[t].phase == phase
  }

  /** Thread `t` has a lock. */
  predicate Locks<Op>(threads: seq<Thread<Op>>, t: nat) {
    t < |threads| && threads[t].In? && threads[t].phase != Called
  }

  ghost predicate LockFree<Op(!new)>(threads: seq<Thread<Op>>, lock: Op -> nat, l: nat) {
    forall u :: 0 <= u < |threads| && Locks(threads, u) ==> lock(threads[u].op) != l
  }

  ghost predicate Enabled<S, Op(!new)>(w: World<S, Op>, lock: Op -> nat, step: Step<Op>) {
    match step
    case Call(t, op) => t < |w.threads| && w.threads[t].Out?
    case Log(t) => t < |w.threads| && w.threads[t].In? && w.threads[t].entry == -1
    case Acquire(t) => AtPhase(w.threads, t, Called) && LockFree(w.threads, lock, lock(w.threads[t].op))
    case Apply(t) => AtPhase(w.threads, t, Holding)
    case Assign(t) => AtPhase(w.threads, t, Applied) && 0 <= w.threads[t].entry < |w.log| && Has(w.pending, t)
    case Store(t) => AtPhase(w.threads, t, Assigned) && 0 <= w.threads[t].entry < |w.log|
    case Release(t) => AtPhase(w.threads, t, Stored)
  }

  function To<Op>(threads: seq<Thread<Op>>, t: nat, phase: Phase): seq<Thread<Op>>
    requires t < |threads| && threads[t].In?
  {
    threads[t := threads[t].(phase := phase)]
  }

  predicate Has<Op>(s: seq<Tagged<Op>>, t: nat) {
    exists i :: 0 <= i < |s| && s[i].who == t
  }

  lemma HasRest<Op>(s: seq<Tagged<Op>>, t: nat)
    requires Has(s, t) && s[0].who != t
    ensures Has(s[1..], t)
  {
    var i :| 0 <= i < |s| && s[i].who == t;
    assert s[1..][i - 1].who == t;
  }

  function IndexIn<Op>(s: seq<Tagged<Op>>, t: nat): (i: nat)
    requires Has(s, t)
    ensures i < |s| && s[i].who == t
  {
    if s[0].who == t then 0 else HasRest(s, t); 1 + IndexIn(s[1..], t)
  }

  function Drop<T>(s: seq<T>, k: nat): seq<T>
    requires k < |s|
  {
    s[..k] + s[k + 1..]
  }

  ghost function Next<S, Op(!new)>(w: World<S, Op>, apply: (S, Op) -> S, lock: Op -> nat, step: Step<Op>): World<S, Op>
    requires Enabled(w, lock, step)
  {
    match step
    case Call(t, op) => w.(threads := w.threads[t := In(op, -1, Called)])
    case Log(t) => w.(log := w.log + [LogEntry(w.threads[t].op, 0, false)],
                      threads := w.threads[t := w.threads[t].(entry := |w.log|)])
    case Acquire(t) => w.(threads := To(w.threads, t, Holding))
    case Apply(t) => w.(live := apply(w.live, w.threads[t].op), threads := To(w.threads, t, Applied),
                        pending := w.pending + [Tagged(t, w.threads[t].op)])
    case Assign(t) =>
      var e := w.threads[t].entry;
      w.(log := w.log[e := w.log[e].(id := |w.order| + 1)], order := w.order + [Tagged(e, w.threads[t].op)],
         threads := To(w.threads, t, Assigned), pending := Drop(w.pending, IndexIn(w.pending, t)))
    case Store(t) =>
      var e := w.threads[t].entry;
      w.(log := w.log[e := w.log[e].(stored := true)], threads := To(w.threads, t, Stored))
    case Release(t) => w.(threads := w.threads[t := Out])
  }

  // ---------------------------------------------------------------- replay

  function Fold<S, Op>(s: S, ops: seq<Op>, apply: (S, Op) -> S): S {
    if ops == [] then s else Fold(apply(s, ops[0]), ops[1..], apply)
  }

  /** Operations under different locks commute. */
  ghost predicate Commutes<S(!new), Op(!new)>(apply: (S, Op) -> S, lock: Op -> nat) {
    forall s: S, a: Op, b: Op :: lock(a) != lock(b) ==> apply(apply(s, a), b) == apply(apply(s, b), a)
  }

  lemma {:induction false} FoldConcat<S, Op>(s: S, a: seq<Op>, b: seq<Op>, apply: (S, Op) -> S)
    ensures Fold(s, a + b, apply) == Fold(Fold(s, a, apply), b, apply)
    decreases |a|
  {
    if a == [] {
      assert a + b == b;
    } else {
      FoldConcat(apply(s, a[0]), a[1..], b, apply);
      assert (a + b)[1..] == a[1..] + b;
    }
  }

  /** An operation whose lock none of the earlier ones has can be done first. */
  lemma {:induction false} MoveFirst<S(!new), Op(!new)>(s: S, ops: seq<Op>, k: nat, apply: (S, Op) -> S,
                                                        lock: Op -> nat)
    requires Commutes(apply, lock) && k < |ops| && forall i :: 0 <= i < k ==> lock(ops[i]) != lock(ops[k])
    ensures Fold(s, ops, apply) == Fold(apply(s, ops[k]), Drop(ops, k), apply)
    decreases k
  {
    if k == 0 {
      assert Drop(ops, 0) == ops[1..];
    } else {
      var x := ops[k];
      MoveFirst(apply(s, ops[0]), ops[1..], k - 1, apply, lock);
      assert ops[1..][k - 1] == x;
      assert apply(apply(s, ops[0]), x) == apply(apply(s, x), ops[0]);
      assert Drop(ops, k)[1..] == Drop(ops[1..], k - 1) && Drop(ops, k)[0] == ops[0];
    }
  }

  // ---------------------------------------------------------------- invariant

  ghost predicate ThreadOk<S, Op>(w: World<S, Op>, t: nat)
    requires t < |w.threads|
  {
    var th := w.threads[t];
    th.In? ==>
      && -1 <= th.entry < |w.log|
      && (th.entry == -1 ==> th.phase != Assigned && th.phase != Stored)
      && (0 <= th.entry ==>
            var e := w.log[th.entry];
            && e.op == th.op
            && (th.phase == Assigned || th.phase == Stored <==> 0 < e.id)
            && (th.phase == Stored <==> e.stored))
  }

  /** Different threads work on different entries and under different locks. */
  ghost predicate Separate<S, Op(!new)>(w: World<S, Op>, lock: Op -> nat) {
    forall t, u :: 0 <= t < |w.threads| && 0 <= u < |w.threads| && t != u && w.threads[t].In? && w.threads[u].In? ==>
      && (w.threads[t].entry != -1 ==> w.threads[t].entry != w.threads[u].entry)
      && (Locks(w.threads, t) && Locks(w.threads, u) ==> lock(w.threads[t].op) != lock(w.threads[u].op))
  }

  ghost predicate Owned<S, Op>(w: World<S, Op>, e: nat) {
    exists t :: 0 <= t < |w.threads| && w.threads[t].In? && w.threads[t].entry == e
  }

  /** Commit ids count up from 1 along `order`; an entry without a stored id belongs to a running thread. */
  ghost predicate Numbered<S, Op>(w: World<S, Op>) {
    && (forall k :: 0 <= k < |w.order| ==> OrderOk(w, k))
    && (forall e :: 0 <= e < |w.log| ==> EntryOk(w, e))
  }

  ghost predicate OrderOk<S, Op>(w: World<S, Op>, k: nat)
    requires k < |w.order|
  {
    var e := w.order[k].who;
    e < |w.log| && w.log[e].id == k + 1 && w.log[e].op == w.order[k].op
  }

  ghost predicate EntryOk<S, Op>(w: World<S, Op>, e: nat)
    requires e < |w.log|
  {
    && w.log[e].id <= |w.order|
    && (0 < w.log[e].id ==> w.order[w.log[e].id - 1].who == e)
    && (w.log[e].stored ==> 0 < w.log[e].id)
    && (!w.log[e].stored ==> Owned(w, e))
  }

  /** `pending` lists the threads that have applied and have no id, each once. */
  ghost predicate PendingOk<S, Op>(w: World<S, Op>) {
    && (forall i, j :: 0 <= i < j < |w.pending| ==> w.pending[i].who != w.pending[j].who)
    && (forall i :: 0 <= i < |w.pending| ==>
          AtPhase(w.threads, w.pending[i].who, Applied) && w.threads[w.pending[i].who].op == w.pending[i].op)
    && (forall t: nat :: AtPhase(w.threads, t, Applied) ==> Has(w.pending, t))
  }

  ghost predicate Shaped<S, Op(!new)>(w: World<S, Op>, lock: Op -> nat) {
    && (forall t :: 0 <= t < |w.threads| ==> ThreadOk(w, t))
    && Separate(w, lock) && Numbered(w) && PendingOk(w)
  }

  /** The live state is the replay of the operations with commit ids, in id order, followed by those that
      have been applied and wait for an id. */
  ghost predicate Inv<S, Op(!new)>(w: World<S, Op>, init: S, apply: (S, Op) -> S, lock: Op -> nat) {
    && Shaped(w, lock)
    && w.live == Fold(Fold(init, Ops(w.order), apply), Ops(w.pending), apply)
  }

  ghost predicate Init<S, Op>(w: World<S, Op>, init: S) {
    && w.live == init && w.log == [] && w.order == [] && w.pending == []
    && forall t :: 0 <= t < |w.threads| ==> w.threads[t].Out?
  }

  lemma OwnedStill<S, Op>(w: World<S, Op>, w': World<S, Op>)
    requires |w'.threads| == |w.threads|
    requires forall t :: 0 <= t < |w.threads| && w.threads[t].In? && w.threads[t].entry != -1 ==>
      w'.threads[t].In? && w'.threads[t].entry == w.threads[t].entry
    ensures forall e: nat :: Owned(w, e) ==> Owned(w', e)
  {
    forall e: nat | Owned(w, e) ensures Owned(w', e) {
      var t :| 0 <= t < |w.threads| && w.threads[t].In? && w.threads[t].entry == e;
      assert w'.threads[t].entry == e;
    }
  }

  /** What the entries and the order promise survives a step that keeps them and their owners. */
  lemma SameNumbered<S, Op>(w: World<S, Op>, w': World<S, Op>)
    requires Numbered(w) && w'.log == w.log && w'.order == w.order
    requires forall e: nat :: Owned(w, e) && e < |w.log| && !w.log[e].stored ==> Owned(w', e)
    ensures Numbered(w')
  {
    forall k | 0 <= k < |w'.order| ensures OrderOk(w', k) { assert OrderOk(w, k); }
    forall e | 0 <= e < |w'.log| ensures EntryOk(w', e) { assert EntryOk(w, e); }
  }

  lemma CallShaped<S, Op(!new)>(w: World<S, Op>, t: nat, op: Op, apply: (S, Op) -> S, lock: Op -> nat)
    requires Shaped(w, lock) && Enabled(w, lock, Call(t, op))
    ensures Shaped(Next(w, apply, lock, Call(t, op)), lock)
  {
    var w' := Next(w, apply, lock, Call(t, op));
    OwnedStill(w, w');
    SameNumbered(w, w');
    forall u | 0 <= u < |w'.threads| ensures ThreadOk(w', u) { assert ThreadOk(w, u); }
    forall u: nat | AtPhase(w'.threads, u, Applied) ensures Has(w'.pending, u) {
      assert AtPhase(w.threads, u, Applied);
    }
  }

  lemma LogShaped<S, Op(!new)>(w: World<S, Op>, t: nat, apply: (S, Op) -> S, lock: Op -> nat)
    requires Shaped(w, lock) && Enabled(w, lock, Log(t))
    ensures Shaped(Next(w, apply, lock, Log(t)), lock)
  {
    var w' := Next(w, apply, lock, Log(t));
    OwnedStill(w, w');
    assert w'.threads[t].entry == |w.log|;
    assert Owned(w', |w.log|);
    LogSeparate(w, w', t, lock);
    forall k | 0 <= k < |w'.order| ensures OrderOk(w', k) { assert OrderOk(w, k); }
    forall e | 0 <= e < |w'.log| ensures EntryOk(w', e) { if e < |w.log| { assert EntryOk(w, e); } }
    forall u | 0 <= u < |w'.threads| ensures ThreadOk(w', u) { assert ThreadOk(w, u); }
    forall u: nat | AtPhase(w'.threads, u, Applied) ensures Has(w'.pending, u) {
      assert AtPhase(w.threads, u, Applied);
    }
  }

  lemma LogSeparate<S, Op(!new)>(w: World<S, Op>, w': World<S, Op>, t: nat, lock: Op -> nat)
    requires Separate(w, lock) && (forall u :: 0 <= u < |w.threads| ==> ThreadOk(w, u)) && t < |w.threads|
    requires w.threads[t].In?
    requires w'.threads == w.threads[t := w.threads[t].(entry := |w.log|)]
    ensures Separate(w', lock)
  {
    forall u | 0 <= u < |w.threads| && w.threads[u].In? ensures w.threads[u].entry < |w.log| { assert ThreadOk(w, u); }
  }

  lemma AcquireShaped<S, Op(!new)>(w: World<S, Op>, t: nat, apply: (S, Op) -> S, lock: Op -> nat)
    requires Shaped(w, lock) && Enabled(w, lock, Acquire(t))
    ensures Shaped(Next(w, apply, lock, Acquire(t)), lock)
  {
    var w' := Next(w, apply, lock, Acquire(t));
    OwnedStill(w, w');
    SameNumbered(w, w');
    forall u | 0 <= u < |w'.threads| ensures ThreadOk(w', u) { assert ThreadOk(w, u); }
    forall u: nat | AtPhase(w'.threads, u, Applied) ensures Has(w'.pending, u) {
      assert AtPhase(w.threads, u, Applied);
    }
  }

  lemma ApplyShaped<S, Op(!new)>(w: World<S, Op>, t: nat, apply: (S, Op) -> S, lock: Op -> nat)
    requires Shaped(w, lock) && Enabled(w, lock, Apply(t))
    ensures Shaped(Next(w, apply, lock, Apply(t)), lock)
  {
    var w' := Next(w, apply, lock, Apply(t));
    OwnedStill(w, w');
    SameNumbered(w, w');
    forall u | 0 <= u < |w'.threads| ensures ThreadOk(w', u) { assert ThreadOk(w, u); }
    forall u: nat | AtPhase(w'.threads, u, Applied) ensures Has(w'.pending, u) {
      if u == t {
        assert w'.pending[|w.pending|].who == t;
      } else {
        assert AtPhase(w.threads, u, Applied);
        var i :| 0 <= i < |w.pending| && w.pending[i].who == u;
        assert w'.pending[i].who == u;
      }
    }
  }

  lemma AssignShaped<S, Op(!new)>(w: World<S, Op>, t: nat, apply: (S, Op) -> S, lock: Op -> nat)
    requires Shaped(w, lock) && Enabled(w, lock, Assign(t))
    ensures Shaped(Next(w, apply, lock, Assign(t)), lock)
  {
    var w' := Next(w, apply, lock, Assign(t));
    OwnedStill(w, w');
    assert ThreadOk(w, t);
    forall u | 0 <= u < |w'.threads| ensures ThreadOk(w', u) { assert ThreadOk(w, u); }
    AssignNumbered(w, w', w.threads[t].entry, w.threads[t].op);
    AssignPending(w, w', t);
  }

  lemma AssignPending<S, Op>(w: World<S, Op>, w': World<S, Op>, t: nat)
    requires PendingOk(w) && AtPhase(w.threads, t, Applied) && Has(w.pending, t)
    requires w'.threads == To(w.threads, t, Assigned) && w'.pending == Drop(w.pending, IndexIn(w.pending, t))
    ensures PendingOk(w')
  {
    var k := IndexIn(w.pending, t);
    forall u: nat | AtPhase(w'.threads, u, Applied) ensures Has(w'.pending, u) {
      assert AtPhase(w.threads, u, Applied);
      StillHas(w.pending, k, u);
    }
  }

  lemma StillHas<Op>(s: seq<Tagged<Op>>, k: nat, u: nat)
    requires k < |s| && Has(s, u) && s[k].who != u
    ensures Has(Drop(s, k), u)
  {
    var i :| 0 <= i < |s| && s[i].who == u;
    assert Drop(s, k)[if i < k then i else i - 1].who == u;
  }

  lemma AssignNumbered<S, Op>(w: World<S, Op>, w': World<S, Op>, e: nat, op: Op)
    requires Numbered(w) && e < |w.log| && w.log[e].id == 0 && !w.log[e].stored && w.log[e].op == op
    requires w'.log == w.log[e := w.log[e].(id := |w.order| + 1)] && w'.order == w.order + [Tagged(e, op)]
    requires forall d: nat :: Owned(w, d) ==> Owned(w', d)
    ensures Numbered(w')
  {
    forall k | 0 <= k < |w'.order| ensures OrderOk(w', k) { if k < |w.order| { assert OrderOk(w, k); } }
    forall d | 0 <= d < |w'.log| ensures EntryOk(w', d) { assert EntryOk(w, d); }
  }

  lemma StoreShaped<S, Op(!new)>(w: World<S, Op>, t: nat, apply: (S, Op) -> S, lock: Op -> nat)
    requires Shaped(w, lock) && Enabled(w, lock, Store(t))
    ensures Shaped(Next(w, apply, lock, Store(t)), lock)
  {
    var w' := Next(w, apply, lock, Store(t));
    OwnedStill(w, w');
    assert ThreadOk(w, t);
    forall k | 0 <= k < |w'.order| ensures OrderOk(w', k) { assert OrderOk(w, k); }
    forall e | 0 <= e < |w'.log| ensures EntryOk(w', e) { assert EntryOk(w, e); }
    forall u | 0 <= u < |w'.threads| ensures ThreadOk(w', u) { assert ThreadOk(w, u); }
    forall u: nat | AtPhase(w'.threads, u, Applied) ensures Has(w'.pending, u) {
      assert AtPhase(w.threads, u, Applied);
    }
  }

  lemma ReleaseShaped<S, Op(!new)>(w: World<S, Op>, t: nat, apply: (S, Op) -> S, lock: Op -> nat)
    requires Shaped(w, lock) && Enabled(w, lock, Release(t))
    ensures Shaped(Next(w, apply, lock, Release(t)), lock)
  {
    var w' := Next(w, apply, lock, Release(t));
    assert ThreadOk(w, t);
    forall e: nat | Owned(w, e) && e < |w.log| && !w.log[e].stored ensures Owned(w', e) {
      var u :| 0 <= u < |w.threads| && w.threads[u].In? && w.threads[u].entry == e;
      assert w'.threads[u].entry == e;
    }
    SameNumbered(w, w');
    forall u | 0 <= u < |w'.threads| ensures ThreadOk(w', u) { assert ThreadOk(w, u); }
    forall u: nat | AtPhase(w'.threads, u, Applied) ensures Has(w'.pending, u) {
      assert AtPhase(w.threads, u, Applied);
    }
  }

  lemma ApplyFold<S, Op(!new)>(w: World<S, Op>, t: nat, init: S, apply: (S, Op) -> S, lock: Op -> nat)
    requires Enabled(w, lock, Apply(t)) && w.live == Fold(Fold(init, Ops(w.order), apply), Ops(w.pending), apply)
    ensures var w' := Next(w, apply, lock, Apply(t));
      w'.live == Fold(Fold(init, Ops(w'.order), apply), Ops(w'.pending), apply)
  {
    var w' := Next(w, apply, lock, Apply(t));
    var op := w.threads[t].op;
    assert Ops(w'.pending) == Ops(w.pending) + [op];
    FoldConcat(Fold(init, Ops(w.order), apply), Ops(w.pending), [op], apply);
    assert Fold(w.live, [op], apply) == apply(w.live, op);
  }

  /** The thread that gets the next id could have applied first of all pending ones. */
  lemma AssignFold<S(!new), Op(!new)>(w: World<S, Op>, t: nat, init: S, apply: (S, Op) -> S, lock: Op -> nat)
    requires Shaped(w, lock) && Enabled(w, lock, Assign(t)) && Commutes(apply, lock)
    requires w.live == Fold(Fold(init, Ops(w.order), apply), Ops(w.pending), apply)
    ensures var w' := Next(w, apply, lock, Assign(t));
      w'.live == Fold(Fold(init, Ops(w'.order), apply), Ops(w'.pending), apply)
  {
    var w' := Next(w, apply, lock, Assign(t));
    var op, k := w.threads[t].op, IndexIn(w.pending, t);
    PendingLocks(w, lock, k);
    MoveFirst(Fold(init, Ops(w.order), apply), Ops(w.pending), k, apply, lock);
    assert Ops(w'.order) == Ops(w.order) + [op];
    FoldConcat(init, Ops(w.order), [op], apply);
    assert Fold(Fold(init, Ops(w.order), apply), [op], apply) == apply(Fold(init, Ops(w.order), apply), op);
    assert Ops(w'.pending) == Drop(Ops(w.pending), k);
  }

  lemma PendingLocks<S, Op(!new)>(w: World<S, Op>, lock: Op -> nat, k: nat)
    requires Shaped(w, lock) && k < |w.pending|
    ensures forall i :: 0 <= i < k ==> lock(Ops(w.pending)[i]) != lock(Ops(w.pending)[k])
  {
    forall i | 0 <= i < k ensures lock(Ops(w.pending)[i]) != lock(Ops(w.pending)[k]) {
      assert Locks(w.threads, w.pending[i].who) && Locks(w.threads, w.pending[k].who);
    }
  }

  lemma NextInv<S(!new), Op(!new)>(w: World<S, Op>, step: Step<Op>, init: S, apply: (S, Op) -> S, lock: Op -> nat)
    requires Inv(w, init, apply, lock) && Enabled(w, lock, step) && Commutes(apply, lock)
    ensures Inv(Next(w, apply, lock, step), init, apply, lock)
  {
    match step
    case Call(t, op) => CallShaped(w, t, op, apply, lock);
    case Log(t) => LogShaped(w, t, apply, lock);
    case Acquire(t) => AcquireShaped(w, t, apply, lock);
    case Apply(t) => ApplyShaped(w, t, apply, lock); ApplyFold(w, t, init, apply, lock);
    case Assign(t) => AssignShaped(w, t, apply, lock); AssignFold(w, t, init, apply, lock);
    case Store(t) => StoreShaped(w, t, apply, lock);
    case Release(t) => ReleaseShaped(w, t, apply, lock);
  }

  // ---------------------------------------------------------------- runs

  ghost predicate IsRun<S, Op(!new)>(run: seq<World<S, Op>>, steps: seq<Step<Op>>, init: S, apply: (S, Op) -> S,
                                     lock: Op -> nat) {
    && |run| == |steps| + 1 && Init(run[0], init)
    && forall i :: 0 <= i < |steps| ==>
         Enabled(run[i], lock, steps[i]) && run[i + 1] == Next(run[i], apply, lock, steps[i])
  }

  lemma {:induction false} RunInv<S(!new), Op(!new)>(run: seq<World<S, Op>>, steps: seq<Step<Op>>, i: nat, init: S,
                                                     apply: (S, Op) -> S, lock: Op -> nat)
    requires IsRun(run, steps, init, apply, lock) && i < |run| && Commutes(apply, lock)
    ensures Inv(run[i], init, apply, lock)
  {
    if i != 0 {
      RunInv(run, steps, i - 1, init, apply, lock);
      NextInv(run[i - 1], steps[i - 1], init, apply, lock);
    }
  }

  /** Whenever no applied operation waits for its commit id, the live state is the replay in commit order. */
  lemma LiveIsReplay<S(!new), Op(!new)>(run: seq<World<S, Op>>, steps: seq<Step<Op>>, i: nat, init: S,
                                        apply: (S, Op) -> S, lock: Op -> nat)
    requires IsRun(run, steps, init, apply, lock) && i < |run| && Commutes(apply, lock)
    requires forall t: nat :: !AtPhase(run[i].threads, t, Applied)
    ensures run[i].live == Fold(init, Ops(run[i].order), apply)
  {
    RunInv(run, steps, i, init, apply, lock);
    var w := run[i];
    assert |w.pending| == 0 || AtPhase(w.threads, w.pending[0].who, Applied);
  }

  /** Ids are assigned once and entries stay. */
  ghost predicate Extends<S, Op>(a: World<S, Op>, b: World<S, Op>) {
    && a.order <= b.order && |a.log| <= |b.log|
    && forall e :: 0 <= e < |a.log| ==> b.log[e].op == a.log[e].op && (a.log[e].stored ==> b.log[e] == a.log[e])
  }

  lemma NextExtends<S, Op(!new)>(w: World<S, Op>, step: Step<Op>, apply: (S, Op) -> S, lock: Op -> nat)
    requires Shaped(w, lock) && Enabled(w, lock, step)
    ensures Extends(w, Next(w, apply, lock, step))
  {
    if step.Assign? || step.Store? { assert ThreadOk(w, step.t); }
  }

  lemma {:induction false} RunExtends<S(!new), Op(!new)>(run: seq<World<S, Op>>, steps: seq<Step<Op>>, i: nat, j: nat,
                                                         init: S, apply: (S, Op) -> S, lock: Op -> nat)
    requires IsRun(run, steps, init, apply, lock) && i <= j < |run| && Commutes(apply, lock)
    ensures Extends(run[i], run[j])
    decreases j - i
  {
    if i < j {
      RunExtends(run, steps, i, j - 1, init, apply, lock);
      RunInv(run, steps, j - 1, init, apply, lock);
      NextExtends(run[j - 1], steps[j - 1], apply, lock);
      ExtendsTwice(run[i], run[j - 1], run[j]);
    }
  }

  lemma ExtendsTwice<S, Op>(a: World<S, Op>, b: World<S, Op>, c: World<S, Op>)
    requires Extends(a, b) && Extends(b, c)
    ensures Extends(a, c)
  {
  }
}
