/**
 The asynchronous stage of a snapshot ends: workers, fault handlers and the final scan take only so many
 steps, however many faults the application threads run into.
 */
module CopyProgress {
  import opened HeapLayout
  import opened PageBitmaps
  import opened CopyOnWrites

  /** Steps left of the job of a thread. */
  function JobLeft(job: Job): nat {
    match job
    case Copying(_, off) => if off < LINES_PER_BLOCK then LINES_PER_BLOCK - off + 2 else 2
    case Opened(_) => 1
    case _ => 0
  }

  /** Steps left of faults: a thread faults at most once on each block that is protected. */
  function FaultsLeft(job: Job, prot: set<nat>): nat {
    match job
    case Idle => 2 * |prot|
    case Spinning(b) => 2 * |prot - {b}| + 1
    case Copying(b, _) => 2 * |prot - {b}|
    case Opened(b) => 2 * |prot - {b}|
  }

  function ThreadLeft(th: Thread, prot: set<nat>): nat {
    JobLeft(th.job) + FaultsLeft(th.job, prot) + if th.pos < th.hi then th.hi - th.pos else 0
  }

  function Sum(threads: seq<Thread>, prot: set<nat>): nat {
    if threads == [] then 0 else ThreadLeft(threads[0], prot) + Sum(threads[1..], prot)
  }

  function UsedBlocks(ctx: seq<Ctx>): nat {
    if ctx == [] then 0 else (if ctx[0] == Used then 1 else 0) + UsedBlocks(ctx[1..])
  }

  /** Bound on the steps that workers, handlers and the scan still take. */
  function Measure(s: State): nat {
    (LINES_PER_BLOCK + 4) * UsedBlocks(s.ctx) + Sum(s.threads, s.prot) + if s.scan < |s.ctx| then |s.ctx| - s.scan
        else 0
  }

  lemma {:induction false} SumUpdate(threads: seq<Thread>, prot: set<nat>, t: nat, th: Thread)
    requires t < |threads|
    ensures Sum(threads[t := th], prot) == Sum(threads, prot) - ThreadLeft(threads[t], prot) + ThreadLeft(th, prot)
  {
    if t == 0 {
      assert threads[t := th][1..] == threads[1..];
    } else {
      assert threads[t := th][1..] == threads[1..][t - 1 := th];
      SumUpdate(threads[1..], prot, t - 1, th);
    }
  }

  lemma {:induction false} SumShrinks(threads: seq<Thread>, prot: set<nat>, b: nat)
    ensures Sum(threads, prot - {b}) <= Sum(threads, prot)
  {
    if threads != [] {
      ThreadShrinks(threads[0], prot, b);
      SumShrinks(threads[1..], prot, b);
    }
  }

  lemma ThreadShrinks(th: Thread, prot: set<nat>, b: nat)
    ensures ThreadLeft(th, prot - {b}) <= ThreadLeft(th, prot)
  {
    Fewer(prot - {b}, prot);
    if !th.job.Idle? { Fewer(prot - {b} - {th.job.blk}, prot - {th.job.blk}); }
  }

  lemma {:induction false} Fewer(a: set<nat>, b: set<nat>)
    requires a <= b
    ensures |a| <= |b|
  {
    if a != {} {
      var x :| x in a;
      Fewer(a - {x}, b - {x});
    }
  }

  lemma {:induction false} UsedUpdate(ctx: seq<Ctx>, b: nat, c: Ctx)
    requires b < |ctx| && c != Used
    ensures UsedBlocks(ctx[b := c]) == UsedBlocks(ctx) - if ctx[b] == Used then 1 else 0
  {
    if b == 0 {
      assert ctx[b := c][1..] == ctx[1..];
    } else {
      assert ctx[b := c][1..] == ctx[1..][b - 1 := c];
      UsedUpdate(ctx[1..], b - 1, c);
    }
  }

  lemma LockFalls(s: State, t: nat, b: nat)
    requires Idling(s, t) && b < |s.ctx| == |s.taken| && s.ctx[b] == Used && b in s.prot
    ensures Measure(Lock(s, t, b)) < Measure(s)
  {
    SumUpdate(s.threads, s.prot, t, s.threads[t].(job := Copying(b, 0)));
    UsedUpdate(s.ctx, b, Locked);
  }

  lemma UnprotectFalls(s: State, cells: seq<Cell>, t: nat)
    requires Enabled(s, cells, Unprotect(t))
    ensures Measure(Next(s, cells, Unprotect(t))) < Measure(s)
  {
    var b := s.threads[t].job.blk;
    var th := s.threads[t].(job := Opened(b));
    SumUpdate(s.threads, s.prot, t, th);
    SumShrinks(s.threads[t := th], s.prot, b);
  }

  /** One thread gets closer to its end, and nothing else changes. */
  lemma ThreadFalls(s: State, s': State, t: nat, th: Thread)
    requires t < |s.threads| && s'.threads == s.threads[t := th] && s'.prot == s.prot && s'.scan == s.scan
    requires |s'.ctx| == |s.ctx| && UsedBlocks(s'.ctx) == UsedBlocks(s.ctx)
    requires ThreadLeft(th, s.prot) < ThreadLeft(s.threads[t], s.prot)
    ensures Measure(s') < Measure(s)
  {
    SumUpdate(s.threads, s.prot, t, th);
  }

  lemma SpinLeft(th: Thread, prot: set<nat>, b: nat)
    requires th.job == Idle && b in prot
    ensures ThreadLeft(th.(job := Spinning(b)), prot) < ThreadLeft(th, prot)
  {
  }

  lemma WakeLeft(th: Thread, prot: set<nat>)
    requires th.job.Spinning? && th.job.blk !in prot
    ensures ThreadLeft(th.(job := Idle), prot) < ThreadLeft(th, prot)
  {
    assert prot - {th.job.blk} == prot;
  }

  lemma FinishLeft(th: Thread, prot: set<nat>, pos: nat)
    requires th.job.Opened? && th.job.blk !in prot && pos == if th.pos < th.hi then th.pos + 1 else th.pos
    ensures ThreadLeft(Thread(Idle, pos, th.hi), prot) < ThreadLeft(th, prot)
  {
    assert prot - {th.job.blk} == prot;
  }

  lemma FinishFalls(s: State, cells: seq<Cell>, t: nat)
    requires Enabled(s, cells, Finish(t)) && s.threads[t].job.blk !in s.prot && s.ctx[s.threads[t].job.blk] != Used
    ensures Measure(Next(s, cells, Finish(t))) < Measure(s)
  {
    var th := s.threads[t];
    var pos := if th.pos < th.hi then th.pos + 1 else th.pos;
    FinishLeft(th, s.prot, pos);
    UsedUpdate(s.ctx, th.job.blk, Saved);
    ThreadFalls(s, Next(s, cells, Finish(t)), t, Thread(Idle, pos, th.hi));
  }

  lemma FaultFalls(s: State, cells: seq<Cell>, frozen: Mem, t: nat, b: nat)
    requires Inv(s, cells, frozen) && Enabled(s, cells, Fault(t, b))
    ensures Measure(Next(s, cells, Fault(t, b))) < Measure(s)
  {
    if s.ctx[b] == Used {
      LockFalls(s, t, b);
    } else {
      SpinLeft(s.threads[t], s.prot, b);
      ThreadFalls(s, Next(s, cells, Fault(t, b)), t, s.threads[t].(job := Spinning(b)));
    }
  }

  lemma TakeFalls(s: State, cells: seq<Cell>, frozen: Mem, t: nat)
    requires Inv(s, cells, frozen) && Enabled(s, cells, Take(t))
    ensures Measure(Next(s, cells, Take(t))) < Measure(s)
  {
    assert BlockOk(s, cells, frozen, s.threads[t].pos);
    LockFalls(s, t, s.threads[t].pos);
  }

  lemma WalkFalls(s: State, cells: seq<Cell>, step: Step)
    requires Enabled(s, cells, step) && (step.Skip? || step.CopyLine?)
    ensures Measure(Next(s, cells, step)) < Measure(s)
  {
    var s' := Next(s, cells, step);
    ThreadFalls(s, s', step.t, s'.threads[step.t]);
  }

  lemma WakeFalls(s: State, cells: seq<Cell>, frozen: Mem, t: nat)
    requires Inv(s, cells, frozen) && Enabled(s, cells, Wake(t))
    ensures Measure(Next(s, cells, Wake(t))) < Measure(s)
  {
    assert BlockOk(s, cells, frozen, s.threads[t].job.blk);
    WakeLeft(s.threads[t], s.prot);
    ThreadFalls(s, Next(s, cells, Wake(t)), t, s.threads[t].(job := Idle));
  }

  /** Every step but the writes brings the end closer, faults included, and the writes do not put it off. */
  lemma StepFalls(s: State, cells: seq<Cell>, frozen: Mem, step: Step)
    requires Inv(s, cells, frozen) && Enabled(s, cells, step)
    ensures step.Write? ==> Measure(Next(s, cells, step)) == Measure(s)
    ensures !step.Write? ==> Measure(Next(s, cells, step)) < Measure(s)
  {
    match step
    case Write(_, _) =>
    case Fault(t, b) => FaultFalls(s, cells, frozen, t, b);
    case Wake(t) => WakeFalls(s, cells, frozen, t);
    case Take(t) => TakeFalls(s, cells, frozen, t);
    case Skip(t) => WalkFalls(s, cells, step);
    case CopyLine(t) => WalkFalls(s, cells, step);
    case Unprotect(t) => UnprotectFalls(s, cells, t);
    case Finish(t) =>
      assert ThreadOk(s, cells, frozen, t);
      FinishFalls(s, cells, t);
    case Scan =>
  }

  function NonWrites(steps: seq<Step>): nat {
    if steps == [] then 0 else NonWrites(steps[..|steps| - 1]) + if steps[|steps| - 1].Write? then 0 else 1
  }

  /** A run takes at most `Measure` steps besides writes. */
  lemma {:induction false} RunsEnd(cells: seq<Cell>, frozen: Mem, run: seq<State>, steps: seq<Step>)
    requires IsRun(cells, run, steps) && Init(run[0], cells, frozen)
    ensures NonWrites(steps) + Measure(run[|run| - 1]) <= Measure(run[0])
  {
    if steps != [] {
      var n := |steps| - 1;
      RunsEnd(cells, frozen, run[..n + 1], steps[..n]);
      RunInv(cells, frozen, run, steps, n);
      StepFalls(run[n], cells, frozen, steps[n]);
    }
  }

  /** A run after which no worker, handler or scan can move is a complete snapshot. */
  lemma EndsComplete(cells: seq<Cell>, frozen: Mem, run: seq<State>, steps: seq<Step>)
    requires IsRun(cells, run, steps) && Init(run[0], cells, frozen)
    requires forall step: Step :: !step.Write? && !step.Fault? ==> !Enabled(run[|run| - 1], cells, step)
    ensures run[|run| - 1].scan == |run[|run| - 1].ctx|
  {
    RunInv(cells, frozen, run, steps, |run| - 1);
    if run[|run| - 1].scan < |run[|run| - 1].ctx| {
      var step := NeverStuck(cells, frozen, run[|run| - 1]);
      assert false;
    }
  }
}
