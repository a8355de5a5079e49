/**
 The asynchronous stage of a snapshot as a state machine. After the freeze the used blocks are
 write-protected; snapshot workers and fault handlers then race to copy each of them, line by line,
 while application threads go on writing to what is not protected.
 */
module CopyOnWrites {
  import opened HeapLayout
  import opened PageBitmaps
  import opened HeapBits
  import opened PageImages

  /** The word of a block in the snapshot context. */
  datatype Ctx = Unused | Used | Locked | Saved

  /** What a thread is doing: nothing, copying line `off` of a block next, having lifted the
      protection, or spinning in the fault handler until the block is saved. */
  datatype Job = Idle | Copying(blk: nat, off: nat) | Opened(blk: nat) | Spinning(blk: nat)

  /** A snapshot worker walks from `pos` to `hi`; an application thread has `pos == hi == 0`. */
  datatype Thread = Thread(job: Job, pos: nat, hi: nat)

  datatype State = State(mem: Mem, image: Mem, ctx: seq<Ctx>, prot: set<nat>, threads: seq<Thread>, taken: seq<nat>,
                         scan: nat)

  datatype Step =
    | Write(addr: Addr, line: Line)
    | Fault(t: nat, b: nat)
    | Wake(t: nat)
    | Take(t: nat)
    | Skip(t: nat)
    | CopyLine(t: nat)
    | Unprotect(t: nat)
    | Finish(t: nat)
    | Scan

  predicate Idling(s: State, t: nat) {
    t < |s.threads| && s.threads[t].job == Idle
  }

  predicate AtLine(s: State, t: nat) {
    && t < |s.threads| && s.threads[t].job.Copying? && s.threads[t].job.off < LINES_PER_BLOCK
    && Addr(s.threads[t].job.blk, s.threads[t].job.off) in s.mem
  }

  function WithJob(s: State, t: nat, job: Job): State
    requires t < |s.threads|
  {
    s.(threads := s.threads[t := s.threads[t].(job := job)])
  }

  /** The lock on block `b` goes to thread `t`. */
  function Lock(s: State, t: nat, b: nat): State
    requires t < |s.threads| && b < |s.ctx| && b < |s.taken|
  {
    WithJob(s.(ctx := s.ctx[b := Locked], taken := s.taken[b := s.taken[b] + 1]), t, Copying(b, 0))
  }

  ghost predicate WorkersDone(s: State) {
    forall t :: 0 <= t < |s.threads| ==> s.threads[t].pos == s.threads[t].hi
  }

  predicate Enabled(s: State, cells: seq<Cell>, step: Step) {
    match step
    case Write(a, _) => a in s.mem && a.blk !in s.prot
    case Fault(t, b) =>
        Idling(s, t) && s.threads[t].pos == s.threads[t].hi && b in s.prot && b < |s.ctx| && b < |s.taken|
    case Wake(t) =>
        t < |s.threads| && s.threads[t].job.Spinning? && s.threads[t].job.blk < |s.ctx|
            && s.ctx[s.threads[t].job.blk] == Saved
    case Take(t) =>
        Idling(s, t) && s.threads[t].pos < s.threads[t].hi <= |s.ctx| && |s.taken| == |s.ctx|
            && s.ctx[s.threads[t].pos] == Used
    case Skip(t) => Idling(s, t) && s.threads[t].pos < s.threads[t].hi <= |s.ctx| && s.ctx[s.threads[t].pos] != Used
    case CopyLine(t) => AtLine(s, t)
    case Unprotect(t) => t < |s.threads| && s.threads[t].job.Copying? && s.threads[t].job.off == LINES_PER_BLOCK
    case Finish(t) => t < |s.threads| && s.threads[t].job.Opened? && s.threads[t].job.blk < |s.ctx|
    case Scan => s.scan < |s.ctx| && s.ctx[s.scan] != Locked && forall t :: 0 <= t < |s.threads| ==>
        s.threads[t].pos == s.threads[t].hi
  }

  /** A fault takes the lock if the block is still `Used`, and spins otherwise. A worker moves on when
      its block is done; a fault handler returns. */
  function Next(s: State, cells: seq<Cell>, step: Step): State
    requires Enabled(s, cells, step)
  {
    match step
    case Write(a, line) => s.(mem := s.mem[a := line])
    case Fault(t, b) => if s.ctx[b] == Used then Lock(s, t, b) else WithJob(s, t, Spinning(b))
    case Wake(t) => WithJob(s, t, Idle)
    case Take(t) => Lock(s, t, s.threads[t].pos)
    case Skip(t) => s.(threads := s.threads[t := s.threads[t].(pos := s.threads[t].pos + 1)])
    case CopyLine(t) =>
      var b, off := s.threads[t].job.blk, s.threads[t].job.off;
      var s' := WithJob(s, t, Copying(b, off + 1));
      if SavedLine(cells, b, off) then s'.(image := s.image[Addr(b, off) := s.mem[Addr(b, off)]]) else s'
    case Unprotect(t) => WithJob(s.(prot := s.prot - {s.threads[t].job.blk}), t, Opened(s.threads[t].job.blk))
    case Finish(t) =>
      var th := s.threads[t];
      var pos := if th.pos < th.hi then th.pos + 1 else th.pos;
      s.(ctx := s.ctx[th.job.blk := Saved], threads := s.threads[t := Thread(Idle, pos, th.hi)])
    case Scan => s.(scan := s.scan + 1)
  }

  // ---------------------------------------------------------------- start

  /** The state when the application is released: the workers share the blocks out. */
  ghost predicate Init(s: State, cells: seq<Cell>, frozen: Mem) {
    && s.mem == frozen && |s.taken| == |s.ctx| && s.scan == 0
    && (forall b: nat :: b < |s.ctx| ==> HasBlock(frozen.Keys, b))
    && (forall b :: 0 <= b < |s.ctx| ==> s.taken[b] == 0 && s.ctx[b] == if BlockUsed(cells, b) then Used else Unused)
    && (forall b :: b in s.prot <==> 0 <= b < |s.ctx| && BlockUsed(cells, b))
    && (forall t :: 0 <= t < |s.threads| ==> s.threads[t].job == Idle && s.threads[t].pos <= s.threads[t].hi <= |s.ctx|)
    && (forall b :: 0 <= b < |s.ctx| ==> Ahead(s, b))
  }

  // ---------------------------------------------------------------- invariant

  predicate Holds(th: Thread, b: nat) {
    (th.job.Copying? || th.job.Opened?) && th.job.blk == b
  }

  /** The image has the frozen contents of the saved lines of block `b` below `off`. */
  ghost predicate Imaged(s: State, cells: seq<Cell>, frozen: Mem, b: nat, off: nat) {
    forall o: nat :: o < off && SavedLine(cells, b, o) && Addr(b, o) in frozen ==>
        Addr(b, o) in s.image && s.image[Addr(b, o)] == frozen[Addr(b, o)]
  }

  /** A protected block has its frozen contents. */
  ghost predicate Untouched(s: State, frozen: Mem) {
    s.mem.Keys == frozen.Keys && forall a: Addr :: a in frozen && a.blk in s.prot ==> s.mem[a] == frozen[a]
  }

  ghost predicate BlockOk(s: State, cells: seq<Cell>, frozen: Mem, b: nat)
    requires b < |s.ctx| == |s.taken|
  {
    match s.ctx[b]
    case Unused => !BlockUsed(cells, b) && b !in s.prot && s.taken[b] == 0
    case Used => BlockUsed(cells, b) && b in s.prot && s.taken[b] == 0
    case Locked => BlockUsed(cells, b) && s.taken[b] == 1
    case Saved => BlockUsed(cells, b) && b !in s.prot && s.taken[b] == 1 && Imaged(s, cells, frozen, b, LINES_PER_BLOCK)
  }

  ghost predicate ThreadOk(s: State, cells: seq<Cell>, frozen: Mem, t: nat)
    requires t < |s.threads|
  {
    var th := s.threads[t];
    && th.pos <= th.hi <= |s.ctx|
    && (match th.job
        case Idle => true
        case Copying(b, off) =>
            b < |s.ctx| && s.ctx[b] == Locked && b in s.prot && off <= LINES_PER_BLOCK
                && Imaged(s, cells, frozen, b, off)
        case Opened(b) =>
            b < |s.ctx| && s.ctx[b] == Locked && b !in s.prot && Imaged(s, cells, frozen, b, LINES_PER_BLOCK)
        case Spinning(b) => b < |s.ctx| && (s.ctx[b] == Locked || s.ctx[b] == Saved))
    && (th.pos < th.hi && !th.job.Idle? ==> Holds(th, th.pos))
  }

  /** No two threads hold the same block, and every locked block has a holder. */
  ghost predicate Owned(s: State) {
    && (forall t, u, b :: 0 <= t < u < |s.threads| && Holds(s.threads[t], b) ==> !Holds(s.threads[u], b))
    && (forall b :: 0 <= b < |s.ctx| && s.ctx[b] == Locked ==>
        exists t :: 0 <= t < |s.threads| && Holds(s.threads[t], b))
  }

  /** Block `b` is still ahead of some worker. */
  ghost predicate Ahead(s: State, b: nat) {
    exists t :: 0 <= t < |s.threads| && s.threads[t].pos <= b < s.threads[t].hi
  }

  /** Workers leave no used block behind, and the final scan passes no locked one. */
  ghost predicate Walked(s: State) {
    && (forall b :: 0 <= b < |s.ctx| && s.ctx[b] == Used ==> Ahead(s, b))
    && (0 < s.scan ==> WorkersDone(s))
    && s.scan <= |s.ctx|
    && (forall b :: 0 <= b < s.scan ==> s.ctx[b] == Unused || s.ctx[b] == Saved)
  }

  ghost predicate Inv(s: State, cells: seq<Cell>, frozen: Mem) {
    && |s.taken| == |s.ctx|
    && (forall b: nat :: b < |s.ctx| ==> HasBlock(frozen.Keys, b))
    && Untouched(s, frozen)
    && (forall b :: b in s.prot ==> 0 <= b < |s.ctx| && s.ctx[b] != Unused && s.ctx[b] != Saved)
    && (forall b :: 0 <= b < |s.ctx| ==> BlockOk(s, cells, frozen, b))
    && (forall t :: 0 <= t < |s.threads| ==> ThreadOk(s, cells, frozen, t))
    && Owned(s)
    && Walked(s)
  }

  lemma InitInv(s: State, cells: seq<Cell>, frozen: Mem)
    requires Init(s, cells, frozen)
    ensures Inv(s, cells, frozen)
  {
  }

  /** Locking a used block. */
  lemma LockInv(s: State, cells: seq<Cell>, frozen: Mem, t: nat, b: nat)
    requires Inv(s, cells, frozen) && Idling(s, t) && b < |s.ctx| && s.ctx[b] == Used
    requires s.threads[t].pos < s.threads[t].hi ==> s.threads[t].pos == b
    ensures Inv(Lock(s, t, b), cells, frozen)
  {
    var s' := Lock(s, t, b);
    assert BlockOk(s, cells, frozen, b);
    forall u | 0 <= u < |s.threads| ensures ThreadOk(s', cells, frozen, u) && !Holds(s.threads[u], b) {
      LockThread(s, cells, frozen, t, b, u);
    }
    forall d | 0 <= d < |s.ctx| ensures BlockOk(s', cells, frozen, d) {
      LockBlock(s, cells, frozen, t, b, d);
    }
    LockOwned(s, t, b);
    LockWalk(s, t, b);
  }

  lemma LockThread(s: State, cells: seq<Cell>, frozen: Mem, t: nat, b: nat, u: nat)
    requires Idling(s, t) && b < |s.ctx| == |s.taken| && s.ctx[b] == Used && b in s.prot
    requires s.threads[t].pos < s.threads[t].hi ==> s.threads[t].pos == b
    requires u < |s.threads| && ThreadOk(s, cells, frozen, u)
    ensures ThreadOk(Lock(s, t, b), cells, frozen, u) && !Holds(s.threads[u], b)
  {
  }

  lemma LockBlock(s: State, cells: seq<Cell>, frozen: Mem, t: nat, b: nat, d: nat)
    requires t < |s.threads| && b < |s.ctx| == |s.taken| && s.ctx[b] == Used && d < |s.ctx|
    requires BlockOk(s, cells, frozen, d) && BlockOk(s, cells, frozen, b)
    ensures BlockOk(Lock(s, t, b), cells, frozen, d)
  {
  }

  lemma LockWalk(s: State, t: nat, b: nat)
    requires Walked(s) && t < |s.threads| && b < |s.ctx| == |s.taken| && s.ctx[b] == Used
    ensures Walked(Lock(s, t, b))
  {
    SameWalk(s, Lock(s, t, b));
  }

  lemma SameWalk(s: State, s': State)
    requires |s'.threads| == |s.threads|
    requires forall t :: 0 <= t < |s.threads| ==>
      s'.threads[t].pos == s.threads[t].pos && s'.threads[t].hi == s.threads[t].hi
    ensures forall d: nat :: Ahead(s, d) ==> Ahead(s', d)
    ensures WorkersDone(s) ==> WorkersDone(s')
  {
    forall d: nat | Ahead(s, d) ensures Ahead(s', d) {
      var t :| 0 <= t < |s.threads| && s.threads[t].pos <= d < s.threads[t].hi;
      assert s'.threads[t].pos <= d < s'.threads[t].hi;
    }
  }

  lemma LockOwned(s: State, t: nat, b: nat)
    requires Owned(s) && Idling(s, t) && b < |s.ctx| == |s.taken|
    requires forall u :: 0 <= u < |s.threads| ==> !Holds(s.threads[u], b)
    ensures Owned(Lock(s, t, b))
  {
    var s' := Lock(s, t, b);
    forall d | 0 <= d < |s'.ctx| && s'.ctx[d] == Locked
      ensures exists u :: 0 <= u < |s'.threads| && Holds(s'.threads[u], d) {
      if d == b {
        assert Holds(s'.threads[t], d);
      } else {
        var u :| 0 <= u < |s.threads| && Holds(s.threads[u], d);
        assert Holds(s'.threads[u], d);
      }
    }
  }

  lemma WriteInv(s: State, cells: seq<Cell>, frozen: Mem, a: Addr, line: Line)
    requires Inv(s, cells, frozen) && a in s.mem && a.blk !in s.prot
    ensures Inv(s.(mem := s.mem[a := line]), cells, frozen)
  {
    var s' := s.(mem := s.mem[a := line]);
    forall d | 0 <= d < |s.ctx| ensures BlockOk(s', cells, frozen, d) {
      assert BlockOk(s, cells, frozen, d);
    }
    forall u | 0 <= u < |s.threads| ensures ThreadOk(s', cells, frozen, u) {
      assert ThreadOk(s, cells, frozen, u);
    }
    SameWalk(s, s');
  }

  /** Changing an unowned job of a thread that walks nowhere. */
  lemma JobInv(s: State, cells: seq<Cell>, frozen: Mem, t: nat, job: Job)
    requires Inv(s, cells, frozen) && t < |s.threads| && (s.threads[t].job.Idle? || s.threads[t].job.Spinning?)
    requires job.Idle?
      || (job.Spinning? && s.threads[t].pos == s.threads[t].hi && job.blk < |s.ctx|
          && (s.ctx[job.blk] == Locked || s.ctx[job.blk] == Saved))
    ensures Inv(WithJob(s, t, job), cells, frozen)
  {
    var s' := WithJob(s, t, job);
    forall u | 0 <= u < |s.threads| ensures ThreadOk(s', cells, frozen, u) {
      assert ThreadOk(s, cells, frozen, u);
    }
    forall d | 0 <= d < |s.ctx| ensures BlockOk(s', cells, frozen, d) {
      assert BlockOk(s, cells, frozen, d);
    }
    forall b | 0 <= b < |s'.ctx| && s'.ctx[b] == Locked
      ensures exists u :: 0 <= u < |s'.threads| && Holds(s'.threads[u], b) {
      var u :| 0 <= u < |s.threads| && Holds(s.threads[u], b);
      assert Holds(s'.threads[u], b);
    }
    SameWalk(s, s');
  }

  lemma SkipInv(s: State, cells: seq<Cell>, frozen: Mem, t: nat)
    requires Inv(s, cells, frozen) && Enabled(s, cells, Skip(t))
    ensures Inv(Next(s, cells, Skip(t)), cells, frozen)
  {
    var s' := Next(s, cells, Skip(t));
    forall u | 0 <= u < |s.threads| ensures ThreadOk(s', cells, frozen, u) {
      assert ThreadOk(s, cells, frozen, u);
    }
    forall d | 0 <= d < |s.ctx| ensures BlockOk(s', cells, frozen, d) {
      assert BlockOk(s, cells, frozen, d);
    }
    forall b | 0 <= b < |s'.ctx| && s'.ctx[b] == Locked
      ensures exists u :: 0 <= u < |s'.threads| && Holds(s'.threads[u], b) {
      var u :| 0 <= u < |s.threads| && Holds(s.threads[u], b);
      assert Holds(s'.threads[u], b);
    }
    forall b | 0 <= b < |s'.ctx| && s'.ctx[b] == Used ensures Ahead(s', b) {
      var u :| 0 <= u < |s.threads| && s.threads[u].pos <= b < s.threads[u].hi;
      assert s'.threads[u].pos <= b < s'.threads[u].hi;
    }
  }

  /** The copying thread is the only one that writes the lines of its block to the image, and it
      reads frozen contents. */
  lemma CopyInv(s: State, cells: seq<Cell>, frozen: Mem, t: nat)
    requires Inv(s, cells, frozen) && AtLine(s, t)
    ensures Inv(Next(s, cells, CopyLine(t)), cells, frozen)
  {
    var s' := Next(s, cells, CopyLine(t));
    var b, off := s.threads[t].job.blk, s.threads[t].job.off;
    assert ThreadOk(s, cells, frozen, t) && BlockOk(s, cells, frozen, b);
    assert s.mem[Addr(b, off)] == frozen[Addr(b, off)];
    forall u | 0 <= u < |s.threads| ensures ThreadOk(s', cells, frozen, u) {
      CopyThread(s, s', cells, frozen, t, b, off, u);
    }
    forall d | 0 <= d < |s.ctx| ensures BlockOk(s', cells, frozen, d) {
      assert BlockOk(s, cells, frozen, d);
      if s.ctx[d] == Saved { ImageGrows(s, s', cells, frozen, b, off, d, LINES_PER_BLOCK); }
    }
    SameOwned(s, s', t);
    SameWalk(s, s');
  }

  lemma CopyThread(s: State, s': State, cells: seq<Cell>, frozen: Mem, t: nat, b: nat, off: nat, u: nat)
    requires t < |s.threads| && u < |s.threads| && ThreadOk(s, cells, frozen, u) && Addr(b, off) in frozen
    requires s.threads[t].job == Copying(b, off) && off < LINES_PER_BLOCK
    requires s'.ctx == s.ctx && s'.prot == s.prot
    requires s'.threads == s.threads[t := s.threads[t].(job := Copying(b, off + 1))]
    requires s'.image == if SavedLine(cells, b, off) then s.image[Addr(b, off) := frozen[Addr(b, off)]] else s.image
    ensures ThreadOk(s', cells, frozen, u)
  {
    match s.threads[u].job
    case Copying(d, n) => ImageGrows(s, s', cells, frozen, b, off, d, n);
    case Opened(d) => ImageGrows(s, s', cells, frozen, b, off, d, LINES_PER_BLOCK);
    case _ =>
  }

  lemma ImageGrows(s: State, s': State, cells: seq<Cell>, frozen: Mem, b: nat, off: nat, d: nat, n: nat)
    requires Imaged(s, cells, frozen, d, n) && Addr(b, off) in frozen
    requires s'.image == s.image || s'.image == s.image[Addr(b, off) := frozen[Addr(b, off)]]
    ensures Imaged(s', cells, frozen, d, n)
  {
  }

  /** Thread `t` goes on holding the same block. */
  lemma SameOwned(s: State, s': State, t: nat)
    requires Owned(s) && t < |s.threads| == |s'.threads| && s'.ctx == s.ctx
    requires forall u :: 0 <= u < |s.threads| && u != t ==> s'.threads[u] == s.threads[u]
    requires forall b :: Holds(s'.threads[t], b) <==> Holds(s.threads[t], b)
    ensures Owned(s')
  {
    forall b | 0 <= b < |s'.ctx| && s'.ctx[b] == Locked
      ensures exists u :: 0 <= u < |s'.threads| && Holds(s'.threads[u], b) {
      var u :| 0 <= u < |s.threads| && Holds(s.threads[u], b);
      assert Holds(s'.threads[u], b);
    }
  }

  lemma UnprotectInv(s: State, cells: seq<Cell>, frozen: Mem, t: nat)
    requires Inv(s, cells, frozen) && Enabled(s, cells, Unprotect(t))
    ensures Inv(Next(s, cells, Unprotect(t)), cells, frozen)
  {
    var s' := Next(s, cells, Unprotect(t));
    var b := s.threads[t].job.blk;
    assert ThreadOk(s, cells, frozen, t);
    assert Holds(s.threads[t], b);
    forall u | 0 <= u < |s.threads| ensures ThreadOk(s', cells, frozen, u) {
      assert ThreadOk(s, cells, frozen, u);
      assert u != t ==> !Holds(s.threads[u], b);
    }
    forall d | 0 <= d < |s.ctx| ensures BlockOk(s', cells, frozen, d) {
      assert BlockOk(s, cells, frozen, d);
    }
    SameOwned(s, s', t);
    SameWalk(s, s');
  }

  /** The holder's second compare-and-swap finds the word it left, so the source's assertion holds. */
  lemma FinishSucceeds(s: State, cells: seq<Cell>, frozen: Mem, t: nat)
    requires Inv(s, cells, frozen) && Enabled(s, cells, Finish(t))
    ensures s.ctx[s.threads[t].job.blk] == Locked
  {
    assert ThreadOk(s, cells, frozen, t);
  }

  lemma FinishInv(s: State, cells: seq<Cell>, frozen: Mem, t: nat)
    requires Inv(s, cells, frozen) && Enabled(s, cells, Finish(t))
    ensures Inv(Next(s, cells, Finish(t)), cells, frozen)
  {
    var s' := Next(s, cells, Finish(t));
    var b := s.threads[t].job.blk;
    assert ThreadOk(s, cells, frozen, t) && BlockOk(s, cells, frozen, b);
    assert Holds(s.threads[t], b);
    forall u | 0 <= u < |s.threads| ensures ThreadOk(s', cells, frozen, u) {
      assert ThreadOk(s, cells, frozen, u);
      assert u != t ==> !Holds(s.threads[u], b);
    }
    forall d | 0 <= d < |s.ctx| ensures BlockOk(s', cells, frozen, d) {
      assert BlockOk(s, cells, frozen, d);
    }
    forall d | 0 <= d < |s'.ctx| && s'.ctx[d] == Locked
      ensures exists u :: 0 <= u < |s'.threads| && Holds(s'.threads[u], d) {
      var u :| 0 <= u < |s.threads| && Holds(s.threads[u], d);
      assert Holds(s'.threads[u], d);
    }
    FinishWalk(s, s', t, b);
  }

  lemma FinishWalk(s: State, s': State, t: nat, b: nat)
    requires Walked(s) && t < |s.threads| == |s'.threads| && b < |s.ctx| && s.ctx[b] == Locked
    requires s'.ctx == s.ctx[b := Saved] && s'.scan == s.scan
    requires (s.threads[t].pos < s.threads[t].hi ==> s.threads[t].pos == b)
    requires s'.threads ==
      s.threads[t := Thread(Idle, if s.threads[t].pos < s.threads[t].hi then b + 1 else s.threads[t].pos,
                            s.threads[t].hi)]
    ensures Walked(s')
  {
    forall d | 0 <= d < |s'.ctx| && s'.ctx[d] == Used ensures Ahead(s', d) {
      var u :| 0 <= u < |s.threads| && s.threads[u].pos <= d < s.threads[u].hi;
      assert s'.threads[u].pos <= d < s'.threads[u].hi;
    }
  }

  lemma ScanInv(s: State, cells: seq<Cell>, frozen: Mem)
    requires Inv(s, cells, frozen) && Enabled(s, cells, Scan)
    ensures Inv(Next(s, cells, Scan), cells, frozen)
  {
    var s' := Next(s, cells, Scan);
    forall u | 0 <= u < |s.threads| ensures ThreadOk(s', cells, frozen, u) {
      assert ThreadOk(s, cells, frozen, u);
    }
    forall d | 0 <= d < |s.ctx| ensures BlockOk(s', cells, frozen, d) {
      assert BlockOk(s, cells, frozen, d);
    }
    SameWalk(s, s');
    assert !Ahead(s, s.scan);
  }

  /** Every step keeps the invariant. */
  lemma NextInv(s: State, cells: seq<Cell>, frozen: Mem, step: Step)
    requires Inv(s, cells, frozen) && Enabled(s, cells, step)
    ensures Inv(Next(s, cells, step), cells, frozen)
  {
    match step
    case Write(a, line) => WriteInv(s, cells, frozen, a, line);
    case Fault(t, b) =>
      assert BlockOk(s, cells, frozen, b);
      if s.ctx[b] == Used { LockInv(s, cells, frozen, t, b); } else { JobInv(s, cells, frozen, t, Spinning(b)); }
    case Wake(t) => JobInv(s, cells, frozen, t, Idle);
    case Take(t) => LockInv(s, cells, frozen, t, s.threads[t].pos);
    case Skip(t) => SkipInv(s, cells, frozen, t);
    case CopyLine(t) => CopyInv(s, cells, frozen, t);
    case Unprotect(t) => UnprotectInv(s, cells, frozen, t);
    case Finish(t) => FinishInv(s, cells, frozen, t);
    case Scan => ScanInv(s, cells, frozen);
  }

  // ---------------------------------------------------------------- runs

  ghost predicate IsRun(cells: seq<Cell>, run: seq<State>, steps: seq<Step>) {
    && |run| == |steps| + 1
    && forall i :: 0 <= i < |steps| ==> Enabled(run[i], cells, steps[i]) && run[i + 1] == Next(run[i], cells, steps[i])
  }

  lemma {:induction false} RunInv(cells: seq<Cell>, frozen: Mem, run: seq<State>, steps: seq<Step>, i: nat)
    requires IsRun(cells, run, steps) && Init(run[0], cells, frozen) && i < |run|
    ensures Inv(run[i], cells, frozen)
  {
    if i == 0 {
      InitInv(run[0], cells, frozen);
    } else {
      RunInv(cells, frozen, run, steps, i - 1);
      NextInv(run[i - 1], cells, frozen, steps[i - 1]);
    }
  }

  /** Whatever the interleaving, once the workers are joined and the scan for fault handlers is
      through, every block used at the freeze was taken exactly once, is saved and open for writing,
      and the image holds its frozen contents on marked pages and on the first line of all others. */
  lemma SnapshotIsFrozenMemory(cells: seq<Cell>, frozen: Mem, run: seq<State>, steps: seq<Step>)
    requires IsRun(cells, run, steps) && Init(run[0], cells, frozen)
    requires var s := run[|run| - 1]; s.scan == |s.ctx|
    ensures
      var s := run[|run| - 1];
      forall b: nat :: b < |s.ctx| && BlockUsed(cells, b) ==> SavedOnce(s, cells, frozen, b)
  {
    RunInv(cells, frozen, run, steps, |run| - 1);
    var s := run[|run| - 1];
    forall b: nat | b < |s.ctx| && BlockUsed(cells, b) ensures SavedOnce(s, cells, frozen, b) {
      assert BlockOk(s, cells, frozen, b) && HasBlock(frozen.Keys, b);
    }
  }

  ghost predicate SavedOnce(s: State, cells: seq<Cell>, frozen: Mem, b: nat) {
    && b < |s.ctx| == |s.taken|
    && s.ctx[b] == Saved && s.taken[b] == 1 && b !in s.prot
    && forall o: nat :: o < LINES_PER_BLOCK && SavedLine(cells, b, o) ==>
         Addr(b, o) in s.image && Addr(b, o) in frozen && s.image[Addr(b, o)] == frozen[Addr(b, o)]
  }

  /** What the steps leave in line `a`: the last write to it, or its frozen contents. */
  function LastWritten(frozen: Mem, steps: seq<Step>, a: Addr): Line
    requires a in frozen
  {
    if steps == [] then frozen[a]
    else
      var last := steps[|steps| - 1];
      if last.Write? && last.addr == a then last.line else LastWritten(frozen, steps[..|steps| - 1], a)
  }

  /** Copying loses no write: memory has the last write to every line, and frozen contents elsewhere. */
  lemma {:induction false} WritesArrive(cells: seq<Cell>, frozen: Mem, run: seq<State>, steps: seq<Step>, a: Addr)
    requires IsRun(cells, run, steps) && Init(run[0], cells, frozen) && a in frozen
    ensures a in run[|run| - 1].mem && run[|run| - 1].mem[a] == LastWritten(frozen, steps, a)
  {
    if steps != [] {
      var n := |steps| - 1;
      WritesArrive(cells, frozen, run[..n + 1], steps[..n], a);
      WriteArrives(run[n], cells, steps[n], a);
    }
  }

  lemma WriteArrives(s: State, cells: seq<Cell>, step: Step, a: Addr)
    requires Enabled(s, cells, step) && a in s.mem
    ensures
      var m := Next(s, cells, step).mem;
      a in m && m[a] == if step.Write? && step.addr == a then step.line else s.mem[a]
  {
  }

  /** A line of `image` is as in `before`, or is one to be saved and has its frozen contents. */
  ghost predicate OldOrFrozen(before: Mem, image: Mem, cells: seq<Cell>, frozen: Mem, a: Addr) {
    a in image ==>
      || (a in before && image[a] == before[a])
      || (SavedLine(cells, a.blk, a.off) && a in frozen && image[a] == frozen[a])
  }

  /** Nothing but frozen contents of lines to be saved comes into the image. */
  lemma {:induction false} ImageOnlyFrozen(cells: seq<Cell>, frozen: Mem, run: seq<State>, steps: seq<Step>, i: nat,
                                           a: Addr)
    requires IsRun(cells, run, steps) && Init(run[0], cells, frozen) && i < |run|
    ensures OldOrFrozen(run[0].image, run[i].image, cells, frozen, a)
  {
    if i != 0 {
      ImageOnlyFrozen(cells, frozen, run, steps, i - 1, a);
      RunInv(cells, frozen, run, steps, i - 1);
      ImageStep(run[i - 1], cells, frozen, steps[i - 1], a);
      StillOldOrFrozen(run[0].image, run[i - 1].image, run[i].image, cells, frozen, a);
    }
  }

  lemma StillOldOrFrozen(before: Mem, image: Mem, image': Mem, cells: seq<Cell>, frozen: Mem, a: Addr)
    requires OldOrFrozen(before, image, cells, frozen, a) && OldOrFrozen(image, image', cells, frozen, a)
    ensures OldOrFrozen(before, image', cells, frozen, a)
  {
  }

  lemma ImageStep(s: State, cells: seq<Cell>, frozen: Mem, step: Step, a: Addr)
    requires Inv(s, cells, frozen) && Enabled(s, cells, step)
    ensures OldOrFrozen(s.image, Next(s, cells, step).image, cells, frozen, a)
  {
    if step.CopyLine? {
      assert ThreadOk(s, cells, frozen, step.t);
    }
  }

  /** When a handler returns, the store that faulted can go on. */
  lemma HandlerOpens(cells: seq<Cell>, frozen: Mem, run: seq<State>, steps: seq<Step>, i: nat, a: Addr, line: Line)
    requires IsRun(cells, run, steps) && Init(run[0], cells, frozen) && i < |steps| && a in frozen
    requires steps[i].Wake? || steps[i].Finish?
    requires a.blk == run[i].threads[steps[i].t].job.blk
    ensures Enabled(run[i + 1], cells, Write(a, line)) && run[i + 1].threads[steps[i].t].job == Idle
  {
    RunInv(cells, frozen, run, steps, i);
    assert ThreadOk(run[i], cells, frozen, steps[i].t);
    assert BlockOk(run[i], cells, frozen, a.blk);
  }

  /** Until then some thread other than the writers can move: nobody waits for a lock that is never
      released. */
  lemma NeverStuck(cells: seq<Cell>, frozen: Mem, s: State) returns (step: Step)
    requires Inv(s, cells, frozen) && s.scan < |s.ctx|
    ensures Enabled(s, cells, step) && !step.Write? && !step.Fault?
  {
    if t :| 0 <= t < |s.threads| && (s.threads[t].job.Copying? || s.threads[t].job.Opened?) {
      step := HolderMoves(cells, frozen, s, t);
    } else if t :| 0 <= t < |s.threads| && s.threads[t].pos < s.threads[t].hi {
      assert ThreadOk(s, cells, frozen, t);
      step := if s.ctx[s.threads[t].pos] == Used then Take(t) else Skip(t);
    } else {
      step := Scan;
      forall t | 0 <= t < |s.threads| ensures s.threads[t].pos == s.threads[t].hi {
        assert ThreadOk(s, cells, frozen, t);
      }
      assert s.ctx[s.scan] != Locked;
    }
  }

  lemma HolderMoves(cells: seq<Cell>, frozen: Mem, s: State, t: nat) returns (step: Step)
    requires Inv(s, cells, frozen) && t < |s.threads| && (s.threads[t].job.Copying? || s.threads[t].job.Opened?)
    ensures Enabled(s, cells, step) && !step.Write? && !step.Fault?
  {
    assert ThreadOk(s, cells, frozen, t);
    match s.threads[t].job
    case Copying(b, off) =>
      assert HasBlock(frozen.Keys, b);
      step := if off < LINES_PER_BLOCK then CopyLine(t) else Unprotect(t);
    case Opened(b) => step := Finish(t);
  }

  // ---------------------------------------------------------------- protecting the blocks

  /** Which of the first `n` blocks are protected when only whole regions have been so far: those
      below `from`. */
  ghost predicate ProtectedBelow(prot: set<nat>, cells: seq<Cell>, from: nat) {
    forall b: nat :: b in prot <==> b < from && BlockUsed(cells, b)
  }

  /** Marks each block used or unused, and protects maximal runs of used blocks with one call each. */
  method MarkPagesReadOnly(cells: seq<Cell>, n: nat) returns (ctx: seq<Ctx>, prot: set<nat>)
    requires n * CELLS_PER_BLOCK <= |cells|
    ensures |ctx| == n && forall b :: 0 <= b < n ==> ctx[b] == if BlockUsed(cells, b) then Used else Unused
    ensures ProtectedBelow(prot, cells, n)
  {
    ctx, prot := [], {};
    var addr, region := 0, 0;
    for b := 0 to n
      invariant |ctx| == b && forall d :: 0 <= d < b ==> ctx[d] == if BlockUsed(cells, d) then Used else Unused
      invariant addr + region == b && ProtectedBelow(prot, cells, addr)
      invariant forall d :: addr <= d < b ==> BlockUsed(cells, d)
    {
      EightZeroUnused(cells, b);
      if !EightZero(cells, b) {
        ctx := ctx + [Used];
        region := region + 1;
      } else {
        ctx := ctx + [Unused];
        if 0 < region {
          prot := Protect(prot, addr, region);
          region := 0;
        }
        addr := b + 1;
      }
    }
    if 0 < region {
      prot := Protect(prot, addr, region);
    }
  }

  /** The memory protection call on `region` blocks from `addr` on. */
  function Protect(prot: set<nat>, addr: nat, region: nat): (r: set<nat>)
    ensures forall b :: b in r <==> b in prot || addr <= b < addr + region
  {
    prot + set b: nat | b < addr + region && InRegion(addr, region, b)
  }

  predicate InRegion(addr: nat, region: nat, b: nat) {
    addr <= b < addr + region
  }

  /** What the image of a finished snapshot holds is what a restored list needs. */
  lemma ImageServesRestore(s: State, cells: seq<Cell>, frozen: Mem, blocks: set<nat>, a: Addr)
    requires forall b: nat :: b < |s.ctx| && BlockUsed(cells, b) ==> SavedOnce(s, cells, frozen, b)
    requires (forall b :: b in blocks ==> b < |s.ctx|) && a in frozen && a.blk in blocks && a.off < LINES_PER_BLOCK
    requires BlockUsed(cells, a.blk) && SavedLine(cells, a.blk, a.off)
    ensures a in s.image && s.image[a] == frozen[a]
  {
    assert a == Addr(a.blk, a.off);
  }
}
