/**
 Recovery of nested transactions: one recovery thread per object plays the object's log in commit order. A nested
 entry is not played by its own object's thread; that thread waits at it while the thread of the parent runs the
 method, and the parent's thread waits at the call until the child has come to the entry.
 */
module NestedRecoveries {

  /** Entry number `i` of a log has commit id `i + 1`. A nested entry names its parent and the parent's commit id. */
  datatype Entry = Outer | Nested(parent: nat, id: nat)

  /** The logs, and which object the method of an entry calls in turn (`None` if it calls none). */
  datatype Call = None | Some(obj: nat)
  datatype Logs = Logs(entries: seq<seq<Entry>>, calls: seq<seq<Call>>)

  /** A method that runs: object, entry, and whether it has made its nested call. */
  datatype Frame = Frame(obj: nat, entry: nat, called: bool)

  /** A recovery thread: between entries; running methods, innermost last; spinning at the call of `child`; having
      stored the first and then both of the fields that say what it waits for. */
  datatype Thread = Between | Running(stack: seq<Frame>) | Calling(stack: seq<Frame>, child: nat) | Half | Waiting

  /** How far the method of the entry that an object is at has come, on whatever thread it runs: not begun, begun, at or
      past its nested call, over. No step depends on it. */
  datatype Stage = Fresh | Entered | Called | Ran {
    function Rank(): nat {
      match this case Fresh => 0 case Entered => 1 case Called => 2 case Ran => 3
    }
  }

  function Later(a: Stage, b: Stage): Stage {
    if a.Rank() < b.Rank() then b else a
  }

  /** Per object: ids played, the two fields that say which commit of which parent it waits for, its thread, and the
      stage of its entry. */
  datatype Obj = Obj(last: nat, waitParent: int, waitId: nat, thread: Thread, stage: Stage) {
    predicate Done() { stage == Ran }
  }

  type State = seq<Obj>

  datatype Step =
    | Start(o: nat) | Call(o: nat) | Enter(o: nat) | Return(o: nat)
    | StoreParent(o: nat) | StoreId(o: nat) | Pass(o: nat)

  predicate WellFormed(g: Logs) {
    && |g.calls| == |g.entries|
    && forall o :: 0 <= o < |g.entries| ==> |g.calls[o]| == |g.entries[o]|
  }

  predicate HasEntry(g: Logs, o: nat, i: nat) {
    o < |g.entries| && i < |g.entries[o]|
  }

  ghost predicate EntryMatches(g: Logs, c: nat, j: nat)
    requires WellFormed(g) && HasEntry(g, c, j)
  {
    var e := g.entries[c][j];
    e.Nested? ==> 0 < e.id && HasEntry(g, e.parent, e.id - 1) && g.calls[e.parent][e.id - 1] == Some(c)
  }

  ghost predicate CallMatches(g: Logs, p: nat, i: nat)
    requires WellFormed(g) && HasEntry(g, p, i)
  {
    g.calls[p][i].Some? ==>
      var c := g.calls[p][i].obj;
      c < |g.entries| && exists j: nat :: HasEntry(g, c, j) && g.entries[c][j] == Nested(p, i + 1)
  }

  /** A call has one entry in the child's log. */
  ghost predicate Unique(g: Logs, c: nat, j: nat, k: nat)
    requires HasEntry(g, c, j) && HasEntry(g, c, k)
  {
    j != k && g.entries[c][j].Nested? ==> g.entries[c][j] != g.entries[c][k]
  }

  /** Every nested entry belongs to the call its parent's entry makes, and every call has its one entry in the child's
      log. */
  ghost predicate Consistent(g: Logs) {
    && WellFormed(g)
    && (forall c: nat, j: nat {:trigger EntryMatches(g, c, j)} {:trigger CallMatches(g, c, j)} ::
          HasEntry(g, c, j) ==> EntryMatches(g, c, j) && CallMatches(g, c, j))
    && (forall c: nat, j: nat, k: nat {:trigger Unique(g, c, j, k)} :: HasEntry(g, c, j) && HasEntry(g, c, k) ==>
        Unique(g, c, j, k))
  }

  /** What the id field of object `c` still holds when it comes to entry `l`: the id of the nested entry before. */
  function StaleId(g: Logs, c: nat, l: nat): nat
    requires c < |g.entries| && l <= |g.entries[c]|
  {
    if l == 0 then 0 else if g.entries[c][l - 1].Nested? then g.entries[c][l - 1].id else StaleId(g, c, l - 1)
  }

  /** At entry `l` the stale id is a smaller id of the same parent whose own entry is still to come. */
  ghost predicate ConfusedAt(g: Logs, c: nat, l: nat) {
    && HasEntry(g, c, l) && g.entries[c][l].Nested? && StaleId(g, c, l) < g.entries[c][l].id
    && exists j: nat ::
         l < j && HasEntry(g, c, j) && g.entries[c][j] == Nested(g.entries[c][l].parent, StaleId(g, c, l))
  }

  ghost predicate Unconfused(g: Logs) {
    forall c: nat, l: nat :: HasEntry(g, c, l) ==> !ConfusedAt(g, c, l)
  }

  function Top(stack: seq<Frame>): Frame
    requires stack != []
  {
    stack[|stack| - 1]
  }

  /** The next entry of object `o`. */
  predicate AtNested(g: Logs, s: State, o: nat) {
    o < |s| && HasEntry(g, o, s[o].last) && g.entries[o][s[o].last].Nested?
  }

  function Here(g: Logs, s: State, o: nat): Entry
    requires o < |s| && HasEntry(g, o, s[o].last)
  {
    g.entries[o][s[o].last]
  }

  /** The test a call makes before it goes on: the child waits for just this commit of the caller. */
  predicate IsWaitingForParent(s: State, child: nat, parent: nat)
    requires child < |s| && parent < |s|
  {
    s[child].waitParent == parent && s[parent].last + 1 == s[child].waitId
  }

  predicate Enabled(g: Logs, s: State, step: Step) {
    && WellFormed(g) && |s| == |g.entries| && step.o < |s|
    && var th := s[step.o].thread;
    match step
    case Start(o) => th == Between && HasEntry(g, o, s[o].last) && g.entries[o][s[o].last] == Outer
    case Call(o) =>
        th.Running? && th.stack != [] && !Top(th.stack).called && HasEntry(g, Top(th.stack).obj, Top(th.stack).entry)
                    && g.calls[Top(th.stack).obj][Top(th.stack).entry].Some?
    case Enter(o) =>
        th.Calling? && th.stack != [] && th.child < |s| && Top(th.stack).obj < |s|
            && IsWaitingForParent(s, th.child, Top(th.stack).obj)
    case Return(o) => th.Running? && th.stack != [] && HasEntry(g, Top(th.stack).obj, Top(th.stack).entry)
                      && (Top(th.stack).called || g.calls[Top(th.stack).obj][Top(th.stack).entry] == None)
    case StoreParent(o) => th == Between && AtNested(g, s, o)
    case StoreId(o) => th == Half && AtNested(g, s, o)
    case Pass(o) =>
        th == Waiting && AtNested(g, s, o) && Here(g, s, o).parent < |s|
            && Here(g, s, o).id <= s[Here(g, s, o).parent].last
  }

  function Raised(s: State, c: nat, stage: Stage): State {
    if c < |s| then s[c := s[c].(stage := Later(s[c].stage, stage))] else s
  }

  /** The child's method runs at the entry the child is at. */
  function Next(g: Logs, s: State, step: Step): State
    requires Enabled(g, s, step)
  {
    var o := step.o;
    var x := s[o];
    match step
    case Start(_) => s[o := x.(thread := Running([Frame(o, x.last, false)]), stage := Later(x.stage, Entered))]
    case Call(_) =>
      var n := |x.thread.stack| - 1;
      var f := x.thread.stack[n];
      Raised(s[o := x.(thread := Calling(x.thread.stack[n := f.(called := true)], g.calls[f.obj][f.entry].obj))],
             f.obj, Called)
    case Enter(_) =>
      Raised(s[o := x.(thread := Running(x.thread.stack + [Frame(x.thread.child, s[x.thread.child].last, false)]))],
             x.thread.child, Entered)
    case Return(_) =>
      var n := |x.thread.stack| - 1;
      if n == 0 then s[o := x.(last := x.last + 1, thread := Between, stage := Fresh)]
      else Raised(s[o := x.(thread := Running(x.thread.stack[..n]))], x.thread.stack[n].obj, Ran)
    case StoreParent(_) => s[o := x.(waitParent := Here(g, s, o).parent, thread := Half)]
    case StoreId(_) => s[o := x.(waitId := Here(g, s, o).id, thread := Waiting)]
    case Pass(_) => s[o := x.(last := x.last + 1, thread := Between, stage := Fresh)]
  }

  ghost predicate Init(g: Logs, s: State) {
    |s| == |g.entries| && forall o :: 0 <= o < |s| ==> s[o] == Obj(0, -1, 0, Between, Fresh)
  }

  // ---------------------------------------------------------------- invariant

  function StackOf(th: Thread): seq<Frame> {
    match th case Running(k) => k case Calling(k, _) => k case _ => []
  }

  predicate Sits(s: State, c: nat) {
    c < |s| && (s[c].thread == Half || s[c].thread == Waiting)
  }

  /** Object `c` sits at the nested entry of commit `i + 1` of `p`, and says so. */
  ghost predicate Reached(g: Logs, s: State, p: nat, i: nat, c: nat) {
    && Sits(s, c) && HasEntry(g, c, s[c].last) && g.entries[c][s[c].last] == Nested(p, i + 1)
    && s[c].waitId == i + 1
  }

  ghost predicate Calls(g: Logs, p: nat, i: nat, c: nat) {
    HasEntry(g, p, i) && p < |g.calls| && i < |g.calls[p]| && g.calls[p][i] == Some(c)
  }

  /** A frame runs at the entry its object is at; an inner frame runs at the nested entry of the frame around it. */
  ghost predicate FrameOk(g: Logs, s: State, stack: seq<Frame>, k: nat)
    requires k < |stack|
  {
    var f := stack[k];
    && f.obj < |s| && HasEntry(g, f.obj, f.entry) && s[f.obj].last == f.entry
    && (0 < k ==>
        var p := stack[k - 1]; p.called && Calls(g, p.obj, p.entry, f.obj) && Reached(g, s, p.obj, p.entry, f.obj))
  }

  /** The innermost frame: at its call, or past it with the child's method over. */
  ghost predicate TopOk(g: Logs, s: State, th: Thread) {
    && (th.Calling? ==>
        th.stack != [] && Top(th.stack).called && Calls(g, Top(th.stack).obj, Top(th.stack).entry, th.child))
    && (th.Running? && th.stack != [] && Top(th.stack).called ==>
          exists c ::
              Calls(g, Top(th.stack).obj, Top(th.stack).entry, c)
                  && Over(g, s, Top(th.stack).obj, Top(th.stack).entry, c))
  }

  ghost predicate Over(g: Logs, s: State, p: nat, i: nat, c: nat) {
    Reached(g, s, p, i, c) && s[c].Done()
  }

  ghost predicate StackOk(g: Logs, s: State, o: nat)
    requires o < |s|
  {
    var stack := StackOf(s[o].thread);
    && (s[o].thread.Running? || s[o].thread.Calling? ==>
          stack != [] && stack[0].obj == o && HasEntry(g, o, s[o].last) && g.entries[o][s[o].last] == Outer)
    && (forall k :: 0 <= k < |stack| ==> FrameOk(g, s, stack, k))
    && TopOk(g, s, s[o].thread)
  }

  /** A method that has returned has had its own nested call run; and a parent that is past an entry has run it. */
  ghost predicate RanOk(g: Logs, s: State, o: nat)
    requires o < |s|
  {
    && (s[o].Done() ==>
          && Sits(s, o) && HasEntry(g, o, s[o].last)
          && forall c :: Calls(g, o, s[o].last, c) ==> Over(g, s, o, s[o].last, c))
    && (Sits(s, o) && AtNested(g, s, o) && Here(g, s, o).parent < |s| ==>
          Here(g, s, o).id <= s[Here(g, s, o).parent].last ==> s[o].Done())
  }

  /** The wait fields: those of the entry the thread waits at, or of one that is over. */
  ghost predicate WaitOk(g: Logs, s: State, o: nat)
    requires o < |s|
  {
    match s[o].thread
    case Waiting => AtNested(g, s, o) && s[o].waitParent == Here(g, s, o).parent && s[o].waitId == Here(g, s, o).id
    case Half =>
      && AtNested(g, s, o) && s[o].waitParent == Here(g, s, o).parent && s[o].waitId == StaleId(g, o, s[o].last)
      && (Here(g, s, o).parent < |s| ==>
          s[Here(g, s, o).parent].last < Here(g, s, o).id || s[o].waitId == Here(g, s, o).id)
    case _ =>
      && o < |g.entries| && s[o].last <= |g.entries[o]| && s[o].waitId == StaleId(g, o, s[o].last)
      && (s[o].waitParent == -1 || (0 <= s[o].waitParent < |s| && s[o].waitId <= s[s[o].waitParent].last))
  }

  /** Nested entry `j`: its parent is past it if the object is, and is not past it before the object has come to it. */
  ghost predicate OrderOk(g: Logs, s: State, o: nat, j: nat)
    requires o < |s| && HasEntry(g, o, j)
  {
    var e := g.entries[o][j];
    e.Nested? && e.parent < |s| ==>
      && (j < s[o].last ==> e.id <= s[e.parent].last)
      && (s[o].last < j || (j == s[o].last && s[o].thread == Between) ==> s[e.parent].last < e.id)
  }

  ghost predicate ObjOk(g: Logs, s: State, o: nat)
    requires o < |s| == |g.entries|
  {
    && s[o].last <= |g.entries[o]| && StackOk(g, s, o) && RanOk(g, s, o) && WaitOk(g, s, o)
    && forall j: nat :: HasEntry(g, o, j) ==> OrderOk(g, s, o, j)
  }

  ghost predicate Inv(g: Logs, s: State) {
    |s| == |g.entries| && forall o :: 0 <= o < |s| ==> ObjOk(g, s, o)
  }

  // ---------------------------------------------------------------- the gate

  /** A nested entry occurs once. */
  lemma OneEntry(g: Logs, c: nat, d: nat, j: nat, k: nat)
    requires Consistent(g) && HasEntry(g, c, j) && HasEntry(g, d, k) && g.entries[c][j].Nested?
    requires g.entries[d][k] == g.entries[c][j]
    ensures c == d && j == k
  {
    assert EntryMatches(g, c, j) && EntryMatches(g, d, k);
    assert Unique(g, c, j, k);
  }

  /** A call that gets through the gate finds its child at the matching entry, except when the child is between the two
      stores of its fields and the stale id confuses it. */
  lemma GateExact(g: Logs, s: State, x: nat, i: nat, c: nat)
    requires Consistent(g) && Inv(g, s) && x < |s| && c < |s| && s[x].last == i && Calls(g, x, i, c)
    requires IsWaitingForParent(s, c, x)
    ensures Reached(g, s, x, i, c) <==> !(s[c].thread == Half && ConfusedAt(g, c, s[c].last))
  {
    var j := MatchingEntry(g, x, i, c);
    assert ObjOk(g, s, c);
    GateAt(g, s, x, i, c, j);
  }

  lemma MatchingEntry(g: Logs, x: nat, i: nat, c: nat) returns (j: nat)
    requires Consistent(g) && Calls(g, x, i, c)
    ensures HasEntry(g, c, j) && g.entries[c][j] == Nested(x, i + 1)
    ensures forall l: nat :: HasEntry(g, c, l) ==> Unique(g, c, l, j)
  {
    assert CallMatches(g, x, i);
    j :| HasEntry(g, c, j) && g.entries[c][j] == Nested(x, i + 1);
  }

  lemma GateAt(g: Logs, s: State, x: nat, i: nat, c: nat, j: nat)
    requires x < |s| && c < |s| && s[x].last == i && WaitOk(g, s, c) && IsWaitingForParent(s, c, x)
    requires HasEntry(g, c, j) && g.entries[c][j] == Nested(x, i + 1) && OrderOk(g, s, c, j)
    requires forall l: nat :: HasEntry(g, c, l) ==> Unique(g, c, l, j)
    ensures Reached(g, s, x, i, c) <==> !(s[c].thread == Half && ConfusedAt(g, c, s[c].last))
  {
    if Sits(s, c) { assert Unique(g, c, s[c].last, j); }
  }

  /** A call gets through the gate while the child it calls is between the two stores, at an entry where its stale id
      confuses it. */
  ghost predicate Confuses(g: Logs, s: State, step: Step) {
    && step.Enter? && step.o < |s| && s[step.o].thread.Calling? && s[step.o].thread.child < |s|
    && s[s[step.o].thread.child].thread == Half && ConfusedAt(g, s[step.o].thread.child, s[s[step.o].thread.child].last)
  }

  /** So without confusing entries every call that gets through finds its child at the matching entry. */
  lemma GateMatches(g: Logs, s: State, x: nat, i: nat, c: nat)
    requires Consistent(g) && Unconfused(g) && Inv(g, s)
    requires x < |s| && c < |s| && s[x].last == i && Calls(g, x, i, c) && IsWaitingForParent(s, c, x)
    ensures Reached(g, s, x, i, c)
  {
    GateExact(g, s, x, i, c);
    assert ObjOk(g, s, c);
  }

  // ---------------------------------------------------------------- steps that only move frames

  /** No object advances, and no wait field changes. */
  ghost predicate Quiet(s: State, s': State) {
    |s'| == |s| && forall x :: 0 <= x < |s| ==> QuietAt(s[x], s'[x])
  }

  ghost predicate QuietAt(a: Obj, b: Obj) {
    && b.last == a.last && b.waitParent == a.waitParent && b.waitId == a.waitId && (a.Done() ==> b.Done())
    && (b.thread == Half <==> a.thread == Half) && (b.thread == Waiting <==> a.thread == Waiting)
    && (b.thread == Between ==> a.thread == Between)
  }

  lemma QuietReached(g: Logs, s: State, s': State, p: nat, i: nat, c: nat)
    requires Quiet(s, s') && Reached(g, s, p, i, c)
    ensures Reached(g, s', p, i, c) && (Over(g, s, p, i, c) ==> Over(g, s', p, i, c))
  {
    assert QuietAt(s[c], s'[c]);
  }

  lemma QuietFrames(g: Logs, s: State, s': State, stack: seq<Frame>, k: nat)
    requires Quiet(s, s') && k < |stack| && FrameOk(g, s, stack, k)
    ensures FrameOk(g, s', stack, k)
  {
    assert QuietAt(s[stack[k].obj], s'[stack[k].obj]);
    if 0 < k { QuietReached(g, s, s', stack[k - 1].obj, stack[k - 1].entry, stack[k].obj); }
  }

  lemma QuietTop(g: Logs, s: State, s': State, th: Thread)
    requires Quiet(s, s') && TopOk(g, s, th)
    ensures TopOk(g, s', th)
  {
    if th.Running? && th.stack != [] && Top(th.stack).called {
      var c :| Calls(g, Top(th.stack).obj, Top(th.stack).entry, c)
          && Over(g, s, Top(th.stack).obj, Top(th.stack).entry, c);
      QuietReached(g, s, s', Top(th.stack).obj, Top(th.stack).entry, c);
    }
  }

  lemma QuietStack(g: Logs, s: State, s': State, x: nat)
    requires Quiet(s, s') && x < |s| && StackOk(g, s, x) && s'[x].thread == s[x].thread
    ensures StackOk(g, s', x)
  {
    assert QuietAt(s[x], s'[x]);
    var stack := StackOf(s[x].thread);
    forall k | 0 <= k < |stack| ensures FrameOk(g, s', stack, k) { QuietFrames(g, s, s', stack, k); }
    QuietTop(g, s, s', s[x].thread);
  }

  lemma QuietRan(g: Logs, s: State, s': State, x: nat)
    requires Quiet(s, s') && x < |s| && RanOk(g, s, x) && s'[x].Done() == s[x].Done()
    ensures RanOk(g, s', x)
  {
    assert QuietAt(s[x], s'[x]);
    if s[x].Done() {
      forall c | Calls(g, x, s[x].last, c) ensures Over(g, s', x, s[x].last, c) {
        QuietReached(g, s, s', x, s[x].last, c);
      }
    }
    if AtNested(g, s, x) && Here(g, s, x).parent < |s| {
      assert QuietAt(s[Here(g, s, x).parent], s'[Here(g, s, x).parent]);
    }
  }

  lemma QuietWait(g: Logs, s: State, s': State, x: nat)
    requires Quiet(s, s') && x < |s| && WaitOk(g, s, x)
    ensures WaitOk(g, s', x)
  {
    assert QuietAt(s[x], s'[x]);
    if AtNested(g, s, x) && Here(g, s, x).parent < |s| {
      assert QuietAt(s[Here(g, s, x).parent], s'[Here(g, s, x).parent]);
    }
    if 0 <= s[x].waitParent < |s| { assert QuietAt(s[s[x].waitParent], s'[s[x].waitParent]); }
  }

  lemma QuietOrder(g: Logs, s: State, s': State, x: nat, j: nat)
    requires Quiet(s, s') && x < |s| && HasEntry(g, x, j) && OrderOk(g, s, x, j)
    ensures OrderOk(g, s', x, j)
  {
    assert QuietAt(s[x], s'[x]);
    var e := g.entries[x][j];
    if e.Nested? && e.parent < |s| { assert QuietAt(s[e.parent], s'[e.parent]); }
  }

  /** What remains to be shown of a quiet step: the stack of the thread that moves, and what has newly run. */
  lemma QuietInv(g: Logs, s: State, s': State, o: nat)
    requires Inv(g, s) && Quiet(s, s') && o < |s| && StackOk(g, s', o)
    requires forall x :: 0 <= x < |s| && x != o ==> s'[x].thread == s[x].thread
    requires forall x :: 0 <= x < |s| && s'[x].Done() != s[x].Done() ==> RanOk(g, s', x)
    ensures Inv(g, s')
  {
    forall x | 0 <= x < |s| ensures ObjOk(g, s', x) {
      assert ObjOk(g, s, x) && QuietAt(s[x], s'[x]);
      if x != o { QuietStack(g, s, s', x); }
      if s'[x].Done() == s[x].Done() { QuietRan(g, s, s', x); }
      QuietWait(g, s, s', x);
      forall j: nat | HasEntry(g, x, j) ensures OrderOk(g, s', x, j) { QuietOrder(g, s, s', x, j); }
    }
  }

  lemma StartInv(g: Logs, s: State, o: nat)
    requires Inv(g, s) && Enabled(g, s, Start(o))
    ensures Inv(g, Next(g, s, Start(o)))
  {
    var s' := Next(g, s, Start(o));
    assert ObjOk(g, s, o);
    var stack := [Frame(o, s[o].last, false)];
    assert FrameOk(g, s', stack, 0);
    QuietInv(g, s, s', o);
  }

  lemma CallInv(g: Logs, s: State, o: nat)
    requires Inv(g, s) && Enabled(g, s, Call(o))
    ensures Inv(g, Next(g, s, Call(o)))
  {
    var s' := Next(g, s, Call(o));
    assert ObjOk(g, s, o);
    var old0, stack := s[o].thread.stack, StackOf(s'[o].thread);
    forall k | 0 <= k < |stack| ensures FrameOk(g, s', stack, k) {
      assert FrameOk(g, s, old0, k);
      assert FrameOk(g, s, stack, k);
      QuietFrames(g, s, s', stack, k);
    }
    QuietInv(g, s, s', o);
  }

  lemma StackAt(g: Logs, s: State, o: nat)
    requires Inv(g, s) && o < |s|
    ensures StackOk(g, s, o)
  {
    assert ObjOk(g, s, o);
  }

  lemma EnterInv(g: Logs, s: State, o: nat)
    requires Consistent(g) && Inv(g, s) && Enabled(g, s, Enter(o)) && !Confuses(g, s, Enter(o))
    ensures Inv(g, Next(g, s, Enter(o)))
  {
    var s' := Next(g, s, Enter(o));
    StackAt(g, s, o);
    var p := Top(s[o].thread.stack);
    assert FrameOk(g, s, s[o].thread.stack, |s[o].thread.stack| - 1);
    GateExact(g, s, p.obj, p.entry, s[o].thread.child);
    EnterStack(g, s, o);
    QuietInv(g, s, s', o);
  }

  lemma EnterStack(g: Logs, s: State, o: nat)
    requires Enabled(g, s, Enter(o)) && StackOk(g, s, o)
    requires var p := Top(s[o].thread.stack); Reached(g, s, p.obj, p.entry, s[o].thread.child)
    ensures StackOk(g, Next(g, s, Enter(o)), o) && Quiet(s, Next(g, s, Enter(o)))
  {
    var s' := Next(g, s, Enter(o));
    assert Quiet(s, s');
    PushStack(g, s, s', s[o].thread.stack, s[o].thread.child);
  }

  lemma PushStack(g: Logs, s: State, s': State, old0: seq<Frame>, c: nat)
    requires Quiet(s, s') && old0 != [] && (forall i :: 0 <= i < |old0| ==> FrameOk(g, s, old0, i)) && c < |s|
    requires var p := Top(old0); p.called && Calls(g, p.obj, p.entry, c) && Reached(g, s, p.obj, p.entry, c)
    ensures var stack := old0 + [Frame(c, s[c].last, false)]; forall k :: 0 <= k < |stack| ==> FrameOk(g, s', stack, k)
  {
    var stack := old0 + [Frame(c, s[c].last, false)];
    forall k | 0 <= k < |stack| ensures FrameOk(g, s', stack, k) {
      PushFrame(g, s, old0, c, k);
      QuietFrames(g, s, s', stack, k);
    }
  }

  lemma PushFrame(g: Logs, s: State, old0: seq<Frame>, c: nat, k: nat)
    requires old0 != [] && (forall i :: 0 <= i < |old0| ==> FrameOk(g, s, old0, i)) && k < |old0| + 1 && c < |s|
    requires var p := Top(old0); p.called && Calls(g, p.obj, p.entry, c) && Reached(g, s, p.obj, p.entry, c)
    ensures FrameOk(g, s, old0 + [Frame(c, s[c].last, false)], k)
  {
    if k < |old0| { assert FrameOk(g, s, old0, k); }
  }

  lemma PopFrame(g: Logs, s: State, old0: seq<Frame>, k: nat)
    requires k < |old0| - 1 && FrameOk(g, s, old0, k)
    ensures FrameOk(g, s, old0[..|old0| - 1], k)
  {
  }

  lemma ReturnInnerInv(g: Logs, s: State, o: nat)
    requires Consistent(g) && Inv(g, s) && Enabled(g, s, Return(o)) && 1 < |s[o].thread.stack|
    ensures Inv(g, Next(g, s, Return(o)))
  {
    StackAt(g, s, o);
    ReturnStack(g, s, o);
    QuietInv(g, s, Next(g, s, Return(o)), o);
  }

  lemma ReturnStack(g: Logs, s: State, o: nat)
    requires Enabled(g, s, Return(o)) && StackOk(g, s, o) && 1 < |s[o].thread.stack|
    ensures
      var s' := Next(g, s, Return(o));
      && StackOk(g, s', o) && Quiet(s, s')
      && forall x :: 0 <= x < |s| && s'[x].Done() != s[x].Done() ==> RanOk(g, s', x)
    ensures forall x :: 0 <= x < |s| && x != o ==> Next(g, s, Return(o))[x].thread == s[x].thread
  {
    var s' := Next(g, s, Return(o));
    var old0, stack := s[o].thread.stack, StackOf(s'[o].thread);
    var n := |old0| - 1;
    var f, p := old0[n], old0[n - 1];
    assert FrameOk(g, s, old0, n) && f.obj != o;
    ReturnQuiet(s, s', o, f.obj);
    forall k | 0 <= k < |stack| ensures FrameOk(g, s', stack, k) {
      assert FrameOk(g, s, old0, k);
      PopFrame(g, s, old0, k);
      QuietFrames(g, s, s', stack, k);
    }
    QuietReached(g, s, s', p.obj, p.entry, f.obj);
    assert Over(g, s', p.obj, p.entry, f.obj);
    ReturnRan(g, s, s', o, f);
  }

  lemma ReturnQuiet(s: State, s': State, o: nat, c: nat)
    requires |s'| == |s| && o < |s| && c < |s| && c != o && Sits(s, c) && s[o].thread.Running? && s'[o].thread.Running?
    requires s'[o] == s[o].(thread := s'[o].thread) && s'[c] == s[c].(stage := Ran)
    requires forall x :: 0 <= x < |s| && x != o && x != c ==> s'[x] == s[x]
    ensures Quiet(s, s')
  {
  }

  lemma ReturnRan(g: Logs, s: State, s': State, o: nat, f: Frame)
    requires Enabled(g, s, Return(o)) && TopOk(g, s, s[o].thread) && Quiet(s, s') && f == Top(s[o].thread.stack)
    requires f.obj < |s| && Sits(s, f.obj) && s[f.obj].last == f.entry && s'[f.obj].Done()
    ensures RanOk(g, s', f.obj)
  {
    assert QuietAt(s[f.obj], s'[f.obj]);
    forall c | Calls(g, f.obj, f.entry, c) ensures Over(g, s', f.obj, f.entry, c) {
      var d :| Calls(g, f.obj, f.entry, d) && Over(g, s, f.obj, f.entry, d);
      QuietReached(g, s, s', f.obj, f.entry, c);
    }
  }

  // ---------------------------------------------------------------- stores of the wait fields

  /** Thread `o` says a little more about what it waits for; what was reached stays reached. */
  ghost predicate Stores(g: Logs, s: State, s': State, o: nat) {
    && |s'| == |s| && o < |s| && (forall x :: 0 <= x < |s| && x != o ==> s'[x] == s[x])
    && s'[o].last == s[o].last && s'[o].Done() == s[o].Done() && s[o].thread != Waiting
    && (s[o].thread == Between || s[o].thread == Half)
    && Sits(s', o) && AtNested(g, s, o)
    && (s[o].thread == Half && s[o].waitId == Here(g, s, o).id ==> s'[o].waitId == s[o].waitId)
    && (s[o].thread == Between ==> !s[o].Done())
  }

  lemma StoresReached(g: Logs, s: State, s': State, o: nat, p: nat, i: nat, c: nat)
    requires Stores(g, s, s', o) && Reached(g, s, p, i, c)
    ensures Reached(g, s', p, i, c) && (Over(g, s, p, i, c) ==> Over(g, s', p, i, c))
  {
  }

  lemma StoresStack(g: Logs, s: State, s': State, o: nat, x: nat)
    requires Stores(g, s, s', o) && x < |s| && StackOk(g, s, x)
    ensures StackOk(g, s', x)
  {
    if x != o {
      var stack := StackOf(s[x].thread);
      forall k | 0 <= k < |stack| ensures FrameOk(g, s', stack, k) {
        assert FrameOk(g, s, stack, k);
        if 0 < k { StoresReached(g, s, s', o, stack[k - 1].obj, stack[k - 1].entry, stack[k].obj); }
      }
      var th := s[x].thread;
      if th.Running? && th.stack != [] && Top(th.stack).called {
        var c :| Calls(g, Top(th.stack).obj, Top(th.stack).entry, c)
            && Over(g, s, Top(th.stack).obj, Top(th.stack).entry, c);
        StoresReached(g, s, s', o, Top(th.stack).obj, Top(th.stack).entry, c);
      }
    }
  }

  lemma StoresRan(g: Logs, s: State, s': State, o: nat, x: nat)
    requires Stores(g, s, s', o) && x < |s| && RanOk(g, s, x)
    requires s[o].thread == Between && Here(g, s, o).parent < |s| ==> s[Here(g, s, o).parent].last < Here(g, s, o).id
    ensures RanOk(g, s', x)
  {
    if s[x].Done() {
      forall c | Calls(g, x, s[x].last, c) ensures Over(g, s', x, s[x].last, c) {
        StoresReached(g, s, s', o, x, s[x].last, c);
      }
    }
  }

  lemma StoreInv(g: Logs, s: State, step: Step)
    requires Inv(g, s) && Enabled(g, s, step) && (step.StoreParent? || step.StoreId?)
    ensures Inv(g, Next(g, s, step))
  {
    var o, s' := step.o, Next(g, s, step);
    assert ObjOk(g, s, o);
    assert OrderOk(g, s, o, s[o].last);
    assert Stores(g, s, s', o);
    forall x | 0 <= x < |s| ensures ObjOk(g, s', x) {
      assert ObjOk(g, s, x);
      StoresStack(g, s, s', o, x);
      StoresRan(g, s, s', o, x);
      StoresWait(g, s, step, x);
      forall j: nat | HasEntry(g, x, j) ensures OrderOk(g, s', x, j) { assert OrderOk(g, s, x, j); }
    }
  }

  lemma StoresWait(g: Logs, s: State, step: Step, x: nat)
    requires Inv(g, s) && Enabled(g, s, step) && (step.StoreParent? || step.StoreId?) && x < |s|
    ensures WaitOk(g, Next(g, s, step), x)
  {
    assert ObjOk(g, s, x);
    if x == step.o { assert OrderOk(g, s, x, s[x].last); }
  }

  // ---------------------------------------------------------------- steps that advance an object

  /** Object `o` goes on to its next entry, nobody relying on it being where it was. */
  ghost predicate Advances(g: Logs, s: State, s': State, o: nat) {
    && |s'| == |s| == |g.entries| && o < |s| && (forall x :: 0 <= x < |s| && x != o ==> s'[x] == s[x])
    && HasEntry(g, o, s[o].last) && s'[o] == s[o].(last := s[o].last + 1, thread := Between, stage := Fresh)
    && (if g.entries[o][s[o].last].Nested? then s[o].thread == Waiting else !Sits(s, o))
    && (forall c :: Calls(g, o, s[o].last, c) ==> Over(g, s, o, s[o].last, c))
    && (forall p: nat :: p < |s| ==> !Reached(g, s, p, s[p].last, o))
    && (g.entries[o][s[o].last].Nested? && g.entries[o][s[o].last].parent < |s| ==>
          g.entries[o][s[o].last].id <= s[g.entries[o][s[o].last].parent].last)
  }

  lemma AdvanceStack(g: Logs, s: State, s': State, o: nat, x: nat)
    requires Advances(g, s, s', o) && x < |s| && StackOk(g, s, x)
    ensures StackOk(g, s', x)
  {
    if x != o {
      var stack, th := StackOf(s[x].thread), s[x].thread;
      forall k | 0 <= k < |stack| ensures FrameOk(g, s', stack, k) {
        assert FrameOk(g, s, stack, k);
        if 0 < k {
          assert FrameOk(g, s, stack, k - 1);
          assert stack[k].obj != o;
        }
      }
      if th.Running? && th.stack != [] && Top(th.stack).called {
        var c :| Calls(g, Top(th.stack).obj, Top(th.stack).entry, c)
            && Over(g, s, Top(th.stack).obj, Top(th.stack).entry, c);
        assert FrameOk(g, s, stack, |stack| - 1);
        assert c != o;
        assert Over(g, s', Top(th.stack).obj, Top(th.stack).entry, c);
      }
    }
  }

  /** A child at an entry of the commit that `o` now completes has run. */
  lemma ChildRan(g: Logs, s: State, s': State, o: nat, x: nat, j: nat)
    requires Consistent(g) && Advances(g, s, s', o) && x < |s| && HasEntry(g, x, j)
    requires g.entries[x][j] == Nested(o, s[o].last + 1)
    ensures x != o && j == s[x].last && Over(g, s, o, s[o].last, x)
  {
    assert EntryMatches(g, x, j);
    assert Calls(g, o, s[o].last, x);
    assert Reached(g, s, o, s[o].last, x);
    OneEntry(g, x, x, j, s[x].last);
  }

  lemma AdvanceRan(g: Logs, s: State, s': State, o: nat, x: nat)
    requires Consistent(g) && Advances(g, s, s', o) && x < |s| && RanOk(g, s, x)
    ensures RanOk(g, s', x)
  {
    if x != o {
      if s[x].Done() {
        forall c | Calls(g, x, s[x].last, c) ensures Over(g, s', x, s[x].last, c) {
          assert Over(g, s, x, s[x].last, c);
          assert c != o;
        }
      }
      if AtNested(g, s, x) && Here(g, s, x) == Nested(o, s[o].last + 1) { ChildRan(g, s, s', o, x, s[x].last); }
    }
  }

  lemma AdvanceWait(g: Logs, s: State, s': State, o: nat, x: nat)
    requires Consistent(g) && Advances(g, s, s', o) && x < |s| && WaitOk(g, s, x)
    ensures WaitOk(g, s', x)
  {
    if x != o && s[x].thread == Half && Here(g, s, x) == Nested(o, s[o].last + 1) {
      ChildRan(g, s, s', o, x, s[x].last);
    }
    if x == o { assert EntryMatches(g, o, s[o].last); }
  }

  lemma AdvanceOrder(g: Logs, s: State, s': State, o: nat, x: nat, j: nat)
    requires Consistent(g) && Advances(g, s, s', o) && x < |s| && HasEntry(g, x, j) && OrderOk(g, s, x, j)
    ensures OrderOk(g, s', x, j)
  {
    if g.entries[x][j] == Nested(o, s[o].last + 1) { ChildRan(g, s, s', o, x, j); }
  }

  lemma AdvanceInv(g: Logs, s: State, s': State, o: nat)
    requires Consistent(g) && Inv(g, s) && Advances(g, s, s', o)
    ensures Inv(g, s')
  {
    assert ObjOk(g, s, o);
    forall x | 0 <= x < |s| ensures ObjOk(g, s', x) {
      assert ObjOk(g, s, x);
      AdvanceStack(g, s, s', o, x);
      AdvanceRan(g, s, s', o, x);
      AdvanceWait(g, s, s', o, x);
      forall j: nat | HasEntry(g, x, j) ensures OrderOk(g, s', x, j) {
        assert OrderOk(g, s, x, j);
        AdvanceOrder(g, s, s', o, x, j);
      }
    }
  }

  lemma PassAdvances(g: Logs, s: State, o: nat)
    requires Inv(g, s) && Enabled(g, s, Pass(o))
    ensures Advances(g, s, Next(g, s, Pass(o)), o)
  {
    assert ObjOk(g, s, o);
  }

  lemma PassInv(g: Logs, s: State, o: nat)
    requires Consistent(g) && Inv(g, s) && Enabled(g, s, Pass(o))
    ensures Inv(g, Next(g, s, Pass(o)))
  {
    PassAdvances(g, s, o);
    AdvanceInv(g, s, Next(g, s, Pass(o)), o);
  }

  lemma ReturnAdvances(g: Logs, s: State, o: nat)
    requires Inv(g, s) && Enabled(g, s, Return(o)) && |s[o].thread.stack| == 1
    ensures Advances(g, s, Next(g, s, Return(o)), o)
  {
    assert ObjOk(g, s, o);
    var stack := s[o].thread.stack;
    assert FrameOk(g, s, stack, 0);
    forall c | Calls(g, o, s[o].last, c) ensures Over(g, s, o, s[o].last, c) {
      var d :| Calls(g, o, s[o].last, d) && Over(g, s, o, s[o].last, d);
    }
  }

  lemma ReturnOuterInv(g: Logs, s: State, o: nat)
    requires Consistent(g) && Inv(g, s) && Enabled(g, s, Return(o)) && |s[o].thread.stack| == 1
    ensures Inv(g, Next(g, s, Return(o)))
  {
    ReturnAdvances(g, s, o);
    AdvanceInv(g, s, Next(g, s, Return(o)), o);
  }

  /** Every step keeps the invariant but a call that gets through to a confused child. */
  lemma NextInv(g: Logs, s: State, step: Step)
    requires Consistent(g) && Inv(g, s) && Enabled(g, s, step) && !Confuses(g, s, step)
    ensures Inv(g, Next(g, s, step))
  {
    match step
    case Start(o) => StartInv(g, s, o);
    case Call(o) => CallInv(g, s, o);
    case Enter(o) => EnterInv(g, s, o);
    case Return(o) => if |s[o].thread.stack| == 1 { ReturnOuterInv(g, s, o); } else { ReturnInnerInv(g, s, o); }
    case StoreParent(o) => StoreInv(g, s, step);
    case StoreId(o) => StoreInv(g, s, step);
    case Pass(o) => PassInv(g, s, o);
  }

  // ---------------------------------------------------------------- runs

  ghost predicate IsRun(g: Logs, run: seq<State>, steps: seq<Step>) {
    && |run| == |steps| + 1 && Init(g, run[0])
    && forall i :: 0 <= i < |steps| ==> Enabled(g, run[i], steps[i]) && run[i + 1] == Next(g, run[i], steps[i])
  }

  lemma InitInv(g: Logs, s: State)
    requires Consistent(g) && Init(g, s)
    ensures Inv(g, s)
  {
    forall o | 0 <= o < |s| ensures ObjOk(g, s, o) {
      forall j: nat | HasEntry(g, o, j) ensures OrderOk(g, s, o, j) { assert EntryMatches(g, o, j); }
    }
  }

  /** No call has got through to a confused child before point `n`. */
  ghost predicate Calm(g: Logs, run: seq<State>, steps: seq<Step>, n: nat) {
    forall i :: 0 <= i < n && i < |steps| && i < |run| ==> !Confuses(g, run[i], steps[i])
  }

  lemma {:induction false} RunInv(g: Logs, run: seq<State>, steps: seq<Step>, i: nat)
    requires Consistent(g) && IsRun(g, run, steps) && i < |run| && Calm(g, run, steps, i)
    ensures Inv(g, run[i])
  {
    if i == 0 {
      InitInv(g, run[0]);
    } else {
      RunInv(g, run, steps, i - 1);
      NextInv(g, run[i - 1], steps[i - 1]);
    }
  }

  /** Unconfused logs have only calm runs. */
  lemma UnconfusedInv(g: Logs, run: seq<State>, steps: seq<Step>, i: nat)
    requires Consistent(g) && Unconfused(g) && IsRun(g, run, steps) && i < |run|
    ensures Calm(g, run, steps, i) && Inv(g, run[i])
  {
    RunInv(g, run, steps, i);
  }

  /** A method that runs inside another one runs at the nested entry of the very call. */
  predicate RightEntry(g: Logs, stack: seq<Frame>, k: nat)
    requires 0 < k < |stack|
  {
    HasEntry(g, stack[k].obj, stack[k].entry)
        && g.entries[stack[k].obj][stack[k].entry] == Nested(stack[k - 1].obj, stack[k - 1].entry + 1)
  }

  /** In every interleaving of the recovery threads and at any depth of nesting, as long as no call has got through to a
      confused child: a method that runs on another object's thread runs while its own object sits at the nested entry
      of the very call, all earlier entries played. */
  lemma RunsAtMatchingEntry(g: Logs, run: seq<State>, steps: seq<Step>, n: nat, o: nat, k: nat)
    requires Consistent(g) && IsRun(g, run, steps) && n < |run| && Calm(g, run, steps, n)
    requires o < |run[n]| && 0 < k < |StackOf(run[n][o].thread)|
    ensures
      var s, stack := run[n], StackOf(run[n][o].thread);
      var f, p := stack[k], stack[k - 1];
      && RightEntry(g, stack, k) && f.obj < |s| && s[f.obj].last == f.entry && Sits(s, f.obj) && p.obj < |s|
      && s[p.obj].last == p.entry
  {
    RunInv(g, run, steps, n);
    assert ObjOk(g, run[n], o);
    var stack := StackOf(run[n][o].thread);
    assert FrameOk(g, run[n], stack, k) && FrameOk(g, run[n], stack, k - 1);
  }

  /** And no object goes past a nested entry before its parent has. */
  lemma ParentFirst(g: Logs, run: seq<State>, steps: seq<Step>, n: nat, o: nat, j: nat)
    requires Consistent(g) && IsRun(g, run, steps) && n < |run| && Calm(g, run, steps, n)
    requires o < |run[n]| && HasEntry(g, o, j) && g.entries[o][j].Nested? && j < run[n][o].last
    ensures var e := g.entries[o][j]; e.parent < |run[n]| && e.id <= run[n][e.parent].last
  {
    RunInv(g, run, steps, n);
    assert ObjOk(g, run[n], o);
    assert OrderOk(g, run[n], o, j) && EntryMatches(g, o, j);
  }

  /** Some method runs at a wrong entry. */
  ghost predicate GoneWrong(g: Logs, s: State) {
    exists o, k :: 0 <= o < |s| && 0 < k < |StackOf(s[o].thread)| && !RightEntry(g, StackOf(s[o].thread), k)
  }

  /** A call that gets through to a confused child runs its method at a wrong entry. */
  lemma ConfusesWrong(g: Logs, s: State, step: Step)
    requires Consistent(g) && Inv(g, s) && Enabled(g, s, step) && Confuses(g, s, step)
    ensures GoneWrong(g, Next(g, s, step))
  {
    var o := step.o;
    StackAt(g, s, o);
    var old0, c := s[o].thread.stack, s[o].thread.child;
    var p := Top(old0);
    assert FrameOk(g, s, old0, |old0| - 1);
    GateExact(g, s, p.obj, p.entry, c);
    var s' := Next(g, s, step);
    var stack := old0 + [Frame(c, s[c].last, false)];
    assert StackOf(s'[o].thread) == stack;
    assert !RightEntry(g, stack, |old0|);
  }

  /** In every run of logs that match each other, a method runs at a wrong entry at some point up to `n` if and only if
      a call has got through to a confused child before `n`. */
  lemma WrongExact(g: Logs, run: seq<State>, steps: seq<Step>, n: nat)
    requires Consistent(g) && IsRun(g, run, steps) && n < |run|
    ensures (exists i :: 0 <= i <= n && GoneWrong(g, run[i])) <==> !Calm(g, run, steps, n)
  {
    if Calm(g, run, steps, n) {
      forall i | 0 <= i <= n ensures !GoneWrong(g, run[i]) {
        forall o, k | 0 <= o < |run[i]| && 0 < k < |StackOf(run[i][o].thread)|
          ensures RightEntry(g, StackOf(run[i][o].thread), k) {
          RunsAtMatchingEntry(g, run, steps, i, o, k);
        }
      }
    } else {
      var i := FirstConfused(g, run, steps, n);
      RunInv(g, run, steps, i);
      ConfusesWrong(g, run[i], steps[i]);
      assert GoneWrong(g, run[i + 1]);
    }
  }

  /** The first such call; before it no method runs at a wrong entry, and its own is the first that does. */
  lemma {:induction false} FirstConfused(g: Logs, run: seq<State>, steps: seq<Step>, n: nat) returns (i: nat)
    requires IsRun(g, run, steps) && n < |run| && !Calm(g, run, steps, n)
    ensures i < n && Confuses(g, run[i], steps[i]) && Calm(g, run, steps, i)
  {
    if n == 1 || Calm(g, run, steps, n - 1) { i := n - 1; } else { i := FirstConfused(g, run, steps, n - 1); }
  }
}
