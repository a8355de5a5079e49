/**
 When the recovery of nested transactions goes wrong, when it waits for ever, and when it plays every entry.
 */
module NestedProgress {
  import opened NestedRecoveries

  /** A run goes on by one step. */
  lemma Go(g: Logs, run: seq<State>, steps: seq<Step>, step: Step) returns (run': seq<State>, steps': seq<Step>)
    requires IsRun(g, run, steps) && Enabled(g, run[|run| - 1], step)
    ensures IsRun(g, run', steps') && run'[|run'| - 1] == Next(g, run[|run| - 1], step) && run < run'
  {
    run', steps' := run + [Next(g, run[|run| - 1], step)], steps + [step];
  }

  ghost predicate Reaches(g: Logs, run: seq<State>, steps: seq<Step>, s: State) {
    IsRun(g, run, steps) && run[|run| - 1] == s
  }

  const IDLE := Obj(0, -1, 0, Between, Fresh)

  // ---------------------------------------------------------------- a confused child

  /** Object 2 has an entry of object 1, and then two of object 0 in the other order than object 0 made them. */
  const CONFUSED: Logs :=
    Logs([[Outer, Outer], [Outer], [Nested(1, 1), Nested(0, 2), Nested(0, 1)]],
         [[Some(2), Some(2)], [Some(2)], [None, None, None]])

  lemma ConfusedConsistent()
    ensures Consistent(CONFUSED) && ConfusedAt(CONFUSED, 2, 1)
  {
    forall c: nat, j: nat | HasEntry(CONFUSED, c, j)
      ensures EntryMatches(CONFUSED, c, j) && CallMatches(CONFUSED, c, j) {
      ConfusedEntry(c, j);
    }
    forall c: nat, j: nat, k: nat | HasEntry(CONFUSED, c, j) && HasEntry(CONFUSED, c, k)
      ensures Unique(CONFUSED, c, j, k) {
      ConfusedUnique(c, j, k);
    }
    ConfusedHere();
  }

  lemma ConfusedUnique(c: nat, j: nat, k: nat)
    requires HasEntry(CONFUSED, c, j) && HasEntry(CONFUSED, c, k)
    ensures Unique(CONFUSED, c, j, k)
  {
  }

  lemma ConfusedHere()
    ensures ConfusedAt(CONFUSED, 2, 1)
  {
    assert HasEntry(CONFUSED, 2, 2) && StaleId(CONFUSED, 2, 1) == 1;
  }

  lemma ConfusedEntry(c: nat, j: nat)
    requires HasEntry(CONFUSED, c, j)
    ensures EntryMatches(CONFUSED, c, j) && CallMatches(CONFUSED, c, j)
  {
    if c == 0 { assert HasEntry(CONFUSED, 2, 2 - j) && CONFUSED.entries[2][2 - j] == Nested(0, j + 1); }
    if c == 1 { assert HasEntry(CONFUSED, 2, 0) && CONFUSED.entries[2][0] == Nested(1, 1); }
  }

  /** After its first entry object 2 waits for object 0, with the id it had for object 1. */
  lemma ConfusedStart() returns (run: seq<State>, steps: seq<Step>)
    ensures Reaches(CONFUSED, run, steps, [IDLE, IDLE.(last := 1), Obj(1, 0, 1, Half, Fresh)])
  {
    var g := CONFUSED;
    run, steps := Go(g, [[IDLE, IDLE, IDLE]], [], StoreParent(2));
    run, steps := Go(g, run, steps, StoreId(2));
    assert run[|run| - 1] == [IDLE, IDLE, Obj(0, 1, 1, Waiting, Fresh)];
    run, steps := ConfusedFirst(run, steps);
    run, steps := Go(g, run, steps, Pass(2));
    run, steps := Go(g, run, steps, StoreParent(2));
    assert run[|run| - 1] == [IDLE, IDLE.(last := 1), Obj(1, 0, 1, Half, Fresh)];
  }

  lemma ConfusedFirst(run: seq<State>, steps: seq<Step>) returns (run': seq<State>, steps': seq<Step>)
    requires Reaches(CONFUSED, run, steps, [IDLE, IDLE, Obj(0, 1, 1, Waiting, Fresh)])
    ensures Reaches(CONFUSED, run', steps', [IDLE, IDLE.(last := 1), Obj(0, 1, 1, Waiting, Ran)])
  {
    run', steps' := OneCall(CONFUSED, run, steps, 1, 2);
    run', steps' := Go(CONFUSED, run', steps', Enter(1));
    assert [Frame(1, 0, true)] + [Frame(2, 0, false)] == [Frame(1, 0, true), Frame(2, 0, false)];
    assert run'[|run'| - 1] ==
        [IDLE, Obj(0, -1, 0, Running([Frame(1, 0, true), Frame(2, 0, false)]), Called), Obj(0, 1, 1, Waiting, Entered)];
    run', steps' := ConfusedReturn(run', steps');
  }

  lemma ConfusedReturn(run: seq<State>, steps: seq<Step>) returns (run': seq<State>, steps': seq<Step>)
    requires Reaches(CONFUSED, run, steps,
                     [IDLE, Obj(0, -1, 0, Running([Frame(1, 0, true), Frame(2, 0, false)]), Called),
                      Obj(0, 1, 1, Waiting, Entered)])
    ensures Reaches(CONFUSED, run', steps', [IDLE, IDLE.(last := 1), Obj(0, 1, 1, Waiting, Ran)])
  {
    run', steps' := Go(CONFUSED, run, steps, Return(1));
    assert [Frame(1, 0, true), Frame(2, 0, false)][..1] == [Frame(1, 0, true)];
    assert run'[|run'| - 1] == [IDLE, Obj(0, -1, 0, Running([Frame(1, 0, true)]), Called), Obj(0, 1, 1, Waiting, Ran)];
    run', steps' := Go(CONFUSED, run', steps', Return(1));
  }

  /** An object begins its first entry and comes to its call. */
  lemma OneCall(g: Logs, run: seq<State>, steps: seq<Step>, o: nat, c: nat)
    returns (run': seq<State>, steps': seq<Step>)
    requires IsRun(g, run, steps) && o < |run[|run| - 1]| == |g.entries| && run[|run| - 1][o] == IDLE
    requires WellFormed(g) && HasEntry(g, o, 0) && g.entries[o][0] == Outer && g.calls[o][0] == Some(c)
    ensures Reaches(g, run', steps', run[|run| - 1][o := Obj(0, -1, 0, Calling([Frame(o, 0, true)], c), Called)])
  {
    run', steps' := Go(g, run, steps, Start(o));
    assert run'[|run'| - 1] == run[|run| - 1][o := Obj(0, -1, 0, Running([Frame(o, 0, false)]), Entered)];
    run', steps' := Go(g, run', steps', Call(o));
    assert [Frame(o, 0, false)][0 := Frame(o, 0, true)] == [Frame(o, 0, true)];
  }

  /** The logs match each other, and yet a method runs at the wrong entry: commit 1 of object 0 at the entry of its
      commit 2. */
  lemma ConfusedExample() returns (run: seq<State>, steps: seq<Step>)
    ensures Consistent(CONFUSED) && ConfusedAt(CONFUSED, 2, 1)
    ensures IsRun(CONFUSED, run, steps) && |run[|run| - 1]| == 3
    ensures run[|run| - 1][0].thread == Running([Frame(0, 0, true), Frame(2, 1, false)])
    ensures CONFUSED.entries[2][1] != Nested(0, 0 + 1)
  {
    var g := CONFUSED;
    ConfusedConsistent();
    run, steps := ConfusedStart();
    run, steps := OneCall(g, run, steps, 0, 2);
    assert run[|run| - 1] ==
        [Obj(0, -1, 0, Calling([Frame(0, 0, true)], 2), Called), IDLE.(last := 1), Obj(1, 0, 1, Half, Fresh)];
    run, steps := Go(g, run, steps, Enter(0));
    assert [Frame(0, 0, true)] + [Frame(2, 1, false)] == [Frame(0, 0, true), Frame(2, 1, false)];
  }

  // ---------------------------------------------------------------- logs on which recovery waits for ever

  /** Two calls of object 0 into object 1 that committed in object 1 the other way round. */
  const INVERTED: Logs := Logs([[Outer, Outer], [Nested(0, 2), Nested(0, 1)]], [[Some(1), Some(1)], [None, None]])

  lemma InvertedConsistent()
    ensures Consistent(INVERTED) && Unconfused(INVERTED)
  {
    forall c: nat, j: nat | HasEntry(INVERTED, c, j)
      ensures EntryMatches(INVERTED, c, j) && CallMatches(INVERTED, c, j) {
      InvertedEntry(c, j);
    }
    forall c: nat, l: nat | HasEntry(INVERTED, c, l) ensures !ConfusedAt(INVERTED, c, l) {
      if c == 1 && l == 0 { assert StaleId(INVERTED, 1, 0) == 0; }
      if c == 1 && l == 1 { assert StaleId(INVERTED, 1, 1) == 2; }
    }
  }

  lemma InvertedEntry(c: nat, j: nat)
    requires HasEntry(INVERTED, c, j)
    ensures EntryMatches(INVERTED, c, j) && CallMatches(INVERTED, c, j)
  {
    if c == 0 { assert HasEntry(INVERTED, 1, 1 - j) && INVERTED.entries[1][1 - j] == Nested(0, j + 1); }
  }

  /** Such logs match each other and confuse nobody, and yet both threads can wait for each other for ever. */
  lemma InvertedOrderStuck() returns (s: State)
    ensures exists run: seq<State>, steps: seq<Step> :: IsRun(INVERTED, run, steps) && run[|run| - 1] == s
    ensures |s| == 2 && s[0].last < |INVERTED.entries[0]| && forall step :: !Enabled(INVERTED, s, step)
  {
    var s0: State := [IDLE, IDLE];
    var s1: State := [IDLE, IDLE.(waitParent := 0, thread := Half)];
    var s2: State := [IDLE, IDLE.(waitParent := 0, waitId := 2, thread := Waiting)];
    var s3: State := [IDLE.(thread := Running([Frame(0, 0, false)]), stage := Entered), s2[1]];
    s := [IDLE.(thread := Calling([Frame(0, 0, true)], 1), stage := Called), s2[1]];
    var steps := [StoreParent(1), StoreId(1), Start(0), Call(0)];
    var run := [s0, s1, s2, s3, s];
    assert [Frame(0, 0, false)][0 := Frame(0, 0, true)] == [Frame(0, 0, true)];
    assert Next(INVERTED, s0, steps[0]) == s1;
    assert Next(INVERTED, s1, steps[1]) == s2;
    assert Next(INVERTED, s2, steps[2]) == s3;
    assert Next(INVERTED, s3, steps[3]) == s;
    assert IsRun(INVERTED, run, steps);
  }

  /** Each call of the other into one of two objects committed before the other's own transaction did. */
  const CROSSED: Logs := Logs([[Nested(1, 2), Outer], [Nested(0, 2), Outer]], [[None, Some(1)], [None, Some(0)]])

  lemma CrossedEntry(c: nat, j: nat)
    requires HasEntry(CROSSED, c, j)
    ensures WellFormed(CROSSED) && EntryMatches(CROSSED, c, j)
  {
  }

  lemma CrossedCall(c: nat, j: nat)
    requires HasEntry(CROSSED, c, j)
    ensures WellFormed(CROSSED) && CallMatches(CROSSED, c, j)
  {
    if j == 1 { assert HasEntry(CROSSED, 1 - c, 0) && CROSSED.entries[1 - c][0] == Nested(c, 2); }
  }

  lemma CrossedConsistent()
    ensures Consistent(CROSSED)
  {
    forall c: nat, j: nat | HasEntry(CROSSED, c, j) ensures EntryMatches(CROSSED, c, j) && CallMatches(CROSSED, c, j) {
      CrossedEntry(c, j);
      CrossedCall(c, j);
    }
    forall c: nat, j: nat, k: nat | HasEntry(CROSSED, c, j) && HasEntry(CROSSED, c, k)
      ensures Unique(CROSSED, c, j, k) {
    }
  }

  /** So order per parent keeps recovery right, but does not keep it going. */
  lemma CrossedOrderStuck() returns (s: State)
    ensures exists run: seq<State>, steps: seq<Step> :: IsRun(CROSSED, run, steps) && run[|run| - 1] == s
    ensures |s| == 2 && s[0].last < |CROSSED.entries[0]| && forall step :: !Enabled(CROSSED, s, step)
  {
    var s0: State := [IDLE, IDLE];
    var s1: State := [IDLE.(waitParent := 1, thread := Half), IDLE];
    var s2: State := [IDLE.(waitParent := 1, waitId := 2, thread := Waiting), IDLE];
    var s3: State := [s2[0], IDLE.(waitParent := 0, thread := Half)];
    s := [s2[0], IDLE.(waitParent := 0, waitId := 2, thread := Waiting)];
    var steps := [StoreParent(0), StoreId(0), StoreParent(1), StoreId(1)];
    var run := [s0, s1, s2, s3, s];
    assert Next(CROSSED, s0, steps[0]) == s1;
    assert Next(CROSSED, s1, steps[1]) == s2;
    assert Next(CROSSED, s2, steps[2]) == s3;
    assert Next(CROSSED, s3, steps[3]) == s;
    assert IsRun(CROSSED, run, steps);
  }

  // ---------------------------------------------------------------- when recovery keeps going

  /** All logs follow one order of the outermost transactions: an entry has the rank of its parent's entry and is one
      deeper, and ranks go up along every log. */
  ghost predicate Ranked(g: Logs, rank: (nat, nat) -> nat, depth: (nat, nat) -> nat) {
    && (forall c: nat, j: nat {:trigger RankOk(g, rank, depth, c, j)} :: HasEntry(g, c, j) ==>
        RankOk(g, rank, depth, c, j))
    && (forall c: nat, j: nat, k: nat {:trigger Rises(rank, c, j, k)} :: HasEntry(g, c, j) && HasEntry(g, c, k) ==>
        Rises(rank, c, j, k))
  }

  predicate Rises(rank: (nat, nat) -> nat, c: nat, j: nat, k: nat) {
    j < k ==> rank(c, j) < rank(c, k)
  }

  ghost predicate RankOk(g: Logs, rank: (nat, nat) -> nat, depth: (nat, nat) -> nat, c: nat, j: nat)
    requires HasEntry(g, c, j)
  {
    var e := g.entries[c][j];
    e.Nested? && 0 < e.id ==> rank(c, j) == rank(e.parent, e.id - 1) && depth(c, j) == depth(e.parent, e.id - 1) + 1
  }

  lemma CrossedUnranked(rank: (nat, nat) -> nat, depth: (nat, nat) -> nat)
    ensures !Ranked(CROSSED, rank, depth)
  {
    assert HasEntry(CROSSED, 0, 0) && HasEntry(CROSSED, 0, 1) && HasEntry(CROSSED, 1, 0) && HasEntry(CROSSED, 1, 1);
    assert RankOk(CROSSED, rank, depth, 0, 0) ==> rank(0, 0) == rank(1, 1);
    assert RankOk(CROSSED, rank, depth, 1, 0) ==> rank(1, 0) == rank(0, 1);
    assert Rises(rank, 0, 0, 1) && Rises(rank, 1, 0, 1) ==> rank(0, 0) < rank(0, 1) && rank(1, 0) < rank(1, 1);
  }

  /** Object `x` has entries left, and no object is at an entry of lower rank. */
  ghost predicate Foremost(g: Logs, s: State, rank: (nat, nat) -> nat, x: nat) {
    && x < |s| && HasEntry(g, x, s[x].last)
    && forall y: nat :: y < |s| && HasEntry(g, y, s[y].last) ==> rank(x, s[x].last) <= rank(y, s[y].last)
  }

  /** All frames of a stack belong to one outermost transaction. */
  lemma {:induction false} FrameRank(g: Logs, s: State, rank: (nat, nat) -> nat, depth: (nat, nat) -> nat,
                                     stack: seq<Frame>, k: nat)
    requires Ranked(g, rank, depth) && k < |stack| && forall i :: 0 <= i < |stack| ==> FrameOk(g, s, stack, i)
    ensures rank(stack[k].obj, stack[k].entry) == rank(stack[0].obj, stack[0].entry)
  {
    assert FrameOk(g, s, stack, k);
    if 0 < k {
      FrameRank(g, s, rank, depth, stack, k - 1);
      assert RankOk(g, rank, depth, stack[k].obj, stack[k].entry);
    }
  }

  /** The thread of a foremost object that plays its own entry can move, or the object it calls can. */
  lemma PlayerMoves(g: Logs, s: State, rank: (nat, nat) -> nat, depth: (nat, nat) -> nat, x: nat) returns (step: Step)
    requires Consistent(g) && Ranked(g, rank, depth) && Inv(g, s) && Foremost(g, s, rank, x)
    requires g.entries[x][s[x].last] == Outer
    ensures Enabled(g, s, step)
  {
    StackAt(g, s, x);
    var stack := StackOf(s[x].thread);
    if s[x].thread.Calling? {
      var n := |stack| - 1;
      assert FrameOk(g, s, stack, n) && FrameOk(g, s, stack, 0);
      FrameRank(g, s, rank, depth, stack, n);
      step := CalleeMoves(g, s, rank, depth, x, stack[n].obj, stack[n].entry, s[x].thread.child);
    } else {
      OuterThread(g, s, x);
      step := RunnerMoves(g, s, x);
    }
  }

  /** An object at an outermost entry does not wait for a parent. */
  lemma OuterThread(g: Logs, s: State, x: nat)
    requires Inv(g, s) && x < |s| && HasEntry(g, x, s[x].last) && g.entries[x][s[x].last] == Outer
    ensures !Sits(s, x)
  {
    assert ObjOk(g, s, x);
  }

  lemma RunnerMoves(g: Logs, s: State, x: nat) returns (step: Step)
    requires WellFormed(g) && |s| == |g.entries| && x < |s| && StackOk(g, s, x) && !Sits(s, x) && !s[x].thread.Calling?
    requires HasEntry(g, x, s[x].last) && g.entries[x][s[x].last] == Outer
    ensures Enabled(g, s, step)
  {
    if s[x].thread == Between {
      step := Start(x);
    } else {
      var stack := StackOf(s[x].thread);
      var f := Top(stack);
      assert FrameOk(g, s, stack, |stack| - 1);
      step := if !f.called && g.calls[f.obj][f.entry].Some? then Call(x) else Return(x);
    }
  }

  /** The object that is called comes to its entry. */
  lemma CalleeMoves(g: Logs, s: State, rank: (nat, nat) -> nat, depth: (nat, nat) -> nat, x: nat, y: nat, j: nat,
                    z: nat) returns (step: Step)
    requires Consistent(g) && Ranked(g, rank, depth) && Inv(g, s) && Foremost(g, s, rank, x)
    requires s[x].thread.Calling? && s[x].thread.child == z && s[x].thread.stack != []
    requires Top(s[x].thread.stack).obj == y
    requires y < |s| && s[y].last == j && Calls(g, y, j, z) && rank(y, j) == rank(x, s[x].last)
    ensures Enabled(g, s, step)
  {
    var k := MatchingEntry(g, y, j, z);
    assert ObjOk(g, s, z);
    assert OrderOk(g, s, z, k) && RankOk(g, rank, depth, z, k);
    var l := s[z].last;
    assert l <= k;
    assert HasEntry(g, z, l) && Rises(rank, z, l, k);
    assert l == k;
    step := if s[z].thread == Between then StoreParent(z) else if s[z].thread == Half then StoreId(z) else Enter(x);
  }

  /** A foremost object can move, or its parent, which is then foremost too, can. */
  lemma {:induction false} ForemostMoves(g: Logs, s: State, rank: (nat, nat) -> nat, depth: (nat, nat) -> nat, x: nat)
    returns (step: Step)
    requires Consistent(g) && Ranked(g, rank, depth) && Inv(g, s) && Foremost(g, s, rank, x)
    ensures Enabled(g, s, step)
    decreases depth(x, s[x].last)
  {
    var e := g.entries[x][s[x].last];
    if e == Outer {
      step := PlayerMoves(g, s, rank, depth, x);
    } else {
      NestedThread(g, s, x);
      if s[x].thread == Waiting && s[e.parent].last < e.id {
        ParentForemost(g, s, rank, depth, x);
        step := ForemostMoves(g, s, rank, depth, e.parent);
      } else {
        step := SitterMoves(g, s, x);
      }
    }
  }

  /** An object at a nested entry can say what it waits for, and go on once its parent has. */
  lemma SitterMoves(g: Logs, s: State, x: nat) returns (step: Step)
    requires WellFormed(g) && |s| == |g.entries| && AtNested(g, s, x) && Here(g, s, x).parent < |s|
    requires s[x].thread == Between || s[x].thread == Half
      || (s[x].thread == Waiting && Here(g, s, x).id <= s[Here(g, s, x).parent].last)
    ensures Enabled(g, s, step)
  {
    step := if s[x].thread == Between then StoreParent(x) else if s[x].thread == Half then StoreId(x) else Pass(x);
  }

  /** An object at a nested entry runs nothing on its own thread. */
  lemma NestedThread(g: Logs, s: State, x: nat)
    requires Consistent(g) && Inv(g, s) && x < |s| && HasEntry(g, x, s[x].last) && g.entries[x][s[x].last].Nested?
    ensures s[x].thread == Between || s[x].thread == Half || s[x].thread == Waiting
    ensures var e := g.entries[x][s[x].last]; 0 < e.id && e.parent < |s| && HasEntry(g, e.parent, e.id - 1)
  {
    StackAt(g, s, x);
    assert EntryMatches(g, x, s[x].last);
  }

  lemma ParentForemost(g: Logs, s: State, rank: (nat, nat) -> nat, depth: (nat, nat) -> nat, x: nat)
    requires Ranked(g, rank, depth) && Foremost(g, s, rank, x) && g.entries[x][s[x].last].Nested?
    requires var e := g.entries[x][s[x].last];
      0 < e.id && e.parent < |s| && HasEntry(g, e.parent, e.id - 1) && s[e.parent].last < e.id
    ensures var e := g.entries[x][s[x].last];
      s[e.parent].last == e.id - 1 && Foremost(g, s, rank, e.parent) && depth(e.parent, e.id - 1) < depth(x, s[x].last)
  {
    var e := g.entries[x][s[x].last];
    assert RankOk(g, rank, depth, x, s[x].last);
    assert HasEntry(g, e.parent, s[e.parent].last) && Rises(rank, e.parent, s[e.parent].last, e.id - 1);
  }

  lemma {:induction false} FindForemost(g: Logs, s: State, rank: (nat, nat) -> nat, x: nat) returns (y: nat)
    requires x < |s| && HasEntry(g, x, s[x].last)
    ensures Foremost(g, s, rank, y)
    decreases rank(x, s[x].last)
  {
    if Foremost(g, s, rank, x) {
      y := x;
    } else {
      var z: nat :| z < |s| && HasEntry(g, z, s[z].last) && rank(z, s[z].last) < rank(x, s[x].last);
      y := FindForemost(g, s, rank, z);
    }
  }

  /** Logs that follow one order confuse nobody. */
  lemma RankedUnconfused(g: Logs, rank: (nat, nat) -> nat, depth: (nat, nat) -> nat)
    requires Consistent(g) && Ranked(g, rank, depth)
    ensures Unconfused(g)
  {
    forall c: nat, l: nat | HasEntry(g, c, l) ensures !ConfusedAt(g, c, l) {
      if g.entries[c][l].Nested? {
        var e, b := g.entries[c][l], StaleId(g, c, l);
        forall j: nat | l < j && HasEntry(g, c, j) && g.entries[c][j] == Nested(e.parent, b) ensures e.id <= b {
          assert EntryMatches(g, c, l) && EntryMatches(g, c, j);
          assert RankOk(g, rank, depth, c, l) && RankOk(g, rank, depth, c, j);
          assert Rises(rank, c, l, j) && Rises(rank, e.parent, b - 1, e.id - 1);
        }
      }
    }
  }

  /** If all logs follow one order of the outermost transactions, recovery is never stuck: in every reachable state with
      an entry left to play some recovery thread can move. */
  lemma NeverStuck(g: Logs, run: seq<State>, steps: seq<Step>, n: nat, rank: (nat, nat) -> nat,
                   depth: (nat, nat) -> nat, x: nat) returns (step: Step)
    requires Consistent(g) && Ranked(g, rank, depth) && IsRun(g, run, steps) && n < |run|
    requires x < |run[n]| && HasEntry(g, x, run[n][x].last)
    ensures Enabled(g, run[n], step)
  {
    RankedUnconfused(g, rank, depth);
    UnconfusedInv(g, run, steps, n);
    var y := FindForemost(g, run[n], rank, x);
    step := ForemostMoves(g, run[n], rank, depth, y);
  }

  // ---------------------------------------------------------------- every step is progress

  /** A frame is on one stack only, and there once. */
  lemma {:induction false} FrameOnce(g: Logs, s: State, x: nat, k: nat, y: nat, l: nat)
    requires Inv(g, s) && x < |s| && y < |s| && k < |StackOf(s[x].thread)| && l < |StackOf(s[y].thread)|
    requires StackOf(s[x].thread)[k].obj == StackOf(s[y].thread)[l].obj
    ensures x == y && k == l
    decreases k
  {
    StackAt(g, s, x);
    StackAt(g, s, y);
    var a, b := StackOf(s[x].thread), StackOf(s[y].thread);
    assert FrameOk(g, s, a, k) && FrameOk(g, s, b, l);
    if 0 < k && 0 < l { FrameOnce(g, s, x, k - 1, y, l - 1); }
  }

  /** Frames and stages agree. */
  ghost predicate FrameStage(s: State, f: Frame) {
    f.obj < |s| && s[f.obj].stage == if f.called then Called else Entered
  }

  /** A child that is at the entry of the call has not begun it. */
  ghost predicate CalleeFresh(g: Logs, s: State, th: Thread) {
    th.Calling? && th.stack != [] && th.child < |s| && HasEntry(g, th.child, s[th.child].last)
      && g.entries[th.child][s[th.child].last] == Nested(Top(th.stack).obj, Top(th.stack).entry + 1)
    ==> s[th.child].stage == Fresh
  }

  /** The method of a nested entry begins only once its parent has come to the call. */
  ghost predicate CallerBegan(g: Logs, s: State, z: nat)
    requires z < |s|
  {
    AtNested(g, s, z) && s[z].stage != Fresh && Here(g, s, z).parent < |s| ==>
      var p := s[Here(g, s, z).parent];
      Here(g, s, z).id <= p.last || (p.last + 1 == Here(g, s, z).id && 2 <= p.stage.Rank())
  }

  ghost predicate StagedAt(g: Logs, s: State, o: nat)
    requires o < |s|
  {
    && (s[o].thread == Between ==> s[o].stage == Fresh)
    && (forall k :: 0 <= k < |StackOf(s[o].thread)| ==> FrameStage(s, StackOf(s[o].thread)[k]))
    && CalleeFresh(g, s, s[o].thread) && CallerBegan(g, s, o)
  }

  ghost predicate Staged(g: Logs, s: State) {
    forall o :: 0 <= o < |s| ==> StagedAt(g, s, o)
  }

  /** Steps of one thread to or from its own waiting change no stage. */
  lemma StoreStaged(g: Logs, s: State, step: Step)
    requires Inv(g, s) && Staged(g, s) && Enabled(g, s, step) && (step.StoreParent? || step.StoreId?)
    ensures Staged(g, Next(g, s, step))
  {
    var s' := Next(g, s, step);
    forall x | 0 <= x < |s| ensures StagedAt(g, s', x) {
      assert StagedAt(g, s, x);
      forall k | 0 <= k < |StackOf(s'[x].thread)| ensures FrameStage(s', StackOf(s'[x].thread)[k]) {
        assert FrameStage(s, StackOf(s[x].thread)[k]);
      }
    }
  }

  /** An object that goes on leaves nobody behind. */
  lemma AdvanceStaged(g: Logs, s: State, s': State, o: nat)
    requires Inv(g, s) && Staged(g, s) && Advances(g, s, s', o)
    requires (s[o].thread == Waiting || |StackOf(s[o].thread)| == 1)
    ensures Staged(g, s')
  {
    forall x | 0 <= x < |s| ensures StagedAt(g, s', x) {
      assert StagedAt(g, s, x);
      if x != o {
        forall k | 0 <= k < |StackOf(s[x].thread)| ensures FrameStage(s', StackOf(s[x].thread)[k]) {
          assert FrameStage(s, StackOf(s[x].thread)[k]);
          NoFrameOn(g, s, s', o, x, k);
        }
      }
    }
  }

  lemma NoFrameOn(g: Logs, s: State, s': State, o: nat, x: nat, k: nat)
    requires Inv(g, s) && Advances(g, s, s', o) && x < |s| && x != o && k < |StackOf(s[x].thread)|
    ensures StackOf(s[x].thread)[k].obj != o
  {
    StackAt(g, s, x);
    var stack := StackOf(s[x].thread);
    assert FrameOk(g, s, stack, k);
    if 0 < k { assert FrameOk(g, s, stack, k - 1); }
  }

  /** Only the thread of `o` and the stage of `c`, which rises, have changed. */
  ghost predicate Raises(s: State, s': State, o: nat, c: nat) {
    && |s'| == |s| && o < |s| && c < |s|
    && (forall x :: 0 <= x < |s| ==> s'[x] == s[x].(thread := s'[x].thread, stage := s'[x].stage))
    && (forall x :: 0 <= x < |s| && x != o ==> s'[x].thread == s[x].thread)
    && (forall x :: 0 <= x < |s| && x != c ==> s'[x].stage == s[x].stage)
    && s[c].stage.Rank() < s'[c].stage.Rank() && s'[o].thread != Between
  }

  /** What is left to show of such a step. */
  lemma RaiseStaged(g: Logs, s: State, s': State, o: nat, c: nat)
    requires Staged(g, s) && Raises(s, s', o, c)
    requires forall k :: 0 <= k < |StackOf(s'[o].thread)| ==> FrameStage(s', StackOf(s'[o].thread)[k])
    requires forall x, k :: 0 <= x < |s| && x != o && 0 <= k < |StackOf(s[x].thread)| ==>
      StackOf(s[x].thread)[k].obj != c
    requires CalleeFresh(g, s', s'[o].thread) && CallerBegan(g, s', c) && s'[c].thread != Between
    requires forall x :: 0 <= x < |s| && x != o && s[x].thread.Calling? && s[x].thread.child == c ==>
      CalleeFresh(g, s', s[x].thread)
    ensures Staged(g, s')
  {
    forall x | 0 <= x < |s| ensures StagedAt(g, s', x) {
      assert StagedAt(g, s, x);
      forall k | 0 <= k < |StackOf(s'[x].thread)| ensures FrameStage(s', StackOf(s'[x].thread)[k]) {
        if x != o { assert FrameStage(s, StackOf(s[x].thread)[k]); }
      }
      if x != c { RaiseCaller(g, s, s', o, c, x); }
    }
  }

  lemma RaiseCaller(g: Logs, s: State, s': State, o: nat, c: nat, x: nat)
    requires Raises(s, s', o, c) && x < |s| && x != c && CallerBegan(g, s, x)
    ensures CallerBegan(g, s', x)
  {
    if AtNested(g, s, x) && Here(g, s, x).parent < |s| {
      var p := Here(g, s, x).parent;
      assert s'[p].last == s[p].last && s[p].stage.Rank() <= s'[p].stage.Rank();
    }
  }

  lemma StartStaged(g: Logs, s: State, o: nat)
    requires Inv(g, s) && Staged(g, s) && Enabled(g, s, Start(o))
    ensures Staged(g, Next(g, s, Start(o))) && Raises(s, Next(g, s, Start(o)), o, o)
  {
    var s' := Next(g, s, Start(o));
    assert StagedAt(g, s, o);
    forall x, k | 0 <= x < |s| && x != o && 0 <= k < |StackOf(s[x].thread)| ensures StackOf(s[x].thread)[k].obj != o {
      StackAt(g, s, x);
      assert FrameOk(g, s, StackOf(s[x].thread), k);
    }
    RaiseStaged(g, s, s', o, o);
  }

  /** The frame at place `k` of the stack of `o` is the only one of its object. */
  lemma OnlyFrame(g: Logs, s: State, o: nat, k: nat)
    requires Inv(g, s) && o < |s| && k < |StackOf(s[o].thread)|
    ensures forall x, l :: 0 <= x < |s| && 0 <= l < |StackOf(s[x].thread)| && (x != o || l != k) ==>
      StackOf(s[x].thread)[l].obj != StackOf(s[o].thread)[k].obj
  {
    forall x, l | 0 <= x < |s| && 0 <= l < |StackOf(s[x].thread)|
        && StackOf(s[x].thread)[l].obj == StackOf(s[o].thread)[k].obj
      ensures x == o && l == k
    {
      FrameOnce(g, s, x, l, o, k);
    }
  }

  /** An object whose method has begun is not the fresh callee of another thread. */
  lemma NotCallee(g: Logs, s: State, s': State, o: nat, c: nat)
    requires Staged(g, s) && Raises(s, s', o, c) && s[c].stage != Fresh
    ensures forall x :: 0 <= x < |s| && x != o && s[x].thread.Calling? && s[x].thread.child == c ==>
      CalleeFresh(g, s', s[x].thread)
  {
    forall x | 0 <= x < |s| && x != o && s[x].thread.Calling? && s[x].thread.child == c
      ensures CalleeFresh(g, s', s[x].thread) {
      assert StagedAt(g, s, x);
    }
  }

  lemma CallStaged(g: Logs, s: State, o: nat)
    requires Consistent(g) && Inv(g, s) && Staged(g, s) && Enabled(g, s, Call(o))
    ensures Staged(g, Next(g, s, Call(o))) && Raises(s, Next(g, s, Call(o)), o, Top(s[o].thread.stack).obj)
  {
    var s', stack := Next(g, s, Call(o)), s[o].thread.stack;
    var n := |stack| - 1;
    var f := stack[n];
    StackAt(g, s, o);
    assert FrameOk(g, s, stack, n) && StagedAt(g, s, o) && FrameStage(s, f);
    assert Raises(s, s', o, f.obj);
    OnlyFrame(g, s, o, n);
    CallFrames(s, s', o, stack);
    NotCallee(g, s, s', o, f.obj);
    CalledFresh(g, s, s', o, f);
    BusyThread(g, s, s', o, n);
    RaiseStaged(g, s, s', o, f.obj);
  }

  lemma CallFrames(s: State, s': State, o: nat, stack: seq<Frame>)
    requires stack != [] && o < |s| && s[o].thread == Running(stack) && |s'| == |s|
    requires StackOf(s'[o].thread) == stack[|stack| - 1 := Top(stack).(called := true)]
    requires forall k :: 0 <= k < |stack| ==> FrameStage(s, stack[k])
    requires forall l :: 0 <= l < |stack| - 1 ==> stack[l].obj != Top(stack).obj
    requires (forall x :: 0 <= x < |s| && x != Top(stack).obj ==> s'[x].stage == s[x].stage)
    requires Top(stack).obj < |s'| && s'[Top(stack).obj].stage == Called
    ensures forall k :: 0 <= k < |stack| ==> FrameStage(s', StackOf(s'[o].thread)[k])
  {
    forall k | 0 <= k < |stack| ensures FrameStage(s', StackOf(s'[o].thread)[k]) { assert FrameStage(s, stack[k]); }
  }

  /** At the call the child has not begun its entry, since the caller only now comes to it. */
  lemma CalledFresh(g: Logs, s: State, s': State, o: nat, f: Frame)
    requires Consistent(g) && Inv(g, s) && Staged(g, s) && Enabled(g, s, Call(o)) && f == Top(s[o].thread.stack)
    requires s' == Next(g, s, Call(o))
    requires f.obj < |s| && s[f.obj].last == f.entry && s[f.obj].stage == Entered && Raises(s, s', o, f.obj)
    ensures CalleeFresh(g, s', s'[o].thread) && CallerBegan(g, s', f.obj)
  {
    var z := g.calls[f.obj][f.entry].obj;
    assert CallMatches(g, f.obj, f.entry);
    assert StagedAt(g, s, z) && StagedAt(g, s, f.obj);
    assert CallerBegan(g, s, z) && CallerBegan(g, s, f.obj);
    if AtNested(g, s, z) && Here(g, s, z) == Nested(f.obj, f.entry + 1) {
      assert s[z].stage == Fresh;
      assert z != f.obj;
    }
    if AtNested(g, s, f.obj) && Here(g, s, f.obj).parent < |s| {
      var p := Here(g, s, f.obj).parent;
      assert s'[p].last == s[p].last && s[p].stage.Rank() <= s'[p].stage.Rank();
    }
  }

  /** The object of a frame is not between entries. */
  lemma BusyThread(g: Logs, s: State, s': State, o: nat, k: nat)
    requires Inv(g, s) && o < |s| && k < |StackOf(s[o].thread)| && Raises(s, s', o, StackOf(s[o].thread)[k].obj)
    ensures s'[StackOf(s[o].thread)[k].obj].thread != Between
  {
    StackAt(g, s, o);
    assert FrameOk(g, s, StackOf(s[o].thread), k);
  }

  lemma EnterStaged(g: Logs, s: State, o: nat)
    requires Consistent(g) && Unconfused(g) && Inv(g, s) && Staged(g, s) && Enabled(g, s, Enter(o))
    ensures Staged(g, Next(g, s, Enter(o))) && Raises(s, Next(g, s, Enter(o)), o, s[o].thread.child)
  {
    var s', stack, z := Next(g, s, Enter(o)), s[o].thread.stack, s[o].thread.child;
    StackAt(g, s, o);
    var f := Top(stack);
    assert FrameOk(g, s, stack, |stack| - 1);
    GateMatches(g, s, f.obj, f.entry, z);
    assert StagedAt(g, s, o) && CalleeFresh(g, s, s[o].thread) && s[z].stage == Fresh;
    assert Raises(s, s', o, z);
    FreshUnframed(g, s, z);
    forall k | 0 <= k < |StackOf(s'[o].thread)| ensures FrameStage(s', StackOf(s'[o].thread)[k]) {
      if k < |stack| { assert FrameStage(s, stack[k]); }
    }
    assert FrameStage(s, f);
    OnlyCaller(g, s, s', o, z);
    RaiseStaged(g, s, s', o, z);
  }

  lemma FreshUnframed(g: Logs, s: State, z: nat)
    requires Staged(g, s) && z < |s| && s[z].stage == Fresh
    ensures forall x, k :: 0 <= x < |s| && 0 <= k < |StackOf(s[x].thread)| ==> StackOf(s[x].thread)[k].obj != z
  {
    forall x, k | 0 <= x < |s| && 0 <= k < |StackOf(s[x].thread)| ensures StackOf(s[x].thread)[k].obj != z {
      assert StagedAt(g, s, x) && FrameStage(s, StackOf(s[x].thread)[k]);
    }
  }

  /** No other thread is at the call that this one has just got through. */
  lemma OnlyCaller(g: Logs, s: State, s': State, o: nat, z: nat)
    requires Inv(g, s) && Raises(s, s', o, z) && s[o].thread.Calling? && s[o].thread.stack != []
    requires HasEntry(g, z, s[z].last)
    requires g.entries[z][s[z].last] == Nested(Top(s[o].thread.stack).obj, Top(s[o].thread.stack).entry + 1)
    ensures forall x :: 0 <= x < |s| && x != o && s[x].thread.Calling? && s[x].thread.child == z ==>
      CalleeFresh(g, s', s[x].thread)
  {
    OnlyFrame(g, s, o, |s[o].thread.stack| - 1);
    forall x | 0 <= x < |s| && x != o && s[x].thread.Calling? && s[x].thread.child == z
      ensures CalleeFresh(g, s', s[x].thread) {
      if s[x].thread.stack != [] {
        assert StackOf(s[x].thread)[|s[x].thread.stack| - 1].obj != Top(s[o].thread.stack).obj;
      }
    }
  }

  lemma ReturnStaged(g: Logs, s: State, o: nat)
    requires Inv(g, s) && Staged(g, s) && Enabled(g, s, Return(o)) && 1 < |s[o].thread.stack|
    ensures Staged(g, Next(g, s, Return(o))) && Raises(s, Next(g, s, Return(o)), o, Top(s[o].thread.stack).obj)
  {
    var s', stack := Next(g, s, Return(o)), s[o].thread.stack;
    var n := |stack| - 1;
    var f := stack[n];
    StackAt(g, s, o);
    assert FrameOk(g, s, stack, n) && StagedAt(g, s, o) && FrameStage(s, f);
    assert Raises(s, s', o, f.obj);
    ReturnFrames(g, s, o);
    OnlyFrame(g, s, o, n);
    NotCallee(g, s, s', o, f.obj);
    BusyThread(g, s, s', o, n);
    SameCaller(g, s, s', o, f.obj);
    RaiseStaged(g, s, s', o, f.obj);
  }

  lemma ReturnFrames(g: Logs, s: State, o: nat)
    requires Inv(g, s) && Staged(g, s) && Enabled(g, s, Return(o)) && 1 < |s[o].thread.stack|
    ensures var s' := Next(g, s, Return(o));
      forall k :: 0 <= k < |StackOf(s'[o].thread)| ==> FrameStage(s', StackOf(s'[o].thread)[k])
  {
    var s', stack := Next(g, s, Return(o)), s[o].thread.stack;
    var n := |stack| - 1;
    StackAt(g, s, o);
    assert StagedAt(g, s, o);
    OnlyFrame(g, s, o, n);
    forall k | 0 <= k < |StackOf(s'[o].thread)| ensures FrameStage(s', StackOf(s'[o].thread)[k]) {
      assert FrameStage(s, stack[k]) && StackOf(s[o].thread)[k].obj != stack[n].obj;
    }
  }

  lemma SameCaller(g: Logs, s: State, s': State, o: nat, c: nat)
    requires Staged(g, s) && Raises(s, s', o, c) && s[c].stage != Fresh
    ensures CallerBegan(g, s', c)
  {
    assert StagedAt(g, s, c) && CallerBegan(g, s, c);
    if AtNested(g, s, c) && Here(g, s, c).parent < |s| {
      var p := Here(g, s, c).parent;
      assert s'[p].last == s[p].last && s[p].stage.Rank() <= s'[p].stage.Rank();
    }
  }

  // ---------------------------------------------------------------- the measure

  /** How far the thread of an object has come with waiting. */
  function Waited(th: Thread): nat {
    if th == Half then 1 else if th == Waiting then 2 else 0
  }

  /** What object `o` still has to do. */
  function Weight(g: Logs, s: State, o: nat): int
    requires o < |s| == |g.entries|
  {
    10 * (|g.entries[o]| - s[o].last) - Waited(s[o].thread) - s[o].stage.Rank()
  }

  function WeightFrom(g: Logs, s: State, o: nat): int
    requires o <= |s| == |g.entries|
    decreases |s| - o
  {
    if o == |s| then 0 else Weight(g, s, o) + WeightFrom(g, s, o + 1)
  }

  /** What all objects together still have to do. */
  function Measure(g: Logs, s: State): int
    requires |s| == |g.entries|
  {
    WeightFrom(g, s, 0)
  }

  lemma {:induction false} WeightFalls(g: Logs, s: State, s': State, o: nat, c: nat)
    requires |s'| == |s| == |g.entries| && o <= |s| && c < |s| && Weight(g, s', c) < Weight(g, s, c)
    requires forall x :: 0 <= x < |s| && x != c ==> Weight(g, s', x) == Weight(g, s, x)
    ensures if o <= c then WeightFrom(g, s', o) < WeightFrom(g, s, o) else WeightFrom(g, s', o) == WeightFrom(g, s, o)
    decreases |s| - o
  {
    if o < |s| { WeightFalls(g, s, s', o + 1, c); }
  }

  lemma {:induction false} WeightsNonNegative(g: Logs, s: State, o: nat)
    requires Inv(g, s) && Staged(g, s) && o <= |s|
    ensures 0 <= WeightFrom(g, s, o)
    decreases |s| - o
  {
    if o < |s| {
      WeightsNonNegative(g, s, o + 1);
      assert ObjOk(g, s, o) && StagedAt(g, s, o);
    }
  }

  lemma AdvanceFalls(g: Logs, s: State, s': State, o: nat)
    requires |s| == |g.entries| && Advances(g, s, s', o)
    ensures Measure(g, s') < Measure(g, s)
  {
    WeightFalls(g, s, s', 0, o);
  }

  lemma RaiseFalls(g: Logs, s: State, s': State, o: nat, c: nat)
    requires |s| == |g.entries| && Raises(s, s', o, c) && Waited(s'[o].thread) == Waited(s[o].thread)
    ensures Measure(g, s') < Measure(g, s)
  {
    WeightFalls(g, s, s', 0, c);
  }

  /** Every step of recovery keeps the stages in line and lowers the measure. */
  lemma StepFalls(g: Logs, s: State, step: Step)
    requires Consistent(g) && Unconfused(g) && Inv(g, s) && Staged(g, s) && Enabled(g, s, step)
    ensures Staged(g, Next(g, s, step)) && Measure(g, Next(g, s, step)) < Measure(g, s)
  {
    var s' := Next(g, s, step);
    match step
    case Start(o) => StartStaged(g, s, o); RaiseFalls(g, s, s', o, o);
    case Call(o) => CallStaged(g, s, o); RaiseFalls(g, s, s', o, Top(s[o].thread.stack).obj);
    case Enter(o) => EnterStaged(g, s, o); RaiseFalls(g, s, s', o, s[o].thread.child);
    case Return(o) =>
      if |s[o].thread.stack| == 1 {
        ReturnAdvances(g, s, o);
        AdvanceStaged(g, s, s', o);
        AdvanceFalls(g, s, s', o);
      } else {
        ReturnStaged(g, s, o);
        RaiseFalls(g, s, s', o, Top(s[o].thread.stack).obj);
      }
    case StoreParent(o) => StoreStaged(g, s, step); WeightFalls(g, s, s', 0, o);
    case StoreId(o) => StoreStaged(g, s, step); WeightFalls(g, s, s', 0, o);
    case Pass(o) =>
      PassAdvances(g, s, o);
      AdvanceStaged(g, s, s', o);
      AdvanceFalls(g, s, s', o);
  }

  lemma InitStaged(g: Logs, s: State)
    requires Init(g, s)
    ensures Staged(g, s)
  {
  }

  lemma {:induction false} RunStaged(g: Logs, run: seq<State>, steps: seq<Step>, i: nat)
    requires Consistent(g) && Unconfused(g) && IsRun(g, run, steps) && i < |run|
    ensures Inv(g, run[i]) && Staged(g, run[i]) && Measure(g, run[i]) + i <= Measure(g, run[0])
  {
    UnconfusedInv(g, run, steps, i);
    if i == 0 {
      InitStaged(g, run[0]);
    } else {
      RunStaged(g, run, steps, i - 1);
      StepFalls(g, run[i - 1], steps[i - 1]);
    }
  }

  /** No run is longer than the measure of its start. */
  lemma RunsEnd(g: Logs, run: seq<State>, steps: seq<Step>)
    requires Consistent(g) && Unconfused(g) && IsRun(g, run, steps)
    ensures |steps| <= Measure(g, run[0])
  {
    RunStaged(g, run, steps, |run| - 1);
    WeightsNonNegative(g, run[|run| - 1], 0);
  }

  // ---------------------------------------------------------------- recovery plays everything

  ghost predicate AllPlayed(g: Logs, s: State) {
    |s| == |g.entries| && forall o: nat :: o < |s| ==> !HasEntry(g, o, s[o].last)
  }

  /** If the logs follow one order, every run can be continued to one that has played every entry. */
  lemma {:induction false} Complete(g: Logs, run: seq<State>, steps: seq<Step>, rank: (nat, nat) -> nat,
                                    depth: (nat, nat) -> nat)
    returns (run': seq<State>, steps': seq<Step>)
    requires Consistent(g) && Ranked(g, rank, depth) && IsRun(g, run, steps) && |run[|run| - 1]| == |g.entries|
    ensures IsRun(g, run', steps') && AllPlayed(g, run'[|run'| - 1]) && run <= run'
    decreases Measure(g, run[|run| - 1])
  {
    var n := |run| - 1;
    run', steps' := run, steps;
    if !AllPlayed(g, run[n]) {
      RankedUnconfused(g, rank, depth);
      RunStaged(g, run, steps, n);
      WeightsNonNegative(g, run[n], 0);
      var x: nat :| x < |run[n]| && HasEntry(g, x, run[n][x].last);
      var step := NeverStuck(g, run, steps, n, rank, depth, x);
      StepFalls(g, run[n], step);
      var run1, steps1 := Go(g, run, steps, step);
      run', steps' := Complete(g, run1, steps1, rank, depth);
    }
  }

  /** First point from `n` on at which object `c` is past entry `j`, or the length of the run. */
  function PastFrom(run: seq<State>, c: nat, j: nat, n: nat): (r: nat)
    requires n <= |run|
    ensures n <= r <= |run|
    ensures r < |run| ==> c < |run[r]| && j < run[r][c].last
    ensures forall m :: n <= m < r ==> !(c < |run[m]| && j < run[m][c].last)
    decreases |run| - n
  {
    if n == |run| || (c < |run[n]| && j < run[n][c].last) then n else PastFrom(run, c, j, n + 1)
  }

  /** When object `c` completes entry `j`. */
  function Time(run: seq<State>, c: nat, j: nat): nat {
    PastFrom(run, c, j, 0)
  }

  /** When the outermost ancestor of entry `j` of `c` completes, and how deep below it the entry is. */
  function RootTime(g: Logs, run: seq<State>, c: nat, j: nat): (r: nat)
    ensures r <= Time(run, c, j)
    decreases Time(run, c, j)
  {
    if HasEntry(g, c, j) && g.entries[c][j].Nested? && 0 < g.entries[c][j].id
        && Time(run, g.entries[c][j].parent, g.entries[c][j].id - 1) < Time(run, c, j)
    then RootTime(g, run, g.entries[c][j].parent, g.entries[c][j].id - 1) else Time(run, c, j)
  }

  function RootDepth(g: Logs, run: seq<State>, c: nat, j: nat): nat
    decreases Time(run, c, j)
  {
    if HasEntry(g, c, j) && g.entries[c][j].Nested? && 0 < g.entries[c][j].id
        && Time(run, g.entries[c][j].parent, g.entries[c][j].id - 1) < Time(run, c, j)
    then 1 + RootDepth(g, run, g.entries[c][j].parent, g.entries[c][j].id - 1) else 0
  }

  /** A run that plays every entry. */
  ghost predicate Plays(g: Logs, run: seq<State>, steps: seq<Step>) {
    IsRun(g, run, steps) && AllPlayed(g, run[|run| - 1])
  }

  /** The completing step: it takes `c` from entry `j` to the next. */
  lemma Completing(g: Logs, run: seq<State>, steps: seq<Step>, c: nat, j: nat)
    requires Consistent(g) && Unconfused(g) && Plays(g, run, steps) && HasEntry(g, c, j)
    ensures
      var n := Time(run, c, j);
      && 0 < n < |run| && c < |run[n - 1]| && run[n - 1][c].last == j && Inv(g, run[n - 1])
      && Advances(g, run[n - 1], run[n], c)
      && run[n] == Next(g, run[n - 1], steps[n - 1])
  {
    var n := Time(run, c, j);
    UnconfusedInv(g, run, steps, |run| - 1);
    assert ObjOk(g, run[|run| - 1], c);
    assert n < |run|;
    UnconfusedInv(g, run, steps, 0);
    assert run[0][c].last == 0;
    UnconfusedInv(g, run, steps, n - 1);
    AdvanceStep(g, run[n - 1], steps[n - 1], c);
  }

  /** Only the two steps that complete an entry move an object, by one. */
  lemma AdvanceStep(g: Logs, s: State, step: Step, c: nat)
    requires Inv(g, s) && Enabled(g, s, step) && c < |s| && Next(g, s, step)[c].last != s[c].last
    ensures Advances(g, s, Next(g, s, step), c)
  {
    match step
    case Return(o) => if |s[o].thread.stack| == 1 { ReturnAdvances(g, s, o); }
    case Pass(o) => PassAdvances(g, s, o);
    case _ =>
  }

  /** A parent's entry completes before the nested one. */
  lemma ParentEarlier(g: Logs, run: seq<State>, steps: seq<Step>, c: nat, j: nat)
    requires Consistent(g) && Unconfused(g) && Plays(g, run, steps) && HasEntry(g, c, j) && g.entries[c][j].Nested?
    ensures var e := g.entries[c][j];
      0 < e.id && HasEntry(g, e.parent, e.id - 1) && Time(run, e.parent, e.id - 1) < Time(run, c, j)
  {
    var e, n := g.entries[c][j], Time(run, c, j);
    assert EntryMatches(g, c, j);
    Completing(g, run, steps, c, j);
    assert e.id <= run[n - 1][e.parent].last;
  }

  /** When an outermost entry completes, the objects of all entries below it sit at them. */
  lemma {:induction false} ChainSits(g: Logs, run: seq<State>, steps: seq<Step>, c: nat, k: nat)
    requires Consistent(g) && Unconfused(g) && Plays(g, run, steps) && HasEntry(g, c, k) && g.entries[c][k].Nested?
    ensures var n := RootTime(g, run, c, k);
      0 < n < |run| && c < |run[n - 1]| && run[n - 1][c].last == k && run[n - 1][c].Done()
    decreases Time(run, c, k), 0
  {
    ParentEarlier(g, run, steps, c, k);
    var e := g.entries[c][k];
    assert EntryMatches(g, c, k);
    OverAtRoot(g, run, steps, e.parent, e.id - 1, c);
    OverSits(g, run[RootTime(g, run, c, k) - 1], c, k);
  }

  /** Then every call made by an entry below it is over. */
  lemma {:induction false} OverAtRoot(g: Logs, run: seq<State>, steps: seq<Step>, p: nat, i: nat, c: nat)
    requires Consistent(g) && Unconfused(g) && Plays(g, run, steps) && Calls(g, p, i, c)
    ensures var n := RootTime(g, run, p, i); 0 < n < |run| && Over(g, run[n - 1], p, i, c)
    decreases Time(run, p, i), 1
  {
    var n := RootTime(g, run, p, i);
    if g.entries[p][i].Nested? {
      ChainSits(g, run, steps, p, i);
      UnconfusedInv(g, run, steps, n - 1);
      DoneOver(g, run[n - 1], p, i, c);
    } else {
      Completing(g, run, steps, p, i);
      CallsOver(g, run[n - 1], run[n], p, c);
    }
  }

  lemma CallsOver(g: Logs, s: State, s': State, p: nat, c: nat)
    requires Advances(g, s, s', p) && Calls(g, p, s[p].last, c)
    ensures Over(g, s, p, s[p].last, c)
  {
  }

  lemma OverSits(g: Logs, s: State, c: nat, k: nat)
    requires Consistent(g) && HasEntry(g, c, k) && g.entries[c][k].Nested? && 0 < g.entries[c][k].id
    requires Over(g, s, g.entries[c][k].parent, g.entries[c][k].id - 1, c)
    ensures s[c].last == k && s[c].Done()
  {
    OneEntry(g, c, c, s[c].last, k);
  }

  /** An object that is done with its entry is done with the call in it. */
  lemma DoneOver(g: Logs, s: State, p: nat, i: nat, c: nat)
    requires Inv(g, s) && p < |s| && s[p].last == i && s[p].Done() && Calls(g, p, i, c)
    ensures Over(g, s, p, i, c)
  {
    assert ObjOk(g, s, p);
  }

  /** So an earlier entry of the same log completes before the outermost ancestor of a later one does. */
  lemma RootRises(g: Logs, run: seq<State>, steps: seq<Step>, c: nat, j: nat, k: nat)
    requires Consistent(g) && Unconfused(g) && Plays(g, run, steps) && HasEntry(g, c, j) && HasEntry(g, c, k) && j < k
    ensures RootTime(g, run, c, j) < RootTime(g, run, c, k)
  {
    if g.entries[c][k].Nested? {
      ChainSits(g, run, steps, c, k);
    } else {
      Completing(g, run, steps, c, k);
    }
    var n := RootTime(g, run, c, k);
    assert j < run[n - 1][c].last;
    assert Time(run, c, j) <= n - 1;
  }

  /** A run that plays every entry gives an order that all logs follow. */
  lemma PlaysRanked(g: Logs, run: seq<State>, steps: seq<Step>)
    returns (rank: (nat, nat) -> nat, depth: (nat, nat) -> nat)
    requires Consistent(g) && Unconfused(g) && Plays(g, run, steps)
    ensures Ranked(g, rank, depth)
  {
    rank, depth := (c: nat, j: nat) => RootTime(g, run, c, j), (c: nat, j: nat) => RootDepth(g, run, c, j);
    forall c: nat, j: nat | HasEntry(g, c, j) ensures RankOk(g, rank, depth, c, j) {
      if g.entries[c][j].Nested? { ParentEarlier(g, run, steps, c, j); }
    }
    forall c: nat, j: nat, k: nat | HasEntry(g, c, j) && HasEntry(g, c, k) ensures Rises(rank, c, j, k) {
      if j < k { RootRises(g, run, steps, c, j, k); }
    }
  }

  ghost predicate SomeOrder(g: Logs) {
    exists rank: (nat, nat) -> nat, depth: (nat, nat) -> nat :: Ranked(g, rank, depth)
  }

  ghost predicate SomeRunPlays(g: Logs) {
    exists run: seq<State>, steps: seq<Step> :: Plays(g, run, steps)
  }

  /** Logs that match each other follow one order of the outermost transactions if and only if they confuse no object
      and some run of recovery plays every entry. */
  lemma RecoveryCompletes(g: Logs)
    requires Consistent(g)
    ensures SomeOrder(g) <==> Unconfused(g) && SomeRunPlays(g)
  {
    if SomeOrder(g) {
      var rank: (nat, nat) -> nat, depth: (nat, nat) -> nat :| Ranked(g, rank, depth);
      RankedUnconfused(g, rank, depth);
      var s: State := seq(|g.entries|, i => IDLE);
      var run, steps := Complete(g, [s], [], rank, depth);
      assert Plays(g, run, steps);
    }
    if Unconfused(g) && SomeRunPlays(g) {
      var run: seq<State>, steps: seq<Step> :| Plays(g, run, steps);
      var rank, depth := PlaysRanked(g, run, steps);
    }
  }
}
