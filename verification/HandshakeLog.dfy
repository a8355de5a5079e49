/**
 What the handshake leaves in the log: which calls it records, and which entries are committed.
 */
module HandshakeLogs {
  import opened Handshakes

  // ---------------------------------------------------------------- commits

  /** The transaction is open, or closed with its commit still to be written. */
  ghost predicate Pending(s: State, tx: nat) {
    || (exists i :: 0 <= i < |s.open| && s.open[i].id == tx)
    || (s.main.Closing? && s.main.tx == tx)
  }

  ghost predicate HasEntry(s: State, tx: nat) {
    exists a :: 0 <= a < |s.log| && s.log[a].tx == tx
  }

  /** Exactly the entries of transactions that are through are committed, and every such transaction has one. */
  ghost predicate Settled(s: State) {
    && (forall a :: 0 <= a < |s.log| ==> (s.log[a].committed <==> !Pending(s, s.log[a].tx)))
    && (forall tx: nat :: tx < s.nextTx ==> Pending(s, tx) || HasEntry(s, tx))
  }

  lemma SameSettled(s: State, s': State)
    requires Settled(s) && s'.log == s.log && s'.open == s.open && s'.nextTx == s.nextTx
    requires s.main.Closing? <==> s'.main.Closing?
    requires s.main.Closing? ==> s'.main.tx == s.main.tx
    ensures Settled(s')
  {
    forall tx: nat ensures (Pending(s', tx) <==> Pending(s, tx)) && (HasEntry(s', tx) <==> HasEntry(s, tx)) { }
  }

  lemma CountSettled(s: State)
    requires Settled(s) && OnceEach(s) && Enabled(s, Count)
    ensures Settled(Next(s, Count))
  {
    var s' := Next(s, Count);
    assert s'.open[|s.open|].id == s.nextTx;
    forall tx: nat ensures Pending(s', tx) <==> Pending(s, tx) || tx == s.nextTx {
      if Pending(s, tx) && !s.main.Closing? {
        var i :| 0 <= i < |s.open| && s.open[i].id == tx;
        assert s'.open[i].id == tx;
      }
    }
    forall tx: nat | HasEntry(s, tx) ensures HasEntry(s', tx) {
      var a :| 0 <= a < |s.log| && s.log[a].tx == tx;
      assert s'.log[a].tx == tx;
    }
  }

  lemma PopSettled(s: State)
    requires Settled(s) && Enabled(s, Pop)
    ensures Settled(Next(s, Pop))
  {
    var s', n := Next(s, Pop), |s.open| - 1;
    forall tx: nat ensures Pending(s', tx) <==> Pending(s, tx) {
      if Pending(s, tx) {
        var i :| 0 <= i < |s.open| && s.open[i].id == tx;
        if i < n { assert s'.open[i].id == tx; }
      }
      if i :| 0 <= i < |s'.open| && s'.open[i].id == tx { assert s.open[i].id == tx; }
    }
    forall tx: nat | HasEntry(s, tx) ensures HasEntry(s', tx) {
      var a :| 0 <= a < |s.log| && s.log[a].tx == tx;
      assert s'.log[a].tx == tx;
    }
  }

  lemma AppendSettled(s: State)
    requires Settled(s) && Enabled(s, Append)
    ensures Settled(Next(s, Append))
  {
    var s' := Next(s, Append);
    forall tx: nat ensures Pending(s', tx) <==> Pending(s, tx) {
      if i :| 0 <= i < |s.open| && s.open[i].id == tx { assert s'.open[i].id == tx; }
      if i :| 0 <= i < |s'.open| && s'.open[i].id == tx { assert s.open[i].id == tx; }
    }
    forall tx: nat | HasEntry(s, tx) ensures HasEntry(s', tx) {
      var a :| 0 <= a < |s.log| && s.log[a].tx == tx;
      assert s'.log[a].tx == tx;
    }
    assert s.open[s.active].id == s'.log[|s.log|].tx;
  }

  /** A commit step marks the entry of the transaction being closed, and no other. */
  lemma CommitMarks(s: State)
    requires Inv(s) && Enabled(s, Commit)
    ensures
      var s' := Next(s, Commit);
      && |s'.log| == |s.log| && s'.open == s.open && !s'.main.Closing?
      && forall a :: 0 <= a < |s.log| ==>
           s'.log[a] == if s.log[a].tx == s.main.tx then s.log[a].(committed := true) else s.log[a]
  {
    var e := s.main.entry - 1;
    forall a | 0 <= a < |s.log| ensures s.log[a].tx == s.main.tx <==> a == e {
      if a < e { assert s.log[a].tx != s.log[e].tx; }
      if e < a { assert s.log[e].tx != s.log[a].tx; }
    }
  }

  lemma CommitSettled(s: State)
    requires Inv(s) && Settled(s) && Enabled(s, Commit)
    ensures Settled(Next(s, Commit))
  {
    var s' := Next(s, Commit);
    CommitMarks(s);
    forall tx: nat ensures Pending(s', tx) <==> Pending(s, tx) && tx != s.main.tx { }
    forall tx: nat | HasEntry(s, tx) ensures HasEntry(s', tx) {
      var a :| 0 <= a < |s.log| && s.log[a].tx == tx;
      assert s'.log[a].tx == tx;
    }
    assert s'.log[s.main.entry - 1].tx == s.main.tx;
  }

  lemma StepSettled(s: State, step: Step)
    requires Inv(s) && Settled(s) && Enabled(s, step)
    ensures Settled(Next(s, step))
  {
    match step
    case Count => CountSettled(s);
    case Pop => PopSettled(s);
    case Commit => CommitSettled(s);
    case Append => AppendSettled(s);
    case _ => SameSettled(s, Next(s, step));
  }

  /** In every interleaving an entry is committed if and only if its transaction is neither open nor the one being
      closed, and every transaction that is through has an entry. */
  lemma {:induction false} CommitExact(run: seq<State>, steps: seq<Step>, n: nat)
    requires IsRun(run, steps) && n < |run|
    ensures Settled(run[n])
  {
    if 0 < n {
      CommitExact(run, steps, n - 1);
      RunInv(run, steps, n - 1);
      StepSettled(run[n - 1], steps[n - 1]);
    }
  }

  // ---------------------------------------------------------------- calls

  /** The objects and the method tags of the calls made so far, in order. */
  function Objects(steps: seq<Step>): seq<nat> {
    if steps == [] then []
    else
      var last := steps[|steps| - 1];
      Objects(steps[..|steps| - 1]) + if last.Open? then [last.obj] else []
  }

  function Tags(steps: seq<Step>): seq<nat> {
    if steps == [] then []
    else
      var last := steps[|steps| - 1];
      Tags(steps[..|steps| - 1]) + if last.Publish? then [last.tag] else []
  }

  /** The main thread has counted a transaction whose call is not published yet. */
  predicate Unpublished(m: Main) {
    m == Counted || m == Cleared || m == Blocked || m == Gated
  }

  /** How many calls there were, and which transaction is being opened. */
  ghost predicate Numbered(s: State, objs: seq<nat>, tags: seq<nat>) {
    && |objs| == s.nextTx + (if s.main.Opened? then 1 else 0) && (s.main.Opened? ==> s.main.obj == objs[s.nextTx])
    && |tags| == s.nextTx - (if Unpublished(s.main) then 1 else 0)
    && (Unpublished(s.main) ==> s.open != [] && s.open[|s.open| - 1].id == s.nextTx - 1)
  }

  /** An open transaction has the object of its call, and its slot the tag. */
  ghost predicate CallOk(s: State, objs: seq<nat>, tags: seq<nat>, i: nat)
    requires WellSized(s) && i < |s.open| <= MAX_ACTIVE
  {
    && s.open[i].id < |objs| && s.open[i].obj == objs[s.open[i].id]
    && (s.tags[i] != 0 ==> s.open[i].id < |tags| && s.tags[i] == tags[s.open[i].id])
  }

  /** A log entry has the object of its call, and the tag of an outermost one; a nested one names an earlier entry. */
  ghost predicate RecordOk(s: State, objs: seq<nat>, tags: seq<nat>, a: nat)
    requires a < |s.log|
  {
    var e := s.log[a];
    && e.tx < |objs| && e.obj == objs[e.tx]
    && (!e.nested ==> e.tx < |tags| && e.tag == tags[e.tx] && e.parentOffset == e.parentObj == 0)
    && (e.nested ==> e.tag == 0 && 0 < e.parentOffset <= a && s.log[e.parentOffset - 1].obj == e.parentObj
                     && s.log[e.parentOffset - 1].tx < e.tx)
  }

  ghost predicate Recorded(s: State, objs: seq<nat>, tags: seq<nat>) {
    && WellSized(s) && |s.open| <= MAX_ACTIVE && Numbered(s, objs, tags)
    && (forall i, j :: 0 <= i < j < |s.open| ==> s.open[i].id < s.open[j].id)
    && (forall i :: 0 <= i < |s.open| ==> s.open[i].id < s.nextTx && CallOk(s, objs, tags, i))
    && (forall a :: 0 <= a < |s.log| ==> RecordOk(s, objs, tags, a))
  }

  /** The call histories after a step. */
  function ObjectsAfter(objs: seq<nat>, step: Step): seq<nat> {
    objs + if step.Open? then [step.obj] else []
  }

  function TagsAfter(tags: seq<nat>, step: Step): seq<nat> {
    tags + if step.Publish? then [step.tag] else []
  }

  lemma StepRecorded(s: State, step: Step, objs: seq<nat>, tags: seq<nat>)
    requires Inv(s) && Enabled(s, step) && Inv(Next(s, step)) && Recorded(s, objs, tags)
    ensures Recorded(Next(s, step), ObjectsAfter(objs, step), TagsAfter(tags, step))
  {
    var s', objs', tags' := Next(s, step), ObjectsAfter(objs, step), TagsAfter(tags, step);
    StepNumbered(s, step, objs, tags);
    StepAscends(s, step);
    forall i | 0 <= i < |s'.open| ensures s'.open[i].id < s'.nextTx && CallOk(s', objs', tags', i) {
      StepCall(s, step, objs, tags, i);
    }
    forall a | 0 <= a < |s'.log| ensures RecordOk(s', objs', tags', a) {
      StepRecord(s, step, objs, tags, a);
    }
  }

  lemma StepNumbered(s: State, step: Step, objs: seq<nat>, tags: seq<nat>)
    requires Inv(s) && Enabled(s, step) && Numbered(s, objs, tags)
    ensures Numbered(Next(s, step), ObjectsAfter(objs, step), TagsAfter(tags, step))
  {
  }

  lemma StepAscends(s: State, step: Step)
    requires Enabled(s, step) && forall i :: 0 <= i < |s.open| ==> s.open[i].id < s.nextTx
    requires forall i, j :: 0 <= i < j < |s.open| ==> s.open[i].id < s.open[j].id
    ensures var open := Next(s, step).open; forall i, j :: 0 <= i < j < |open| ==> open[i].id < open[j].id
  {
  }

  lemma StepCall(s: State, step: Step, objs: seq<nat>, tags: seq<nat>, i: nat)
    requires Inv(s) && Enabled(s, step) && Recorded(s, objs, tags) && Inv(Next(s, step)) && i < |Next(s, step).open|
    ensures Next(s, step).open[i].id < Next(s, step).nextTx
    ensures CallOk(Next(s, step), ObjectsAfter(objs, step), TagsAfter(tags, step), i)
  {
    if i < |s.open| {
      assert CallOk(s, objs, tags, i) && LevelOk(s, i);
      if step.Publish? { PublishCall(s, step.tag, objs, tags, i); }
    }
  }

  lemma PublishCall(s: State, tag: nat, objs: seq<nat>, tags: seq<nat>, i: nat)
    requires Inv(s) && Enabled(s, Publish(tag)) && Recorded(s, objs, tags) && i < |s.open|
    ensures CallOk(Next(s, Publish(tag)), objs, tags + [tag], i)
  {
    assert CallOk(s, objs, tags, i) && LevelOk(s, i);
  }

  lemma StepRecord(s: State, step: Step, objs: seq<nat>, tags: seq<nat>, a: nat)
    requires Inv(s) && Enabled(s, step) && Recorded(s, objs, tags) && a < |Next(s, step).log|
    ensures RecordOk(Next(s, step), ObjectsAfter(objs, step), TagsAfter(tags, step), a)
  {
    if a < |s.log| {
      KeptRecord(s, Next(s, step), step, objs, tags, a);
    } else {
      AppendRecord(s, objs, tags);
    }
  }

  lemma KeptRecord(s: State, s': State, step: Step, objs: seq<nat>, tags: seq<nat>, a: nat)
    requires Enabled(s, step) && s' == Next(s, step) && a < |s.log| && RecordOk(s, objs, tags, a)
    ensures RecordOk(s', ObjectsAfter(objs, step), TagsAfter(tags, step), a)
  {
    forall b | 0 <= b < |s.log|
      ensures b < |s'.log| && s'.log[b] == s.log[b].(committed := s'.log[b].committed) {
    }
  }

  /** The new entry records the call in the persister's slot. */
  lemma AppendRecord(s: State, objs: seq<nat>, tags: seq<nat>)
    requires Inv(s) && Enabled(s, Append) && Recorded(s, objs, tags)
    ensures RecordOk(Next(s, Append), objs, tags, |s.log|)
  {
    assert CallOk(s, objs, tags, s.active) && LevelOk(s, s.active);
    if 0 < s.active {
      ParentLogged(s);
      assert LevelOk(s, s.active - 1) && EntryOk(s, s.active - 1);
    }
  }

  /** In every interleaving each log entry records the call of its transaction: the object that was notified, the
      method tag that was published if it is an outermost one, and for a nested one an earlier entry and its object. */
  lemma {:induction false} LogRecordsCalls(run: seq<State>, steps: seq<Step>, n: nat)
    requires IsRun(run, steps) && n < |run|
    ensures Recorded(run[n], Objects(steps[..n]), Tags(steps[..n]))
  {
    if 0 < n {
      LogRecordsCalls(run, steps, n - 1);
      RunInv(run, steps, n - 1);
      RunInv(run, steps, n);
      assert steps[..n][..n - 1] == steps[..n - 1];
      StepRecorded(run[n - 1], steps[n - 1], Objects(steps[..n - 1]), Tags(steps[..n - 1]));
    }
  }
}
