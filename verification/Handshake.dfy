/**
 The handshake between a main thread and its persister over the call slots and the transaction buffer,
 with nested transactions. One step is one load or store of a shared word that the other side may change.
 */
module Handshakes {

  const MAX_ACTIVE := 15

  /** A log entry: its transaction, its object, its method tag or, if it is nested, the parent's entry and object, and
      whether it is committed. Entry number `n` has offset `n + 1`; zero stands for no entry. */
  datatype LogEntry =
    LogEntry(tx: nat, obj: nat, tag: nat, parentOffset: nat, parentObj: nat, nested: bool, committed: bool)

  /** An open transaction and the offset of its log entry, zero while it has none. */
  datatype Tx = Tx(id: nat, obj: nat, entry: nat)

  /** Main thread: running user code; having stored the object, counted the transaction up, cleared its offset; held
      back at the snapshot gate; let through after that; spinning in wait; about to commit an entry of transaction
      `tx`. */
  datatype Main =
    | Running | Opened(obj: nat) | Counted | Cleared | Blocked | Gated | Waiting | Closing(entry: nat, tx: nat)

  /** Persister: looking at its slot; having found it empty, and about to load the count for the first, second or third
      time; having seen a call in the slot; having appended an entry; having stored its offset. */
  datatype Persister = Looking | First | Second | Third | Extracting | Appended(entry: nat) | Noted

  /** `count` is the number of active transactions, `offsets[i + 1]` the log offset of transaction `i`. */
  datatype State = State(count: nat, objs: seq<nat>, tags: seq<nat>, offsets: seq<nat>, main: Main,
                         persister: Persister, active: nat, open: seq<Tx>, log: seq<LogEntry>, nextTx: nat)

  datatype Step =
    | Open(obj: nat) | Count | Clear | Block | Unblock | Publish(tag: nat) | Await | Pop | Commit
    | Look | Load1 | Load2 | Load3 | See | Back | Append | Note | Done

  predicate WellSized(s: State) {
    |s.objs| == MAX_ACTIVE && |s.tags| == MAX_ACTIVE && |s.offsets| == MAX_ACTIVE + 1 && s.count <= MAX_ACTIVE
  }

  /** The place of the persister is a slot of the buffer. */
  predicate InBounds(s: State) {
    s.active < MAX_ACTIVE
  }

  predicate OfPersister(step: Step) {
    step.Look? || step.Load1? || step.Load2? || step.Load3? || step.See? || step.Back? || step.Append? || step.Note?
        || step.Done?
  }

  /** A persister whose place is outside the buffer takes no step: what it would read is not a slot. */
  predicate Enabled(s: State, step: Step) {
    && WellSized(s) && (OfPersister(step) ==> InBounds(s))
    && match step
       case Open(_) => s.main == Running && s.count < MAX_ACTIVE
       case Count => s.main.Opened? && s.count < MAX_ACTIVE
       case Clear => s.main == Counted
       case Block => s.main == Cleared && s.count == 1
       case Unblock => s.main == Blocked
       case Publish(tag) => (s.main == Cleared || s.main == Gated) && tag != 0 && 0 < s.count
       case Await => s.main == Running && 0 < s.count
       case Pop => s.main == Waiting && 0 < s.count && s.tags[s.count - 1] == 0 && s.open != []
       case Commit => s.main.Closing? && 0 < s.main.entry <= |s.log|
       case Look => s.persister == Looking && s.tags[s.active] == 0
       case Load1 => s.persister == First
       case Load2 => s.persister == Second
       case Load3 => s.persister == Third
       case See => s.persister == Looking && s.tags[s.active] != 0
       case Back => s.persister == Extracting && 0 < s.active && s.offsets[s.active] == 0
       case Append => s.persister == Extracting && (s.active == 0 || s.offsets[s.active] != 0) && s.active < |s.open|
       case Note => s.persister.Appended?
       case Done => s.persister == Noted
  }

  /** One less, as an unsigned word. */
  function Minus1(count: nat): nat {
    if count == 0 then 0xFFFFFFFFFFFFFFFF else count - 1
  }

  function Next(s: State, step: Step): State
    requires Enabled(s, step)
  {
    match step
    case Open(obj) => s.(objs := s.objs[s.count := obj], main := Opened(obj))
    case Count => s.(count := s.count + 1, main := Counted, open := s.open + [Tx(s.nextTx, s.main.obj, 0)],
                     nextTx := s.nextTx + 1)
    case Clear => s.(offsets := s.offsets[s.count := 0], main := Cleared)
    case Block => s.(count := 0, main := Blocked)
    case Unblock => s.(count := 1, main := Gated)
    case Publish(tag) => s.(tags := s.tags[s.count - 1 := tag], main := Running)
    case Await => s.(main := Waiting)
    case Pop => s.(count := s.count - 1, main := Closing(s.offsets[s.count], s.open[|s.open| - 1].id),
                   open := s.open[..|s.open| - 1])
    case Commit => s.(log := s.log[s.main.entry - 1 := s.log[s.main.entry - 1].(committed := true)], main := Running)
    case Look => s.(persister := First)
    case Load1 => if s.count == 0 then s.(active := 0, persister := Looking) else s.(persister := Second)
    case Load2 => if Minus1(s.count) < s.active then s.(active := s.active - 1, persister := Looking)
        else s.(persister := Third)
    case Load3 => s.(active := if s.active < Minus1(s.count) then s.active + 1 else s.active, persister := Looking)
    case See => s.(persister := Extracting)
    case Back => s.(active := s.active - 1, persister := Looking)
    case Append =>
      var e := if s.active == 0 then LogEntry(s.open[0].id, s.objs[0], s.tags[0], 0, 0, false, false)
               else LogEntry(s.open[s.active].id, s.objs[s.active], 0, s.offsets[s.active], s.objs[s.active - 1],
                             true, false);
      s.(log := s.log + [e], persister := Appended(|s.log| + 1),
         open := s.open[s.active := s.open[s.active].(entry := |s.log| + 1)])
    case Note => s.(offsets := s.offsets[s.active + 1 := s.persister.entry], persister := Noted)
    case Done => s.(tags := s.tags[s.active := 0], persister := Looking)
  }

  ghost predicate Init(s: State) {
    && WellSized(s) && s.count == 0 && s.main == Running && s.persister == Looking && s.active == 0 && s.open == []
    && s.log == [] && s.nextTx == 0
    && forall i :: 0 <= i < MAX_ACTIVE ==> s.tags[i] == 0
  }

  // ---------------------------------------------------------------- invariant

  /** Transaction `i` is being opened: counted, but its call is not published yet. */
  predicate Fresh(s: State, i: nat) {
    i + 1 == |s.open| && (s.main == Counted || s.main == Cleared || s.main == Blocked || s.main == Gated)
  }

  /** The persister is at work on transaction `i`. */
  predicate AtWork(s: State, i: nat) {
    s.active == i && (s.persister.Appended? || s.persister.Noted?)
  }

  /** The entry of transaction `i`: its own object, and its parent's real offset and object. */
  ghost predicate EntryOk(s: State, i: nat)
    requires i < |s.open|
  {
    var t := s.open[i];
    t.entry != 0 ==>
      && t.entry <= |s.log|
      && var e := s.log[t.entry - 1];
      && e.tx == t.id && e.obj == t.obj && !e.committed && e.nested == (0 < i)
      && (0 < i ==>
          e.parentOffset == s.open[i - 1].entry && e.parentObj == s.open[i - 1].obj
              && 0 < s.open[i - 1].entry < t.entry)
  }

  /** Where transaction `i` stands: not published, waiting, in the persister's hands, or logged. */
  ghost predicate LevelOk(s: State, i: nat)
    requires WellSized(s) && i < |s.open| <= MAX_ACTIVE
  {
    && s.objs[i] == s.open[i].obj && s.open[i].id < s.nextTx
    && (Fresh(s, i) ==> s.tags[i] == 0 && s.open[i].entry == 0 && (s.main != Counted ==> s.offsets[i + 1] == 0))
    && (!Fresh(s, i) && s.tags[i] == 0 ==> s.open[i].entry != 0 && s.offsets[i + 1] == s.open[i].entry)
    && (s.tags[i] != 0 && s.open[i].entry == 0 ==> s.offsets[i + 1] == 0)
    && (s.tags[i] != 0 && s.open[i].entry != 0 ==> AtWork(s, i))
    && EntryOk(s, i)
  }

  ghost predicate PersisterOk(s: State)
    requires WellSized(s) && |s.open| <= MAX_ACTIVE
  {
    match s.persister
    case Extracting => s.active < |s.open| && s.tags[s.active] != 0 && s.open[s.active].entry == 0
    case Appended(x) => s.active < |s.open| && s.tags[s.active] != 0 && s.open[s.active].entry == x != 0
    case Noted => s.active < |s.open| && s.tags[s.active] != 0 && s.open[s.active].entry == s.offsets[s.active + 1] != 0
    case _ => true
  }

  ghost predicate MainOk(s: State)
    requires WellSized(s)
  {
    && (s.main == Blocked ==> s.count == 0 && |s.open| == 1)
    && (s.main != Blocked ==> s.count == |s.open|)
    && (s.main == Counted || s.main == Cleared || s.main == Gated ==> 0 < |s.open|)
    && (s.main.Opened? ==> |s.open| < MAX_ACTIVE && s.objs[|s.open|] == s.main.obj)
    && (s.main == Waiting ==> 0 < |s.open|)
    && (s.main.Closing? ==>
        0 < s.main.entry <= |s.log| && s.log[s.main.entry - 1].tx == s.main.tx && !s.log[s.main.entry - 1].committed)
  }

  /** Ancestors are logged, and done with, before their descendants. */
  ghost predicate Prefix(s: State)
    requires WellSized(s) && |s.open| <= MAX_ACTIVE
  {
    forall i, j :: 0 <= i < j < |s.open| && s.open[j].entry != 0 ==> s.open[i].entry != 0 && s.tags[i] == 0
  }

  /** No transaction has two entries, and one without entry occurs nowhere in the log. */
  ghost predicate OnceEach(s: State) {
    && (forall a, b :: 0 <= a < b < |s.log| ==> s.log[a].tx != s.log[b].tx)
    && (forall a :: 0 <= a < |s.log| ==> s.log[a].tx < s.nextTx)
    && (forall i, a :: 0 <= i < |s.open| && 0 <= a < |s.log| && s.open[i].entry == 0 ==> s.log[a].tx != s.open[i].id)
    && (forall i, j :: 0 <= i < j < |s.open| ==> s.open[i].id != s.open[j].id)
    && (forall i :: 0 <= i < |s.open| && s.main.Closing? ==> s.open[i].id != s.main.tx)
  }

  ghost predicate Inv(s: State) {
    && WellSized(s) && |s.open| <= MAX_ACTIVE
    && MainOk(s) && PersisterOk(s) && Prefix(s) && OnceEach(s)
    && (forall i :: 0 <= i < |s.open| ==> LevelOk(s, i))
    && (forall i :: |s.open| <= i < MAX_ACTIVE ==> s.tags[i] == 0)
  }

  lemma InitInv(s: State)
    requires Init(s)
    ensures Inv(s)
  {
  }

  // ---------------------------------------------------------------- main thread steps

  lemma OpenInv(s: State, obj: nat)
    requires Inv(s) && Enabled(s, Open(obj))
    ensures Inv(Next(s, Open(obj)))
  {
    var s' := Next(s, Open(obj));
    forall i | 0 <= i < |s'.open| ensures LevelOk(s', i) { assert LevelOk(s, i); }
  }

  lemma CountInv(s: State)
    requires Inv(s) && Enabled(s, Count)
    ensures Inv(Next(s, Count))
  {
    var s' := Next(s, Count);
    forall i | 0 <= i < |s'.open| ensures LevelOk(s', i) { CountLevel(s, i); }
    forall i | 0 <= i < |s.open| ensures s.open[i].id < s.nextTx { assert LevelOk(s, i); }
    CountOnce(s);
  }

  lemma CountLevel(s: State, i: nat)
    requires Inv(s) && Enabled(s, Count) && i < |s.open| + 1
    ensures LevelOk(Next(s, Count), i)
  {
    if i < |s.open| { assert LevelOk(s, i); }
  }

  lemma CountOnce(s: State)
    requires OnceEach(s) && Enabled(s, Count) && forall i :: 0 <= i < |s.open| ==> s.open[i].id < s.nextTx
    ensures OnceEach(Next(s, Count))
  {
  }

  lemma ClearInv(s: State)
    requires Inv(s) && Enabled(s, Clear)
    ensures Inv(Next(s, Clear))
  {
    var s' := Next(s, Clear);
    assert LevelOk(s, |s.open| - 1);
    forall i | 0 <= i < |s'.open| ensures LevelOk(s', i) { ClearLevel(s, i); }
  }

  lemma ClearLevel(s: State, i: nat)
    requires Inv(s) && Enabled(s, Clear) && i < |s.open|
    ensures LevelOk(Next(s, Clear), i)
  {
    assert LevelOk(s, i);
    assert LevelOk(s, |s.open| - 1);
  }

  lemma GateInv(s: State, step: Step)
    requires Inv(s) && Enabled(s, step) && (step == Block || step == Unblock)
    ensures Inv(Next(s, step))
  {
    var s' := Next(s, step);
    forall i | 0 <= i < |s'.open| ensures LevelOk(s', i) { assert LevelOk(s, i); }
  }

  lemma PublishInv(s: State, tag: nat)
    requires Inv(s) && Enabled(s, Publish(tag))
    ensures Inv(Next(s, Publish(tag)))
  {
    var s' := Next(s, Publish(tag));
    assert LevelOk(s, |s.open| - 1);
    forall i | 0 <= i < |s'.open| ensures LevelOk(s', i) { PublishLevel(s, tag, i); }
  }

  lemma PublishLevel(s: State, tag: nat, i: nat)
    requires Inv(s) && Enabled(s, Publish(tag)) && i < |s.open|
    ensures LevelOk(Next(s, Publish(tag)), i)
  {
    assert LevelOk(s, i);
    assert LevelOk(s, |s.open| - 1);
  }

  lemma AwaitInv(s: State)
    requires Inv(s) && Enabled(s, Await)
    ensures Inv(Next(s, Await))
  {
    var s' := Next(s, Await);
    forall i | 0 <= i < |s'.open| ensures LevelOk(s', i) { assert LevelOk(s, i); }
  }

  lemma PopInv(s: State)
    requires Inv(s) && Enabled(s, Pop)
    ensures Inv(Next(s, Pop))
  {
    var s' := Next(s, Pop);
    assert LevelOk(s, |s.open| - 1);
    forall i | 0 <= i < |s'.open| ensures LevelOk(s', i) { PopLevel(s, i); }
    PopOnce(s);
    PopRest(s);
  }

  lemma PopLevel(s: State, i: nat)
    requires Inv(s) && Enabled(s, Pop) && i < |s.open| - 1
    ensures LevelOk(Next(s, Pop), i)
  {
    assert LevelOk(s, i);
  }

  lemma PopOnce(s: State)
    requires OnceEach(s) && Enabled(s, Pop) && s.open != []
    ensures OnceEach(Next(s, Pop))
  {
  }

  lemma PopRest(s: State)
    requires Inv(s) && Enabled(s, Pop)
    ensures var s' := Next(s, Pop);
      && WellSized(s') && |s'.open| <= MAX_ACTIVE && MainOk(s') && PersisterOk(s') && Prefix(s')
      && forall i :: |s'.open| <= i < MAX_ACTIVE ==> s'.tags[i] == 0
  {
    assert LevelOk(s, |s.open| - 1);
  }

  lemma CommitInv(s: State)
    requires Inv(s) && Enabled(s, Commit)
    ensures Inv(Next(s, Commit))
  {
    var s' := Next(s, Commit);
    forall i | 0 <= i < |s'.open| ensures LevelOk(s', i) { CommitLevel(s, i); }
  }

  lemma CommitLevel(s: State, i: nat)
    requires Inv(s) && Enabled(s, Commit) && i < |s.open|
    ensures LevelOk(Next(s, Commit), i)
  {
    assert LevelOk(s, i);
    assert EntryOk(Next(s, Commit), i);
  }

  // ---------------------------------------------------------------- persister steps

  lemma LookInv(s: State, step: Step)
    requires Inv(s) && Enabled(s, step)
    requires (step.Look? || step.Load1? || step.Load2? || step.Load3? || step.See? || step.Back?)
    ensures Inv(Next(s, step))
  {
    var s' := Next(s, step);
    if step == See { SeeOk(s); }
    assert s' == s.(active := s'.active, persister := s'.persister);
    TurnInv(s, s');
  }

  lemma TurnInv(s: State, s': State)
    requires Inv(s) && s' == s.(active := s'.active, persister := s'.persister) && PersisterOk(s')
    requires !s.persister.Appended? && !s.persister.Noted? && !s'.persister.Appended? && !s'.persister.Noted?
    ensures Inv(s')
  {
    forall i | 0 <= i < |s'.open| ensures LevelOk(s', i) {
      LookLevel(s, s', i);
    }
  }

  lemma SeeOk(s: State)
    requires Inv(s) && Enabled(s, See)
    ensures PersisterOk(Next(s, See))
  {
    assert s.active < |s.open|;
    assert LevelOk(s, s.active);
  }

  lemma LookLevel(s: State, s': State, i: nat)
    requires WellSized(s) && WellSized(s') && i < |s.open| <= MAX_ACTIVE && LevelOk(s, i)
    requires s' == s.(active := s'.active, persister := s'.persister)
    requires !s.persister.Appended? && !s.persister.Noted? && !s'.persister.Appended? && !s'.persister.Noted?
    ensures LevelOk(s', i)
  {
    assert EntryOk(s', i);
  }

  /** The parent of the transaction that is logged has its entry, and its offset is the one read. */
  lemma ParentLogged(s: State)
    requires Inv(s) && Enabled(s, Append) && 0 < s.active
    ensures var p := s.open[s.active - 1]; p.entry == s.offsets[s.active] != 0 && s.tags[s.active - 1] == 0
  {
    assert LevelOk(s, s.active - 1);
  }

  lemma AppendLevels(s: State, i: nat)
    requires Inv(s) && Enabled(s, Append) && i < |s.open|
    ensures LevelOk(Next(s, Append), i)
  {
    var s' := Next(s, Append);
    assert LevelOk(s, i);
    if 0 < s.active { ParentLogged(s); assert LevelOk(s, s.active - 1); }
    assert s.active < i ==> s.open[i].entry == 0;
    assert EntryOk(s', i);
  }

  lemma AppendPrefix(s: State)
    requires Inv(s) && Enabled(s, Append)
    ensures Prefix(Next(s, Append))
  {
    var s' := Next(s, Append);
    if 0 < s.active { ParentLogged(s); }
  }

  lemma AppendInv(s: State)
    requires Inv(s) && Enabled(s, Append)
    ensures Inv(Next(s, Append))
  {
    var s' := Next(s, Append);
    forall i | 0 <= i < |s'.open| ensures LevelOk(s', i) { AppendLevels(s, i); }
    AppendPrefix(s);
    AppendOnce(s);
    assert LevelOk(s, s.active);
  }

  lemma AppendOnce(s: State)
    requires Inv(s) && Enabled(s, Append)
    ensures OnceEach(Next(s, Append))
  {
    var s' := Next(s, Append);
    assert LevelOk(s, s.active);
    forall i, a | 0 <= i < |s'.open| && 0 <= a < |s'.log| && s'.open[i].entry == 0
      ensures s'.log[a].tx != s'.open[i].id {
      if a == |s.log| && i != s.active {
        assert s.open[i].id != s.open[s.active].id;
      }
    }
  }

  lemma NoteInv(s: State)
    requires Inv(s) && Enabled(s, Note)
    ensures Inv(Next(s, Note))
  {
    var s' := Next(s, Note);
    assert LevelOk(s, s.active);
    forall i | 0 <= i < |s'.open| ensures LevelOk(s', i) { NoteLevel(s, i); }
  }

  lemma NoteLevel(s: State, i: nat)
    requires Inv(s) && Enabled(s, Note) && i < |s.open|
    ensures LevelOk(Next(s, Note), i)
  {
    assert LevelOk(s, i);
    assert LevelOk(s, s.active);
  }

  lemma DoneInv(s: State)
    requires Inv(s) && Enabled(s, Done)
    ensures Inv(Next(s, Done))
  {
    var s' := Next(s, Done);
    assert LevelOk(s, s.active);
    forall i | 0 <= i < |s'.open| ensures LevelOk(s', i) { DoneLevel(s, i); }
  }

  lemma DoneLevel(s: State, i: nat)
    requires Inv(s) && Enabled(s, Done) && i < |s.open|
    ensures LevelOk(Next(s, Done), i)
  {
    assert LevelOk(s, i);
    assert LevelOk(s, s.active);
  }

  lemma NextInv(s: State, step: Step)
    requires Inv(s) && Enabled(s, step)
    ensures Inv(Next(s, step))
  {
    match step
    case Open(obj) => OpenInv(s, obj);
    case Count => CountInv(s);
    case Clear => ClearInv(s);
    case Block => GateInv(s, step);
    case Unblock => GateInv(s, step);
    case Publish(tag) => PublishInv(s, tag);
    case Await => AwaitInv(s);
    case Pop => PopInv(s);
    case Commit => CommitInv(s);
    case Look => LookInv(s, step);
    case Load1 => LookInv(s, step);
    case Load2 => LookInv(s, step);
    case Load3 => LookInv(s, step);
    case See => LookInv(s, step);
    case Back => LookInv(s, step);
    case Append => AppendInv(s);
    case Note => NoteInv(s);
    case Done => DoneInv(s);
  }

  // ---------------------------------------------------------------- runs

  ghost predicate IsRun(run: seq<State>, steps: seq<Step>) {
    && |run| == |steps| + 1 && Init(run[0])
    && forall i :: 0 <= i < |steps| ==> Enabled(run[i], steps[i]) && run[i + 1] == Next(run[i], steps[i])
  }

  lemma {:induction false} RunInv(run: seq<State>, steps: seq<Step>, i: nat)
    requires IsRun(run, steps) && i < |run|
    ensures Inv(run[i])
  {
    if i == 0 {
      InitInv(run[0]);
    } else {
      RunInv(run, steps, i - 1);
      NextInv(run[i - 1], steps[i - 1]);
    }
  }

  /** In every interleaving: no transaction has two log entries; the entry of a nested transaction carries the
      offset and object of its parent's entry, which precedes it; and a transaction about to commit has its own,
      still uncommitted entry. */
  lemma HandshakeSafe(run: seq<State>, steps: seq<Step>, n: nat)
    requires IsRun(run, steps) && n < |run|
    ensures
      var s := run[n];
      && (forall a, b :: 0 <= a < b < |s.log| ==> s.log[a].tx != s.log[b].tx)
      && (forall i :: 0 <= i < |s.open| ==> EntryOk(s, i))
      && (s.main.Closing? ==>
          0 < s.main.entry <= |s.log| && s.log[s.main.entry - 1].tx == s.main.tx && !s.log[s.main.entry - 1].committed)
  {
    RunInv(run, steps, n);
    var s := run[n];
    forall i | 0 <= i < |s.open| ensures EntryOk(s, i) { assert LevelOk(s, i); }
  }

  /** A transaction leaves the stack only with an entry in the log. */
  lemma ClosedHasEntry(run: seq<State>, steps: seq<Step>, n: nat)
    requires IsRun(run, steps) && n < |steps| && steps[n] == Pop
    ensures
      var t, e := run[n].open[|run[n].open| - 1], run[n + 1].main.entry;
      && e == t.entry && 0 < e <= |run[n].log| && run[n].log[e - 1].tx == t.id && run[n].log[e - 1].obj == t.obj
  {
    RunInv(run, steps, n);
    assert LevelOk(run[n], |run[n].open| - 1);
  }

  // ---------------------------------------------------------------- the persister's place

  /** All open transactions are logged and their slots free. */
  ghost predicate AllLogged(s: State)
    requires WellSized(s) && |s.open| <= MAX_ACTIVE
  {
    forall i :: 0 <= i < |s.open| ==> s.tags[i] == 0 && !Fresh(s, i)
  }

  predicate Between(p: Persister) {
    p == Second || p == Third
  }

  /** How far the persister's place can be above the depth to which transactions were ever nested. After a call is
      logged it is below that depth. It gets above it by one when the main thread ends all transactions between the
      loads of one turn, and by another when a new transaction is held at the gate between the loads of a later turn. */
  ghost predicate ActiveOk(limit: nat, s: State)
    requires WellSized(s) && |s.open| <= MAX_ACTIVE
  {
    if AllLogged(s) then
      if s.open == [] && !Between(s.persister) then s.active <= limit else s.active < limit
    else if |s.open| == 1 && (s.main == Counted || s.main == Cleared || (s.main == Blocked && Between(s.persister)))
        then s.active <= limit
    else s.active <= limit + 1
  }

  /** Both kept by each step, while transactions are not nested deeper than `limit`. */
  lemma StepActive(limit: nat, s: State, step: Step)
    requires Inv(s) && Enabled(s, step) && ActiveOk(limit, s) && 0 < limit
    requires |Next(s, step).open| <= limit && |s.open| <= limit
    ensures Inv(Next(s, step)) && ActiveOk(limit, Next(s, step))
  {
    NextInv(s, step);
    if OfPersister(step) { PersisterActive(limit, s, step); } else { MainActive(limit, s, step); }
  }

  lemma MainActive(limit: nat, s: State, step: Step)
    requires Inv(s) && Enabled(s, step) && ActiveOk(limit, s) && Inv(Next(s, step)) && !OfPersister(step)
    ensures ActiveOk(limit, Next(s, step))
  {
    var s' := Next(s, step);
    match step
    case Open(_) => SameLogged(s, s');
    case Count => assert Fresh(s', |s.open|);
    case Clear => assert Fresh(s', |s.open| - 1) && Fresh(s, |s.open| - 1);
    case Block => assert Fresh(s', |s.open| - 1) && Fresh(s, |s.open| - 1);
    case Unblock => assert Fresh(s', |s.open| - 1) && Fresh(s, |s.open| - 1);
    case Publish(_) => assert s'.tags[|s.open| - 1] != 0 && Fresh(s, |s.open| - 1);
    case Await => SameLogged(s, s');
    case Pop => PopLogged(s);
    case Commit => SameLogged(s, s');
  }

  lemma PersisterActive(limit: nat, s: State, step: Step)
    requires Inv(s) && Enabled(s, step) && ActiveOk(limit, s) && Inv(Next(s, step)) && OfPersister(step)
    requires |s.open| <= limit && 0 < limit
    ensures ActiveOk(limit, Next(s, step))
  {
    var s' := Next(s, step);
    if step == Done {
      assert s'.active < |s.open|;
    } else {
      SameLogged(s, s');
      assert s.count == 0 ==> s.open == [] || s.main == Blocked;
      if s.main == Blocked { assert Fresh(s, 0); }
    }
  }

  lemma SameLogged(s: State, s': State)
    requires WellSized(s) && WellSized(s') && |s.open| == |s'.open| <= MAX_ACTIVE && s.tags == s'.tags
    requires forall i: nat :: i < |s.open| ==> (Fresh(s, i) <==> Fresh(s', i))
    ensures AllLogged(s) <==> AllLogged(s')
  {
  }

  /** A transaction is only ended when all those around it are logged. */
  lemma PopLogged(s: State)
    requires Inv(s) && Enabled(s, Pop)
    ensures AllLogged(s)
  {
    var n := |s.open| - 1;
    assert LevelOk(s, n);
    assert s.open[n].entry != 0;
  }

  ghost predicate Nests(run: seq<State>, limit: nat) {
    forall i :: 0 <= i < |run| ==> |run[i].open| <= limit
  }

  lemma {:induction false} RunActive(limit: nat, run: seq<State>, steps: seq<Step>, i: nat)
    requires IsRun(run, steps) && Nests(run, limit) && 0 < limit && i < |run|
    ensures Inv(run[i]) && ActiveOk(limit, run[i])
  {
    RunInv(run, steps, i);
    if 0 < i {
      RunActive(limit, run, steps, i - 1);
      StepActive(limit, run[i - 1], steps[i - 1]);
    }
  }

  /** Up to this depth of nesting the persister stays inside its buffer. */
  const SAFE_DEPTH := 13

  ghost predicate AlwaysInBounds(limit: nat) {
    forall run, steps :: IsRun(run, steps) && Nests(run, limit) ==> forall i :: 0 <= i < |run| ==> InBounds(run[i])
  }

  /** The persister stays inside its buffer in all runs, exactly if transactions are nested two levels less than the
      buffer has slots. */
  lemma InBoundsExact(limit: nat)
    ensures AlwaysInBounds(limit) <==> limit <= SAFE_DEPTH
  {
    if limit <= SAFE_DEPTH {
      forall run, steps, i | IsRun(run, steps) && Nests(run, limit) && 0 <= i < |run| ensures InBounds(run[i]) {
        assert Nests(run, SAFE_DEPTH);
        RunActive(SAFE_DEPTH, run, steps, i);
      }
    } else {
      var run, steps := Overshoots(SAFE_DEPTH + 1);
      assert Nests(run, limit);
      assert !InBounds(run[|run| - 1]);
    }
  }

  /** The main thread waits for its innermost call, which is in its slot. */
  ghost predicate Awaiting(s: State) {
    WellSized(s) && s.main == Waiting && 0 < |s.open| <= MAX_ACTIVE && s.tags[|s.open| - 1] != 0
  }

  ghost predicate CanMove(s: State) {
    exists step :: OfPersister(step) && Enabled(s, step)
  }

  ghost predicate NeverLeftWaiting(limit: nat) {
    forall run, steps :: IsRun(run, steps) && Nests(run, limit) ==> forall i :: 0 <= i < |run| && Awaiting(run[i]) ==>
        CanMove(run[i])
  }

  /** And exactly then the persister can move whenever the main thread waits for it. */
  lemma WaitExact(limit: nat)
    ensures NeverLeftWaiting(limit) <==> limit <= SAFE_DEPTH
  {
    if limit <= SAFE_DEPTH {
      forall run, steps, i | IsRun(run, steps) && Nests(run, limit) && 0 <= i < |run| && Awaiting(run[i])
        ensures CanMove(run[i]) {
        assert Nests(run, SAFE_DEPTH);
        RunActive(SAFE_DEPTH, run, steps, i);
        var step := PersisterCanMove(run[i]);
      }
    } else {
      var run, steps := Overshoots(SAFE_DEPTH + 1);
      assert Nests(run, limit);
      assert !CanMove(run[|run| - 1]);
    }
  }

  // Runs that take the persister furthest.

  lemma Go(limit: nat, run: seq<State>, steps: seq<Step>, step: Step) returns (run': seq<State>, steps': seq<Step>)
    requires IsRun(run, steps) && Nests(run, limit) && Enabled(run[|run| - 1], step)
    requires |Next(run[|run| - 1], step).open| <= limit
    ensures IsRun(run', steps') && Nests(run', limit) && run'[|run'| - 1] == Next(run[|run| - 1], step)
  {
    run', steps' := run + [Next(run[|run| - 1], step)], steps + [step];
  }

  /** `k` transactions are open and logged. */
  ghost predicate Nested(s: State, k: nat, p: Persister, active: nat) {
    && WellSized(s) && s.main == Running && s.count == |s.open| == k && s.persister == p && s.active == active
    && forall i :: 0 <= i < MAX_ACTIVE ==> s.tags[i] == 0
  }

  /** One more is published and not logged. */
  ghost predicate Published(s: State, k: nat, active: nat) {
    && WellSized(s) && s.main == Running && s.count == |s.open| == k + 1 && s.active == active && k < MAX_ACTIVE
    && s.tags[k] != 0
    && forall i :: 0 <= i < MAX_ACTIVE && i != k ==> s.tags[i] == 0
  }

  function Top(k: nat): nat {
    if k == 0 then 0 else k - 1
  }

  lemma GoPublish(limit: nat, run: seq<State>, steps: seq<Step>, k: nat) returns (run': seq<State>, steps': seq<Step>)
    requires IsRun(run, steps) && Nests(run, limit) && Nested(run[|run| - 1], k, Looking, Top(k))
    requires k < limit <= MAX_ACTIVE
    ensures IsRun(run', steps') && Nests(run', limit) && Published(run'[|run'| - 1], k, Top(k))
    ensures run'[|run'| - 1].persister == Looking
  {
    run', steps' := Go(limit, run, steps, Open(0));
    run', steps' := Go(limit, run', steps', Count);
    run', steps' := Go(limit, run', steps', Clear);
    run', steps' := Go(limit, run', steps', Publish(1));
  }

  lemma GoUp(limit: nat, run: seq<State>, steps: seq<Step>, k: nat) returns (run': seq<State>, steps': seq<Step>)
    requires IsRun(run, steps) && Nests(run, limit) && Published(run[|run| - 1], k, Top(k))
    requires run[|run| - 1].persister == Looking && k < limit <= MAX_ACTIVE
    ensures IsRun(run', steps') && Nests(run', limit) && Published(run'[|run'| - 1], k, k)
    ensures run'[|run'| - 1].persister == Looking
  {
    run', steps' := run, steps;
    if 0 < k {
      run', steps' := GoTurn(limit, run', steps');
      run', steps' := Go(limit, run', steps', Load3);
    }
  }

  /** A turn of the persister up to its third load. */
  lemma GoTurn(limit: nat, run: seq<State>, steps: seq<Step>) returns (run': seq<State>, steps': seq<Step>)
    requires IsRun(run, steps) && Nests(run, limit)
    requires var s := run[|run| - 1]; s.active < s.count && Enabled(s, Look)
    ensures IsRun(run', steps') && Nests(run', limit) && run'[|run'| - 1] == run[|run| - 1].(persister := Third)
  {
    run', steps' := Go(limit, run, steps, Look);
    run', steps' := Go(limit, run', steps', Load1);
    run', steps' := Go(limit, run', steps', Load2);
  }

  lemma ParentOffset(run: seq<State>, steps: seq<Step>, k: nat)
    requires IsRun(run, steps) && Published(run[|run| - 1], k, k)
    ensures 0 < k ==> run[|run| - 1].offsets[k] != 0
  {
    RunInv(run, steps, |run| - 1);
    if 0 < k { assert LevelOk(run[|run| - 1], k - 1); }
  }

  lemma GoAppend(limit: nat, run: seq<State>, steps: seq<Step>, k: nat) returns (run': seq<State>, steps': seq<Step>)
    requires IsRun(run, steps) && Nests(run, limit) && Published(run[|run| - 1], k, k)
    requires run[|run| - 1].persister == Looking
    requires k < limit <= MAX_ACTIVE
    ensures IsRun(run', steps') && Nests(run', limit) && Published(run'[|run'| - 1], k, k)
    ensures run'[|run'| - 1].persister.Appended?
  {
    ParentOffset(run, steps, k);
    run', steps' := Go(limit, run, steps, See);
    run', steps' := Go(limit, run', steps', Append);
  }

  lemma GoLog(limit: nat, run: seq<State>, steps: seq<Step>, k: nat) returns (run': seq<State>, steps': seq<Step>)
    requires IsRun(run, steps) && Nests(run, limit) && Published(run[|run| - 1], k, k)
    requires run[|run| - 1].persister.Appended?
    requires k < limit <= MAX_ACTIVE
    ensures IsRun(run', steps') && Nests(run', limit) && Nested(run'[|run'| - 1], k + 1, Looking, k)
  {
    run', steps' := Go(limit, run, steps, Note);
    run', steps' := Go(limit, run', steps', Done);
  }

  /** Transactions nested `k` deep, all logged. */
  lemma {:induction false} GoNested(limit: nat, k: nat) returns (run: seq<State>, steps: seq<Step>)
    requires k <= limit <= MAX_ACTIVE
    ensures IsRun(run, steps) && Nests(run, limit) && Nested(run[|run| - 1], k, Looking, Top(k))
  {
    if k == 0 {
      var s := State(0, seq(MAX_ACTIVE, _ => 0), seq(MAX_ACTIVE, _ => 0), seq(MAX_ACTIVE + 1, _ => 0), Running,
                     Looking, 0, [], [], 0);
      run, steps := [s], [];
    } else {
      run, steps := GoNested(limit, k - 1);
      run, steps := GoPublish(limit, run, steps, k - 1);
      run, steps := GoUp(limit, run, steps, k - 1);
      run, steps := GoAppend(limit, run, steps, k - 1);
      run, steps := GoLog(limit, run, steps, k - 1);
    }
  }

  lemma ClosingEntry(run: seq<State>, steps: seq<Step>)
    requires IsRun(run, steps) && run[|run| - 1].main.Closing?
    ensures 0 < run[|run| - 1].main.entry <= |run[|run| - 1].log|
  {
    RunInv(run, steps, |run| - 1);
  }

  /** The main thread ends its transactions while the persister stays where it is. */
  lemma {:induction false} GoEnd(limit: nat, run: seq<State>, steps: seq<Step>, k: nat, active: nat)
    returns (run': seq<State>, steps': seq<Step>)
    requires IsRun(run, steps) && Nests(run, limit) && Nested(run[|run| - 1], k, Third, active)
    requires k <= limit <= MAX_ACTIVE
    ensures IsRun(run', steps') && Nests(run', limit) && Nested(run'[|run'| - 1], 0, Third, active)
    decreases k
  {
    run', steps' := run, steps;
    if 0 < k {
      run', steps' := Go(limit, run', steps', Await);
      run', steps' := Go(limit, run', steps', Pop);
      ClosingEntry(run', steps');
      run', steps' := Go(limit, run', steps', Commit);
      run', steps' := GoEnd(limit, run', steps', k - 1, active);
    }
  }

  /** Two loads find `d` transactions, the third finds none: the persister's place is one above the highest slot ever
      used, which for `d == MAX_ACTIVE` is outside the buffer. */
  lemma OvershootsByOne(d: nat) returns (run: seq<State>, steps: seq<Step>)
    requires 0 < d <= MAX_ACTIVE
    ensures IsRun(run, steps) && Nests(run, d) && Nested(run[|run| - 1], 0, Looking, d)
  {
    run, steps := GoNested(d, d);
    run, steps := GoTurn(d, run, steps);
    run, steps := GoEnd(d, run, steps, d, d - 1);
    run, steps := Go(d, run, steps, Load3);
  }

  /** From there one more, where the main thread then waits for it: a new transaction is counted when the persister
      first loads the count, and held at the gate when it next does. */
  lemma Overshoots(d: nat) returns (run: seq<State>, steps: seq<Step>)
    requires 0 < d < MAX_ACTIVE
    ensures IsRun(run, steps) && Nests(run, d) && run[|run| - 1].active == d + 1 && Awaiting(run[|run| - 1])
  {
    run, steps := OvershootsTwice(d);
    run, steps := Go(d, run, steps, Unblock);
    run, steps := Go(d, run, steps, Publish(1));
    run, steps := Go(d, run, steps, Await);
  }

  lemma OvershootsTwice(d: nat) returns (run: seq<State>, steps: seq<Step>)
    requires 0 < d < MAX_ACTIVE
    ensures IsRun(run, steps) && Nests(run, d)
    ensures var s := run[|run| - 1]; WellSized(s) && s.active == d + 1 && s.main == Blocked && |s.open| == 1
  {
    run, steps := OvershootsByOne(d);
    run, steps := Go(d, run, steps, Open(0));
    run, steps := Go(d, run, steps, Count);
    run, steps := Go(d, run, steps, Look);
    run, steps := Go(d, run, steps, Load1);
    run, steps := Go(d, run, steps, Clear);
    run, steps := Go(d, run, steps, Block);
    run, steps := Go(d, run, steps, Load2);
    run, steps := Go(d, run, steps, Load3);
  }

  // ---------------------------------------------------------------- progress

  /** Lowest transaction, from `i` on, whose call is still in its slot. */
  function Lowest(tags: seq<nat>, i: nat): (k: nat)
    requires i <= |tags|
    ensures i <= k <= |tags| && (k < |tags| ==> tags[k] != 0) && forall j :: i <= j < k ==> tags[j] == 0
    decreases |tags| - i
  {
    if i == |tags| || tags[i] != 0 then i else Lowest(tags, i + 1)
  }

  function Distance(a: nat, b: nat): nat {
    if a < b then b - a else a - b
  }

  /** The turn of the persister rests on what is no longer so: its slot was empty and holds a call now, or its place was
      below the count. */
  predicate Stale(s: State)
    requires WellSized(s)
  {
    || (InBounds(s) && (s.persister == First || s.persister == Second || s.persister == Third) && s.tags[s.active] != 0)
    || (s.persister == Third && |s.open| <= s.active)
  }

  /** Steps the persister needs at most: for each pending call it walks to the lowest one and logs it. A turn it began
      before the call was published can lead it away from that call once. */
  function Measure(s: State): nat
    requires WellSized(s)
  {
    var k := Lowest(s.tags, 0);
    var pending := if k < |s.open| then |s.open| - k else 0;
    var rank :=
      match s.persister
      case Looking => 3 case First => 2 case Second => 1 case Extracting => 2 case Appended(_) => 1 case _ => 0;
    20 * pending + 4 * Distance(s.active, k) + rank + (if Stale(s) then 8 else 0)
  }

  /** The main thread spins for a call that is still in its slot. */
  ghost predicate Spinning(s: State) {
    Inv(s) && InBounds(s) && s.main == Waiting && s.tags[|s.open| - 1] != 0
  }

  /** While the main thread spins, all calls from the lowest pending one on are in their slots without entry. */
  lemma PendingSuffix(s: State, j: nat)
    requires Spinning(s) && Lowest(s.tags, 0) <= j < |s.open|
    ensures s.tags[j] != 0 && (Lowest(s.tags, 0) < j ==> s.open[j].entry == 0)
  {
    var k := Lowest(s.tags, 0);
    assert LevelOk(s, j);
    assert k < j ==> s.open[j].entry == 0;
  }

  lemma {:induction false} SameLowest(tags: seq<nat>, i: nat, k: nat)
    requires i <= k < |tags| && tags[k] != 0 && forall j :: i <= j < k ==> tags[j] == 0
    ensures Lowest(tags, i) == k
    decreases k - i
  {
    if i < k { SameLowest(tags, i + 1, k); }
  }

  /** The persister is never stuck. */
  lemma PersisterCanMove(s: State) returns (step: Step)
    requires Spinning(s)
    ensures OfPersister(step) && Enabled(s, step)
  {
    match s.persister
    case Looking => step := if s.tags[s.active] == 0 then Look else See;
    case First => step := Load1;
    case Second => step := Load2;
    case Third => step := Load3;
    case Extracting => step := if 0 < s.active && s.offsets[s.active] == 0 then Back else Append;
    case Appended(x) => step := Note;
    case Noted => step := Done;
  }

  /** Each of its steps brings the end of the spinning closer. */
  lemma PersisterProgress(s: State, step: Step)
    requires Spinning(s) && OfPersister(step) && Enabled(s, step)
    ensures var s' := Next(s, step); InBounds(s') && (Spinning(s') ==> Measure(s') < Measure(s))
  {
    var k := Lowest(s.tags, 0);
    LowestOpen(s);
    match step
    case Load3 => TurnMeasure(s, k);
    case Back => BackMeasure(s, k);
    case Done => DoneMeasure(s, k);
    case _ => WalkMeasure(s, step, k);
  }

  lemma WalkMeasure(s: State, step: Step, k: nat)
    requires Spinning(s) && Enabled(s, step) && k == Lowest(s.tags, 0) < |s.open|
    requires step == Look || step == Load1 || step == Load2 || step == See || step == Append || step == Note
    ensures var s' := Next(s, step); InBounds(s') && Measure(s') < Measure(s)
  {
  }

  lemma BackMeasure(s: State, k: nat)
    requires Spinning(s) && Enabled(s, Back) && k == Lowest(s.tags, 0) < |s.open|
    ensures var s' := Next(s, Back); InBounds(s') && Measure(s') < Measure(s)
  {
    ExtractAtLowest(s, k);
  }

  lemma TurnMeasure(s: State, k: nat)
    requires Spinning(s) && s.persister == Third && k == Lowest(s.tags, 0) < |s.open|
    ensures var s' := Next(s, Load3); InBounds(s') && Measure(s') < Measure(s)
  {
    if k <= s.active < |s.open| { PendingSuffix(s, s.active); }
  }

  lemma LowestOpen(s: State)
    requires Spinning(s)
    ensures Lowest(s.tags, 0) < |s.open|
  {
  }

  lemma ExtractAtLowest(s: State, k: nat)
    requires Spinning(s) && s.persister == Extracting && k == Lowest(s.tags, 0)
    ensures k <= s.active && (0 < s.active ==> (k < s.active <==> s.offsets[s.active] == 0))
  {
    if 0 < s.active {
      assert LevelOk(s, s.active - 1);
      if k < s.active { PendingSuffix(s, s.active - 1); }
    }
  }

  lemma DoneMeasure(s: State, k: nat)
    requires Spinning(s) && s.persister == Noted && k == Lowest(s.tags, 0)
    ensures var s' := Next(s, Done); Spinning(s') ==> Measure(s') < Measure(s)
  {
    var s' := Next(s, Done);
    assert k <= s.active;
    if k < s.active { PendingSuffix(s, s.active); }
    assert s.active == k;
    if Spinning(s') {
      PendingSuffix(s, k + 1);
      SameLowest(s'.tags, 0, k + 1);
    }
  }

  /** While the main thread spins, the persister answers within `Measure` of its own steps. */
  lemma {:induction false} AnswerArrives(run: seq<State>, steps: seq<Step>)
    requires |run| == |steps| + 1 && Spinning(run[0])
    requires forall i :: 0 <= i < |steps| ==>
      OfPersister(steps[i]) && Enabled(run[i], steps[i]) && run[i + 1] == Next(run[i], steps[i])
    requires Measure(run[0]) < |steps|
    ensures exists i :: 0 < i < |run| && Answered(run[i])
  {
    NextInv(run[0], steps[0]);
    PersisterProgress(run[0], steps[0]);
    if Spinning(run[1]) {
      var rest, later := run[1..], steps[1..];
      forall i | 0 <= i < |later|
        ensures OfPersister(later[i]) && Enabled(rest[i], later[i]) && rest[i + 1] == Next(rest[i], later[i]) {
        assert later[i] == steps[i + 1] && rest[i] == run[i + 1];
      }
      AnswerArrives(rest, later);
      var i :| 0 < i < |rest| && Answered(rest[i]);
      assert run[i + 1] == rest[i];
    } else {
      assert Answered(run[1]);
    }
  }

  /** The call the main thread waits for has been taken from its slot. */
  ghost predicate Answered(s: State) {
    Inv(s) && InBounds(s) && s.main == Waiting && s.tags[|s.open| - 1] == 0
  }

  // ---------------------------------------------------------------- waiting for a call

  /** What the persister does with its place `active` when it finds no call and `count` transactions: back to the first
      slot if there are none, and otherwise one step towards the slot of the innermost. */
  function Turn(active: nat, count: nat): nat {
    if count == 0 then 0
    else if active < count - 1 then active + 1
    else if active == count - 1 then active
    else active - 1
  }

  /** No call is in any slot, and the persister, in a turn that it began with this count, is between two looks. */
  ghost predicate Empty(s: State) {
    && WellSized(s) && InBounds(s) && (forall i :: 0 <= i < MAX_ACTIVE ==> s.tags[i] == 0)
    && match s.persister
       case Looking => true
       case First => true
       case Second => 0 < s.count
       case Third => s.active < s.count
       case _ => false
  }

  /** Four steps of the persister that the main thread does not disturb, or as few as it takes to look again. */
  lemma TurnExact(s: State, run: seq<State>, steps: seq<Step>)
    requires Empty(s) && s.persister == Looking && IsPersisterRun(run, steps) && run[0] == s && 4 <= |steps|
    ensures exists n :: 0 < n <= 4 && run[n] == s.(active := Turn(s.active, s.count))
  {
    assert steps[0] == Look && steps[1] == Load1;
    if s.count == 0 {
      assert run[2] == s.(active := 0);
    } else if s.count - 1 < s.active {
      assert steps[2] == Load2 && run[3] == s.(active := s.active - 1);
    } else {
      assert steps[2] == Load2 && steps[3] == Load3;
      assert run[4] == s.(active := Turn(s.active, s.count));
    }
  }

  ghost predicate IsPersisterRun(run: seq<State>, steps: seq<Step>) {
    && |run| == |steps| + 1
    && forall i :: 0 <= i < |steps| ==>
         OfPersister(steps[i]) && Enabled(run[i], steps[i]) && run[i + 1] == Next(run[i], steps[i])
  }

  /** Steps until the persister is at the slot of the innermost transaction, or at the first one if there are none. */
  function Walk(s: State): nat {
    var place := if s.count == 0 then 0 else s.count - 1;
    var rank := match s.persister case Looking => 3 case First => 2 case Second => 1 case _ => 0;
    if s.active == place then 0 else 4 * Distance(s.active, place) + rank + 1
  }

  /** While no call comes, the persister walks there and stays, changing nothing else. */
  lemma {:induction false} PersisterSettles(run: seq<State>, steps: seq<Step>)
    requires IsPersisterRun(run, steps) && Empty(run[0])
    ensures var s, s' := run[0], run[|steps|];
      && Empty(s') && s' == s.(active := s'.active, persister := s'.persister)
      && (Walk(s) <= |steps| ==> s'.active == if s.count == 0 then 0 else s.count - 1)
  {
    if steps != [] {
      WalkFalls(run[0], steps[0]);
      PersisterSettles(run[1..], steps[1..]);
    }
  }

  lemma WalkFalls(s: State, step: Step)
    requires Empty(s) && OfPersister(step) && Enabled(s, step)
    ensures var s' := Next(s, step);
      && Empty(s') && s' == s.(active := s'.active, persister := s'.persister)
      && (if Walk(s) == 0 then Walk(s') == 0 else Walk(s') < Walk(s))
  {
  }
}
