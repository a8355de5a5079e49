/**
 From the bytes of the log file to the replay of operations: what recovery plays of the file that a run has left.
 */
module LogReplays {
  import opened RedoLogs
  import opened Recoveries
  import CO = CommitOrders
  import SR = SnapshotReplays
  import GR = GatedRuns
  import FreezeGates

  /** How an operation is logged: its tag and argument bytes. */
  datatype Coding<!Op> = Coding(tag: Op -> nat, args: Op -> seq<Byte>)

  /** The id a crash leaves in the entry: the stored one, or zero. */
  function Kept<Op>(e: CO.LogEntry<Op>): nat {
    if e.stored then e.id else 0
  }

  /** The slots of the file are the entries of the log, entry `e` in slot `place[e]`, and reservations that were not
      filled. */
  ghost predicate Written<S, Op(!new)>(w: CO.World<S, Op>, slots: seq<Slot>, place: seq<nat>, code: Coding<Op>) {
    && |place| == |w.log| && (forall e, d :: 0 <= e < d < |place| ==> place[e] < place[d])
    && (forall e :: 0 <= e < |place| ==> Placed(w, slots, place, code, e))
    && forall j :: 0 <= j < |slots| && slots[j].Full? ==> j in place
  }

  ghost predicate Placed<S, Op(!new)>(w: CO.World<S, Op>, slots: seq<Slot>, place: seq<nat>, code: Coding<Op>, e: nat)
    requires e < |place| == |w.log|
  {
    && place[e] < |slots| && slots[place[e]].Full?
    && slots[place[e]].entry == Entry(Kept(w.log[e]), code.tag(w.log[e].op), code.args(w.log[e].op))
  }

  /** Slot `i` is where the log went on after entry `tail`. */
  ghost predicate Cut(place: seq<nat>, i: nat, tail: nat) {
    forall e :: 0 <= e < |place| ==> (i <= place[e] <==> tail <= e)
  }

  /** Ids in the slots from `i` on are the stored ids from entry `tail` on. */
  lemma SlotIds<S, Op(!new)>(w: CO.World<S, Op>, slots: seq<Slot>, place: seq<nat>, code: Coding<Op>, lock: Op -> nat,
                             i: nat, tail: nat)
    requires CO.Shaped(w, lock) && Written(w, slots, place, code) && i <= |slots| && Cut(place, i, tail)
    ensures forall c: nat :: 0 < c ==> (Wants(slots, i, c) <==> c in SR.StoredIds(w, tail))
    ensures DistinctIds(slots, i)
  {
    forall c: nat | 0 < c ensures Wants(slots, i, c) <==> c in SR.StoredIds(w, tail) {
      if Wants(slots, i, c) {
        var j :| Carries(slots, i, j, c);
        var e :| 0 <= e < |place| && place[e] == j;
        assert Placed(w, slots, place, code, e);
      }
      if c in SR.StoredIds(w, tail) {
        var e :| tail <= e < |w.log| && w.log[e].stored && w.log[e].id == c;
        assert Placed(w, slots, place, code, e);
        assert Carries(slots, i, place[e], c);
      }
    }
    forall j, k | i <= j < k < |slots| && slots[j].Full? && slots[k].Full? && slots[j].entry.commit != 0
      ensures slots[j].entry.commit != slots[k].entry.commit
    {
      var d :| 0 <= d < |place| && place[d] == j;
      var e :| 0 <= e < |place| && place[e] == k;
      assert Placed(w, slots, place, code, d) && Placed(w, slots, place, code, e);
      assert CO.EntryOk(w, d) && CO.EntryOk(w, e);
    }
  }

  /** A record of the scan stands for a filled slot. */
  lemma {:induction false} ExpectedFrom(slots: seq<Slot>, i: nat, r: Record)
    requires i <= |slots| && r in Expected(slots, i).records
    ensures exists j ::
      i <= j < |slots| && slots[j].Full? && r == RecordAt(slots, j, r.commit)
          && (r.commit == 0 || r.commit == slots[j].entry.commit)
    decreases |slots| - i
  {
    var j := FirstFull(slots, i);
    if j < |slots| {
      var s := Expected(slots, NextSlot(slots, j));
      if r in s.records { ExpectedFrom(slots, NextSlot(slots, j), r); }
    }
  }

  /** The scan does not find one id twice. */
  lemma {:induction false} ExpectedDistinct(slots: seq<Slot>, i: nat)
    requires i <= |slots| && DistinctIds(slots, i)
    ensures Distinct(Expected(slots, i).records)
    decreases |slots| - i
  {
    if i < |slots| && FirstFull(slots, i) < |slots| {
      var j := FirstFull(slots, i);
      var c := if slots[i].Full? then slots[i].entry.commit else 0;
      var n := NextSlot(slots, j);
      ExpectedDistinct(slots, n);
      var s := Expected(slots, n);
      forall q | q in s.records && c != 0 ensures q.commit != c {
        ExpectedFrom(slots, n, q);
      }
      PrependDistinct(RecordAt(slots, j, c), s);
    }
  }

  lemma PrependDistinct(r: Record, s: Scan)
    requires Distinct(s.records) && forall q :: q in s.records && r.commit != 0 ==> q.commit != r.commit
    ensures Distinct(Prepend(r, s).records)
  {
    var all := Prepend(r, s).records;
    forall i, j | 0 <= i < j < |all| && all[i].commit != 0 ensures all[i].commit != all[j].commit {
      assert all[j] == s.records[j - 1] && s.records[j - 1] in s.records;
    }
  }

  /** The entry played at a record: the one whose slot it stands for. */
  ghost predicate Plays<S, Op(!new)>(w: CO.World<S, Op>, slots: seq<Slot>, place: seq<nat>, code: Coding<Op>,
                                     r: Record, e: nat) {
    && e < |place| == |w.log| && place[e] < |slots| && r.ptr == Offset(slots, place[e]) + 24
    && r.commit == Kept(w.log[e])
    && r.tag == code.tag(w.log[e].op)
  }

  lemma RecordPlays<S, Op(!new)>(w: CO.World<S, Op>, slots: seq<Slot>, place: seq<nat>, code: Coding<Op>, i: nat,
                                 tail: nat, r: Record) returns (e: nat)
    requires Written(w, slots, place, code) && i <= |slots| && Cut(place, i, tail) && r in Expected(slots, i).records
    requires r.commit != 0
    ensures Plays(w, slots, place, code, r, e) && tail <= e && w.log[e].stored && w.log[e].id == r.commit
  {
    ExpectedFrom(slots, i, r);
    var j :| i <= j < |slots| && slots[j].Full? && r == RecordAt(slots, j, r.commit)
        && (r.commit == 0 || r.commit == slots[j].entry.commit);
    e :| 0 <= e < |place| && place[e] == j;
    assert Placed(w, slots, place, code, e);
  }

  /** The entries of the played records, in order. */
  lemma {:induction false} PlayedEntries<S, Op(!new)>(w: CO.World<S, Op>, slots: seq<Slot>, place: seq<nat>,
                                                      code: Coding<Op>, i: nat, tail: nat, played: seq<Record>,
                                                      last: nat) returns (entries: seq<nat>)
    requires Written(w, slots, place, code) && i <= |slots| && Cut(place, i, tail)
    requires forall k :: 0 <= k < |played| ==>
      played[k] in Expected(slots, i).records && played[k].commit == last + 1 + k
    ensures |entries| == |played|
    ensures forall k :: 0 <= k < |played| ==> Plays(w, slots, place, code, played[k], entries[k])
    ensures forall k :: 0 <= k < |played| ==>
      tail <= entries[k] < |w.log| && w.log[entries[k]].stored && w.log[entries[k]].id == last + 1 + k
    decreases |played|
  {
    entries := [];
    if played != [] {
      var n := |played| - 1;
      entries := PlayedEntries(w, slots, place, code, i, tail, played[..n], last);
      var e := RecordPlays(w, slots, place, code, i, tail, played[n]);
      entries := entries + [e];
    }
  }

  /** What recovery plays of the file, from slot `i` on with ids above `last`. With no entry directly behind a tight
      one, the scan's ids are distinct, and what is played is a replay of the log from entry `tail` on exactly when the
      tears spare the run of ids. */
  lemma RecoveryReplays<S, Op(!new)>(w: CO.World<S, Op>, slots: seq<Slot>, place: seq<nat>, code: Coding<Op>, f: File,
                                     lock: Op -> nat, i: nat, tail: nat, last: nat, played: seq<Record>)
                                       returns (entries: seq<nat>)
    requires CO.Shaped(w, lock) && Written(w, slots, place, code) && i <= |slots| && Cut(place, i, tail)
    requires Holds(f, slots) && NoOvershoot(slots, i)
    requires var records := ScanFrom(f, Offset(slots, i), Offset(slots, |slots|)).records;
      PlayedRun(records, played, last, RunEnd(Ids(records), last))
    ensures Distinct(ScanFrom(f, Offset(slots, i), Offset(slots, |slots|)).records) && |entries| == |played|
    ensures forall k :: 0 <= k < |played| ==> Plays(w, slots, place, code, played[k], entries[k])
    ensures SR.Replays(w, entries, tail, last) <==> TearsSpare(slots, i, last)
  {
    ScanFinds(f, slots, i);
    SlotIds(w, slots, place, code, lock, i, tail);
    ExpectedDistinct(slots, i);
    TornRun(slots, i, last);
    TornMembers(slots, i);
    RunEndAbove(Ids(Wanted(slots, i).records), SR.StoredIds(w, tail), last);
    entries := PlayedEntries(w, slots, place, code, i, tail, played, last);
  }

  /** Where a played record points, the file holds the arguments of the operation. */
  lemma PlaysArgs<S, Op(!new)>(w: CO.World<S, Op>, data: seq<Byte>, slots: seq<Slot>, place: seq<nat>,
                               code: Coding<Op>, r: Record, e: nat)
    requires Written(w, slots, place, code) && Laid(data, slots) && Plays(w, slots, place, code, r, e)
    ensures At(data, r.ptr, code.args(w.log[e].op))
  {
    assert Placed(w, slots, place, code, e);
    assert LaidSlot(data, slots, place[e]);
  }

  /** The file that a crash leaves: the log's entries and torn reservations, with zeros behind them, no entry directly
      behind a tight one. */
  ghost predicate Left<S, Op(!new)>(w: CO.World<S, Op>, data: seq<Byte>, slots: seq<Slot>, place: seq<nat>,
                                    code: Coding<Op>, play: DryRun) {
    && Written(w, slots, place, code) && Laid(data, slots) && AllParse(play, slots) && NoOvershoot(slots, 0)
    && forall k :: Offset(slots, |slots|) <= k < |data| ==> data[k] == 0
  }

  /** What `Recover` returns for the file from slot `i` on. */
  ghost predicate Recovered(data: seq<Byte>, play: DryRun, slots: seq<Slot>, i: nat, last: nat, played: seq<Record>)
    requires i <= |slots|
  {
    var records := ScanFrom(FileOf(data, play), Offset(slots, i), Offset(slots, |slots|)).records;
    PlayedRun(records, played, last, RunEnd(Ids(records), last))
  }

  /** The records and the entries stand for the same operations. */
  ghost predicate Stand<S, Op(!new)>(w: CO.World<S, Op>, slots: seq<Slot>, place: seq<nat>, code: Coding<Op>,
                                     played: seq<Record>, entries: seq<nat>) {
    |entries| == |played| && forall k :: 0 <= k < |played| ==> Plays(w, slots, place, code, played[k], entries[k])
  }

  /** The snapshot taken at the frozen point `f` saves the file offset of the tail, which is that of slot `i`; a crash
      at `c` leaves the file; and the tears spare both runs of ids. */
  ghost predicate FileLeft<S, Op(!new)>(run: seq<GR.Joint<S, Op>>, f: nat, c: nat, data: seq<Byte>, slots: seq<Slot>,
                                        place: seq<nat>, code: Coding<Op>, play: DryRun, i: nat)
  {
    && f <= c < |run| && run[f].gate.snapshot == FreezeGates.Frozen
    && Left(run[c].world, data, slots, place, code, play) && i <= |slots| && Cut(place, i, |run[f].world.log|)
    && TearsSpare(slots, i, |run[f].world.order|) && TearsSpare(slots, 0, 0)
  }

  /** From freeze to recovery on the bytes, for every run of gate and calls, every freeze and every crash: recovery from
      the saved offset into the saved state and recovery from the head into the initial state play the operations of log
      entries. The former reflects exactly the entries that the latter plays if and only if none of those in the
      snapshot is missing there and no entry before the saved tail got its id before one behind it; and then both end in
      the same state. */
  lemma FileRestore<S(!new), Op(!new)>(run: seq<GR.Joint<S, Op>>, moves: seq<GR.Move<Op>>, f: nat, c: nat, init: S,
                                       apply: (S, Op) -> S, lock: Op -> nat, data: seq<Byte>, slots: seq<Slot>,
                                       place: seq<nat>, code: Coding<Op>, play: DryRun, i: nat, fromTail: seq<Record>,
                                       fromStart: seq<Record>) returns (tailEntries: seq<nat>, headEntries: seq<nat>)
    requires GR.IsJointRun(run, moves, init, apply, lock) && CO.Commutes(apply, lock)
    requires FileLeft(run, f, c, data, slots, place, code, play, i)
    requires Recovered(data, play, slots, i, |run[f].world.order|, fromTail)
    requires Recovered(data, play, slots, 0, 0, fromStart)
    ensures Stand(run[c].world, slots, place, code, fromTail, tailEntries)
    ensures Stand(run[c].world, slots, place, code, fromStart, headEntries)
    ensures
      var a, b := run[f].world, run[c].world;
      && SR.Replays(b, tailEntries, |a.log|, |a.order|) && SR.Replays(b, headEntries, 0, 0)
      && (SR.Reflected(|a.log|, tailEntries) == SR.Entries(headEntries) <==>
            SR.NoneExtra(|a.log|, headEntries) && SR.NoneLost(|a.log|, |a.order|, headEntries))
      && (SR.Reflected(|a.log|, tailEntries) == SR.Entries(headEntries) ==>
            CO.Fold(a.live, SR.PlayedOps(b, tailEntries), apply) == CO.Fold(init, SR.PlayedOps(b, headEntries), apply))
  {
    var worlds, steps, at := GR.WorldRun(run, moves, |run| - 1, init, apply, lock);
    SR.RunGood(worlds, steps, at[c], at[c], init, apply, lock);
    LogHolds(data, slots, play);
    tailEntries := RecoveryReplays(run[c].world, slots, place, code, FileOf(data, play), lock, i, |run[f].world.log|,
                                   |run[f].world.order|, fromTail);
    headEntries := RecoveryReplays(run[c].world, slots, place, code, FileOf(data, play), lock, 0, 0, 0, fromStart);
    GR.GatedRestore(run, moves, f, c, tailEntries, headEntries, init, apply, lock);
  }

  /** End to end on the bytes: a freeze with no commit outstanding loses nothing. The two recoveries end in the same
      state, which is the live one if no call was under way at the crash. */
  lemma FileEndToEnd<S(!new), Op(!new)>(run: seq<GR.Joint<S, Op>>, moves: seq<GR.Move<Op>>, f: nat, c: nat, init: S,
                                        apply: (S, Op) -> S, lock: Op -> nat, data: seq<Byte>, slots: seq<Slot>,
                                        place: seq<nat>, code: Coding<Op>, play: DryRun, i: nat, fromTail: seq<Record>,
                                        fromStart: seq<Record>) returns (tailEntries: seq<nat>, headEntries: seq<nat>)
    requires GR.IsJointRun(run, moves, init, apply, lock) && CO.Commutes(apply, lock)
    requires FileLeft(run, f, c, data, slots, place, code, play, i)
    requires forall t: nat :: !FreezeGates.At(run[f].gate, t, FreezeGates.Committing)
    requires Recovered(data, play, slots, i, |run[f].world.order|, fromTail)
    requires Recovered(data, play, slots, 0, 0, fromStart)
    ensures Stand(run[c].world, slots, place, code, fromTail, tailEntries)
    ensures Stand(run[c].world, slots, place, code, fromStart, headEntries)
    ensures
      var restored := CO.Fold(run[f].world.live, SR.PlayedOps(run[c].world, tailEntries), apply);
      && restored == CO.Fold(init, SR.PlayedOps(run[c].world, headEntries), apply)
      && (SR.Quiet(run[c].world) ==> restored == run[c].world.live)
  {
    tailEntries,
        headEntries := FileRestore(run, moves, f, c, init, apply, lock, data, slots, place, code, play, i, fromTail,
                                   fromStart);
    GR.GatedEndToEnd(run, moves, f, c, tailEntries, headEntries, init, apply, lock);
  }
}
