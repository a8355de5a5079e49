/**
 The hash map from the bytes of its log file: what recovery reads there, played into the map.
 */
module HashMapFiles {
  import opened RedoLogs
  import opened HashMaps
  import opened LogReplays
  import R = Recoveries
  import CO = CommitOrders
  import SR = SnapshotReplays
  import GR = GatedRuns
  import FreezeGates

  /** An insert is logged with its tag and its two strings. */
  function InsertCode(): Coding<Insert> {
    Coding((op: Insert) => INSERT_TAG, (op: Insert) => InsertArgs(op.key, op.value))
  }

  /** Keys and values are strings. */
  ghost predicate Strings<S>(w: CO.World<S, Insert>) {
    forall e :: 0 <= e < |w.log| ==> IsString(w.log[e].op.key) && IsString(w.log[e].op.value)
  }

  /** The insert that `Play` finds where a record points. */
  function InsertAt(data: seq<Byte>, r: R.Record): Insert {
    var args := if r.ptr <= |data| then data[r.ptr..] else [];
    Insert(KeyIn(args), ValueIn(args))
  }

  function Inserts(data: seq<Byte>, played: seq<R.Record>): (ops: seq<Insert>)
    ensures |ops| == |played| && forall k :: 0 <= k < |ops| ==> ops[k] == InsertAt(data, played[k])
  {
    seq(|played|, k requires 0 <= k < |played| => InsertAt(data, played[k]))
  }

  /** The scan can step over every entry of the file. */
  lemma InsertsParse<S>(w: CO.World<S, Insert>, slots: seq<Slot>, place: seq<nat>)
    requires Written(w, slots, place, InsertCode()) && Strings(w)
    ensures R.AllParse(DryRun, slots)
  {
    forall j | 0 <= j < |slots| && slots[j].Full?
      ensures R.Dry(DryRun, slots[j].entry) && !R.TopBit(slots[j].entry.tag)
    {
      var e :| 0 <= e < |place| && place[e] == j;
      assert Placed(w, slots, place, InsertCode(), e);
      InsertParses(Kept(w.log[e]), w.log[e].op.key, w.log[e].op.value);
    }
  }

  /** What is played from the bytes are the logged inserts. */
  lemma InsertsRead<S>(w: CO.World<S, Insert>, data: seq<Byte>, slots: seq<Slot>, place: seq<nat>,
                       played: seq<R.Record>, entries: seq<nat>)
    requires Written(w, slots, place, InsertCode()) && Strings(w) && Laid(data, slots)
    requires Stand(w, slots, place, InsertCode(), played, entries)
    ensures Inserts(data, played) == SR.PlayedOps(w, entries)
  {
    forall k | 0 <= k < |played| ensures InsertAt(data, played[k]) == w.log[entries[k]].op {
      var r, op := played[k], w.log[entries[k]].op;
      PlaysArgs(w, data, slots, place, InsertCode(), r, entries[k]);
      var args := InsertArgs(op.key, op.value);
      assert data[r.ptr..] == args + data[r.ptr + |args|..];
      ArgsRoundTrip(op.key, op.value, data[r.ptr + |args|..]);
    }
  }

  /** The map after the inserts. */
  function Played(hash: seq<Byte> -> nat, maps: map<nat, Table>, ops: seq<Insert>): map<nat, Table> {
    CO.Fold(maps, ops, (s: map<nat, Table>, op: Insert) => Apply(hash, s, op))
  }

  /** What a crash at `c` leaves of the log file, and the saved offset of a freeze at `f`. */
  ghost predicate MapFile(run: seq<GR.Joint<map<nat, Table>, Insert>>, f: nat, c: nat, data: seq<Byte>,
                          slots: seq<Slot>, place: seq<nat>, i: nat) {
    && f <= c < |run| && run[f].gate.snapshot == FreezeGates.Frozen && Strings(run[c].world)
    && Written(run[c].world, slots, place, InsertCode()) && Laid(data, slots) && R.NoOvershoot(slots, 0)
    && (forall k :: Offset(slots, |slots|) <= k < |data| ==> data[k] == 0)
    && i <= |slots| && Cut(place, i, |run[f].world.log|)
    && R.TearsSpare(slots, i, |run[f].world.order|) && R.TearsSpare(slots, 0, 0)
  }

  /** End to end for the hash map on the bytes of its log file, for every run of gate and inserts, every freeze and
      every crash. Playing the strings found behind the saved offset into the saved map gives the map that playing all
      strings in the file gives, if nothing is extra and nothing lost; with no commit outstanding at the freeze it does,
      and it is the live map if no insert was under way. */
  lemma MapFileEndToEnd(hash: seq<Byte> -> nat, run: seq<GR.Joint<map<nat, Table>, Insert>>,
                        moves: seq<GR.Move<Insert>>, f: nat, c: nat, init: map<nat, Table>, data: seq<Byte>,
                        slots: seq<Slot>, place: seq<nat>, i: nat, fromTail: seq<R.Record>, fromStart: seq<R.Record>)
                          returns (headEntries: seq<nat>)
    requires GR.IsJointRun(run, moves, init, (s: map<nat, Table>, op: Insert) => Apply(hash, s, op),
                           (op: Insert) => BucketOf(hash, op.key))
    requires MapFile(run, f, c, data, slots, place, i)
    requires Recovered(data, DryRun, slots, i, |run[f].world.order|, fromTail)
    requires Recovered(data, DryRun, slots, 0, 0, fromStart)
    ensures Stand(run[c].world, slots, place, InsertCode(), fromStart, headEntries)
    ensures
      var restored, replayed := Played(hash, run[f].world.live, Inserts(data, fromTail)),
          Played(hash, init, Inserts(data, fromStart));
      && (SR.NoneExtra(|run[f].world.log|, headEntries)
          && SR.NoneLost(|run[f].world.log|, |run[f].world.order|, headEntries) ==>
            restored == replayed)
      && ((forall t: nat :: !FreezeGates.At(run[f].gate, t, FreezeGates.Committing)) ==>
            restored == replayed && (SR.Quiet(run[c].world) ==> restored == run[c].world.live))
      && Elements(replayed, BUCKETS) == Elements(init, BUCKETS) + multiset(Inserts(data, fromStart))
      && Elements(restored, BUCKETS) == Elements(run[f].world.live, BUCKETS) + multiset(Inserts(data, fromTail))
      && (InPlace(hash, init) ==> InPlace(hash, replayed))
  {
    InsertsCommute(hash);
    InsertsParse(run[c].world, slots, place);
    var tailEntries;
    tailEntries, headEntries :=
      FileRestore(run, moves, f, c, init, (s: map<nat, Table>, op: Insert) => Apply(hash, s, op),
                  (op: Insert) => BucketOf(hash, op.key), data, slots, place, InsertCode(), DryRun, i,
                  fromTail, fromStart);
    InsertsRead(run[c].world, data, slots, place, fromTail, tailEntries);
    InsertsRead(run[c].world, data, slots, place, fromStart, headEntries);
    HashMapEndToEnd(hash, run, moves, f, c, tailEntries, headEntries, init);
    ReplayElements(hash, init, Inserts(data, fromStart), (s: map<nat, Table>, op: Insert) => Apply(hash, s, op));
    ReplayElements(hash, run[f].world.live, Inserts(data, fromTail),
                   (s: map<nat, Table>, op: Insert) => Apply(hash, s, op));
  }
}
