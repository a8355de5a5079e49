/**
 The bucket-locked hash map as a logged object: the bytes of its log entries, and its insert operation.
 */
module HashMaps {
  import opened RedoLogs
  import Recoveries
  import CommitOrders
  import SnapshotReplays
  import GatedRuns
  import FreezeGates

  const BUCKETS := 32
  const INSERT_TAG := 1

  // ---------------------------------------------------------------- log entries

  /** Length of the string at the front, up to its zero byte. */
  function StrLen(s: seq<Byte>): (n: nat)
    ensures n <= |s|
  {
    if s == [] || s[0] == 0 then 0 else 1 + StrLen(s[1..])
  }

  ghost predicate IsString(s: seq<Byte>) {
    forall i :: 0 <= i < |s| ==> s[i] != 0
  }

  /** Key and value, each with its terminating zero. */
  function InsertArgs(key: seq<Byte>, value: seq<Byte>): seq<Byte> {
    key + [0] + value + [0]
  }

  function KeyIn(args: seq<Byte>): seq<Byte> {
    args[..StrLen(args)]
  }

  function ValueIn(args: seq<Byte>): seq<Byte> {
    var rest := if StrLen(args) < |args| then args[StrLen(args) + 1..] else [];
    rest[..StrLen(rest)]
  }

  /** The dry run of `Play`. */
  function DryRun(tag: nat, args: seq<Byte>): nat {
    |KeyIn(args)| + |ValueIn(args)| + 2
  }

  lemma {:induction false} StrLenOf(s: seq<Byte>, rest: seq<Byte>)
    requires IsString(s)
    ensures StrLen(s + [0] + rest) == |s|
  {
    if s == [] {
      assert s + [0] + rest == [0] + rest;
    } else {
      StrLenOf(s[1..], rest);
      assert (s + [0] + rest)[1..] == s[1..] + [0] + rest;
    }
  }

  /** Playing a logged insert finds the key and the value that were logged, whatever follows them. */
  lemma ArgsRoundTrip(key: seq<Byte>, value: seq<Byte>, rest: seq<Byte>)
    requires IsString(key) && IsString(value)
    ensures KeyIn(InsertArgs(key, value) + rest) == key && ValueIn(InsertArgs(key, value) + rest) == value
  {
    var all := InsertArgs(key, value) + rest;
    assert all == key + [0] + (value + [0] + rest);
    StrLenOf(key, value + [0] + rest);
    assert all[|key| + 1..] == value + [0] + rest;
    StrLenOf(value, rest);
  }

  /** So the log scan can step over the entries of a hash map. */
  lemma InsertParses(commit: nat, key: seq<Byte>, value: seq<Byte>)
    requires IsString(key) && IsString(value)
    ensures Recoveries.Dry(DryRun, Entry(commit, INSERT_TAG, InsertArgs(key, value))) && !Recoveries.TopBit(INSERT_TAG)
  {
    forall rest: seq<Byte> ensures DryRun(INSERT_TAG, InsertArgs(key, value) + rest) == |InsertArgs(key, value)| {
      ArgsRoundTrip(key, value, rest);
    }
  }

  // ---------------------------------------------------------------- the operation

  datatype Insert = Insert(key: seq<Byte>, value: seq<Byte>)

  /** The elements of one bucket. Keys are compared as pointers and every call comes with buffers of its own, so that no
      insert finds its key in the map; what an element holds are the strings. */
  type Table = multiset<Insert>

  function BucketOf(hash: seq<Byte> -> nat, key: seq<Byte>): nat {
    hash(key) % BUCKETS
  }

  function Apply(hash: seq<Byte> -> nat, maps: map<nat, Table>, op: Insert): map<nat, Table> {
    var b := BucketOf(hash, op.key);
    maps[b := (if b in maps then maps[b] else multiset{}) + multiset{op}]
  }

  /** An insert adds its own pair to the bucket of its key, one of 32, and leaves all other buckets alone. */
  lemma InsertAdds(hash: seq<Byte> -> nat, maps: map<nat, Table>, key: seq<Byte>, value: seq<Byte>)
    ensures
      var maps' := Apply(hash, maps, Insert(key, value));
      forall b: nat, k: seq<Byte>, v: seq<Byte> ::
        CountIn(maps', b, k, v) ==
          CountIn(maps, b, k, v) + if b == hash(key) % 32 && k == key && v == value then 1 else 0
  {
  }

  /** How often a bucket holds the pair. */
  function CountIn(maps: map<nat, Table>, b: nat, key: seq<Byte>, value: seq<Byte>): nat {
    if b in maps then maps[b][Insert(key, value)] else 0
  }

  /** The elements of the first `n` buckets together. */
  function Elements(maps: map<nat, Table>, n: nat): Table {
    if n == 0 then multiset{} else Elements(maps, n - 1) + if n - 1 in maps then maps[n - 1] else multiset{}
  }

  /** Every element is in the bucket of its key. */
  ghost predicate InPlace(hash: seq<Byte> -> nat, maps: map<nat, Table>) {
    forall b, op :: b in maps && op in maps[b] ==> b == hash(op.key) % 32
  }

  lemma {:induction false} InsertElements(hash: seq<Byte> -> nat, maps: map<nat, Table>, op: Insert, n: nat)
    ensures Elements(Apply(hash, maps, op), n) ==
      Elements(maps, n) + if BucketOf(hash, op.key) < n then multiset{op} else multiset{}
  {
    if 0 < n { InsertElements(hash, maps, op, n - 1); }
  }

  /** A replay adds exactly the replayed inserts, each to the bucket of its key. */
  lemma {:induction false} ReplayElements(hash: seq<Byte> -> nat, maps: map<nat, Table>, ops: seq<Insert>,
                                          apply: (map<nat, Table>, Insert) -> map<nat, Table>)
    requires forall s: map<nat, Table>, op: Insert :: apply(s, op) == Apply(hash, s, op)
    ensures Elements(CommitOrders.Fold(maps, ops, apply), BUCKETS) == Elements(maps, BUCKETS) + multiset(ops)
    ensures InPlace(hash, maps) ==> InPlace(hash, CommitOrders.Fold(maps, ops, apply))
    decreases |ops|
  {
    if ops != [] {
      InsertElements(hash, maps, ops[0], BUCKETS);
      InsertInPlace(hash, maps, ops[0]);
      assert apply(maps, ops[0]) == Apply(hash, maps, ops[0]);
      ReplayElements(hash, Apply(hash, maps, ops[0]), ops[1..], apply);
      AddedFirst(Elements(maps, BUCKETS), ops);
    }
  }

  lemma AddedFirst(table: Table, ops: seq<Insert>)
    requires ops != []
    ensures table + multiset{ops[0]} + multiset(ops[1..]) == table + multiset(ops)
  {
    assert ops == [ops[0]] + ops[1..];
  }

  lemma InsertInPlace(hash: seq<Byte> -> nat, maps: map<nat, Table>, op: Insert)
    ensures InPlace(hash, maps) ==> InPlace(hash, Apply(hash, maps, op))
  {
  }

  /** Inserts into different buckets commute. */
  lemma InsertsCommute(hash: seq<Byte> -> nat)
    ensures CommitOrders.Commutes((s: map<nat, Table>, op: Insert) => Apply(hash, s, op),
                                  (op: Insert) => BucketOf(hash, op.key))
  {
    forall s: map<nat, Table>, x: Insert, y: Insert | BucketOf(hash, x.key) != BucketOf(hash, y.key)
      ensures Apply(hash, Apply(hash, s, x), y) == Apply(hash, Apply(hash, s, y), x)
    {
      var a, b := BucketOf(hash, x.key), BucketOf(hash, y.key);
      var p := (if a in s then s[a] else multiset{}) + multiset{x};
      var q := (if b in s then s[b] else multiset{}) + multiset{y};
      assert Apply(hash, Apply(hash, s, x), y) == s[a := p][b := q];
      assert s[a := p][b := q] == s[b := q][a := p];
    }
  }

  /** For every interleaving of inserting threads: whenever no applied insert waits for its commit id, the
      live map is the replay of the inserts in commit order. */
  lemma HashMapReplay(hash: seq<Byte> -> nat, run: seq<CommitOrders.World<map<nat, Table>, Insert>>,
                      steps: seq<CommitOrders.Step<Insert>>, i: nat, init: map<nat, Table>)
    requires
      CommitOrders.IsRun(run, steps, init, (s: map<nat, Table>, op: Insert) => Apply(hash, s, op),
                         (op: Insert) => BucketOf(hash, op.key))
    requires i < |run| && forall t: nat :: !CommitOrders.AtPhase(run[i].threads, t, CommitOrders.Applied)
    ensures run[i].live ==
      CommitOrders.Fold(init, CommitOrders.Ops(run[i].order), (s: map<nat, Table>, op: Insert) => Apply(hash, s, op))
    ensures Elements(run[i].live, BUCKETS) == Elements(init, BUCKETS) + multiset(CommitOrders.Ops(run[i].order))
    ensures InPlace(hash, init) ==> InPlace(hash, run[i].live)
  {
    InsertsCommute(hash);
    ReplayElements(hash, init, CommitOrders.Ops(run[i].order), (s: map<nat, Table>, op: Insert) => Apply(hash, s, op));
    CommitOrders.LiveIsReplay(run, steps, i, init, (s: map<nat, Table>, op: Insert) => Apply(hash, s, op),
                              (op: Insert) => BucketOf(hash, op.key));
  }

  /** End to end for the hash map, for every run of gate and inserts, every frozen point and every later crash: the map
      restored from the snapshot and brought up to date from the log is the one a replay of the whole log gives if
      nothing is extra and nothing lost; and with no commit outstanding at the freeze it is that map, and the live one
      if no insert was under way. */
  lemma HashMapEndToEnd(hash: seq<Byte> -> nat, run: seq<GatedRuns.Joint<map<nat, Table>, Insert>>,
                        moves: seq<GatedRuns.Move<Insert>>, f: nat, c: nat, fromSnapshot: seq<nat>, fromHead: seq<nat>,
                        init: map<nat, Table>)
    requires
      GatedRuns.IsJointRun(run, moves, init, (s: map<nat, Table>, op: Insert) => Apply(hash, s, op),
                           (op: Insert) => BucketOf(hash, op.key))
    requires f <= c < |run| && run[f].gate.snapshot == FreezeGates.Frozen
    requires SnapshotReplays.Replays(run[c].world, fromSnapshot, |run[f].world.log|, |run[f].world.order|)
    requires SnapshotReplays.Replays(run[c].world, fromHead, 0, 0)
    ensures
      var apply := (s: map<nat, Table>, op: Insert) => Apply(hash, s, op);
      var restored := CommitOrders.Fold(run[f].world.live, SnapshotReplays.PlayedOps(run[c].world, fromSnapshot),
                                        apply);
      var replayed := CommitOrders.Fold(init, SnapshotReplays.PlayedOps(run[c].world, fromHead), apply);
      && (SnapshotReplays.NoneExtra(|run[f].world.log|, fromHead)
          && SnapshotReplays.NoneLost(|run[f].world.log|, |run[f].world.order|, fromHead) ==>
            restored == replayed)
      && ((forall t: nat :: !FreezeGates.At(run[f].gate, t, FreezeGates.Committing)) ==>
            restored == replayed && (SnapshotReplays.Quiet(run[c].world) ==> restored == run[c].world.live))
  {
    InsertsCommute(hash);
    GatedRuns.GatedRestore(run, moves, f, c, fromSnapshot, fromHead, init,
                           (s: map<nat, Table>, op: Insert) => Apply(hash, s, op),
                           (op: Insert) => BucketOf(hash, op.key));
    if forall t: nat :: !FreezeGates.At(run[f].gate, t, FreezeGates.Committing) {
      GatedRuns.GatedEndToEnd(run, moves, f, c, fromSnapshot, fromHead, init,
                              (s: map<nat, Table>, op: Insert) => Apply(hash, s, op),
                              (op: Insert) => BucketOf(hash, op.key));
    }
  }
}
