/**
 The analysis of the logs before recovery: which committed nested transactions hang on an outermost transaction that
 never committed, and up to which id an object can be replayed.
 */
module AbortChains {
  import opened RedoLogs
  import opened Recoveries

  /** Entry of some object's log: commit id (zero if uncommitted), and the entry of its parent (-1 for an outermost
      transaction). Entries are numbered in the order in which they were appended to the logs of all objects. */
  datatype Node = Node(commit: nat, parent: int)

  /** Parents are appended before their children. */
  ghost predicate ParentsFirst(all: seq<Node>) {
    forall k :: 0 <= k < |all| ==> -1 <= all[k].parent < k
  }

  /** The outermost ancestor. */
  function Outermost(all: seq<Node>, k: nat): (r: nat)
    requires ParentsFirst(all) && k < |all|
    ensures r <= k && all[r].parent == -1
  {
    if all[k].parent == -1 then k else Outermost(all, all[k].parent)
  }

  /** From the outermost ancestor down to `k`. */
  function Chain(all: seq<Node>, k: nat): (c: seq<nat>)
    requires ParentsFirst(all) && k < |all|
  {
    if all[k].parent == -1 then [k] else Chain(all, all[k].parent) + [k]
  }

  /** A chain starts at the outermost ancestor, ends at its entry, and each member is the parent of the next. */
  lemma {:induction false} ChainLinks(all: seq<Node>, k: nat)
    requires ParentsFirst(all) && k < |all|
    ensures var c := Chain(all, k);
      && c != [] && c[0] == Outermost(all, k) && c[|c| - 1] == k
      && (forall i :: 0 <= i < |c| ==> c[i] < |all|)
      && forall i :: 0 < i < |c| ==> all[c[i]].parent == c[i - 1]
  {
    if all[k].parent != -1 {
      ChainLinks(all, all[k].parent);
    }
  }

  /** A committed nested transaction whose outermost ancestor is not committed. */
  ghost predicate Aborted(all: seq<Node>, k: int)
    requires ParentsFirst(all)
  {
    0 <= k < |all| && all[k].commit != 0 && all[k].parent != -1 && all[Outermost(all, k)].commit == 0
  }

  /** The walk to the outermost ancestor, which collects the chain; it ends because each parent is older. */
  method WalkUp(all: seq<Node>, k: nat) returns (chain: seq<nat>, committed: bool)
    requires ParentsFirst(all) && k < |all| && all[k].parent != -1
    ensures chain == Chain(all, k) && committed == (all[Outermost(all, k)].commit != 0)
  {
    chain := [k];
    var p := all[k].parent;
    assert Chain(all, k) == Chain(all, p) + chain;
    while all[p].parent != -1
      invariant 0 <= p < |all| && Chain(all, k) == Chain(all, p) + chain && Outermost(all, k) == Outermost(all, p)
      decreases p
    {
      ghost var rest := chain;
      chain := [p] + chain;
      assert Chain(all, p) + rest == Chain(all, all[p].parent) + chain;
      p := all[p].parent;
    }
    chain := [p] + chain;
    committed := all[p].commit != 0;
  }

  // ---------------------------------------------------------------- the scan

  /** The scan of the analysis: a line without the magic word is skipped and the commit id read anew on the next
      line. */
  function LineScan(f: File, ptr: nat, tail: nat): Scan
    decreases tail - ptr
  {
    if tail <= ptr then Scan([], true)
    else if f.size < ptr + 24 then Scan([], false)
    else if f.word(ptr + 8) != MAGIC then LineScan(f, ptr + LINE, tail)
    else
      var s := Taken(f, ptr + 8, f.word(ptr));
      if s.Nothing? then Scan([], false) else Prepend(s.record, LineScan(f, s.next, tail))
  }

  /** Whatever the file holds, all that it finds is in it, with its own id. */
  lemma {:induction false} LineSound(f: File, ptr: nat, tail: nat, i: nat)
    requires i < |LineScan(f, ptr, tail).records|
    ensures var r := LineScan(f, ptr, tail).records[i]; Real(f, r) && OwnId(f, r)
    decreases tail - ptr
  {
    if ptr < tail && ptr + 24 <= f.size {
      if f.word(ptr + 8) != MAGIC {
        LineSound(f, ptr + LINE, tail, i);
      } else {
        var s := Taken(f, ptr + 8, f.word(ptr));
        if s.Found? && 0 < i { LineSound(f, s.next, tail, i - 1); }
      }
    }
  }

  /** The lines of a torn slot are skipped. */
  lemma {:induction false} SkipTorn(f: File, p: nat, n: nat, k: nat, tail: nat)
    requires k <= n && p + n * LINE <= tail && p + n * LINE <= f.size && forall q :: 0 <= q < n ==> ZeroLine(f, p, q)
    ensures LineScan(f, p + k * LINE, tail) == LineScan(f, p + n * LINE, tail)
    decreases n - k
  {
    if k < n {
      assert ZeroLine(f, p, k);
      SkipTorn(f, p, n, k + 1, tail);
    }
  }

  /** So the analysis finds every entry with its own commit id, also behind torn ones. */
  lemma {:induction false} LineScanFinds(f: File, slots: seq<Slot>, i: nat)
    requires Holds(f, slots) && i <= |slots| && NoOvershoot(slots, i)
    ensures LineScan(f, Offset(slots, i), Offset(slots, |slots|)) == Wanted(slots, i)
    decreases |slots| - i
  {
    if i < |slots| {
      Below(f, slots, i);
      LineScanFinds(f, slots, i + 1);
      LineStep(f, slots, i);
    }
  }

  lemma LineStep(f: File, slots: seq<Slot>, i: nat)
    requires Holds(f, slots) && i < |slots| && NoOvershoot(slots, i) && Offset(slots, i) < Offset(slots, |slots|)
    requires LineScan(f, Offset(slots, i + 1), Offset(slots, |slots|)) == Wanted(slots, i + 1)
    ensures LineScan(f, Offset(slots, i), Offset(slots, |slots|)) == Wanted(slots, i)
  {
    var p, tail := Offset(slots, i), Offset(slots, |slots|);
    assert SeenSlot(f, slots, i);
    if slots[i].Full? {
      LineFull(f, slots, i, p, tail);
      LineRest(f, slots, i);
    } else {
      OffsetsIncrease(slots, i, |slots|);
      SkipTorn(f, p, slots[i].lines, 0, tail);
    }
  }

  lemma LineFull(f: File, slots: seq<Slot>, i: nat, p: nat, tail: nat)
    requires Holds(f, slots) && i < |slots| && slots[i].Full? && p == Offset(slots, i) < tail
    ensures LineScan(f, p, tail) ==
      Prepend(RecordAt(slots, i, slots[i].entry.commit), LineScan(f, After(slots, i), tail))
  {
    assert SeenSlot(f, slots, i);
    TakenFull(f, slots, i, slots[i].entry.commit);
  }

  /** A line too far is a torn one. */
  lemma LineRest(f: File, slots: seq<Slot>, i: nat)
    requires Holds(f, slots) && i < |slots| && slots[i].Full? && NoOvershoot(slots, i)
    ensures LineScan(f, After(slots, i), Offset(slots, |slots|)) ==
      LineScan(f, Offset(slots, i + 1), Offset(slots, |slots|))
  {
    if Tight(slots[i]) && i + 1 < |slots| { LineInside(f, slots, i + 1); }
  }

  lemma LineInside(f: File, slots: seq<Slot>, k: nat)
    requires Holds(f, slots) && k < |slots| && slots[k].Empty?
    ensures LineScan(f, Offset(slots, k) + LINE, Offset(slots, |slots|)) ==
      LineScan(f, Offset(slots, k), Offset(slots, |slots|))
  {
    assert SeenSlot(f, slots, k);
    assert ZeroLine(f, Offset(slots, k), 0);
    Below(f, slots, k);
  }

  /** Each entry of the log stands for a transaction: `index` gives its number, and the tag tells whether it is
      nested. */
  ghost predicate Indexed(all: seq<Node>, records: seq<Record>, index: nat -> nat) {
    forall i :: 0 <= i < |records| ==>
      var k := index(records[i].ptr);
      k < |all| && all[k].commit == records[i].commit && (all[k].parent == -1 <==> records[i].tag < NESTED)
  }

  function Numbers(records: seq<Record>, index: nat -> nat): (log: seq<nat>)
    ensures |log| == |records| && forall i :: 0 <= i < |log| ==> log[i] == index(records[i].ptr)
  {
    seq<nat>(|records|, i requires 0 <= i < |records| => index(records[i].ptr))
  }

  lemma NumbersNext(records: seq<Record>, r: Record, index: nat -> nat)
    ensures Numbers(records + [r], index) == Numbers(records, index) + [index(r.ptr)]
  {
  }

  /** One object's log. Chains come out exactly for its aborted entries, in log order, and `maxCommitted` is the end of
      the gap-free run of the ids found. */
  method BuildAbortChains(f: File, head: nat, tail: nat, all: seq<Node>, index: nat -> nat)
    returns (chains: seq<seq<nat>>, maxCommitted: nat, ok: bool)
    requires ParentsFirst(all) && Indexed(all, LineScan(f, head, tail).records, index)
    requires Distinct(LineScan(f, head, tail).records)
    ensures ok == LineScan(f, head, tail).ok
    ensures Analysis(all, index, LineScan(f, head, tail).records, chains, maxCommitted)
  {
    ghost var found := LineScan(f, head, tail);
    ghost var records: seq<Record> := [];
    chains, maxCommitted, ok := [], 0, true;
    var queue: seq<Record> := [];
    var played: seq<Record> := [];
    var ptr := head;
    while ok && ptr < tail
      invariant Remaining(found, records, if ok then LineScan(f, ptr, tail) else Scan([], false))
      invariant Analysed(all, index, records, chains, queue, played, maxCommitted)
      decreases ok, tail - ptr
    {
      ok, ptr, chains, queue, played, maxCommitted, records :=
        Turn(f, ptr, tail, all, index, chains, queue, played, maxCommitted, records, found);
    }
    assert found.records == records;
    AnalysedAll(all, index, records, chains, queue, played, maxCommitted);
  }

  /** One turn of the scan: past the end of the file, over a line without magic word, or over an entry. */
  method Turn(f: File, ptr: nat, tail: nat, all: seq<Node>, index: nat -> nat, chains0: seq<seq<nat>>,
              queue0: seq<Record>, played0: seq<Record>, max0: nat, ghost records0: seq<Record>, ghost found: Scan)
    returns (ok: bool, next: nat, chains: seq<seq<nat>>, queue: seq<Record>, played: seq<Record>, max: nat,
             ghost records: seq<Record>)
    requires ptr < tail && Remaining(found, records0, LineScan(f, ptr, tail))
    requires Analysed(all, index, records0, chains0, queue0, played0, max0) && Indexed(all, found.records, index)
    requires Distinct(found.records)
    ensures (ok ==> ptr < next) && Remaining(found, records, if ok then LineScan(f, next, tail) else Scan([], false))
    ensures Analysed(all, index, records, chains, queue, played, max)
  {
    ok, next, chains, queue, played, max, records := ptr + 24 <= f.size, ptr + LINE, chains0, queue0, played0, max0,
        records0;
    if ok && f.word(ptr + 8) == MAGIC {
      ghost var r;
      next, chains, queue, played, max,
          r := TakeEntry(f, ptr, tail, all, index, chains0, queue0, played0, max0, records0, found);
      records := records + [r];
    }
  }

  /** The scan has found `records` so far, and will find the rest. */
  ghost predicate Remaining(found: Scan, records: seq<Record>, rest: Scan) {
    found.records == records + rest.records && found.ok == rest.ok
  }

  /** One entry with its magic word. */
  method TakeEntry(f: File, ptr: nat, tail: nat, all: seq<Node>, index: nat -> nat, chains0: seq<seq<nat>>,
                   queue0: seq<Record>, played0: seq<Record>, max0: nat, ghost records: seq<Record>, ghost found: Scan)
    returns (next: nat, chains: seq<seq<nat>>, queue: seq<Record>, played: seq<Record>, max: nat, ghost r: Record)
    requires ptr < tail && ptr + 24 <= f.size && f.word(ptr + 8) == MAGIC
    requires Remaining(found, records, LineScan(f, ptr, tail))
    requires Analysed(all, index, records, chains0, queue0, played0, max0) && Indexed(all, found.records, index)
    requires Distinct(found.records)
    ensures ptr < next && Remaining(found, records + [r], LineScan(f, next, tail))
    ensures Analysed(all, index, records + [r], chains, queue, played, max)
  {
    var s := Taken(f, ptr + 8, f.word(ptr));
    r, next := s.record, s.next;
    TakeOne(records, r, LineScan(f, next, tail).records);
    chains, queue, played, max := Analyse(all, index, s.record, chains0, queue0, played0, max0, records, found.records);
  }

  lemma AnalysedAll(all: seq<Node>, index: nat -> nat, records: seq<Record>, chains: seq<seq<nat>>, queue: seq<Record>,
                    played: seq<Record>, max: nat)
    requires Analysed(all, index, records, chains, queue, played, max)
    ensures Analysis(all, index, records, chains, max)
  {
    ChainsExist(all, Numbers(records, index));
  }

  /** The outcome: the chains of the aborted entries, in log order, and the end of the run of ids. */
  ghost predicate Analysis(all: seq<Node>, index: nat -> nat, records: seq<Record>, chains: seq<seq<nat>>, max: nat) {
    && ParentsFirst(all) && (forall i :: 0 <= i < |records| ==> index(records[i].ptr) < |all|)
    && chains == AbortedChains(all, Numbers(records, index))
    && (chains != [] <==> exists i :: 0 <= i < |records| && Aborted(all, index(records[i].ptr)))
    && max == RunEnd(Ids(records), 0)
  }

  lemma TakeOne(records: seq<Record>, r: Record, rest: seq<Record>)
    ensures records + ([r] + rest) == (records + [r]) + rest && records + [r] <= records + ([r] + rest)
  {
  }

  /** What the analysis knows after the given records. */
  ghost predicate Analysed(all: seq<Node>, index: nat -> nat, records: seq<Record>, chains: seq<seq<nat>>,
                           queue: seq<Record>, played: seq<Record>, max: nat) {
    && ParentsFirst(all) && (forall i :: 0 <= i < |records| ==> index(records[i].ptr) < |all|)
    && chains == AbortedChains(all, Numbers(records, index))
    && Waiting(queue, records, max) && PlayedRun(records, played, 0, max) && max == RunEnd(Ids(records), 0)
  }

  /** One entry of the log. */
  method Analyse(all: seq<Node>, index: nat -> nat, r: Record, chains0: seq<seq<nat>>, queue0: seq<Record>,
                 played0: seq<Record>, max0: nat, ghost before: seq<Record>, ghost found: seq<Record>)
    returns (chains: seq<seq<nat>>, queue: seq<Record>, played: seq<Record>, max: nat)
    requires Analysed(all, index, before, chains0, queue0, played0, max0) && Indexed(all, found, index)
    requires Distinct(found) && before + [r] <= found
    ensures Analysed(all, index, before + [r], chains, queue, played, max)
  {
    assert found[|before|] == r;
    queue, max, played := CountCommit(r, queue0, max0, played0, before, found);
    chains := AddChain(all, r, index, chains0, before);
  }

  /** Follows the parents of a committed nested entry. */
  method AddChain(all: seq<Node>, r: Record, index: nat -> nat, chains0: seq<seq<nat>>, ghost before: seq<Record>)
    returns (chains: seq<seq<nat>>)
    requires ParentsFirst(all) && (forall i :: 0 <= i < |before| ==> index(before[i].ptr) < |all|)
    requires chains0 == AbortedChains(all, Numbers(before, index))
    requires var k := index(r.ptr); k < |all| && all[k].commit == r.commit && (all[k].parent == -1 <==> r.tag < NESTED)
    ensures chains == AbortedChains(all, Numbers(before, index) + [index(r.ptr)])
    ensures Numbers(before + [r], index) == Numbers(before, index) + [index(r.ptr)]
  {
    NumbersNext(before, r, index);
    ghost var log := Numbers(before, index) + [index(r.ptr)];
    assert log[..|before|] == Numbers(before, index) && log[..|before| + 1] == log;
    AbortedNext(all, log, |before|);
    chains := chains0;
    if NESTED <= r.tag && r.commit != 0 {
      var chain, committed := WalkUp(all, index(r.ptr));
      if !committed { chains := chains + [chain]; }
    }
  }

  /** What the analysis and recovery make of the same log. With no entry but the last tight, the analysis counts to the
      end of the run of all ids, and recovery stops there too exactly when no entry behind a torn one has an id of that
      run. */
  lemma AnalysisAgrees(data: seq<Byte>, slots: seq<Slot>, play: DryRun)
    requires Laid(data, slots) && AllParse(play, slots)
    requires forall k :: Offset(slots, |slots|) <= k < |data| ==> data[k] == 0
    requires NoOvershoot(slots, 0) && DistinctIds(slots, 0)
    ensures LineScan(FileOf(data, play), HEADER, Offset(slots, |slots|)) == Wanted(slots, 0)
    ensures
      var f, tail := FileOf(data, play), Offset(slots, |slots|);
      var analysis, recovery := LineScan(f, HEADER, tail).records, ScanFrom(f, HEADER, tail).records;
      RunEnd(Ids(recovery), 0) == RunEnd(Ids(analysis), 0) <==> TearsSpare(slots, 0, 0)
  {
    var f := FileOf(data, play);
    LogHolds(data, slots, play);
    LineScanFinds(f, slots, 0);
    ScanFinds(f, slots, 0);
    TornRun(slots, 0, 0);
  }

  /** A torn entry in front of the first committed one: the analysis counts to 1, and recovery plays nothing. */
  lemma TornFirstExample(f: File, e: RedoLogs.Entry)
    requires e.commit == 1 && Holds(f, [Empty(1), Full(1, e)])
    ensures
      var slots := [Empty(1), Full(1, e)];
      var tail := Offset(slots, 2);
      RunEnd(Ids(LineScan(f, HEADER, tail).records), 0) == 1 && RunEnd(Ids(ScanFrom(f, HEADER, tail).records), 0) == 0
  {
    var slots := [Empty(1), Full(1, e)];
    LineScanFinds(f, slots, 0);
    ScanFinds(f, slots, 0);
    assert Wanted(slots, 0) == Wanted(slots, 1) && Wanted(slots, 2) == Scan([], true);
    assert FirstFull(slots, 0) == FirstFull(slots, 1) == 1 && Expected(slots, 2) == Scan([], true);
    assert Ids(Wanted(slots, 0).records) == {1};
    assert Ids(Expected(slots, 0).records) == {0};
    assert RunEnd({1}, 1) == 1;
  }

  /** Pushes the id of a committed entry on the heap and takes off those that continue the run. */
  method CountCommit(r: Record, queue0: seq<Record>, max0: nat, played0: seq<Record>, ghost before: seq<Record>,
                     ghost found: seq<Record>)
    returns (queue: seq<Record>, max: nat, played: seq<Record>)
    requires Distinct(found) && before + [r] <= found && max0 == RunEnd(Ids(before), 0)
    requires Waiting(queue0, before, max0) && PlayedRun(before, played0, 0, max0)
    ensures Waiting(queue, before + [r], max) && PlayedRun(before + [r], played, 0, max)
    ensures max == RunEnd(Ids(before + [r]), 0)
  {
    queue, max, played := queue0, max0, played0;
    if r.commit != 0 {
      queue := Enqueue(queue, r, max, before, found);
      played, max, queue := PlayReady(before + [r], played, max, queue, 0);
    } else {
      SkipUncommitted(before, r, queue, max, played);
    }
  }

  lemma SkipUncommitted(before: seq<Record>, r: Record, queue: seq<Record>, max: nat, played: seq<Record>)
    requires r.commit == 0 && max == RunEnd(Ids(before), 0)
    requires Waiting(queue, before, max) && PlayedRun(before, played, 0, max)
    ensures Waiting(queue, before + [r], max) && PlayedRun(before + [r], played, 0, max)
    ensures max == RunEnd(Ids(before + [r]), 0)
  {
    RunEndAbove(Ids(before), Ids(before + [r]), 0);
  }

  /** Chains of the aborted entries of a log, in log order. */
  function AbortedChains(all: seq<Node>, log: seq<nat>): seq<seq<nat>>
    requires ParentsFirst(all) && forall i :: 0 <= i < |log| ==> log[i] < |all|
  {
    if log == [] then []
    else
      var n := |log| - 1;
      var k := log[n];
      var before := AbortedChains(all, log[..n]);
      if all[k].commit != 0 && all[k].parent != -1 && all[Outermost(all, k)].commit == 0 then before + [Chain(all, k)]
          else before
  }

  lemma AbortedNext(all: seq<Node>, log: seq<nat>, i: nat)
    requires ParentsFirst(all) && i < |log| && forall j :: 0 <= j < |log| ==> log[j] < |all|
    ensures AbortedChains(all, log[..i + 1]) == AbortedChains(all, log[..i]) + if Aborted(all, log[i])
      then [Chain(all, log[i])] else []
  {
    assert log[..i + 1][..i] == log[..i] && log[..i + 1][i] == log[i];
  }

  lemma {:induction false} ChainsExist(all: seq<Node>, log: seq<nat>)
    requires ParentsFirst(all) && forall i :: 0 <= i < |log| ==> log[i] < |all|
    ensures AbortedChains(all, log) != [] <==> exists i :: 0 <= i < |log| && Aborted(all, log[i])
  {
    if log != [] {
      var n := |log| - 1;
      ChainsExist(all, log[..n]);
      AbortedNext(all, log, n);
      assert log[..n + 1] == log;
      if i :| 0 <= i < |log| && Aborted(all, log[i]) && i < n { assert log[..n][i] == log[i]; }
      if i :| 0 <= i < n && Aborted(all, log[..n][i]) { assert log[i] == log[..n][i]; }
    }
  }
}
