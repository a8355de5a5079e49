/**
 Recovery of one object from its log: the scan over the entries, and the replay in commit order.
 */
module Recoveries {
  import opened RedoLogs

  /** A found entry: where its arguments begin, its commit id as read, its tag. */
  datatype Record = Record(ptr: nat, commit: nat, tag: nat)

  /** What a scan found, and whether it came to the tail without running into an assertion. */
  datatype Scan = Scan(records: seq<Record>, ok: bool)

  /** Length of the arguments by a dry run of the object's play method. */
  type DryRun = (nat, seq<Byte>) -> nat

  function ArgLength(play: DryRun, tag: nat, rest: seq<Byte>): nat {
    if tag < NESTED then play(tag, rest) else UUID_BYTES
  }

  /** The log file as the scan sees it: words at offsets, and how long the arguments at an offset are. */
  datatype File = File(size: nat, word: nat -> nat, argLength: (nat, nat) -> nat)

  function FileOf(data: seq<Byte>, play: DryRun): File {
    File(|data|,
         (p: nat) => if p + 8 <= |data| then Read(data, p) else 0,
         (tag: nat, p: nat) => if p <= |data| then ArgLength(play, tag, data[p..]) else 0)
  }

  /** Line by line to the next magic word; -1 when the file ends first. */
  function FindMagic(f: File, p: nat): (r: int)
    ensures r == -1 || (p <= r && r + 8 <= f.size && f.word(r) == MAGIC)
    decreases f.size - p
  {
    if f.size < p + 8 then -1 else if f.word(p) == MAGIC then p else FindMagic(f, p + LINE)
  }

  /** If there is one, the first is found. */
  lemma {:induction false} FindMagicFirst(f: File, p: nat, k: nat)
    requires p + k * LINE + 8 <= f.size && f.word(p + k * LINE) == MAGIC
    ensures p <= FindMagic(f, p) <= p + k * LINE && (FindMagic(f, p) - p) % LINE == 0
    decreases k
  {
    if 0 < k && f.word(p) != MAGIC { FindMagicFirst(f, p + LINE, k - 1); }
  }

  /** The search after a torn first line at `p`. */
  function NextMagic(f: File, p: nat): (r: int)
    ensures r == -1 || p + 8 < r
  {
    FindMagic(f, p + 8 + LINE)
  }

  /** What is read at an offset are the bytes of the file there, up to its end. */
  lemma FileReads(data: seq<Byte>, play: DryRun, p: nat, x: nat, tag: nat)
    requires x < WORDS
    ensures At(data, p, Word(x)) ==> FileOf(data, play).word(p) == x
    ensures p <= |data| && NESTED <= tag ==> FileOf(data, play).argLength(tag, p) == 16
    ensures p <= |data| && tag < NESTED ==> FileOf(data, play).argLength(tag, p) == play(tag, data[p..])
  {
    if At(data, p, Word(x)) { ReadWord(data, p, x); }
  }

  datatype Found = Nothing | Found(record: Record, next: nat)

  /** The entry whose magic word is at `at`. */
  function Taken(f: File, at: nat, commit: nat): (r: Found)
    ensures r.Found? ==> at + 16 == r.record.ptr && at + 16 < r.next
  {
    if f.word(at) != MAGIC || f.size < at + 16 then Nothing
    else
      var tag, args := f.word(at + 8), at + 16;
      var n := f.argLength(tag, args);
      Found(Record(args, commit, tag), args + n + LINE - (24 + n) % LINE)
  }

  /** One turn of the scan at `ptr`. After a torn entry the commit id is not read again. */
  function Step(f: File, ptr: nat): (r: Found)
    ensures r.Found? ==> ptr < r.next && ptr + 24 <= r.record.ptr
  {
    if f.size < ptr + 16 then Nothing
    else
      var commit := f.word(ptr);
      var at := if commit == 0 && f.word(ptr + 8) != MAGIC then NextMagic(f, ptr) else ptr + 8;
      if at == -1 then Nothing else Taken(f, at, commit)
  }

  function ScanFrom(f: File, ptr: nat, tail: nat): Scan
    decreases tail - ptr
  {
    if tail <= ptr then Scan([], true)
    else
      var s := Step(f, ptr);
      if s.Nothing? then Scan([], false) else Prepend(s.record, ScanFrom(f, s.next, tail))
  }

  /** An entry that is in the file: magic word, tag and arguments follow each other. */
  ghost predicate Real(f: File, r: Record) {
    24 <= r.ptr <= f.size && f.word(r.ptr - 16) == MAGIC && r.tag == f.word(r.ptr - 8)
  }

  /** The commit id is the word in front of it. */
  ghost predicate OwnId(f: File, r: Record) {
    24 <= r.ptr && r.commit == f.word(r.ptr - 24)
  }

  /** Whatever the file holds, all that the scan finds is in it, with its own id or none. */
  lemma {:induction false} ScanSound(f: File, ptr: nat, tail: nat, i: nat)
    requires i < |ScanFrom(f, ptr, tail).records|
    ensures var r := ScanFrom(f, ptr, tail).records[i]; Real(f, r) && (OwnId(f, r) || r.commit == 0)
    decreases tail - ptr
  {
    if ptr < tail {
      var s := Step(f, ptr);
      if s.Found? && 0 < i { ScanSound(f, s.next, tail, i - 1); }
    }
  }

  function Prepend(r: Record, s: Scan): Scan {
    s.(records := [r] + s.records)
  }

  // ---------------------------------------------------------------- the file holds the slots

  /** The dry run recognises the arguments of the entry, whatever follows them. */
  ghost predicate Parses(play: DryRun, e: Entry) {
    forall rest: seq<Byte> :: ArgLength(play, e.tag, e.args + rest) == |e.args|
  }

  /** The dry run finds the length of the arguments, whatever follows them. */
  ghost predicate Dry(play: DryRun, e: Entry) {
    forall rest: seq<Byte> :: play(e.tag, e.args + rest) == |e.args|
  }

  /** The tag has the top bit of its word, which marks a nested entry. */
  predicate TopBit(tag: nat) {
    tag / 0x8000000000000000 % 2 == 1
  }

  /** What the scan asks of the entries: the dry run knows those of methods, and a nested one holds the 16 bytes of an
      identifier. */
  ghost predicate AllParse(play: DryRun, slots: seq<Slot>) {
    forall i :: 0 <= i < |slots| && slots[i].Full? ==>
      if TopBit(slots[i].entry.tag) then |slots[i].entry.args| == 16 else Dry(play, slots[i].entry)
  }

  /** So it finds the length of each of them. */
  lemma EntryParses(play: DryRun, e: Entry)
    requires e.tag < WORDS && (if TopBit(e.tag) then |e.args| == 16 else Dry(play, e))
    ensures Parses(play, e)
  {
    forall rest: seq<Byte> ensures ArgLength(play, e.tag, e.args + rest) == |e.args| {
      if !TopBit(e.tag) { assert play(e.tag, e.args + rest) == |e.args|; }
    }
  }

  /** A nested entry needs no dry run. */
  lemma NestedParses(play: DryRun, commit: nat, tag: nat, args: seq<Byte>)
    requires NESTED <= tag && |args| == 16
    ensures Parses(play, Entry(commit, tag, args))
  {
  }

  /** Slot `s` as the scan reads it at `p`. */
  ghost predicate Seen(f: File, p: nat, s: Slot) {
    match s
    case Empty(n) => 0 < n && p + n * LINE <= f.size && forall k :: 0 <= k < n ==> ZeroLine(f, p, k)
    case Full(n, e) =>
      && p + 24 <= f.size && f.word(p) == e.commit && f.word(p + 8) == MAGIC && f.word(p + 16) == e.tag
      && f.argLength(e.tag, p + 24) == |e.args| && 0 < n && Fits(n, Length(e))
  }

  /** The first two words of line `k` are zero. */
  predicate ZeroLine(f: File, p: nat, k: nat) {
    f.word(p + k * LINE) == 0 && f.word(p + k * LINE + 8) == 0
  }

  /** The slots, and no magic word behind them. */
  ghost predicate Holds(f: File, slots: seq<Slot>) {
    && (forall i :: 0 <= i < |slots| ==> SeenSlot(f, slots, i))
    && (forall k: nat :: ZeroLine(f, Offset(slots, |slots|), k))
  }

  ghost predicate SeenSlot(f: File, slots: seq<Slot>, i: nat)
    requires i < |slots|
  {
    Seen(f, Offset(slots, i), slots[i])
  }

  lemma LaidSeen(data: seq<Byte>, p: nat, s: Slot, play: DryRun)
    requires SlotAt(data, p, s) && InRange(s) && (s.Full? ==> Parses(play, s.entry))
    ensures Seen(FileOf(data, play), p, s)
  {
    var f := FileOf(data, play);
    match s
    case Empty(n) =>
      forall k | 0 <= k < n ensures ZeroLine(f, p, k) {
        ReadZero(data, p + k * LINE);
        ReadZero(data, p + k * LINE + 8);
      }
    case Full(n, e) =>
      ReadWord(data, p, e.commit);
      ReadWord(data, p + 8, MAGIC);
      ReadWord(data, p + 16, e.tag);
      ArgsSeen(data, p, e, play);
  }

  lemma ArgsSeen(data: seq<Byte>, p: nat, e: Entry, play: DryRun)
    requires At(data, p + 24, e.args) && Parses(play, e)
    ensures ArgLength(play, e.tag, data[p + 24..]) == |e.args|
  {
    var rest := data[p + 24 + |e.args|..];
    assert data[p + 24..] == e.args + rest;
    assert ArgLength(play, e.tag, e.args + rest) == |e.args|;
  }

  /** A valid log file is what the scan needs. */
  lemma LogHolds(data: seq<Byte>, slots: seq<Slot>, play: DryRun)
    requires Laid(data, slots) && AllParse(play, slots)
    requires forall k :: Offset(slots, |slots|) <= k < |data| ==> data[k] == 0
    ensures Holds(FileOf(data, play), slots)
  {
    var f := FileOf(data, play);
    forall i | 0 <= i < |slots| ensures SeenSlot(f, slots, i) {
      assert LaidSlot(data, slots, i);
      if slots[i].Full? { EntryParses(play, slots[i].entry); }
      LaidSeen(data, Offset(slots, i), slots[i], play);
    }
    forall k: nat ensures ZeroLine(f, Offset(slots, |slots|), k) { ZeroTail(data, Offset(slots, |slots|), k, play); }
  }

  /** Behind the log there are only zeros, also beyond the end of the file. */
  lemma ZeroTail(data: seq<Byte>, p: nat, k: nat, play: DryRun)
    requires forall i :: p <= i < |data| ==> data[i] == 0
    ensures ZeroLine(FileOf(data, play), p, k)
  {
    var q := p + k * LINE;
    if q + 8 <= |data| { ReadZero(data, q); }
    if q + 16 <= |data| { ReadZero(data, q + 8); }
  }

  // ---------------------------------------------------------------- one step over the log

  /** The step to the next line is one line too long when there is no padding. */
  lemma NextLine(lines: nat, length: nat)
    requires Fits(lines, length)
    ensures length + LINE - length % LINE == lines * LINE + if length == lines * LINE then LINE else 0
  {
    if length < lines * LINE {
      assert length == (lines - 1) * LINE + (length - (lines - 1) * LINE);
    }
  }

  /** The entry of slot `i` leaves no padding. */
  predicate Tight(s: Slot) {
    s.Full? && Length(s.entry) == s.lines * LINE
  }

  /** Slot `k` is a torn line that the scan steps over, because the entry before it is tight. */
  predicate Eaten(slots: seq<Slot>, i: nat, k: nat)
    requires k < |slots|
  {
    i < k && Tight(slots[k - 1]) && slots[k] == Empty(1)
  }

  /** The slot the scan comes to after the entry in slot `j`. */
  function NextSlot(slots: seq<Slot>, j: nat): (n: nat)
    requires j < |slots|
    ensures j < n <= |slots|
  {
    if j + 1 < |slots| && Eaten(slots, j, j + 1) then j + 2 else j + 1
  }

  /** First offset after slot `i` by the rule of the scan. */
  function After(slots: seq<Slot>, i: nat): nat
    requires i < |slots| && slots[i].Full?
  {
    Offset(slots, i + 1) + if Tight(slots[i]) then LINE else 0
  }

  lemma TakenFull(f: File, slots: seq<Slot>, i: nat, commit: nat)
    requires Holds(f, slots) && i < |slots| && slots[i].Full?
    ensures Taken(f, Offset(slots, i) + 8, commit) == Found(RecordAt(slots, i, commit), After(slots, i))
  {
    assert SeenSlot(f, slots, i);
    NextLine(slots[i].lines, Length(slots[i].entry));
  }

  lemma StepFull(f: File, slots: seq<Slot>, i: nat)
    requires Holds(f, slots) && i < |slots| && slots[i].Full?
    ensures Step(f, Offset(slots, i)) == Found(RecordAt(slots, i, slots[i].entry.commit), After(slots, i))
  {
    assert SeenSlot(f, slots, i);
    TakenFull(f, slots, i, slots[i].entry.commit);
  }

  /** Index of the first filled slot from `i` on. */
  function FirstFull(slots: seq<Slot>, i: nat): (j: nat)
    requires i <= |slots|
    ensures i <= j <= |slots| && (j < |slots| ==> slots[j].Full?)
    decreases |slots| - i
  {
    if i == |slots| || slots[i].Full? then i else FirstFull(slots, i + 1)
  }

  /** From line `k` of an empty slot the search goes on to the next slot. */
  lemma {:induction false} FindPastEmpty(f: File, p: nat, n: nat, k: nat)
    requires k <= n && p + n * LINE <= f.size && forall q :: 0 <= q < n ==> ZeroLine(f, p, q)
    ensures FindMagic(f, p + k * LINE + 8) == FindMagic(f, p + n * LINE + 8)
    decreases n - k
  {
    if k < n {
      assert ZeroLine(f, p, k);
      FindPastEmpty(f, p, n, k + 1);
    }
  }

  /** The search ends at the first filled slot, or at the end of the file behind the tail. */
  lemma {:induction false} FindFull(f: File, slots: seq<Slot>, i: nat)
    requires Holds(f, slots) && i <= |slots|
    ensures var j := FirstFull(slots, i);
      FindMagic(f, Offset(slots, i) + 8) == if j < |slots| then Offset(slots, j) + 8 else -1
    decreases |slots| - i
  {
    if i == |slots| {
      NoMagicBehind(f, Offset(slots, i), 0);
    } else {
      assert SeenSlot(f, slots, i);
      if slots[i].Empty? {
        FindPastEmpty(f, Offset(slots, i), slots[i].lines, 0);
        FindFull(f, slots, i + 1);
      }
    }
  }

  lemma {:induction false} NoMagicBehind(f: File, p: nat, k: nat)
    requires forall q: nat :: ZeroLine(f, p, q)
    ensures FindMagic(f, p + k * LINE + 8) == -1
    decreases f.size - (p + k * LINE)
  {
    assert ZeroLine(f, p, k);
    if p + k * LINE + 16 <= f.size { NoMagicBehind(f, p, k + 1); }
  }

  /** A torn slot at `i`: the next filled slot is taken with commit id zero. */
  lemma StepEmpty(f: File, slots: seq<Slot>, i: nat, j: nat)
    requires Holds(f, slots) && i < |slots| && slots[i].Empty? && j == FirstFull(slots, i)
    ensures Step(f, Offset(slots, i)) == if j == |slots| then Nothing else Found(RecordAt(slots, j, 0), After(slots, j))
  {
    TornAt(f, slots, i);
    var at := FindNext(f, slots, i, j);
    if j < |slots| { TakenFull(f, slots, j, 0); }
    StepTorn(f, Offset(slots, i), at);
  }

  lemma TornAt(f: File, slots: seq<Slot>, i: nat)
    requires Holds(f, slots) && i < |slots| && slots[i].Empty?
    ensures var p := Offset(slots, i); p + 16 <= f.size && f.word(p) == 0 && f.word(p + 8) == 0
  {
    assert SeenSlot(f, slots, i);
    assert ZeroLine(f, Offset(slots, i), 0);
  }

  lemma StepTorn(f: File, p: nat, at: int)
    requires p + 16 <= f.size && f.word(p) == 0 && f.word(p + 8) == 0 && NextMagic(f, p) == at
    ensures Step(f, p) == if at == -1 then Nothing else Taken(f, at, 0)
  {
  }

  lemma FindNext(f: File, slots: seq<Slot>, i: nat, j: nat) returns (at: int)
    requires Holds(f, slots) && i < |slots| && slots[i].Empty? && j == FirstFull(slots, i)
    ensures at == NextMagic(f, Offset(slots, i)) == if j < |slots| then Offset(slots, j) + 8 else -1
  {
    assert SeenSlot(f, slots, i);
    FindPastEmpty(f, Offset(slots, i), slots[i].lines, 1);
    FindFull(f, slots, i + 1);
    at := NextMagic(f, Offset(slots, i));
  }

  // ---------------------------------------------------------------- the whole scan

  function RecordAt(slots: seq<Slot>, i: nat, commit: nat): Record
    requires i < |slots| && slots[i].Full?
  {
    Record(Offset(slots, i) + 24, commit, slots[i].entry.tag)
  }

  /** What the scan should find: every filled slot with its own commit id. */
  function Wanted(slots: seq<Slot>, i: nat): Scan
    requires i <= |slots|
    decreases |slots| - i
  {
    if i == |slots| then Scan([], true)
    else if slots[i].Full? then Prepend(RecordAt(slots, i, slots[i].entry.commit), Wanted(slots, i + 1))
    else Wanted(slots, i + 1)
  }

  /** What it does find. */
  function Expected(slots: seq<Slot>, i: nat): Scan
    requires i <= |slots|
    decreases |slots| - i
  {
    if i == |slots| then Scan([], true)
    else if slots[i].Full? then Prepend(RecordAt(slots, i, slots[i].entry.commit), Expected(slots, NextSlot(slots, i)))
    else
      var j := FirstFull(slots, i);
      if j == |slots| then Scan([], false) else Prepend(RecordAt(slots, j, 0), Expected(slots, NextSlot(slots, j)))
  }

  /** No entry directly follows one that fills its lines exactly. */
  ghost predicate NoOvershoot(slots: seq<Slot>, i: nat) {
    forall j :: i <= j < |slots| - 1 && Tight(slots[j]) ==> slots[j + 1].Empty?
  }

  /** The scan from the slot after `j`. */
  function Rest(f: File, slots: seq<Slot>, j: nat): Scan
    requires j < |slots| && slots[j].Full?
  {
    ScanFrom(f, After(slots, j), Offset(slots, |slots|))
  }

  lemma ScanFull(f: File, slots: seq<Slot>, i: nat)
    requires Holds(f, slots) && i < |slots| && slots[i].Full?
    ensures ScanFrom(f, Offset(slots, i), Offset(slots, |slots|)) ==
      Prepend(RecordAt(slots, i, slots[i].entry.commit), Rest(f, slots, i))
  {
    Below(f, slots, i);
    StepFull(f, slots, i);
  }

  lemma ScanTorn(f: File, slots: seq<Slot>, i: nat)
    requires Holds(f, slots) && i < |slots| && slots[i].Empty?
    ensures ScanFrom(f, Offset(slots, i), Offset(slots, |slots|)) ==
      var j := FirstFull(slots, i); if j == |slots| then Scan([], false)
          else Prepend(RecordAt(slots, j, 0), Rest(f, slots, j))
  {
    Below(f, slots, i);
    StepEmpty(f, slots, i, FirstFull(slots, i));
  }

  /** One line too far in a longer torn slot: the search comes to the same entry. */
  lemma StepInside(f: File, p: nat)
    requires p + 2 * LINE <= f.size && ZeroLine(f, p, 0) && ZeroLine(f, p, 1)
    ensures Step(f, p + LINE) == Step(f, p)
  {
    assert NextMagic(f, p) == NextMagic(f, p + LINE);
  }

  /** If no entry is overshot, the scan goes on at the next slot, as if it had come to its start. */
  lemma RestSlot(f: File, slots: seq<Slot>, j: nat)
    requires Holds(f, slots) && j < |slots| && slots[j].Full?
    requires (Tight(slots[j]) && j + 1 < |slots| ==> slots[j + 1].Empty?)
    ensures Rest(f, slots, j) == ScanFrom(f, Offset(slots, NextSlot(slots, j)), Offset(slots, |slots|))
  {
    var p, n, tail := Offset(slots, j + 1), Offset(slots, NextSlot(slots, j)), Offset(slots, |slots|);
    RestAt(f, slots, j, p, tail);
    if Tight(slots[j]) { TightRest(f, slots, j, p, n, tail); }
  }

  lemma TightRest(f: File, slots: seq<Slot>, j: nat, p: nat, n: nat, tail: nat)
    requires Holds(f, slots) && j < |slots| && Tight(slots[j]) && (j + 1 < |slots| ==> slots[j + 1].Empty?)
    requires p == Offset(slots, j + 1) && n == Offset(slots, NextSlot(slots, j)) && tail == Offset(slots, |slots|)
    ensures ScanFrom(f, p + LINE, tail) == ScanFrom(f, n, tail)
  {
    if j + 1 == |slots| {
      PastTail(f, tail);
    } else if Eaten(slots, j, j + 1) {
      EatenLine(slots, j + 1);
    } else {
      InsideBelow(f, slots, j + 1, p, tail);
      InsideAt(f, p, tail);
    }
  }

  lemma RestAt(f: File, slots: seq<Slot>, j: nat, p: nat, tail: nat)
    requires j < |slots| && slots[j].Full? && p == Offset(slots, j + 1) && tail == Offset(slots, |slots|)
    ensures Rest(f, slots, j) == ScanFrom(f, if Tight(slots[j]) then p + LINE else p, tail)
  {
  }

  lemma PastTail(f: File, tail: nat)
    ensures ScanFrom(f, tail + LINE, tail) == ScanFrom(f, tail, tail)
  {
  }

  lemma EatenLine(slots: seq<Slot>, k: nat)
    requires k < |slots| && slots[k] == Empty(1)
    ensures Offset(slots, k + 1) == Offset(slots, k) + LINE
  {
  }

  /** Steps that find the same lead to the same. */
  lemma SameSteps(f: File, p: nat, q: nat, tail: nat)
    requires p < tail && q < tail && Step(f, p) == Step(f, q)
    ensures ScanFrom(f, p, tail) == ScanFrom(f, q, tail)
  {
  }

  lemma InsideAt(f: File, p: nat, tail: nat)
    requires p + LINE < tail && p + 2 * LINE <= f.size && ZeroLine(f, p, 0) && ZeroLine(f, p, 1)
    ensures ScanFrom(f, p + LINE, tail) == ScanFrom(f, p, tail)
  {
    StepInside(f, p);
    SameSteps(f, p + LINE, p, tail);
  }

  lemma InsideBelow(f: File, slots: seq<Slot>, i: nat, p: nat, tail: nat)
    requires Holds(f, slots) && i < |slots| && slots[i].Empty? && slots[i].lines != 1 && p == Offset(slots, i)
    requires tail == Offset(slots, |slots|)
    ensures p + LINE < tail && p + 2 * LINE <= f.size && ZeroLine(f, p, 0) && ZeroLine(f, p, 1)
  {
    assert SeenSlot(f, slots, i);
    OffsetsIncrease(slots, i, |slots|);
  }

  lemma {:induction false} ScanFinds(f: File, slots: seq<Slot>, i: nat)
    requires Holds(f, slots) && i <= |slots| && NoOvershoot(slots, i)
    ensures ScanFrom(f, Offset(slots, i), Offset(slots, |slots|)) == Expected(slots, i)
    decreases |slots| - i
  {
    if i < |slots| {
      var j := FirstFull(slots, i);
      if slots[i].Full? { ScanFull(f, slots, i); } else { ScanTorn(f, slots, i); }
      if j < |slots| {
        RestSlot(f, slots, j);
        ScanFinds(f, slots, NextSlot(slots, j));
      }
    }
  }

  lemma Below(f: File, slots: seq<Slot>, i: nat)
    requires Holds(f, slots) && i < |slots|
    ensures Offset(slots, i) < Offset(slots, |slots|)
  {
    assert SeenSlot(f, slots, i);
    OffsetsIncrease(slots, i, |slots|);
  }

  /** A torn slot does no harm when it is stepped over, or followed by another torn slot or by an uncommitted entry. */
  ghost predicate HarmlessTears(slots: seq<Slot>, i: nat) {
    forall j :: i <= j < |slots| && slots[j].Empty? && !Eaten(slots, i, j) ==>
      j + 1 < |slots| && (slots[j + 1].Full? ==> slots[j + 1].entry.commit == 0)
  }

  lemma {:induction false} WantedSkips(slots: seq<Slot>, i: nat)
    requires i <= |slots|
    ensures Wanted(slots, i) == Wanted(slots, FirstFull(slots, i))
    decreases |slots| - i
  {
    if i < |slots| && slots[i].Empty? { WantedSkips(slots, i + 1); }
  }

  /** From a filled slot on. */
  lemma TearsBehind(slots: seq<Slot>, j: nat)
    requires j < |slots| && slots[j].Full?
    ensures HarmlessTears(slots, j) <==> HarmlessTears(slots, NextSlot(slots, j))
  {
    var n := NextSlot(slots, j);
    forall q | n <= q < |slots| ensures Eaten(slots, n, q) <==> Eaten(slots, j, q) { }
    if HarmlessTears(slots, n) {
      forall q | j <= q < |slots| && slots[q].Empty? && !Eaten(slots, j, q)
        ensures q + 1 < |slots| && (slots[q + 1].Full? ==> slots[q + 1].entry.commit == 0)
      {
        assert n <= q && !Eaten(slots, n, q);
      }
    }
  }

  lemma {:induction false} TearsToFull(slots: seq<Slot>, i: nat)
    requires i < |slots| && slots[i].Empty?
    ensures var j := FirstFull(slots, i);
      HarmlessTears(slots, i) <==> j < |slots| && slots[j].entry.commit == 0 && HarmlessTears(slots, j)
    decreases |slots| - i
  {
    var j, n := FirstFull(slots, i), i + 1;
    forall q | n <= q < |slots| ensures Eaten(slots, n, q) <==> Eaten(slots, i, q) { }
    if n < |slots| && slots[n].Empty? {
      TearsToFull(slots, n);
      assert HarmlessTears(slots, i) <==> HarmlessTears(slots, n) by { TearsOn(slots, i); }
    } else {
      assert j == n;
      if j < |slots| { TearsOn(slots, i); }
    }
  }

  lemma TearsOn(slots: seq<Slot>, i: nat)
    requires i + 1 < |slots| && slots[i].Empty?
    ensures HarmlessTears(slots, i) <==>
      HarmlessTears(slots, i + 1) && (slots[i + 1].Full? ==> slots[i + 1].entry.commit == 0)
  {
    var n := i + 1;
    forall q | n <= q < |slots| ensures Eaten(slots, n, q) <==> Eaten(slots, i, q) { }
    if HarmlessTears(slots, i) {
      assert !Eaten(slots, i, i);
      forall q | n <= q < |slots| && slots[q].Empty? && !Eaten(slots, n, q)
        ensures q + 1 < |slots| && (slots[q + 1].Full? ==> slots[q + 1].entry.commit == 0)
      {
        assert !Eaten(slots, i, q);
      }
    }
  }

  /** The scan finds all entries with their commit ids exactly when no committed entry follows a torn
      one and the log does not end in a torn one, but for those stepped over. */
  lemma {:induction false} TornEntries(slots: seq<Slot>, i: nat)
    requires i <= |slots|
    ensures Expected(slots, i) == Wanted(slots, i) <==> HarmlessTears(slots, i)
    decreases |slots| - i
  {
    if i < |slots| {
      var j := FirstFull(slots, i);
      if slots[i].Empty? { TearsToFull(slots, i); }
      WantedSkips(slots, i);
      if j < |slots| {
        var n := NextSlot(slots, j);
        TornEntries(slots, n);
        TearsBehind(slots, j);
        assert Wanted(slots, n) == Wanted(slots, j + 1);
        SamePrepend(RecordAt(slots, j, if slots[i].Full? then slots[j].entry.commit else 0),
                    RecordAt(slots, j, slots[j].entry.commit), Expected(slots, n), Wanted(slots, n));
      }
    }
  }

  lemma SamePrepend(r: Record, q: Record, s: Scan, t: Scan)
    ensures Prepend(r, s) == Prepend(q, t) <==> r == q && s == t
  {
    if Prepend(r, s) == Prepend(q, t) {
      assert ([r] + s.records)[1..] == s.records && ([q] + t.records)[1..] == t.records;
      assert ([r] + s.records)[0] == r && ([q] + t.records)[0] == q;
    }
  }

  /** The scan finds exactly the entries, each with its commit id, if and only if none directly follows a tight one and
      all torn slots are harmless. */
  lemma ScanExact(f: File, slots: seq<Slot>, i: nat)
    requires Holds(f, slots) && i <= |slots|
    ensures ScanFrom(f, Offset(slots, i), Offset(slots, |slots|)) == Wanted(slots, i) <==>
      NoOvershoot(slots, i) && HarmlessTears(slots, i)
  {
    if NoOvershoot(slots, i) {
      ScanFinds(f, slots, i);
      TornEntries(slots, i);
    } else {
      OvershotScan(f, slots, i);
    }
  }

  lemma {:induction false} OvershotScan(f: File, slots: seq<Slot>, i: nat)
    requires Holds(f, slots) && i <= |slots| && !NoOvershoot(slots, i)
    ensures ScanFrom(f, Offset(slots, i), Offset(slots, |slots|)) != Wanted(slots, i)
    decreases |slots| - i
  {
    var j := FirstFull(slots, i);
    NoneBefore(slots, i);
    if j < |slots| {
      ScanHead(f, slots, i, j);
      if Tight(slots[j]) && j + 1 < |slots| && slots[j + 1].Full? {
        Overshoot(f, slots, j + 1);
      } else {
        var n := NextSlot(slots, j);
        RestSlot(f, slots, j);
        OvershotLater(slots, i, j);
        OvershotScan(f, slots, n);
      }
    }
  }

  /** If the scan finds what it should, it does so after the first entry. */
  lemma ScanHead(f: File, slots: seq<Slot>, i: nat, j: nat)
    requires Holds(f, slots) && i < |slots| && j == FirstFull(slots, i) < |slots|
    ensures ScanFrom(f, Offset(slots, i), Offset(slots, |slots|)) == Wanted(slots, i) ==>
      Rest(f, slots, j) == Wanted(slots, j + 1)
  {
    WantedSkips(slots, i);
    if slots[i].Full? { ScanFull(f, slots, i); } else { ScanTorn(f, slots, i); }
    SamePrepend(RecordAt(slots, j, if slots[i].Full? then slots[j].entry.commit else 0),
                RecordAt(slots, j, slots[j].entry.commit), Rest(f, slots, j), Wanted(slots, j + 1));
  }

  lemma OvershotLater(slots: seq<Slot>, i: nat, j: nat)
    requires i <= j < |slots| && slots[j].Full? && (forall k :: i <= k < j ==> slots[k].Empty?)
    requires !NoOvershoot(slots, i)
    requires !(Tight(slots[j]) && j + 1 < |slots| && slots[j + 1].Full?)
    ensures !NoOvershoot(slots, NextSlot(slots, j)) && Wanted(slots, NextSlot(slots, j)) == Wanted(slots, j + 1)
  {
    var k :| i <= k < |slots| - 1 && Tight(slots[k]) && slots[k + 1].Full?;
    assert NextSlot(slots, j) <= k;
  }

  /** One line too far, and entry `i` is missed. */
  lemma Overshoot(f: File, slots: seq<Slot>, i: nat)
    requires 0 < i < |slots| && slots[i].Full? && Tight(slots[i - 1])
    ensures Rest(f, slots, i - 1) != Wanted(slots, i)
  {
    FirstRecord(f, Offset(slots, i) + LINE, Offset(slots, |slots|));
    assert Wanted(slots, i).records[0].ptr == Offset(slots, i) + 24;
  }

  lemma FirstRecord(f: File, ptr: nat, tail: nat)
    ensures var s := ScanFrom(f, ptr, tail); s.records != [] ==> ptr + 24 <= s.records[0].ptr
  {
  }

  /** Log round trip: on any log file, with torn reservations among the entries, the scan from the header to the tail
      yields the appended entries, each with its own commit id and tag, exactly when none directly follows a tight one
      and all torn reservations are harmless. */
  lemma LogRoundTrip(data: seq<Byte>, slots: seq<Slot>, play: DryRun)
    requires Laid(data, slots) && AllParse(play, slots)
    requires forall k :: Offset(slots, |slots|) <= k < |data| ==> data[k] == 0
    ensures ScanFrom(FileOf(data, play), HEADER, Offset(slots, |slots|)) == Wanted(slots, 0) <==>
      NoOvershoot(slots, 0) && HarmlessTears(slots, 0)
  {
    LogHolds(data, slots, play);
    ScanExact(FileOf(data, play), slots, 0);
  }

  /** A tight entry in front of another: the scan of two one-line entries returns the first only. */
  lemma TightExample(f: File, a: Entry, b: Entry)
    requires Length(a) == LINE && Holds(f, [Full(1, a), Full(1, b)])
    ensures ScanFrom(f, HEADER, Offset([Full(1, a), Full(1, b)], 2)) ==
      Scan([Record(HEADER + 24, a.commit, a.tag)], true)
  {
    var slots := [Full(1, a), Full(1, b)];
    ScanFull(f, slots, 0);
  }

  // ---------------------------------------------------------------- replay in commit order

  ghost function Ids(records: seq<Record>): set<nat> {
    set r | r in records :: r.commit
  }

  ghost function Above(ids: set<nat>, last: nat): set<nat> {
    set i | i in ids && last < i
  }

  /** End of the gap-free run of ids that starts after `last`. */
  ghost function RunEnd(ids: set<nat>, last: nat): (e: nat)
    decreases Above(ids, last)
  {
    if last + 1 in ids then assert last + 1 in Above(ids, last); RunEnd(ids, last + 1) else last
  }

  /** It is the longest such run. */
  lemma {:induction false} RunEndLongest(ids: set<nat>, last: nat)
    ensures var e := RunEnd(ids, last); last <= e && e + 1 !in ids && forall c :: last < c <= e ==> c in ids
    decreases Above(ids, last)
  {
    if last + 1 in ids {
      assert last + 1 in Above(ids, last);
      RunEndLongest(ids, last + 1);
    }
  }

  lemma {:induction false} RunEndFrom(ids: set<nat>, last: nat, mid: nat)
    requires last <= mid && forall c :: last < c <= mid ==> c in ids
    ensures RunEnd(ids, mid) == RunEnd(ids, last)
    decreases mid - last
  {
    if last < mid { RunEndFrom(ids, last + 1, mid); }
  }

  /** Only ids above `last` matter. */
  lemma {:induction false} RunEndAbove(A: set<nat>, B: set<nat>, last: nat)
    requires forall i :: last < i ==> (i in A <==> i in B)
    ensures RunEnd(A, last) == RunEnd(B, last)
    decreases Above(A, last)
  {
    if last + 1 in A {
      assert last + 1 in Above(A, last);
      RunEndAbove(A, B, last + 1);
    }
  }

  // ---------------------------------------------------------------- how far a torn log replays

  /** The entry follows a torn one, so the scan from slot `i` on does not read its commit id. */
  predicate AfterTear(slots: seq<Slot>, i: nat, j: nat)
    requires j < |slots|
  {
    i < j && slots[j].Full? && slots[j - 1].Empty? && !Eaten(slots, i, j - 1)
  }

  /** A filled slot from `i` on with this commit id. */
  ghost predicate Carries(slots: seq<Slot>, i: nat, j: int, c: nat) {
    i <= j < |slots| && slots[j].Full? && slots[j].entry.commit == c
  }

  ghost predicate Wants(slots: seq<Slot>, i: nat, c: nat) {
    exists j :: Carries(slots, i, j, c)
  }

  ghost predicate Expects(slots: seq<Slot>, i: nat, c: nat) {
    exists j :: Carries(slots, i, j, c) && !AfterTear(slots, i, j)
  }

  lemma PrependIds(r: Record, s: Scan, c: nat)
    ensures c in Ids(Prepend(r, s).records) <==> c == r.commit || c in Ids(s.records)
  {
    var all := Prepend(r, s).records;
    assert all == [r] + s.records;
    if c in Ids(s.records) {
      var q :| q in s.records && q.commit == c;
      assert q in all;
    }
    assert r in all;
  }

  lemma {:induction false} WantedIds(slots: seq<Slot>, i: nat, c: nat)
    requires i <= |slots|
    ensures c in Ids(Wanted(slots, i).records) <==> Wants(slots, i, c)
    decreases |slots| - i
  {
    if i < |slots| {
      WantedIds(slots, i + 1, c);
      if slots[i].Full? { PrependIds(RecordAt(slots, i, slots[i].entry.commit), Wanted(slots, i + 1), c); }
      WantsNext(slots, i, c);
    }
  }

  lemma WantsNext(slots: seq<Slot>, i: nat, c: nat)
    requires i < |slots|
    ensures Wants(slots, i, c) <==> Wants(slots, i + 1, c) || Carries(slots, i, i, c)
  {
    var n := i + 1;
    if j :| Carries(slots, n, j, c) { assert Carries(slots, i, j, c); }
    if j :| Carries(slots, i, j, c) && j != i { assert Carries(slots, n, j, c); }
  }

  lemma {:induction false} ExpectedIds(slots: seq<Slot>, i: nat, c: nat)
    requires i <= |slots| && 0 < c
    ensures c in Ids(Expected(slots, i).records) <==> Expects(slots, i, c)
    decreases |slots| - i
  {
    if i < |slots| {
      var j := FirstFull(slots, i);
      NoneBefore(slots, i);
      if j < |slots| {
        ExpectedIds(slots, NextSlot(slots, j), c);
        PrependIds(RecordAt(slots, j, if slots[i].Full? then slots[i].entry.commit else 0),
                   Expected(slots, NextSlot(slots, j)), c);
        ExpectsNext(slots, i, j, c);
      }
    }
  }

  lemma {:induction false} NoneBefore(slots: seq<Slot>, i: nat)
    requires i <= |slots|
    ensures forall j :: i <= j < FirstFull(slots, i) ==> slots[j].Empty?
    decreases |slots| - i
  {
    if i < |slots| && slots[i].Empty? { NoneBefore(slots, i + 1); }
  }

  lemma ExpectsNext(slots: seq<Slot>, i: nat, j: nat, c: nat)
    requires i <= j < |slots| && slots[j].Full? && forall k :: i <= k < j ==> slots[k].Empty?
    ensures Expects(slots, i, c) <==> Expects(slots, NextSlot(slots, j), c) || (i == j && slots[i].entry.commit == c)
  {
    var n := NextSlot(slots, j);
    forall k | n <= k < |slots| ensures AfterTear(slots, n, k) <==> AfterTear(slots, i, k) { }
    if k :| Carries(slots, n, k, c) && !AfterTear(slots, n, k) {
      assert Carries(slots, i, k, c) && !AfterTear(slots, i, k);
    }
    if k :| Carries(slots, i, k, c) && !AfterTear(slots, i, k) && k != j {
      assert Carries(slots, n, k, c) && !AfterTear(slots, n, k);
    }
    if i == j && slots[i].entry.commit == c { assert Carries(slots, i, i, c) && !AfterTear(slots, i, i); }
  }

  /** No two filled slots from `i` on carry the same id. */
  ghost predicate DistinctIds(slots: seq<Slot>, i: nat) {
    forall j, k :: i <= j < k < |slots| && slots[j].Full? && slots[k].Full? && slots[j].entry.commit != 0 ==>
        slots[j].entry.commit != slots[k].entry.commit
  }

  /** No entry that follows a torn one has an id of the run after `last`. */
  ghost predicate TearsSpare(slots: seq<Slot>, i: nat, last: nat)
    requires i <= |slots|
  {
    forall j :: i <= j < |slots| && AfterTear(slots, i, j) ==>
      slots[j].entry.commit <= last || RunEnd(Ids(Wanted(slots, i).records), last) < slots[j].entry.commit
  }

  /** What recovery reads ends its run where the ids in the log do exactly when the tears spare the run. */
  lemma TornRun(slots: seq<Slot>, i: nat, last: nat)
    requires i <= |slots| && DistinctIds(slots, i)
    ensures RunEnd(Ids(Expected(slots, i).records), last) == RunEnd(Ids(Wanted(slots, i).records), last) <==>
      TearsSpare(slots, i, last)
  {
    var A, B := Ids(Expected(slots, i).records), Ids(Wanted(slots, i).records);
    RunEndLongest(A, last);
    RunEndLongest(B, last);
    TornMembers(slots, i);
    if TearsSpare(slots, i, last) {
      forall c | last < c <= RunEnd(B, last) ensures c in A {
        assert Wants(slots, i, c);
        var j :| Carries(slots, i, j, c);
        assert !AfterTear(slots, i, j);
      }
      RunEndFrom(A, last, RunEnd(B, last));
      assert RunEnd(B, last) + 1 !in A;
    } else {
      var j :| i <= j < |slots| && AfterTear(slots, i, j) && last < slots[j].entry.commit <= RunEnd(B, last);
      OnlyCarrier(slots, i, j);
      assert slots[j].entry.commit !in A;
    }
  }

  lemma OnlyCarrier(slots: seq<Slot>, i: nat, j: nat)
    requires DistinctIds(slots, i) && i <= j < |slots| && AfterTear(slots, i, j) && 0 < slots[j].entry.commit
    ensures !Expects(slots, i, slots[j].entry.commit)
  {
    forall k | Carries(slots, i, k, slots[j].entry.commit) ensures k == j { }
  }

  lemma TornMembers(slots: seq<Slot>, i: nat)
    requires i <= |slots|
    ensures forall c: nat :: 0 < c ==> (c in Ids(Expected(slots, i).records) <==> Expects(slots, i, c))
    ensures forall c: nat :: 0 < c ==> (c in Ids(Wanted(slots, i).records) <==> Wants(slots, i, c))
  {
    forall c: nat | 0 < c ensures c in Ids(Expected(slots, i).records) <==> Expects(slots, i, c) {
      ExpectedIds(slots, i, c);
    }
    forall c: nat | 0 < c ensures c in Ids(Wanted(slots, i).records) <==> Wants(slots, i, c) { WantedIds(slots, i, c); }
  }

  /** Committed entries have different ids. */
  ghost predicate Distinct(records: seq<Record>) {
    forall i, j :: 0 <= i < j < |records| && records[i].commit != 0 ==> records[i].commit != records[j].commit
  }

  ghost predicate Sorted(queue: seq<Record>) {
    forall i, j :: 0 <= i < j < |queue| ==> queue[i].commit < queue[j].commit
  }

  /** The queue holds the records that have ids above `last`. */
  ghost predicate Waiting(queue: seq<Record>, records: seq<Record>, last: nat) {
    Sorted(queue) && forall r :: r in queue <==> r in records && last < r.commit
  }

  /** The priority queue: smallest commit id first. */
  function Push(queue: seq<Record>, r: Record): seq<Record> {
    if queue == [] || r.commit < queue[0].commit then [r] + queue else [queue[0]] + Push(queue[1..], r)
  }

  lemma {:induction false} PushMembers(queue: seq<Record>, r: Record)
    ensures forall q :: q in Push(queue, r) <==> q in queue || q == r
  {
    if !(queue == [] || r.commit < queue[0].commit) {
      PushMembers(queue[1..], r);
      assert queue == [queue[0]] + queue[1..];
    }
  }

  lemma {:induction false} PushSorted(queue: seq<Record>, r: Record)
    requires Sorted(queue) && forall q :: q in queue ==> q.commit != r.commit
    ensures Sorted(Push(queue, r))
  {
    if queue != [] && queue[0].commit <= r.commit {
      PushSorted(queue[1..], r);
      PushMembers(queue[1..], r);
      var rest := Push(queue[1..], r);
      forall j | 0 <= j < |rest| ensures queue[0].commit < rest[j].commit { assert rest[j] in rest; }
    }
  }

  /** Played so far: one record per id from `last0` to `last`, ascending. */
  ghost predicate PlayedRun(records: seq<Record>, played: seq<Record>, last0: nat, last: nat) {
    && last0 <= last && |played| == last - last0
    && forall k :: 0 <= k < |played| ==> played[k] in records && played[k].commit == last0 + 1 + k
  }

  /** Scan and replay. With distinct commit ids the records played are those of the longest gap-free
      run of ids after `last0`, in ascending order, each once; the queue is empty at the end exactly
      when no id lies beyond a gap. */
  method Recover(f: File, head: nat, tail: nat, last0: nat)
    returns (played: seq<Record>, last: nat, queue: seq<Record>, ok: bool)
    requires Distinct(ScanFrom(f, head, tail).records)
    ensures ok == ScanFrom(f, head, tail).ok
    ensures
      var records := ScanFrom(f, head, tail).records;
      && last == RunEnd(Ids(records), last0) && PlayedRun(records, played, last0, last)
      && (queue == [] <==> forall r :: r in records ==> r.commit <= last)
  {
    ghost var all := ScanFrom(f, head, tail);
    ghost var records: seq<Record> := [];
    var ptr := head;
    played, last, queue, ok := [], last0, [], true;
    while ptr < tail
      invariant all.records == records + ScanFrom(f, ptr, tail).records && all.ok == ScanFrom(f, ptr, tail).ok
      invariant Waiting(queue, records, last) && PlayedRun(records, played, last0, last)
      invariant last == RunEnd(Ids(records), last0)
      decreases tail - ptr
    {
      var s := Step(f, ptr);
      if s.Nothing? {
        ok := false;
        assert all.records == records;
        break;
      }
      ghost var before := records;
      records := records + [s.record];
      assert all.records == records + ScanFrom(f, s.next, tail).records;
      queue := Enqueue(queue, s.record, last, before, all.records);
      ptr := s.next;
      played, last, queue := PlayReady(records, played, last, queue, last0);
    }
    assert all.records == records;
    assert queue != [] ==> queue[0] in queue;
  }

  /** A record is queued when its id is above the last one played. */
  method Enqueue(queue: seq<Record>, r: Record, last: nat, ghost before: seq<Record>, ghost all: seq<Record>)
    returns (q: seq<Record>)
    requires Waiting(queue, before, last) && Distinct(all) && before + [r] <= all
    ensures Waiting(q, before + [r], last)
  {
    q := queue;
    if last < r.commit {
      forall x | x in queue ensures x.commit != r.commit {
        var i :| 0 <= i < |before| && before[i] == x;
        assert all[i] == x && all[|before|] == r;
      }
      PushSorted(queue, r);
      PushMembers(queue, r);
      q := Push(queue, r);
    }
  }

  lemma RunMeans(records: seq<Record>, played: seq<Record>, last0: nat, last: nat)
    requires PlayedRun(records, played, last0, last)
    ensures forall c :: last0 < c <= last ==> c in Ids(records)
  {
    forall c | last0 < c <= last ensures c in Ids(records) {
      assert played[c - last0 - 1] in records;
    }
  }

  /** The inner loop: play while the smallest queued id is the next one. */
  method PlayReady(ghost records: seq<Record>, played0: seq<Record>, from: nat, queue0: seq<Record>, ghost last0: nat)
    returns (played: seq<Record>, last: nat, queue: seq<Record>)
    requires Waiting(queue0, records, from) && last0 <= from && |played0| == from - last0
    requires forall k :: 0 <= k < |played0| ==> played0[k] in records && played0[k].commit == last0 + 1 + k
    ensures Waiting(queue, records, last) && PlayedRun(records, played, last0, last)
    ensures last == RunEnd(Ids(records), last0)
  {
    played, last, queue := played0, from, queue0;
    while queue != [] && queue[0].commit == last + 1
      invariant Waiting(queue, records, last) && PlayedRun(records, played, last0, last)
      decreases |queue|
    {
      played := played + [queue[0]];
      PopWaiting(queue, records, last);
      last := queue[0].commit;
      queue := queue[1..];
    }
    NothingReady(queue, records, last);
    RunMeans(records, played, last0, last);
    RunEndFrom(Ids(records), last0, last);
  }

  lemma NothingReady(queue: seq<Record>, records: seq<Record>, last: nat)
    requires Waiting(queue, records, last) && (queue == [] || queue[0].commit != last + 1)
    ensures last + 1 !in Ids(records)
  {
    forall r | r in records ensures r.commit != last + 1 {
      if last < r.commit {
        var i :| 0 <= i < |queue| && queue[i] == r;
        assert queue[0] in queue;
      }
    }
  }

  lemma PopWaiting(queue: seq<Record>, records: seq<Record>, last: nat)
    requires Waiting(queue, records, last) && queue != [] && queue[0].commit == last + 1
    ensures Waiting(queue[1..], records, last + 1)
  {
    forall r ensures r in queue[1..] <==> r in records && last + 1 < r.commit {
      if r in queue[1..] {
        var i :| 0 <= i < |queue[1..]| && queue[1..][i] == r;
        assert queue[i + 1] == r && queue[0].commit < queue[i + 1].commit;
      }
      if r in records && last + 1 < r.commit {
        assert r in queue;
        var i :| 0 <= i < |queue| && queue[i] == r;
        assert queue[1..][i - 1] == r;
      }
    }
  }
}
