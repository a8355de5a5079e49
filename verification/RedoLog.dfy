/**
 The bytes of a semantic redo log: entries are reserved by adding to the tail, filled in later,
 marked committed later still, and found again by a scan.
 */
module RedoLogs {

  const LINE := 64
  const HEADER := 64
  const MAGIC: nat := 0x5265646F4C6F6745
  const NESTED: nat := 0x8000000000000000
  const UUID_BYTES := 16
  const WORDS: nat := 0x1_0000_0000_0000_0000

  type Byte = b: nat | b < 256

  // ---------------------------------------------------------------- words

  function Power(n: nat): (p: nat)
    ensures 0 < p
  {
    if n == 0 then 1 else 256 * Power(n - 1)
  }

  /** The `n` low bytes of `x`, lowest first. */
  function Bytes(x: nat, n: nat): (s: seq<Byte>)
    ensures |s| == n
  {
    if n == 0 then [] else [x % 256] + Bytes(x / 256, n - 1)
  }

  function Value(s: seq<Byte>): nat {
    if s == [] then 0 else s[0] + 256 * Value(s[1..])
  }

  lemma {:induction false} ValueOfBytes(x: nat, n: nat)
    requires x < Power(n)
    ensures Value(Bytes(x, n)) == x
  {
    if n != 0 {
      ValueOfBytes(x / 256, n - 1);
      assert Bytes(x, n)[1..] == Bytes(x / 256, n - 1);
    }
  }

  function Word(x: nat): seq<Byte> {
    Bytes(x, 8)
  }

  lemma WordValue(x: nat)
    requires x < WORDS
    ensures Value(Word(x)) == x
  {
    assert Power(8) == WORDS by {
      assert Power(2) == 0x1_0000;
      assert Power(4) == 0x1_0000_0000 by { assert Power(3) == 256 * Power(2); }
      assert Power(6) == 0x1_0000_0000_0000 by { assert Power(5) == 256 * Power(4); }
      assert Power(7) == 256 * Power(6);
    }
    ValueOfBytes(x, 8);
  }

  function Zeros(n: nat): (s: seq<Byte>)
    ensures |s| == n && forall i :: 0 <= i < n ==> s[i] == 0
  {
    seq(n, i => 0)
  }

  lemma {:induction false} ZeroValue(s: seq<Byte>)
    requires forall i :: 0 <= i < |s| ==> s[i] == 0
    ensures Value(s) == 0
  {
    if s != [] { ZeroValue(s[1..]); }
  }

  function Read(data: seq<Byte>, p: nat): nat
    requires p + 8 <= |data|
  {
    Value(data[p..p + 8])
  }

  predicate At(data: seq<Byte>, p: nat, s: seq<Byte>) {
    p + |s| <= |data| && data[p..p + |s|] == s
  }

  /** A stored word is read back. */
  lemma ReadWord(data: seq<Byte>, p: nat, x: nat)
    requires At(data, p, Word(x)) && x < WORDS
    ensures Read(data, p) == x
  {
    WordValue(x);
  }

  lemma ReadZero(data: seq<Byte>, p: nat)
    requires p + 8 <= |data| && forall i :: p <= i < p + 8 ==> data[i] == 0
    ensures Read(data, p) == 0
  {
    ZeroValue(data[p..p + 8]);
  }

  // ---------------------------------------------------------------- entries

  /** A log entry: commit id (zero until committed), method tag, argument bytes. */
  datatype Entry = Entry(commit: nat, tag: nat, args: seq<Byte>)

  /** A reserved range of whole lines: still empty, or filled. */
  datatype Slot = Empty(lines: nat) | Full(lines: nat, entry: Entry)

  function Length(e: Entry): nat {
    24 + |e.args|
  }

  /** `lines` is the length in whole lines; an exact multiple of a line gets no padding. */
  predicate Fits(lines: nat, length: nat) {
    (lines - 1) * LINE < length <= lines * LINE
  }

  /** There is just one such number. */
  lemma FitsExact(lines: nat, length: nat)
    requires 0 < length
    ensures Fits(lines, length) <==> lines == (length + LINE - 1) / LINE
  {
  }

  /** Where slot `i` begins; slots follow one another without gap. */
  function Offset(slots: seq<Slot>, i: nat): (o: nat)
    requires i <= |slots|
    ensures HEADER <= o
  {
    if i == 0 then HEADER else Offset(slots, i - 1) + slots[i - 1].lines * LINE
  }

  predicate InRange(s: Slot) {
    s.lines > 0 && (s.Full? ==> s.entry.commit < WORDS && s.entry.tag < WORDS && Fits(s.lines, Length(s.entry)))
  }

  /** The bytes at `p` are those of the slot: zeros, or commit id, magic word, tag and arguments. */
  ghost predicate SlotAt(data: seq<Byte>, p: nat, s: Slot) {
    match s
    case Empty(n) => p + n * LINE <= |data| && forall k :: p <= k < p + n * LINE ==> data[k] == 0
    case Full(n, e) =>
      && At(data, p, Word(e.commit)) && At(data, p + 8, Word(MAGIC)) && At(data, p + 16, Word(e.tag))
      && At(data, p + 24, e.args)
      && p + n * LINE <= |data|
  }

  ghost predicate Laid(data: seq<Byte>, slots: seq<Slot>) {
    forall i :: 0 <= i < |slots| ==> LaidSlot(data, slots, i)
  }

  ghost predicate LaidSlot(data: seq<Byte>, slots: seq<Slot>, i: nat)
    requires i < |slots|
  {
    InRange(slots[i]) && SlotAt(data, Offset(slots, i), slots[i])
  }

  /** Reserved ranges do not overlap: each ends before any later one begins. */
  lemma {:induction false} OffsetsIncrease(slots: seq<Slot>, i: nat, j: nat)
    requires i < j <= |slots|
    ensures Offset(slots, i) + slots[i].lines * LINE <= Offset(slots, j)
  {
    if i + 1 < j { OffsetsIncrease(slots, i, j - 1); }
  }

  /** Offsets depend only on the lengths of the slots before. */
  lemma {:induction false} SameOffsets(slots: seq<Slot>, slots': seq<Slot>, i: nat)
    requires i <= |slots| && i <= |slots'| && forall j :: 0 <= j < i ==> slots'[j].lines == slots[j].lines
    ensures Offset(slots', i) == Offset(slots, i)
  {
    if i != 0 { SameOffsets(slots, slots', i - 1); }
  }

  /** A slot stays when its bytes stay. */
  lemma SlotFrame(data: seq<Byte>, data': seq<Byte>, p: nat, s: Slot)
    requires SlotAt(data, p, s) && InRange(s) && p + s.lines * LINE <= |data'|
    requires forall k :: p <= k < p + s.lines * LINE ==> k < |data| && data'[k] == data[k]
    ensures SlotAt(data', p, s)
  {
    if s.Full? {
      AtFrame(data, data', p, Word(s.entry.commit));
      AtFrame(data, data', p + 8, Word(MAGIC));
      AtFrame(data, data', p + 16, Word(s.entry.tag));
      AtFrame(data, data', p + 24, s.entry.args);
    }
  }

  lemma AtFrame(data: seq<Byte>, data': seq<Byte>, p: nat, s: seq<Byte>)
    requires At(data, p, s) && p + |s| <= |data'| && forall k :: p <= k < p + |s| ==> data'[k] == data[k]
    ensures At(data', p, s)
  {
    assert data'[p..p + |s|] == data[p..p + |s|];
  }

  function Patch(data: seq<Byte>, p: nat, s: seq<Byte>): (r: seq<Byte>)
    requires p + |s| <= |data|
    ensures |r| == |data| && At(r, p, s)
    ensures forall k :: 0 <= k < |data| && !(p <= k < p + |s|) ==> r[k] == data[k]
  {
    data[..p] + s + data[p + |s|..]
  }

  /** Work inside the range of slot `i` that leaves the new slot there replaces just that slot. */
  lemma ReplaceSlot(data: seq<Byte>, data': seq<Byte>, slots: seq<Slot>, i: nat, s: Slot)
    requires Laid(data, slots) && i < |slots| && s.lines == slots[i].lines && InRange(s) && |data'| == |data|
    requires SlotAt(data', Offset(slots, i), s)
    requires forall k :: 0 <= k < |data| && !(Offset(slots, i) <= k < Offset(slots, i) + s.lines * LINE) ==>
      data'[k] == data[k]
    ensures Laid(data', slots[i := s]) && Offset(slots[i := s], |slots|) == Offset(slots, |slots|)
  {
    var t := slots[i := s];
    assert LaidSlot(data, slots, i);
    forall j | 0 <= j < |t| ensures LaidSlot(data', t, j) {
      assert LaidSlot(data, slots, j);
      SameOffsets(slots, t, j);
      if j < i { OffsetsIncrease(slots, j, i); }
      if i < j { OffsetsIncrease(slots, i, j); }
      if j != i { SlotFrame(data, data', Offset(slots, j), slots[j]); }
    }
    SameOffsets(slots, t, |slots|);
  }

  // ---------------------------------------------------------------- the log

  class RedoLog {
    var data: seq<Byte>
    var tail: nat
    var lastCommit: nat
    ghost var slots: seq<Slot>

    /** The file holds the header, the slots and then zeros up to its end. */
    ghost predicate Valid()
      reads this
    {
      && Offset(slots, |slots|) == tail <= |data| && Laid(data, slots)
      && forall i :: tail <= i < |data| ==> data[i] == 0
    }

    constructor (size: nat)
      requires HEADER <= size
      ensures Valid() && slots == [] && |data| == size && lastCommit == 0 && tail == HEADER
    {
      data, tail, lastCommit, slots := Zeros(size), HEADER, 0, [];
    }

    /** Reserves a range; the file must have room, as the source asserts. */
    method Reserve(length: nat) returns (offset: nat, ghost lines: nat)
      requires Valid() && 24 <= length && tail + length + LINE <= |data|
      modifies this
      ensures Valid() && slots == old(slots) + [Empty(lines)] && data == old(data) && lastCommit == old(lastCommit)
      ensures offset == old(tail) == Offset(slots, |old(slots)|) && Fits(lines, length) && 0 < lines
    {
      var size;
      size, lines := RoundUp(length);
      offset := tail;
      tail := tail + size;
      Reserved(data, slots, lines);
      slots := slots + [Empty(lines)];
    }

    /** Fills a reserved range; the commit word stays zero. */
    method Fill(offset: nat, tag: nat, args: seq<Byte>, ghost i: nat)
      requires Valid() && i < |slots| && slots[i].Empty? && Fits(slots[i].lines, 24 + |args|)
      requires offset == Offset(slots, i)
      requires tag < WORDS
      modifies this
      ensures Valid() && slots == old(slots)[i := Full(old(slots)[i].lines, Entry(0, tag, args))]
      ensures tail == old(tail) && lastCommit == old(lastCommit) && |data| == |old(data)|
      ensures forall k :: 0 <= k < |data| && !(offset <= k < offset + old(slots)[i].lines * LINE) ==>
        data[k] == old(data)[k]
    {
      ghost var e, data0 := Entry(0, tag, args), data;
      OffsetsIncrease(slots, i, |slots|);
      assert LaidSlot(data, slots, i);
      data := Patch(data, offset + 8, Word(MAGIC));
      data := Patch(data, offset + 16, Word(tag));
      data := Patch(data, offset + 24, args);
      Filled(data0, data, offset, slots[i].lines, e);
      ReplaceSlot(data0, data, slots, i, Full(slots[i].lines, e));
      slots := slots[i := Full(slots[i].lines, e)];
    }

    /** Stores the next commit id into an entry. */
    method Commit(offset: nat, ghost i: nat)
      requires Valid() && i < |slots| && slots[i].Full? && offset == Offset(slots, i)
      requires lastCommit + 1 < WORDS - 1
      modifies this
      ensures Valid() && lastCommit == old(lastCommit) + 1 && tail == old(tail) && |data| == |old(data)|
      ensures slots == old(slots)[i := Full(old(slots)[i].lines, old(slots)[i].entry.(commit := lastCommit))]
    {
      lastCommit := lastCommit + 1;
      ghost var e, data0 := slots[i].entry.(commit := lastCommit), data;
      OffsetsIncrease(slots, i, |slots|);
      assert LaidSlot(data, slots, i);
      data := Patch(data, offset, Word(lastCommit));
      Recommitted(data0, data, offset, slots[i], lastCommit);
      ReplaceSlot(data0, data, slots, i, Full(slots[i].lines, e));
      slots := slots[i := Full(slots[i].lines, e)];
    }

    /** Reserve and fill: the entry is the last one, uncommitted, and no byte before it has changed. */
    method Append(tag: nat, args: seq<Byte>) returns (offset: nat, ghost lines: nat)
      requires Valid() && tag < WORDS && tail + 24 + |args| + LINE <= |data|
      modifies this
      ensures Valid() && slots == old(slots) + [Full(lines, Entry(0, tag, args))] && offset == old(tail)
      ensures lastCommit == old(lastCommit)
      ensures offset == Offset(slots, |slots| - 1) && |data| == |old(data)|
      ensures forall k :: 0 <= k < offset ==> data[k] == old(data)[k]
    {
      ghost var n := |slots|;
      offset, lines := Reserve(24 + |args|);
      Fill(offset, tag, args, n);
      SameOffsets(old(slots) + [Empty(lines)], slots, n);
    }
  }

  /** Rounds up to whole lines. */
  method RoundUp(length: nat) returns (size: nat, ghost lines: nat)
    requires 0 < length
    ensures size == lines * LINE && 0 < lines && Fits(lines, length) && size < length + LINE
  {
    size := length;
    if size % LINE != 0 { size := size + LINE - size % LINE; }
    lines := size / LINE;
  }

  /** A range of zeros is an empty slot. */
  lemma Reserved(data: seq<Byte>, slots: seq<Slot>, lines: nat)
    requires Laid(data, slots) && 0 < lines && Offset(slots, |slots|) + lines * LINE <= |data|
    requires forall i :: Offset(slots, |slots|) <= i < |data| ==> data[i] == 0
    ensures Laid(data, slots + [Empty(lines)])
    ensures Offset(slots + [Empty(lines)], |slots|) == Offset(slots, |slots|)
    ensures Offset(slots + [Empty(lines)], |slots| + 1) == Offset(slots, |slots|) + lines * LINE
  {
    LaidMore(data, slots, Empty(lines));
  }

  lemma LaidMore(data: seq<Byte>, slots: seq<Slot>, s: Slot)
    requires Laid(data, slots) && InRange(s) && SlotAt(data, Offset(slots, |slots|), s)
    ensures Laid(data, slots + [s])
    ensures Offset(slots + [s], |slots|) == Offset(slots, |slots|)
    ensures Offset(slots + [s], |slots| + 1) == Offset(slots, |slots|) + s.lines * LINE
  {
    var t, n := slots + [s], |slots|;
    SameOffsets(slots, t, n);
    forall i | 0 <= i < |t| ensures LaidSlot(data, t, i) { LaidEach(data, slots, s, i); }
  }

  lemma LaidEach(data: seq<Byte>, slots: seq<Slot>, s: Slot, i: nat)
    requires Laid(data, slots) && InRange(s) && SlotAt(data, Offset(slots, |slots|), s) && i <= |slots|
    ensures LaidSlot(data, slots + [s], i)
  {
    if i < |slots| {
      assert LaidSlot(data, slots, i);
      LaidStays(data, slots, slots + [s], i);
    } else {
      SameOffsets(slots, slots + [s], i);
    }
  }

  lemma LaidStays(data: seq<Byte>, slots: seq<Slot>, t: seq<Slot>, i: nat)
    requires i < |slots| && slots <= t && LaidSlot(data, slots, i)
    ensures LaidSlot(data, t, i)
  {
    SameOffsets(slots, t, i);
    assert t[i] == slots[i];
  }

  lemma Recommitted(data0: seq<Byte>, data: seq<Byte>, p: nat, s: Slot, commit: nat)
    requires SlotAt(data0, p, s) && InRange(s) && s.Full? && p + 8 <= |data0| && data == Patch(data0, p, Word(commit))
    ensures SlotAt(data, p, Full(s.lines, s.entry.(commit := commit)))
  {
    AtFrame(data0, data, p + 8, Word(MAGIC));
    AtFrame(data0, data, p + 16, Word(s.entry.tag));
    AtFrame(data0, data, p + 24, s.entry.args);
  }

  lemma Filled(data0: seq<Byte>, data: seq<Byte>, p: nat, lines: nat, e: Entry)
    requires SlotAt(data0, p, Empty(lines)) && Fits(lines, Length(e)) && e.commit == 0 && |data| == |data0|
    requires data == Patch(Patch(Patch(data0, p + 8, Word(MAGIC)), p + 16, Word(e.tag)), p + 24, e.args)
    ensures SlotAt(data, p, Full(lines, e))
  {
    var d1 := Patch(data0, p + 8, Word(MAGIC));
    var d2 := Patch(d1, p + 16, Word(e.tag));
    AtFrame(d1, d2, p + 8, Word(MAGIC));
    AtFrame(d2, data, p + 8, Word(MAGIC));
    AtFrame(d2, data, p + 16, Word(e.tag));
    ZeroBytes(8);
    assert data[p..p + 8] == Zeros(8);
  }

  lemma {:induction false} ZeroBytes(n: nat)
    ensures Bytes(0, n) == Zeros(n)
  {
    if n != 0 { ZeroBytes(n - 1); }
  }
}
