/**
 The count of bytes in use that every free list keeps: a 64-bit word, here in lines of 64 bytes.
 */
module ByteCounts {
  import opened HeapLayout

  /** Bytes that fit a 64-bit word, in lines. */
  const COUNTER := 0x400000000000000

  /** A value of the count. */
  type Count = n: nat | n < COUNTER

  /** Unsigned addition and subtraction; the lines come from a chunk header and are fewer than the word can count. */
  function Up(total: Count, lines: nat): Count {
    if lines < COUNTER - total then total + lines else (total + lines) % COUNTER
  }

  function Down(total: Count, lines: nat): Count {
    if lines <= total then total - lines else (total - lines) % COUNTER
  }

  /** Lines in use. */
  ghost function InUse(live: map<Addr, nat>): nat {
    if live == map[] then 0 else
    var a :| a in live;
    live[a] + InUse(live - {a})
  }

  /** Taking any one chunk out lowers the sum by its size. */
  lemma {:induction false} InUseWithout(live: map<Addr, nat>, c: Addr)
    requires c in live
    ensures InUse(live) == live[c] + InUse(live - {c})
    decreases |live|
  {
    var a :| a in live && InUse(live) == live[a] + InUse(live - {a});
    if a != c {
      InUseWithout(live - {a}, c);
      InUseWithout(live - {c}, a);
      assert live - {a} - {c} == live - {c} - {a};
    }
  }

  lemma InUseWith(live: map<Addr, nat>, x: Addr, size: nat)
    ensures InUse(live[x := size]) == InUse(live - {x}) + size
  {
    InUseWithout(live[x := size], x);
    assert live[x := size] - {x} == live - {x};
  }

  /** The count is the sum of the chunks in use, less the lines ever gained in place, modulo the word. */
  ghost predicate Counts(total: Count, live: map<Addr, nat>, grown: nat) {
    total == (InUse(live) - grown) % COUNTER
  }

  lemma AllocCounts(total: Count, live: map<Addr, nat>, grown: nat, x: Addr, size: nat)
    requires Counts(total, live, grown) && x !in live
    ensures Counts(Up(total, size), live[x := size], grown)
  {
    InUseWith(live, x, size);
    assert live - {x} == live;
  }

  lemma FreeCounts(total: Count, live: map<Addr, nat>, grown: nat, c: Addr)
    requires Counts(total, live, grown) && c in live
    ensures Counts(Down(total, live[c]), live - {c}, grown)
  {
    InUseWithout(live, c);
  }

  lemma MoveCounts(total: Count, live: map<Addr, nat>, grown: nat, c: Addr, x: Addr, size: nat)
    requires Counts(total, live, grown) && c in live && x !in live
    ensures Counts(Down(Up(total, size), live[c]), (live - {c})[x := size], grown)
  {
    AllocCounts(total, live, grown, x, size);
    FreeCounts(Up(total, size), live[x := size], grown, c);
    assert live[x := size] - {c} == (live - {c})[x := size];
  }

  lemma GrowCounts(total: Count, live: map<Addr, nat>, grown: nat, c: Addr, size: nat)
    requires Counts(total, live, grown) && c in live && live[c] <= size
    ensures Counts(total, live[c := size], grown + size - live[c])
  {
    InUseWith(live, c, size);
    InUseWithout(live, c);
  }

  /** The count is right exactly when the lines gained in place come to nothing, modulo the word. */
  lemma CountRight(total: Count, live: map<Addr, nat>, grown: nat)
    requires Counts(total, live, grown)
    ensures total == InUse(live) % COUNTER <==> grown % COUNTER == 0
  {
    var s := InUse(live);
    assert (s - grown) % COUNTER == s % COUNTER <==> grown % COUNTER == 0;
  }

  /** The check `dealloc` makes before it subtracts fails exactly when the lines gained in place exceed what the other
      chunks hold. */
  lemma FreeUnderflows(total: Count, live: map<Addr, nat>, grown: nat, c: Addr)
    requires Counts(total, live, grown) && c in live && InUse(live) < COUNTER && grown <= InUse(live)
    ensures live[c] <= total <==> grown <= InUse(live - {c})
  {
    InUseWithout(live, c);
  }
}
