/**
 The store sequence of `freeAndCoalesce` and what it keeps.
 */
module FreeSteps {
  import opened HeapLayout
  import opened BucketLists
  import opened FreeListShape
  import opened AllocSteps

  /** No free chunk ends where `x` begins. */
  ghost predicate LeftUsed(mem: Mem, starts: set<Addr>, x: Addr) {
    forall a :: Free(mem, starts, a) && !mem[a].tag.last ==> Plus(a, mem[a].tag.size) != x
  }

  /** The chunk at `e`, if there is one, is in use. */
  ghost predicate RightUsed(mem: Mem, starts: set<Addr>, e: Addr) {
    e in starts && e in mem ==> mem[e].tag.used
  }

  lemma PrevUsed(mem: Mem, id: nat, blocks: set<nat>, starts: set<Addr>, c: Addr)
    requires Tiled(mem, id, blocks, starts) && c in starts
    requires 0 < c.off ==> var p := Addr(c.blk, mem[c].tag.prevOffset); p in mem && mem[p].tag.used
    ensures LeftUsed(mem, starts, c)
  {
    forall a | Free(mem, starts, a) && !mem[a].tag.last ensures Plus(a, mem[a].tag.size) != c {
      assert Chunk(mem, id, blocks, starts, a);
    }
  }

  /** Chunks of `S` other than `fc` are as before, up to the offset of their predecessor. */
  ghost predicate OthersSame(m0: Mem, m: Mem, S: set<Addr>, fc: Addr) {
    forall x :: x in S && x != fc && x in m0 && x in m ==>
      m[x].tag == m0[x].tag.(prevOffset := m[x].tag.prevOffset)
  }

  /** Lines inside chunks, and payload words of chunks in use other than `c`, are untouched. */
  ghost predicate KeptExcept(m0: Mem, m: Mem, starts: set<Addr>, c: Addr) {
    && m.Keys == m0.Keys
    && (forall x :: x in m0 && x !in starts ==> m[x] == m0[x])
    && (forall x :: x in m0 && x in starts && m0[x].tag.used && x != c ==> m[x] == m0[x].(tag := m[x].tag))
  }

  /** Chunk `c` has been freed and lies in free chunk `fc`, which is still off the lists. */
  ghost predicate Merging(m0: Mem, m: Mem, id: nat, blocks: set<nat>, starts: set<Addr>, S: set<Addr>,
                          heads: seq<Ptr>, lists: seq<seq<Addr>>, c: Addr, fc: Addr)
  {
    && ShapeBut(m, id, blocks, S, heads, lists, {fc})
    && Free(m, S, fc) && S <= starts && starts <= m0.Keys
    && OthersSame(m0, m, S, fc)
    && (forall x :: x in starts && x in m0 && m0[x].tag.used && x != c ==> x in S && x != fc)
    && KeptExcept(m0, m, starts, c)
    && c in m0 && fc.blk == c.blk && fc.off <= c.off && c.off + m0[c].tag.size <= fc.off + m[fc].tag.size
  }

  lemma MergingStart(m0: Mem, m1: Mem, id: nat, blocks: set<nat>, starts: set<Addr>, heads: seq<Ptr>,
                     lists: seq<seq<Addr>>, c: Addr)
    requires Shape(m0, id, blocks, starts, heads, lists) && c in starts && m0[c].tag.used
    requires m1 == WithTag(m0, c, m0[c].tag.(used := false))
    ensures Merging(m0, m1, id, blocks, starts, starts, heads, lists, c, c)
  {
    ReleaseStep(m0, m1, id, blocks, starts, heads, lists, c);
  }

  // ---------------------------------------------------------------- merge with the previous chunk

  /** Extend `prev` over `fc`; `fix` tells whether the chunk after them is told about it. */
  function PrevMem(mem: Mem, prev: Addr, fc: Addr, fix: bool): (r: Mem)
    requires prev in mem && fc in mem
  {
    var t, n := mem[fc].tag, Plus(fc, mem[fc].tag.size);
    var m := WithTag(mem, prev, mem[prev].tag.(size := mem[prev].tag.size + t.size, last := t.last));
    if fix && !t.last && n in m then WithTag(m, n, m[n].tag.(prevOffset := prev.off)) else m
  }

  /** Merging `fc` into `prev` leaves the end where it was. */
  ghost predicate SameEnd(mem: Mem, prev: Addr, fc: Addr) {
    && prev in mem && fc in mem
    && Plus(prev, PrevMem(mem, prev, fc, true)[prev].tag.size) == Plus(fc, mem[fc].tag.size)
  }

  /** Chunk `b` follows chunk `a`, and what follows `b` is another chunk. */
  ghost predicate InRow(mem: Mem, S: set<Addr>, a: Addr, b: Addr) {
    && S <= mem.Keys && a in S && b in S && a != b && b == Plus(a, mem[a].tag.size)
    && (!mem[b].tag.last ==> var n := Plus(b, mem[b].tag.size); n in S && n != a && n != b)
  }

  lemma PrevStores(m2: Mem, m3: Mem, S: set<Addr>, prev: Addr, fc: Addr)
    requires InRow(m2, S, prev, fc) && m3 == PrevMem(m2, prev, fc, true)
    ensures MergeTags(m2, m3, S, prev, fc) && TagsAt(m2, m3, S)
  {
  }

  lemma PrevTags(m2: Mem, m3: Mem, id: nat, blocks: set<nat>, S: set<Addr>, prev: Addr, fc: Addr)
    requires Tiled(m2, id, blocks, S) && prev in S && fc in S
    requires fc == Plus(prev, m2[prev].tag.size) && !m2[prev].tag.last
    requires m3 == PrevMem(m2, prev, fc, true)
    ensures MergeTags(m2, m3, S, prev, fc) && TagsAt(m2, m3, S)
  {
    assert Chunk(m2, id, blocks, S, fc);
    assert Chunk(m2, id, blocks, S, prev);
    PrevStores(m2, m3, S, prev, fc);
  }

  /** The predecessor of a chunk, as the boundary tags give it. */
  lemma PrevChunk(mem: Mem, id: nat, blocks: set<nat>, S: set<Addr>, fc: Addr)
    requires Tiled(mem, id, blocks, S) && fc in S && 0 < fc.off
    ensures
      var p := Addr(fc.blk, mem[fc].tag.prevOffset);
      p in S && p in mem && p != fc && p.off < fc.off && !mem[p].tag.last && fc == Plus(p, mem[p].tag.size)
  {
    assert Chunk(mem, id, blocks, S, fc);
    assert Chunk(mem, id, blocks, S, Addr(fc.blk, mem[fc].tag.prevOffset));
  }

  /** Unlinking and retagging chunks keeps what `KeptExcept` promises. */
  lemma KeptThrough(m0: Mem, m1: Mem, m2: Mem, m3: Mem, starts: set<Addr>, S: set<Addr>, lists: seq<seq<Addr>>, c: Addr)
    requires KeptExcept(m0, m1, starts, c) && LinksOnly(m1, m2, lists) && TagsAt(m2, m3, S) && S <= starts
    requires forall a :: Listed(lists, a) ==> Free(m1, S, a)
    requires forall x :: x in starts && x in m0 && m0[x].tag.used && x != c ==> x in m1 && m1[x].tag.used
    ensures KeptExcept(m0, m3, starts, c)
  {
    assert forall x :: x in m1 && (x !in S || m1[x].tag.used) ==> !Listed(lists, x);
  }

  lemma PrevOthers(m0: Mem, m1: Mem, m2: Mem, m3: Mem, S: set<Addr>, lists: seq<seq<Addr>>, prev: Addr, fc: Addr)
    requires OthersSame(m0, m1, S, fc) && LinksOnly(m1, m2, lists) && MergeTags(m2, m3, S, prev, fc)
    requires S <= m0.Keys
    ensures OthersSame(m0, m3, S - {fc}, prev)
  {
  }

  /** The merge itself, once the predecessor is off its list. */
  lemma PrevMerge(m0: Mem, m1: Mem, m2: Mem, m3: Mem, id: nat, blocks: set<nat>, starts: set<Addr>, S: set<Addr>,
                  heads1: seq<Ptr>, lists1: seq<seq<Addr>>, heads: seq<Ptr>, lists: seq<seq<Addr>>, c: Addr, fc: Addr,
                  prev: Addr)
    requires Merging(m0, m1, id, blocks, starts, S, heads1, lists1, c, fc)
    requires Free(m1, S, prev) && prev != fc && fc == Plus(prev, m1[prev].tag.size) && !m1[prev].tag.last
    requires LinksOnly(m1, m2, lists1) && ShapeBut(m2, id, blocks, S, heads, lists, {fc} + {prev})
    requires m3 == PrevMem(m2, prev, fc, true)
    ensures Merging(m0, m3, id, blocks, starts, S - {fc}, heads, lists, c, prev)
  {
    PrevTags(m2, m3, id, blocks, S, prev, fc);
    MergeStep(m2, m3, id, blocks, S, heads, lists, {fc} + {prev}, prev, fc);
    assert {fc} + {prev} - {fc} == {prev};
    PrevOthers(m0, m1, m2, m3, S, lists1, prev, fc);
    PrevBookkeeping(m0, m1, m2, m3, starts, S, lists1, c, fc, prev);
  }

  lemma PrevBookkeeping(m0: Mem, m1: Mem, m2: Mem, m3: Mem, starts: set<Addr>, S: set<Addr>, lists: seq<seq<Addr>>,
                        c: Addr, fc: Addr, prev: Addr)
    requires Free(m1, S, prev) && Free(m1, S, fc) && prev != fc && fc == Plus(prev, m1[prev].tag.size)
    requires OthersSame(m0, m1, S, fc) && S <= starts <= m0.Keys
    requires forall x :: x in starts && x in m0 && m0[x].tag.used && x != c ==> x in S && x != fc
    requires KeptExcept(m0, m1, starts, c) && LinksOnly(m1, m2, lists) && TagsAt(m2, m3, S)
    requires MergeTags(m2, m3, S, prev, fc) && m3[prev].tag.used == m2[prev].tag.used
    requires forall a :: Listed(lists, a) ==> Free(m1, S, a)
    ensures KeptExcept(m0, m3, starts, c)
    ensures Free(m3, S - {fc}, prev) && m3[prev].tag.size == m1[prev].tag.size + m1[fc].tag.size
    ensures forall x :: x in starts && x in m0 && m0[x].tag.used && x != c ==> x in S - {fc} && x != prev
  {
    KeptThrough(m0, m1, m2, m3, starts, S, lists, c);
  }

  /** Merging `fc` into its free predecessor. */
  lemma PrevStep(m0: Mem, m1: Mem, id: nat, blocks: set<nat>, starts: set<Addr>, S: set<Addr>, heads: seq<Ptr>,
                 lists: seq<seq<Addr>>, c: Addr, fc: Addr, prev: Addr)
    requires Merging(m0, m1, id, blocks, starts, S, heads, lists, c, fc)
    requires 0 < fc.off && prev == Addr(fc.blk, m1[fc].tag.prevOffset) && prev in m1 && !m1[prev].tag.used
    ensures Unlinkable(m1, heads, lists, prev)
    ensures
      var b, m2 := Bucket(m1[prev].tag.size), UnlinkMem(m1, prev);
      && prev in m2 && fc in m2
      && Merging(m0, PrevMem(m2, prev, fc, true), id, blocks, starts, S - {fc}, UnlinkHeads(m1, heads, b, prev),
                 UnlinkLists(lists, b, prev), c, prev)
    ensures SameEnd(UnlinkMem(m1, prev), prev, fc)
  {
    PrevChunk(m1, id, blocks, S, fc);
    UnlinkFree(m1, id, blocks, S, heads, lists, {fc}, prev);
    var b, m2 := Bucket(m1[prev].tag.size), UnlinkMem(m1, prev);
    PrevMerge(m0, m1, m2, PrevMem(m2, prev, fc, true), id, blocks, starts, S, heads, lists,
              UnlinkHeads(m1, heads, b, prev), UnlinkLists(lists, b, prev), c, fc, prev);
  }

  /** The chunk is on the list of its size class and its links lead to chunks. */
  ghost predicate Unlinkable(mem: Mem, heads: seq<Ptr>, lists: seq<seq<Addr>>, c: Addr) {
    && |heads| == |lists| == TOTAL_BUCKETS && c in mem && c in lists[Bucket(mem[c].tag.size)]
    && (mem[c].prev.To? ==> mem[c].prev.addr in mem) && (mem[c].next.To? ==> mem[c].next.addr in mem)
  }

  // ---------------------------------------------------------------- merge with the next chunk

  /** Extend `fc` over the chunk `n` that follows it. */
  function NextMem(mem: Mem, fc: Addr, n: Addr): (r: Mem)
    requires fc in mem && n in mem
  {
    var t, e := mem[n].tag, Plus(n, mem[n].tag.size);
    var m := WithTag(mem, fc, mem[fc].tag.(size := mem[fc].tag.size + t.size, last := t.last));
    if !t.last && e in m then WithTag(m, e, m[e].tag.(prevOffset := fc.off)) else m
  }

  lemma NextStores(m2: Mem, m3: Mem, S: set<Addr>, fc: Addr, n: Addr)
    requires InRow(m2, S, fc, n) && m3 == NextMem(m2, fc, n)
    ensures MergeTags(m2, m3, S, fc, n) && TagsAt(m2, m3, S)
  {
  }

  lemma NextTags(m2: Mem, m3: Mem, id: nat, blocks: set<nat>, S: set<Addr>, fc: Addr, n: Addr)
    requires Tiled(m2, id, blocks, S) && fc in S && n in S
    requires n == Plus(fc, m2[fc].tag.size) && !m2[fc].tag.last
    requires m3 == NextMem(m2, fc, n)
    ensures MergeTags(m2, m3, S, fc, n) && TagsAt(m2, m3, S)
  {
    assert Chunk(m2, id, blocks, S, fc);
    assert Chunk(m2, id, blocks, S, n);
    NextStores(m2, m3, S, fc, n);
  }

  lemma NextBookkeeping(m0: Mem, m1: Mem, m2: Mem, m3: Mem, starts: set<Addr>, S: set<Addr>, lists: seq<seq<Addr>>,
                        c: Addr, fc: Addr, n: Addr)
    requires Free(m1, S, n) && Free(m1, S, fc) && n != fc
    requires OthersSame(m0, m1, S, fc) && S <= starts <= m0.Keys
    requires forall x :: x in starts && x in m0 && m0[x].tag.used && x != c ==> x in S && x != fc
    requires KeptExcept(m0, m1, starts, c) && LinksOnly(m1, m2, lists) && TagsAt(m2, m3, S)
    requires MergeTags(m2, m3, S, fc, n) && m3[fc].tag.used == m2[fc].tag.used
    requires forall a :: Listed(lists, a) ==> Free(m1, S, a)
    ensures KeptExcept(m0, m3, starts, c)
    ensures Free(m3, S - {n}, fc) && m3[fc].tag.size == m1[fc].tag.size + m1[n].tag.size
    ensures forall x :: x in starts && x in m0 && m0[x].tag.used && x != c ==> x in S - {n} && x != fc
  {
    KeptThrough(m0, m1, m2, m3, starts, S, lists, c);
  }

  lemma NextOthers(m0: Mem, m1: Mem, m2: Mem, m3: Mem, S: set<Addr>, lists: seq<seq<Addr>>, fc: Addr, n: Addr)
    requires OthersSame(m0, m1, S, fc) && LinksOnly(m1, m2, lists) && MergeTags(m2, m3, S, fc, n)
    requires S <= m0.Keys
    ensures OthersSame(m0, m3, S - {n}, fc)
  {
  }

  lemma NextMerge(m0: Mem, m1: Mem, m2: Mem, m3: Mem, id: nat, blocks: set<nat>, starts: set<Addr>, S: set<Addr>,
                  heads1: seq<Ptr>, lists1: seq<seq<Addr>>, heads: seq<Ptr>, lists: seq<seq<Addr>>, c: Addr, fc: Addr,
                  n: Addr)
    requires Merging(m0, m1, id, blocks, starts, S, heads1, lists1, c, fc)
    requires Free(m1, S, n) && n != fc && n == Plus(fc, m1[fc].tag.size) && !m1[fc].tag.last
    requires LinksOnly(m1, m2, lists1) && ShapeBut(m2, id, blocks, S, heads, lists, {fc} + {n})
    requires m3 == NextMem(m2, fc, n)
    ensures Merging(m0, m3, id, blocks, starts, S - {n}, heads, lists, c, fc)
  {
    NextTags(m2, m3, id, blocks, S, fc, n);
    MergeStep(m2, m3, id, blocks, S, heads, lists, {fc} + {n}, fc, n);
    assert {fc} + {n} - {n} == {fc};
    NextBookkeeping(m0, m1, m2, m3, starts, S, lists1, c, fc, n);
    NextOthers(m0, m1, m2, m3, S, lists1, fc, n);
  }

  /** `m` is `v` but for a stale predecessor offset in the header of chunk `n`. */
  ghost predicate StaleAt(v: Mem, m: Mem, n: Addr) {
    && m.Keys == v.Keys && n in v
    && (forall x :: x in v && x != n ==> m[x] == v[x])
    && m[n] == v[n].(tag := v[n].tag.(prevOffset := m[n].tag.prevOffset))
  }

  lemma StaleUnlink(v: Mem, m: Mem, n: Addr)
    requires StaleAt(v, m, n)
    requires (v[n].prev.To? ==> v[n].prev.addr in v) && (v[n].next.To? ==> v[n].next.addr in v)
    ensures StaleAt(UnlinkMem(v, n), UnlinkMem(m, n), n)
  {
    var p, q := v[n].prev, v[n].next;
    var v1 := if p.To? then v[p.addr := v[p.addr].(next := q)] else v;
    var m1 := if p.To? then m[p.addr := m[p.addr].(next := q)] else m;
    assert StaleAt(v1, m1, n);
  }

  lemma StaleNext(v: Mem, m: Mem, fc: Addr, n: Addr)
    requires StaleAt(v, m, n) && fc in v && n != fc
    ensures StaleAt(NextMem(v, fc, n), NextMem(m, fc, n), n)
  {
  }

  /** A stale header inside a merged chunk does no harm. */
  lemma StaleInside(m0: Mem, v: Mem, m: Mem, id: nat, blocks: set<nat>, starts: set<Addr>, S: set<Addr>,
                    heads: seq<Ptr>, lists: seq<seq<Addr>>, c: Addr, fc: Addr, n: Addr)
    requires Merging(m0, v, id, blocks, starts, S, heads, lists, c, fc) && StaleAt(v, m, n)
    requires n in starts && n !in S
    ensures Merging(m0, m, id, blocks, starts, S, heads, lists, c, fc)
  {
    TiledByTags(v, m, id, blocks, S);
    forall d, x | 0 <= d < TOTAL_BUCKETS && x in lists[d]
      ensures m[x].prev == v[x].prev && m[x].next == v[x].next && Bucket(m[x].tag.size) == Bucket(v[x].tag.size)
    {
      assert Listed(lists, x);
    }
    ThreadedByLinks(v, m, heads, lists);
    StaleRest(v, m, S, lists, fc, n);
  }

  lemma StaleRest(v: Mem, m: Mem, S: set<Addr>, lists: seq<seq<Addr>>, fc: Addr, n: Addr)
    requires StaleAt(v, m, n) && n !in S
    requires Exact(v, S, lists, {fc}) && CoalescedBut(v, S, {fc})
    ensures Exact(m, S, lists, {fc}) && CoalescedBut(m, S, {fc})
  {
    assert forall a :: Free(m, S, a) <==> Free(v, S, a);
  }

  /** Merging the free successor `n` into `fc`, whatever predecessor offset `n` has. */
  lemma NextStep(m0: Mem, v: Mem, m: Mem, id: nat, blocks: set<nat>, starts: set<Addr>, S: set<Addr>, heads: seq<Ptr>,
                 lists: seq<seq<Addr>>, c: Addr, fc: Addr, n: Addr)
    requires Merging(m0, v, id, blocks, starts, S, heads, lists, c, fc) && StaleAt(v, m, n)
    requires !v[fc].tag.last && n == Plus(fc, v[fc].tag.size) && !v[n].tag.used
    ensures Unlinkable(m, heads, lists, n)
    ensures
      var b, m4 := Bucket(m[n].tag.size), UnlinkMem(m, n);
      && fc in m4 && n in m4
      && Merging(m0, NextMem(m4, fc, n), id, blocks, starts, S - {n}, UnlinkHeads(m, heads, b, n),
                 UnlinkLists(lists, b, n), c, fc)
      && NextMem(m4, fc, n)[fc].tag.size == v[fc].tag.size + v[n].tag.size
  {
    assert Chunk(v, id, blocks, S, fc);
    UnlinkFree(v, id, blocks, S, heads, lists, {fc}, n);
    var b, v4, m4 := Bucket(v[n].tag.size), UnlinkMem(v, n), UnlinkMem(m, n);
    NextMerge(m0, v, v4, NextMem(v4, fc, n), id, blocks, starts, S, heads, lists,
              UnlinkHeads(v, heads, b, n), UnlinkLists(lists, b, n), c, fc, n);
    StaleUnlink(v, m, n);
    StaleNext(v4, m4, fc, n);
    StaleInside(m0, NextMem(v4, fc, n), NextMem(m4, fc, n), id, blocks, starts, S - {n},
                UnlinkHeads(v, heads, b, n), UnlinkLists(lists, b, n), c, fc, n);
  }

  // ---------------------------------------------------------------- back on the list

  /** Chunk `c` is no longer in use and lies in free chunk `fc`; nothing else in use has changed; the
      shape holds. */
  ghost predicate Freed(m0: Mem, m: Mem, id: nat, blocks: set<nat>, starts: set<Addr>, S: set<Addr>,
                        heads: seq<Ptr>, lists: seq<seq<Addr>>, c: Addr, fc: Addr)
  {
    && Shape(m, id, blocks, S, heads, lists)
    && Free(m, S, fc) && S <= starts <= m0.Keys
    && OthersSame(m0, m, S, fc)
    && (forall x :: x in starts && x in m0 && m0[x].tag.used && x != c ==> x in S && x != fc)
    && KeptExcept(m0, m, starts, c)
    && c in m0 && fc.blk == c.blk && fc.off <= c.off && c.off + m0[c].tag.size <= fc.off + m[fc].tag.size
  }

  /** The merged chunk has both neighbours in use. */
  lemma MergedIsolated(m0: Mem, m: Mem, id: nat, blocks: set<nat>, starts: set<Addr>, S: set<Addr>, heads: seq<Ptr>,
                       lists: seq<seq<Addr>>, c: Addr, fc: Addr)
    requires Merging(m0, m, id, blocks, starts, S, heads, lists, c, fc)
    requires LeftUsed(m0, starts, fc) && RightUsed(m0, starts, Plus(fc, m[fc].tag.size))
    ensures Isolated(m, S, fc)
  {
    forall a | Free(m, S, a) && !m[a].tag.last ensures Plus(a, m[a].tag.size) != fc {
      assert Chunk(m, id, blocks, S, a);
      assert a != fc ==> Free(m0, starts, a);
    }
    assert Chunk(m, id, blocks, S, fc);
  }

  lemma MergingFinish(m0: Mem, m: Mem, m': Mem, id: nat, blocks: set<nat>, starts: set<Addr>, S: set<Addr>,
                      heads: seq<Ptr>, lists: seq<seq<Addr>>, c: Addr, fc: Addr, b: nat)
    requires Merging(m0, m, id, blocks, starts, S, heads, lists, c, fc) && Isolated(m, S, fc)
    requires b == Bucket(m[fc].tag.size) && (heads[b].To? ==> heads[b].addr in m) && m' == PushMem(m, heads[b], fc)
    ensures Freed(m0, m', id, blocks, starts, S, heads[b := To(fc)], lists[b := [fc] + lists[b]], c, fc)
  {
    PushStep(m, id, blocks, S, heads, lists, fc);
    var lists' := lists[b := [fc] + lists[b]];
    assert forall a :: Listed(lists', a) ==> Free(m, S, a);
    PushKept(m0, m, m', starts, S, lists', c, fc);
  }

  lemma PushKept(m0: Mem, m: Mem, m': Mem, starts: set<Addr>, S: set<Addr>, lists': seq<seq<Addr>>, c: Addr, fc: Addr)
    requires KeptExcept(m0, m, starts, c) && OthersSame(m0, m, S, fc) && S <= starts <= m0.Keys
    requires forall x :: x in starts && x in m0 && m0[x].tag.used && x != c ==> x in S && x != fc
    requires LinksOnly(m, m', lists') && forall a :: Listed(lists', a) ==> Free(m, S, a)
    ensures KeptExcept(m0, m', starts, c) && OthersSame(m0, m', S, fc)
  {
    assert TagsAt(m', m', S);
    KeptThrough(m0, m, m', m', starts, S, lists', c);
  }

  lemma FreedWithin(m0: Mem, m: Mem, id: nat, blocks: set<nat>, starts: set<Addr>, S: set<Addr>, heads: seq<Ptr>,
                    lists: seq<seq<Addr>>, c: Addr, fc: Addr)
    requires Tiled(m0, id, blocks, starts) && Freed(m0, m, id, blocks, starts, S, heads, lists, c, fc)
    ensures Within(m0, m, blocks)
  {
    StartsInBlocks(m0, id, blocks, starts);
  }

  /** In terms of chunks in use: one less, and the payloads of the others are untouched. */
  lemma FreedMeans(m0: Mem, m: Mem, id: nat, blocks: set<nat>, starts: set<Addr>, S: set<Addr>, heads: seq<Ptr>,
                   lists: seq<seq<Addr>>, c: Addr, fc: Addr)
    requires Tiled(m0, id, blocks, starts) && c in starts && m0[c].tag.used
    requires Freed(m0, m, id, blocks, starts, S, heads, lists, c, fc)
    ensures c in Live(m0, starts) && Live(m, S) == Live(m0, starts) - {c}
    ensures PayloadsKept(m0, m, Live(m0, starts) - {c})
  {
    var live := Live(m0, starts) - {c};
    FreedGone(m0, m, id, blocks, starts, S, heads, lists, c, fc);
    FreedLive(m0, m, starts, S, c, fc);
    forall a | a in live ensures SamePayload(m0, m, a, live[a]) {
      PayloadKept(m0, id, blocks, starts, m, blocks, S, a);
    }
  }

  lemma FreedGone(m0: Mem, m: Mem, id: nat, blocks: set<nat>, starts: set<Addr>, S: set<Addr>, heads: seq<Ptr>,
                  lists: seq<seq<Addr>>, c: Addr, fc: Addr)
    requires Tiled(m0, id, blocks, starts) && c in starts && Freed(m0, m, id, blocks, starts, S, heads, lists, c, fc)
    ensures c in S ==> c == fc
  {
    assert Chunk(m0, id, blocks, starts, c);
    if c in S && fc.off < c.off { ChunksDisjoint(m, id, blocks, S, fc, c); }
  }

  lemma FreedLive(m0: Mem, m: Mem, starts: set<Addr>, S: set<Addr>, c: Addr, fc: Addr)
    requires Free(m, S, fc) && S <= starts <= m0.Keys && m.Keys == m0.Keys && OthersSame(m0, m, S, fc)
    requires forall x :: x in starts && x in m0 && m0[x].tag.used && x != c ==> x in S && x != fc
    requires c in S ==> c == fc
    ensures Live(m, S) == Live(m0, starts) - {c}
  {
  }

  // ---------------------------------------------------------------- intermediate results, named

  /** After the merge with the previous chunk: memory `m` agrees with a well-formed `v`, except that
      a free successor has not been told. */
  ghost predicate PrevMerged(m0: Mem, v: Mem, m: Mem, id: nat, blocks: set<nat>, starts: set<Addr>, S: set<Addr>,
                             heads: seq<Ptr>, lists: seq<seq<Addr>>, c: Addr, fc: Addr)
  {
    && Merging(m0, v, id, blocks, starts, S, heads, lists, c, fc)
    && c in m0 && Plus(fc, v[fc].tag.size) == Plus(c, m0[c].tag.size)
    && var n := Plus(c, m0[c].tag.size);
    if n in starts && !m0[n].tag.used then StaleAt(v, m, n) else m == v
  }

  /** The store sequence on the two headers gives such a memory. */
  lemma PrevOutcome(m0: Mem, m1: Mem, m2: Mem, m3: Mem, id: nat, blocks: set<nat>, starts: set<Addr>, heads: seq<Ptr>,
                    lists: seq<seq<Addr>>, c: Addr, prev: Addr, fix: bool, b: nat)
    requires Tiled(m0, id, blocks, starts) && c in starts
    requires Merging(m0, m1, id, blocks, starts, starts, heads, lists, c, c) && m1[c].tag == m0[c].tag.(used := false)
    requires 0 < c.off && prev == Addr(c.blk, m1[c].tag.prevOffset) && prev in m1 && !m1[prev].tag.used
    requires Unlinkable(m1, heads, lists, prev) && b == Bucket(m1[prev].tag.size) && m2 == UnlinkMem(m1, prev)
    requires prev in m2 && c in m2 && m3 == PrevMem(m2, prev, c, fix)
    requires fix <==> !m2[c].tag.last && Plus(c, m2[c].tag.size) in m2 && m2[Plus(c, m2[c].tag.size)].tag.used
    ensures PrevMerged(m0, PrevMem(m2, prev, c, true), m3, id, blocks, starts, starts - {c},
                       UnlinkHeads(m1, heads, b, prev), UnlinkLists(lists, b, prev), c, prev)
  {
    PrevStep(m0, m1, id, blocks, starts, starts, heads, lists, c, c, prev);
    UnlinkTags(m1, prev);
    var n := Plus(c, m0[c].tag.size);
    assert Chunk(m0, id, blocks, starts, c);
    PrevStale(m2, prev, c, n, fix);
  }

  lemma UnlinkTags(mem: Mem, c: Addr)
    requires c in mem && (mem[c].prev.To? ==> mem[c].prev.addr in mem) && (mem[c].next.To? ==> mem[c].next.addr in mem)
    ensures UnlinkMem(mem, c).Keys == mem.Keys && forall a :: a in mem ==> UnlinkMem(mem, c)[a].tag == mem[a].tag
  {
  }

  lemma PrevStale(mem: Mem, prev: Addr, c: Addr, n: Addr, fix: bool)
    requires prev in mem && c in mem && n == Plus(c, mem[c].tag.size) && n != prev
    ensures n in mem ==> StaleAt(PrevMem(mem, prev, c, true), PrevMem(mem, prev, c, fix), n)
    ensures fix || mem[c].tag.last || n !in mem ==> PrevMem(mem, prev, c, fix) == PrevMem(mem, prev, c, true)
  {
  }

  /** Without a free successor the merged chunk is ready for its list. */
  lemma NoNextOutcome(m0: Mem, v: Mem, m: Mem, id: nat, blocks: set<nat>, starts: set<Addr>, S: set<Addr>,
                      heads: seq<Ptr>, lists: seq<seq<Addr>>, c: Addr, fc: Addr)
    requires PrevMerged(m0, v, m, id, blocks, starts, S, heads, lists, c, fc) && LeftUsed(m0, starts, fc)
    requires var n := Plus(c, m0[c].tag.size); n in starts ==> m0[n].tag.used
    ensures Merging(m0, m, id, blocks, starts, S, heads, lists, c, fc) && Isolated(m, S, fc)
  {
    MergedIsolated(m0, m, id, blocks, starts, S, heads, lists, c, fc);
  }

  lemma NextDefined(m0: Mem, v: Mem, id: nat, blocks: set<nat>, starts: set<Addr>, S: set<Addr>, heads: seq<Ptr>,
                    lists: seq<seq<Addr>>, c: Addr, fc: Addr, n: Addr)
    requires Tiled(m0, id, blocks, starts) && Merging(m0, v, id, blocks, starts, S, heads, lists, c, fc)
    requires n == Plus(fc, v[fc].tag.size) && n in starts && !m0[n].tag.used
    ensures !v[fc].tag.last && n in S && n in v && !v[n].tag.used && v[n].tag.size == m0[n].tag.size
    ensures v[n].tag.last == m0[n].tag.last
  {
    assert Chunk(m0, id, blocks, starts, n);
    assert Chunk(v, id, blocks, S, fc);
  }

  /** With a free successor, unlinking and absorbing it makes the merged chunk ready. */
  lemma NextOutcome(m0: Mem, v: Mem, m: Mem, m4: Mem, m5: Mem, id: nat, blocks: set<nat>, starts: set<Addr>,
                    S: set<Addr>, heads0: seq<Ptr>, lists0: seq<seq<Addr>>, heads: seq<Ptr>, lists: seq<seq<Addr>>,
                    c: Addr, fc: Addr, n: Addr, b: nat)
    requires Shape(m0, id, blocks, starts, heads0, lists0)
    requires PrevMerged(m0, v, m, id, blocks, starts, S, heads, lists, c, fc) && LeftUsed(m0, starts, fc)
    requires n == Plus(c, m0[c].tag.size) && n in starts && !m0[n].tag.used
    requires Unlinkable(m, heads, lists, n) && b == Bucket(m[n].tag.size) && m4 == UnlinkMem(m, n)
    requires fc in m4 && n in m4 && m5 == NextMem(m4, fc, n)
    ensures Merging(m0, m5, id, blocks, starts, S - {n}, UnlinkHeads(m, heads, b, n), UnlinkLists(lists, b, n), c, fc)
    ensures Isolated(m5, S - {n}, fc)
  {
    NextDefined(m0, v, id, blocks, starts, S, heads, lists, c, fc, n);
    NextStep(m0, v, m, id, blocks, starts, S, heads, lists, c, fc, n);
    NextIsolated(m0, m5, id, blocks, starts, S - {n}, heads0, lists0, UnlinkHeads(m, heads, b, n),
                 UnlinkLists(lists, b, n), c, fc, n);
  }

  lemma NextIsolated(m0: Mem, m5: Mem, id: nat, blocks: set<nat>, starts: set<Addr>, S: set<Addr>, heads0: seq<Ptr>,
                     lists0: seq<seq<Addr>>, heads: seq<Ptr>, lists: seq<seq<Addr>>, c: Addr, fc: Addr, n: Addr)
    requires Shape(m0, id, blocks, starts, heads0, lists0) && Free(m0, starts, n)
    requires Merging(m0, m5, id, blocks, starts, S, heads, lists, c, fc) && LeftUsed(m0, starts, fc)
    requires Plus(fc, m5[fc].tag.size) == Plus(n, m0[n].tag.size)
    ensures Isolated(m5, S, fc)
  {
    FreeRight(m0, id, blocks, starts, heads0, lists0, n);
    MergedIsolated(m0, m5, id, blocks, starts, S, heads, lists, c, fc);
  }

  lemma FreeRight(m0: Mem, id: nat, blocks: set<nat>, starts: set<Addr>, heads0: seq<Ptr>, lists0: seq<seq<Addr>>,
                  n: Addr)
    requires Shape(m0, id, blocks, starts, heads0, lists0) && Free(m0, starts, n)
    ensures RightUsed(m0, starts, Plus(n, m0[n].tag.size))
  {
    var e := Plus(n, m0[n].tag.size);
    assert Chunk(m0, id, blocks, starts, n);
    if e in starts {
      assert Chunk(m0, id, blocks, starts, e);
    }
  }

  /** Where the boundary tags lead. */
  lemma Neighbours(mem: Mem, id: nat, blocks: set<nat>, starts: set<Addr>, c: Addr)
    requires Tiled(mem, id, blocks, starts) && c in starts
    ensures 0 < c.off ==> var p := Addr(c.blk, mem[c].tag.prevOffset); p in starts && p in mem && p != c
    ensures var n := Plus(c, mem[c].tag.size);
      n != c && (n in starts <==> !mem[c].tag.last) && (n in starts ==> n in mem)
  {
    assert Chunk(mem, id, blocks, starts, c);
    var n := Plus(c, mem[c].tag.size);
    if n in starts { assert Chunk(mem, id, blocks, starts, n); }
  }

  /** What the stores of the merge with the previous chunk need. */
  lemma PrevReady(m0: Mem, m1: Mem, id: nat, blocks: set<nat>, starts: set<Addr>, S: set<Addr>, heads: seq<Ptr>,
                  lists: seq<seq<Addr>>, c: Addr, fc: Addr, prev: Addr)
    requires Merging(m0, m1, id, blocks, starts, S, heads, lists, c, fc)
    requires 0 < fc.off && prev == Addr(fc.blk, m1[fc].tag.prevOffset) && prev in m1 && !m1[prev].tag.used
    ensures Unlinkable(m1, heads, lists, prev)
    ensures UnlinkMem(m1, prev).Keys == m1.Keys && fc in m1 && UnlinkMem(m1, prev)[fc].tag == m1[fc].tag
    ensures prev != fc && prev != Plus(fc, m1[fc].tag.size)
  {
    PrevChunk(m1, id, blocks, S, fc);
    UnlinkFree(m1, id, blocks, S, heads, lists, {fc}, prev);
    UnlinkTags(m1, prev);
  }

  /** What the stores of the merge with the next chunk need. */
  lemma NextReady(m0: Mem, v: Mem, m: Mem, id: nat, blocks: set<nat>, starts: set<Addr>, S: set<Addr>, heads: seq<Ptr>,
                  lists: seq<seq<Addr>>, c: Addr, fc: Addr, n: Addr)
    requires Tiled(m0, id, blocks, starts) && PrevMerged(m0, v, m, id, blocks, starts, S, heads, lists, c, fc)
    requires n == Plus(c, m0[c].tag.size) && n in starts && !m0[n].tag.used
    ensures Unlinkable(m, heads, lists, n)
    ensures UnlinkMem(m, n).Keys == m.Keys && fc in m
  {
    NextDefined(m0, v, id, blocks, starts, S, heads, lists, c, fc, n);
    UnlinkFree(v, id, blocks, S, heads, lists, {fc}, n);
    UnlinkTags(m, n);
  }

  // ---------------------------------------------------------------- the two merges as the source makes them

  /** The chunk after `c` is told of a merge: it exists and is in use. */
  predicate Told(mem: Mem, c: Addr)
    requires c in mem
  {
    !mem[c].tag.last && Plus(c, mem[c].tag.size) in mem && mem[Plus(c, mem[c].tag.size)].tag.used
  }

  predicate PrevFree(mem: Mem, c: Addr)
    requires c in mem
  {
    0 < c.off && Addr(c.blk, mem[c].tag.prevOffset) in mem && !mem[Addr(c.blk, mem[c].tag.prevOffset)].tag.used
  }

  /** What the merge with the previous chunk needs. */
  ghost predicate PrevCan(m1: Mem, h1: seq<Ptr>, l1: seq<seq<Addr>>, c: Addr) {
    && c in m1
    && var prev := Addr(c.blk, m1[c].tag.prevOffset);
    && (0 < c.off ==> prev in m1)
    && (PrevFree(m1, c) ==> Unlinkable(m1, h1, l1, prev) && prev != c && prev != Plus(c, m1[c].tag.size))
  }

  /** What it does. */
  ghost predicate PrevDone(m1: Mem, h1: seq<Ptr>, l1: seq<seq<Addr>>, m2: Mem, h2: seq<Ptr>, l2: seq<seq<Addr>>,
                           c: Addr, fc: Addr) {
    && PrevCan(m1, h1, l1, c)
    && if PrevFree(m1, c)
       then && fc == Addr(c.blk, m1[c].tag.prevOffset)
            && var b, u := Bucket(m1[fc].tag.size), UnlinkMem(m1, fc);
            && u.Keys == m1.Keys && m2 == PrevMem(u, fc, c, Told(u, c))
            && h2 == UnlinkHeads(m1, h1, b, fc) && l2 == UnlinkLists(l1, b, fc)
       else fc == c && m2 == m1 && h2 == h1 && l2 == l1
  }

  lemma PrevKeys(m1: Mem, h1: seq<Ptr>, l1: seq<seq<Addr>>, m2: Mem, h2: seq<Ptr>, l2: seq<seq<Addr>>, c: Addr,
                 fc: Addr)
    requires PrevDone(m1, h1, l1, m2, h2, l2, c, fc)
    ensures m2.Keys == m1.Keys
  {
  }

  predicate NextFree(mem: Mem, t: Tag, n: Addr) {
    !t.last && n in mem && !mem[n].tag.used
  }

  ghost predicate NextCan(m2: Mem, h2: seq<Ptr>, l2: seq<seq<Addr>>, t: Tag, n: Addr, fc: Addr) {
    && fc in m2 && (!t.last ==> n in m2)
    && (NextFree(m2, t, n) ==> Unlinkable(m2, h2, l2, n))
  }

  /** What the merge with the next chunk `n` does, `t` being the header the freed chunk had. */
  ghost predicate NextDone(m2: Mem, h2: seq<Ptr>, l2: seq<seq<Addr>>, m3: Mem, h3: seq<Ptr>, l3: seq<seq<Addr>>,
                           t: Tag, n: Addr, fc: Addr) {
    && NextCan(m2, h2, l2, t, n, fc)
    && if NextFree(m2, t, n)
       then var b, u := Bucket(m2[n].tag.size), UnlinkMem(m2, n);
            u.Keys == m2.Keys && m3 == NextMem(u, fc, n) && h3 == UnlinkHeads(m2, h2, b, n)
                && l3 == UnlinkLists(l2, b, n)
       else m3 == m2 && h3 == h2 && l3 == l2
  }

  lemma NextKeys(m2: Mem, h2: seq<Ptr>, l2: seq<seq<Addr>>, m3: Mem, h3: seq<Ptr>, l3: seq<seq<Addr>>, t: Tag, n: Addr,
                 fc: Addr)
    requires NextDone(m2, h2, l2, m3, h3, l3, t, n, fc)
    ensures m3.Keys == m2.Keys
  {
  }

  /** Chunks left after the first merge. */
  function Left(starts: set<Addr>, c: Addr, fc: Addr): set<Addr> {
    if fc == c then starts else starts - {c}
  }

  lemma PrevPart(m0: Mem, m1: Mem, m2: Mem, id: nat, blocks: set<nat>, starts: set<Addr>, heads: seq<Ptr>,
                 lists: seq<seq<Addr>>, h2: seq<Ptr>, l2: seq<seq<Addr>>, c: Addr, fc: Addr) returns (v: Mem)
    requires Shape(m0, id, blocks, starts, heads, lists) && c in starts && m0[c].tag.used
    requires m1 == WithTag(m0, c, m0[c].tag.(used := false))
    requires PrevDone(m1, heads, lists, m2, h2, l2, c, fc)
    ensures PrevMerged(m0, v, m2, id, blocks, starts, Left(starts, c, fc), h2, l2, c, fc) && LeftUsed(m0, starts, fc)
  {
    MergingStart(m0, m1, id, blocks, starts, heads, lists, c);
    v := m2;
    if PrevFree(m1, c) {
      var u := UnlinkMem(m1, fc);
      PrevReady(m0, m1, id, blocks, starts, starts, heads, lists, c, c, fc);
      PrevOutcome(m0, m1, u, m2, id, blocks, starts, heads, lists, c, fc, Told(u, c), Bucket(m1[fc].tag.size));
      v := PrevMem(u, fc, c, true);
      ListedIsolated(m0, id, blocks, starts, heads, lists, fc);
    } else {
      PrevNotFree(m0, m1, id, blocks, starts, heads, lists, c);
    }
  }

  lemma PrevNotFree(m0: Mem, m1: Mem, id: nat, blocks: set<nat>, starts: set<Addr>, heads: seq<Ptr>,
                    lists: seq<seq<Addr>>, c: Addr)
    requires Tiled(m0, id, blocks, starts) && c in starts
    requires Merging(m0, m1, id, blocks, starts, starts, heads, lists, c, c)
    requires m1 == WithTag(m0, c, m0[c].tag.(used := false)) && !PrevFree(m1, c)
    ensures PrevMerged(m0, m1, m1, id, blocks, starts, starts, heads, lists, c, c) && LeftUsed(m0, starts, c)
  {
    Neighbours(m0, id, blocks, starts, c);
    PrevUsed(m0, id, blocks, starts, c);
  }

  lemma PrevStarts(m0: Mem, m1: Mem, id: nat, blocks: set<nat>, starts: set<Addr>, heads: seq<Ptr>,
                   lists: seq<seq<Addr>>, c: Addr)
    requires Shape(m0, id, blocks, starts, heads, lists) && c in starts && m0[c].tag.used
    requires m1 == WithTag(m0, c, m0[c].tag.(used := false))
    ensures PrevCan(m1, heads, lists, c)
  {
    MergingStart(m0, m1, id, blocks, starts, heads, lists, c);
    Neighbours(m0, id, blocks, starts, c);
    if PrevFree(m1, c) {
      PrevReady(m0, m1, id, blocks, starts, starts, heads, lists, c, c, Addr(c.blk, m1[c].tag.prevOffset));
    }
  }

  /** Whether the next chunk is free has not changed since before the release. */
  lemma NextSame(m0: Mem, v: Mem, m2: Mem, id: nat, blocks: set<nat>, starts: set<Addr>, S: set<Addr>, heads: seq<Ptr>,
                 lists: seq<seq<Addr>>, c: Addr, fc: Addr, n: Addr)
    requires Tiled(m0, id, blocks, starts) && c in starts && m0[c].tag.used && n == Plus(c, m0[c].tag.size)
    requires PrevMerged(m0, v, m2, id, blocks, starts, S, heads, lists, c, fc)
    ensures m2.Keys == m0.Keys && fc in m2
    ensures (!m0[c].tag.last ==> n in m2 && n in starts && m2[n].tag.used == m0[n].tag.used)
    ensures m0[c].tag.last ==> n !in starts
  {
    Neighbours(m0, id, blocks, starts, c);
    if !m0[c].tag.last {
      if !m0[n].tag.used { NextDefined(m0, v, id, blocks, starts, S, heads, lists, c, fc, n); }
    }
  }

  lemma NextStarts(m0: Mem, v: Mem, m2: Mem, id: nat, blocks: set<nat>, starts: set<Addr>, S: set<Addr>,
                   heads: seq<Ptr>, lists: seq<seq<Addr>>, c: Addr, fc: Addr, n: Addr)
    requires Tiled(m0, id, blocks, starts) && c in starts && m0[c].tag.used && n == Plus(c, m0[c].tag.size)
    requires PrevMerged(m0, v, m2, id, blocks, starts, S, heads, lists, c, fc)
    ensures NextCan(m2, heads, lists, m0[c].tag, n, fc)
  {
    NextSame(m0, v, m2, id, blocks, starts, S, heads, lists, c, fc, n);
    if NextFree(m2, m0[c].tag, n) {
      NextReady(m0, v, m2, id, blocks, starts, S, heads, lists, c, fc, n);
    }
  }

  /** Chunks left after the second merge. */
  function LeftNext(S: set<Addr>, mem: Mem, t: Tag, n: Addr): set<Addr> {
    if NextFree(mem, t, n) then S - {n} else S
  }

  lemma NextPart(m0: Mem, v: Mem, m2: Mem, m3: Mem, id: nat, blocks: set<nat>, starts: set<Addr>, S: set<Addr>,
                 heads0: seq<Ptr>, lists0: seq<seq<Addr>>, h2: seq<Ptr>, l2: seq<seq<Addr>>, h3: seq<Ptr>,
                 l3: seq<seq<Addr>>, c: Addr, fc: Addr, n: Addr)
    requires Shape(m0, id, blocks, starts, heads0, lists0) && c in starts && m0[c].tag.used
    requires n == Plus(c, m0[c].tag.size)
    requires PrevMerged(m0, v, m2, id, blocks, starts, S, h2, l2, c, fc) && LeftUsed(m0, starts, fc)
    requires NextDone(m2, h2, l2, m3, h3, l3, m0[c].tag, n, fc)
    ensures Merging(m0, m3, id, blocks, starts, LeftNext(S, m2, m0[c].tag, n), h3, l3, c, fc)
    ensures Isolated(m3, LeftNext(S, m2, m0[c].tag, n), fc)
  {
    NextSame(m0, v, m2, id, blocks, starts, S, h2, l2, c, fc, n);
    if NextFree(m2, m0[c].tag, n) {
      NextOutcome(m0, v, m2, UnlinkMem(m2, n), m3, id, blocks, starts, S, heads0, lists0, h2, l2, c, fc, n,
                  Bucket(m2[n].tag.size));
    } else {
      NoNextOutcome(m0, v, m2, id, blocks, starts, S, h2, l2, c, fc);
    }
  }
}
