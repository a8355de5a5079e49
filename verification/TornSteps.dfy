/**
 What `realloc` does to a heap whose last split was unsafe: the copy and the coalescing free run to
 their end, and the header with the wrong bit stays where it is.
 */
module TornSteps {
  import opened HeapLayout
  import opened BucketLists
  import opened FreeListShape
  import opened AllocSteps
  import opened FreeSteps
  import opened ReallocSteps

  /** Chunks of a torn heap other than `x` have the tags they have once it is mended; the header behind `x` is no
      chunk. */
  lemma TornApart(m: Mem, id: nat, blocks: set<nat>, S: set<Addr>, x: Addr)
    requires TornTags(m, id, blocks, S, x)
    ensures S <= m.Keys && Plus(x, m[x].tag.size) !in S
    ensures forall a :: a in S && a != x ==> Mended(m, x)[a] == m[a] && Chunk(Mended(m, x), id, blocks, S, a)
  {
    var g, r := Mended(m, x), Plus(x, m[x].tag.size);
    assert Chunk(g, id, blocks, S, x);
    if r in S { ChunksDisjoint(g, id, blocks, S, x, r); }
  }

  /** Header stores that leave sizes, bits and offsets of `S` alone. */
  lemma TornRelease(m: Mem, m1: Mem, id: nat, blocks: set<nat>, S: set<Addr>, heads: seq<Ptr>, lists: seq<seq<Addr>>,
                    x: Addr, c: Addr)
    requires TornHeap(m, id, blocks, S, heads, lists, x, {}) && c in S && c != x && c in m && m[c].tag.used
    requires m1 == WithTag(m, c, m[c].tag.(used := false))
    ensures TornHeap(m1, id, blocks, S, heads, lists, x, {c})
  {
    TornApart(m, id, blocks, S, x);
    TiledBySizes(Mended(m, x), Mended(m1, x), id, blocks, S);
    ThreadedByListed(m, m1, heads, lists);
  }

  lemma TornUnlink(m: Mem, u: Mem, id: nat, blocks: set<nat>, S: set<Addr>, heads: seq<Ptr>, lists: seq<seq<Addr>>,
                   x: Addr, but: set<Addr>, p: Addr)
    requires TornHeap(m, id, blocks, S, heads, lists, x, but) && Free(m, S, p) && p !in but
    ensures Unlinkable(m, heads, lists, p)
    ensures u == UnlinkMem(m, p) ==>
      TornHeap(u, id, blocks, S, UnlinkHeads(m, heads, Bucket(m[p].tag.size), p),
               UnlinkLists(lists, Bucket(m[p].tag.size), p), x, but + {p})
      && LinksOnly(m, u, lists)
  {
    assert Listed(lists, p);
    var b := Bucket(m[p].tag.size);
    assert p in lists[b];
    var k := IndexOf(lists[b], p);
    UnlinkThreaded(m, heads, lists, b, k);
    if u == UnlinkMem(m, p) {
      TornByTags(m, u, id, blocks, S, x);
      TornApart(m, id, blocks, S, x);
      TornUnlisted(m, u, S, heads, lists, Plus(x, m[x].tag.size), but, b, k);
    }
  }

  lemma TornUnlisted(m: Mem, u: Mem, S: set<Addr>, heads: seq<Ptr>, lists: seq<seq<Addr>>, r: Addr, but: set<Addr>,
                     b: nat, k: nat)
    requires Threaded(m, heads, lists) && b < TOTAL_BUCKETS && k < |lists[b]| && lists[b][k] in S && r !in S
    requires TornListed(m, S, lists, r, but)
    requires u.Keys == m.Keys && forall a :: a in m ==> u[a].tag == m[a].tag
    ensures TornListed(u, S, lists[b := Without(lists[b], k)], r, but + {lists[b][k]})
  {
    var c, lists' := lists[b][k], lists[b := Without(lists[b], k)];
    forall a ensures Listed(lists', a) <==> Listed(lists, a) && a != c {
      ListedUnlinked(m, heads, lists, b, k, a);
    }
  }

  /** Merging two free chunks, both off the lists. */
  lemma TornMerge(m: Mem, m': Mem, id: nat, blocks: set<nat>, S: set<Addr>, heads: seq<Ptr>, lists: seq<seq<Addr>>,
                  x: Addr, but: set<Addr>, a: Addr, b: Addr)
    requires TornHeap(m, id, blocks, S, heads, lists, x, but) && a in but && b in but && Free(m, S, a) && Free(m, S, b)
    requires !m[a].tag.last
    requires MergeTags(m, m', S, a, b) && TagsAt(m, m', S) && m'[a].tag.used == m[a].tag.used
    ensures TornHeap(m', id, blocks, S - {b}, heads, lists, x, but - {b})
  {
    TornApart(m, id, blocks, S, x);
    var g, g', r := Mended(m, x), Mended(m', x), Plus(x, m[x].tag.size);
    TornMergeTags(m, m', S, x, a, b);
    MergeTiled(g, g', id, blocks, S, a, b);
    TornMergeLists(m, m', S, heads, lists, r, but, a, b);
  }

  lemma TornMergeLists(m: Mem, m': Mem, S: set<Addr>, heads: seq<Ptr>, lists: seq<seq<Addr>>, r: Addr, but: set<Addr>,
                       a: Addr, b: Addr)
    requires Threaded(m, heads, lists) && TornListed(m, S, lists, r, but) && r !in S && a in but && b in but
    requires Free(m, S, b)
    requires MergeTags(m, m', S, a, b) && TagsAt(m, m', S) && m'[a].tag.used == m[a].tag.used
    ensures Threaded(m', heads, lists) && TornListed(m', S - {b}, lists, r, but - {b})
  {
    ThreadedByListed(m, m', heads, lists);
  }

  lemma TornMergeTags(m: Mem, m': Mem, S: set<Addr>, x: Addr, a: Addr, b: Addr)
    requires MergeTags(m, m', S, a, b) && TagsAt(m, m', S) && m'[a].tag.used == m[a].tag.used
    requires x in S && a != x && b != x && m[x].tag.used && Plus(x, m[x].tag.size) in m && Plus(x, m[x].tag.size) !in S
    ensures m'[x].tag == m[x].tag.(prevOffset := m'[x].tag.prevOffset)
    ensures m'[Plus(x, m[x].tag.size)] == m[Plus(x, m[x].tag.size)]
    ensures MergeTags(Mended(m, x), Mended(m', x), S, a, b)
  {
  }

  // ---------------------------------------------------------------- the coalescing free

  /** Chunk `fc` holds the `n` lines at `c`. */
  ghost predicate Spans(mem: Mem, fc: Addr, c: Addr, n: nat) {
    && fc in mem && fc.blk == c.blk && fc.off <= c.off
    && c.off + n <= fc.off + mem[fc].tag.size <= LINES_PER_BLOCK
  }

  /** The chunk being freed has become part of `fc`, which is off the lists. */
  ghost predicate TornMerging(m: Mem, id: nat, blocks: set<nat>, S: set<Addr>, heads: seq<Ptr>, lists: seq<seq<Addr>>,
                              x: Addr, c: Addr, size: nat, fc: Addr) {
    TornHeap(m, id, blocks, S, heads, lists, x, {fc}) && Free(m, S, fc) && Spans(m, fc, c, size)
  }

  /** After the merge with the previous chunk, up to a stale offset in a free successor `n`. */
  ghost predicate TornMerged(v: Mem, m: Mem, id: nat, blocks: set<nat>, S: set<Addr>, heads: seq<Ptr>,
                             lists: seq<seq<Addr>>, x: Addr, c: Addr, fc: Addr, t: Tag, n: Addr)
  {
    && TornMerging(v, id, blocks, S, heads, lists, x, c, t.size, fc)
    && v[fc].tag.last == t.last && n == Plus(fc, v[fc].tag.size)
    && if NextFree(v, t, n) then StaleAt(v, m, n) else m == v
  }

  lemma TornPrevCan(m: Mem, id: nat, blocks: set<nat>, S: set<Addr>, heads: seq<Ptr>, lists: seq<seq<Addr>>, x: Addr,
                    c: Addr)
    requires TornHeap(m, id, blocks, S, heads, lists, x, {c}) && Free(m, S, c)
    ensures PrevCan(m, heads, lists, c) && (PrevFree(m, c) ==> Addr(c.blk, m[c].tag.prevOffset) in S)
    ensures c.off + m[c].tag.size <= LINES_PER_BLOCK
  {
    TornApart(m, id, blocks, S, x);
    var prev := Addr(c.blk, m[c].tag.prevOffset);
    assert Chunk(Mended(m, x), id, blocks, S, c);
    if PrevFree(m, c) {
      TornUnlink(m, m, id, blocks, S, heads, lists, x, {c}, prev);
    }
  }

  lemma TornPrevPart(m1: Mem, m2: Mem, id: nat, blocks: set<nat>, S: set<Addr>, heads: seq<Ptr>, lists: seq<seq<Addr>>,
                     h2: seq<Ptr>, l2: seq<seq<Addr>>, x: Addr, c: Addr, fc: Addr, t: Tag, n: Addr) returns (v: Mem)
    requires TornHeap(m1, id, blocks, S, heads, lists, x, {c}) && Free(m1, S, c) && n == Plus(c, m1[c].tag.size)
    requires PrevDone(m1, heads, lists, m2, h2, l2, c, fc) && t.size == m1[c].tag.size && t.last == m1[c].tag.last
    ensures TornMerged(v, m2, id, blocks, Left(S, c, fc), h2, l2, x, c, fc, t, n)
  {
    TornPrevCan(m1, id, blocks, S, heads, lists, x, c);
    v := m2;
    if PrevFree(m1, c) {
      v := PrevMem(UnlinkMem(m1, fc), fc, c, true);
      TornPrevTaken(m1, m2, v, id, blocks, S, heads, lists, h2, l2, x, c, fc, t, n);
    }
  }

  lemma TornPrevTaken(m1: Mem, m2: Mem, v: Mem, id: nat, blocks: set<nat>, S: set<Addr>, heads: seq<Ptr>,
                      lists: seq<seq<Addr>>, h2: seq<Ptr>, l2: seq<seq<Addr>>, x: Addr, c: Addr, fc: Addr, t: Tag,
                      n: Addr)
    requires TornHeap(m1, id, blocks, S, heads, lists, x, {c}) && Free(m1, S, c) && n == Plus(c, m1[c].tag.size)
    requires PrevDone(m1, heads, lists, m2, h2, l2, c, fc) && PrevFree(m1, c) && fc in S
    requires v == PrevMem(UnlinkMem(m1, fc), fc, c, true)
    requires t.size == m1[c].tag.size && t.last == m1[c].tag.last
    ensures TornMerged(v, m2, id, blocks, S - {c}, h2, l2, x, c, fc, t, n)
  {
    var u := UnlinkMem(m1, fc);
    UnlinkTags(m1, fc);
    TornUnlink(m1, u, id, blocks, S, heads, lists, x, {c}, fc);
    TornPrevMerge(u, v, id, blocks, S, h2, l2, x, c, fc);
    TornRow(m1, id, blocks, S, x, c);
    PrevStale(u, fc, c, n, Told(u, c));
  }

  lemma TornPrevMerge(u: Mem, v: Mem, id: nat, blocks: set<nat>, S: set<Addr>, heads: seq<Ptr>, lists: seq<seq<Addr>>,
                      x: Addr, c: Addr, prev: Addr)
    requires TornHeap(u, id, blocks, S, heads, lists, x, {c} + {prev}) && Free(u, S, c) && Free(u, S, prev) && 0 < c.off
    requires prev == Addr(c.blk, u[c].tag.prevOffset) && v == PrevMem(u, prev, c, true)
    ensures TornMerging(v, id, blocks, S - {c}, heads, lists, x, c, u[c].tag.size, prev)
    ensures v[prev].tag.last == u[c].tag.last && Plus(c, u[c].tag.size) == Plus(prev, v[prev].tag.size)
  {
    TornApart(u, id, blocks, S, x);
    TornPrevTags(u, v, id, blocks, S, x, c, prev);
    assert {c} + {prev} - {c} == {prev};
    TornMerge(u, v, id, blocks, S, heads, lists, x, {c} + {prev}, prev, c);
  }

  lemma TornPrevTags(u: Mem, v: Mem, id: nat, blocks: set<nat>, S: set<Addr>, x: Addr, c: Addr, prev: Addr)
    requires TornTags(u, id, blocks, S, x) && Free(u, S, c) && Free(u, S, prev) && 0 < c.off
    requires prev == Addr(c.blk, u[c].tag.prevOffset) && v == PrevMem(u, prev, c, true)
    ensures MergeTags(u, v, S, prev, c) && TagsAt(u, v, S) && !u[prev].tag.last && prev != c
    ensures prev.off + u[prev].tag.size == c.off && c.off + u[c].tag.size <= LINES_PER_BLOCK
  {
    TornRow(u, id, blocks, S, x, c);
    PrevStores(u, v, S, prev, c);
  }

  /** The chunks before and after a free chunk of a torn heap. */
  lemma TornRow(u: Mem, id: nat, blocks: set<nat>, S: set<Addr>, x: Addr, c: Addr)
    requires TornTags(u, id, blocks, S, x) && Free(u, S, c)
    ensures S <= u.Keys && c.off + u[c].tag.size <= LINES_PER_BLOCK
    ensures !u[c].tag.last ==> var n := Plus(c, u[c].tag.size); n in S && n != c
    ensures
      var p := Addr(c.blk, u[c].tag.prevOffset);
      0 < c.off && Free(u, S, p) ==> InRow(u, S, p, c) && !u[p].tag.last && p.off + u[p].tag.size == c.off
  {
    TornApart(u, id, blocks, S, x);
    var g := Mended(u, x);
    assert Chunk(g, id, blocks, S, c);
    if 0 < c.off {
      PrevChunk(g, id, blocks, S, c);
    }
  }

  lemma TornNext(v: Mem, id: nat, blocks: set<nat>, S: set<Addr>, heads: seq<Ptr>, lists: seq<seq<Addr>>, x: Addr,
                 c: Addr, fc: Addr, t: Tag, n: Addr)
    requires TornMerging(v, id, blocks, S, heads, lists, x, c, t.size, fc) && v[fc].tag.last == t.last
    requires n == Plus(fc, v[fc].tag.size)
    ensures !t.last ==> n in v && n in S && n != fc
    ensures t.last ==> n !in S
  {
    TornApart(v, id, blocks, S, x);
    assert Chunk(Mended(v, x), id, blocks, S, fc);
    if n in S { assert Chunk(Mended(v, x), id, blocks, S, n); }
  }

  lemma TornNextCan(v: Mem, m: Mem, id: nat, blocks: set<nat>, S: set<Addr>, heads: seq<Ptr>, lists: seq<seq<Addr>>,
                    x: Addr, c: Addr, fc: Addr, t: Tag, n: Addr)
    requires TornMerged(v, m, id, blocks, S, heads, lists, x, c, fc, t, n)
    ensures NextCan(m, heads, lists, t, n, fc) && (NextFree(m, t, n) <==> NextFree(v, t, n))
  {
    TornNext(v, id, blocks, S, heads, lists, x, c, fc, t, n);
    if NextFree(v, t, n) {
      TornUnlink(v, v, id, blocks, S, heads, lists, x, {fc}, n);
    }
  }

  lemma TornNextPart(v: Mem, m: Mem, m3: Mem, id: nat, blocks: set<nat>, S: set<Addr>, heads: seq<Ptr>,
                     lists: seq<seq<Addr>>, h3: seq<Ptr>, l3: seq<seq<Addr>>, x: Addr, c: Addr, fc: Addr, t: Tag,
                     n: Addr)
    requires TornMerged(v, m, id, blocks, S, heads, lists, x, c, fc, t, n)
    requires NextDone(m, heads, lists, m3, h3, l3, t, n, fc)
    ensures TornMerging(m3, id, blocks, LeftNext(S, m, t, n), h3, l3, x, c, t.size, fc)
  {
    TornNextCan(v, m, id, blocks, S, heads, lists, x, c, fc, t, n);
    TornNext(v, id, blocks, S, heads, lists, x, c, fc, t, n);
    if NextFree(m, t, n) {
      var u, w := UnlinkMem(v, n), UnlinkMem(m, n);
      TornUnlink(v, u, id, blocks, S, heads, lists, x, {fc}, n);
      var g := NextMem(u, fc, n);
      TornNextMerge(u, g, id, blocks, S, h3, l3, x, c, fc, t, n);
      StaleUnlink(v, m, n);
      StaleNext(u, w, fc, n);
      TornStale(g, m3, id, blocks, S - {n}, h3, l3, x, c, fc, t, n);
    }
  }

  lemma TornNextMerge(u: Mem, g: Mem, id: nat, blocks: set<nat>, S: set<Addr>, heads: seq<Ptr>, lists: seq<seq<Addr>>,
                      x: Addr, c: Addr, fc: Addr, t: Tag, n: Addr)
    requires TornHeap(u, id, blocks, S, heads, lists, x, {fc} + {n}) && Free(u, S, fc) && Free(u, S, n)
    requires !u[fc].tag.last
    requires n == Plus(fc, u[fc].tag.size) && Spans(u, fc, c, t.size) && g == NextMem(u, fc, n)
    ensures TornMerging(g, id, blocks, S - {n}, heads, lists, x, c, t.size, fc) && n != Plus(x, g[x].tag.size)
  {
    TornApart(u, id, blocks, S, x);
    TornNextTags(u, g, id, blocks, S, x, fc, n);
    assert {fc} + {n} - {n} == {fc};
    TornMerge(u, g, id, blocks, S, heads, lists, x, {fc} + {n}, fc, n);
    TornMergeTags(u, g, S, x, fc, n);
  }

  lemma TornNextTags(u: Mem, g: Mem, id: nat, blocks: set<nat>, S: set<Addr>, x: Addr, fc: Addr, n: Addr)
    requires TornTags(u, id, blocks, S, x) && Free(u, S, fc) && Free(u, S, n) && !u[fc].tag.last
    requires n == Plus(fc, u[fc].tag.size) && g == NextMem(u, fc, n)
    ensures MergeTags(u, g, S, fc, n) && TagsAt(u, g, S) && n != fc && n.off + u[n].tag.size <= LINES_PER_BLOCK
  {
    TornRow(u, id, blocks, S, x, fc);
    TornRow(u, id, blocks, S, x, n);
    NextStores(u, g, S, fc, n);
  }

  /** A stale header inside a merged chunk does no harm. */
  lemma TornStale(g: Mem, m: Mem, id: nat, blocks: set<nat>, S: set<Addr>, heads: seq<Ptr>, lists: seq<seq<Addr>>,
                  x: Addr, c: Addr, fc: Addr, t: Tag, n: Addr)
    requires TornMerging(g, id, blocks, S, heads, lists, x, c, t.size, fc) && StaleAt(g, m, n) && n !in S
    requires n != Plus(x, g[x].tag.size)
    ensures TornMerging(m, id, blocks, S, heads, lists, x, c, t.size, fc)
  {
    TornApart(g, id, blocks, S, x);
    TiledByTags(Mended(g, x), Mended(m, x), id, blocks, S);
    ThreadedByListed(g, m, heads, lists);
  }

  /** Back on its list. */
  lemma TornPush(m: Mem, m': Mem, id: nat, blocks: set<nat>, S: set<Addr>, heads: seq<Ptr>, lists: seq<seq<Addr>>,
                 x: Addr, c: Addr, size: nat, fc: Addr, b: nat)
    requires TornMerging(m, id, blocks, S, heads, lists, x, c, size, fc)
    requires b == Bucket(m[fc].tag.size) && (heads[b].To? ==> heads[b].addr in m) && m' == PushMem(m, heads[b], fc)
    ensures TornHeap(m', id, blocks, S, heads[b := To(fc)], lists[b := [fc] + lists[b]], x, {})
    ensures m'.Keys == m.Keys && Spans(m', fc, c, size)
  {
    TornApart(m, id, blocks, S, x);
    assert !Listed(lists, fc);
    PushThreaded(m, heads, lists, fc);
    PushTags(m, heads[b], fc);
    TornByTags(m, m', id, blocks, S, x);
    TornPushed(m, m', S, lists, Plus(x, m[x].tag.size), fc, b);
    TornRow(m, id, blocks, S, x, fc);
  }

  lemma TornPushed(m: Mem, m': Mem, S: set<Addr>, lists: seq<seq<Addr>>, r: Addr, fc: Addr, b: nat)
    requires TornListed(m, S, lists, r, {fc}) && b < |lists| && Free(m, S, fc)
    requires m'.Keys == m.Keys && forall a :: a in m ==> m'[a].tag == m[a].tag
    ensures TornListed(m', S, lists[b := [fc] + lists[b]], r, {})
  {
    var lists' := lists[b := [fc] + lists[b]];
    forall a ensures Listed(lists', a) <==> Listed(lists, a) || a == fc {
      ListedPushed(lists, b, fc, a);
    }
  }

  // ---------------------------------------------------------------- the copy

  /** Copying into `x` touches no header of `S`, nor the one behind `x`, nor a listed line. */
  lemma TornCopy(m: Mem, m2: Mem, id: nat, blocks: set<nat>, S: set<Addr>, heads: seq<Ptr>, lists: seq<seq<Addr>>,
                 x: Addr, c: Addr, n: nat)
    requires TornHeap(m, id, blocks, S, heads, lists, x, {}) && c in m && n <= m[x].tag.size
    requires (forall i :: 0 < i < n ==> Plus(c, i) in m) && m2 == CopyMem(m, c, x, n)
    ensures TornHeap(m2, id, blocks, S, heads, lists, x, {}) && forall a :: a in S && a != x ==> m2[a] == m[a]
  {
    TornApart(m, id, blocks, S, x);
    var g := Mended(m, x);
    forall a | a in S ensures m2[a].tag == m[a].tag && (a != x ==> m2[a] == m[a]) {
      CopyApart(g, id, blocks, S, x, n, a, 0);
    }
    TiledByTags(g, Mended(m2, x), id, blocks, S);
    TornCopyLists(m, m2, S, heads, lists, x, Plus(x, m[x].tag.size));
  }

  lemma TornCopyLists(m: Mem, m2: Mem, S: set<Addr>, heads: seq<Ptr>, lists: seq<seq<Addr>>, x: Addr, r: Addr)
    requires Threaded(m, heads, lists) && TornListed(m, S, lists, r, {}) && m2.Keys == m.Keys && x in m && m[x].tag.used
    requires r in m && r !in S
    requires S <= m.Keys && (forall a :: a in S ==> m2[a].tag == m[a].tag && (a != x ==> m2[a] == m[a]))
    requires m2[r] == m[r]
    ensures Threaded(m2, heads, lists) && TornListed(m2, S, lists, r, {})
  {
    ThreadedByListed(m, m2, heads, lists);
  }
}
