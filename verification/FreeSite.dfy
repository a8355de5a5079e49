/**
 The free of a chunk wherever it lies: in a well-shaped list, in a torn one, or outside the list's blocks.
 */
module FreeSites {
  import opened HeapLayout
  import opened BucketLists
  import opened FreeListShape
  import opened AllocSteps
  import opened FreeSteps
  import opened ReallocSteps
  import opened TornSteps

  /** Where the freed chunk lies: in a well-shaped list, in one torn behind chunk `x`, in a block that is not the
      list's, or in such a block and with a list of which nothing more is known. */
  datatype Site = Own | Behind(x: Addr) | Foreign | Loose

  // ---------------------------------------------------------------- a foreign chunk

  /** The header of a big chunk whose stored size is that of a small one, in a block that is not the list's. */
  ghost predicate Stray(mem: Mem, id: nat, blocks: set<nat>, c: Addr) {
    && c in mem && c.off == 0 && c.blk !in blocks && mem[c].tag.last && mem[c].tag.listId == id
    && mem[c].tag.size <= LINES_PER_BLOCK
    && forall a: Addr :: a.blk == c.blk && a.off < LINES_PER_BLOCK ==> a in mem
  }

  /** A stray chunk of less than a block, and lists whose heads exist. */
  ghost predicate LooseAt(mem: Mem, heads: seq<Ptr>, lists: seq<seq<Addr>>, c: Addr) {
    && c in mem && c.off == 0 && mem[c].tag.last && 0 < mem[c].tag.size < LINES_PER_BLOCK
    && |heads| == |lists| == TOTAL_BUCKETS && forall b :: 0 <= b < TOTAL_BUCKETS && heads[b].To? ==>
         heads[b].addr in mem
  }

  /** No choice of blocks, chunks and lists makes a shape that starts at these bucket heads. */
  ghost predicate NoShape(mem: Mem, id: nat, heads: seq<Ptr>) {
    forall B: set<nat>, S: set<Addr>, L: seq<seq<Addr>> :: !Shape(mem, id, B, S, heads, L)
  }

  /** A block-sized stray chunk becomes a chunk of the list; any other leaves the list without shape. */
  ghost predicate Adopted(m: Mem, size: nat, id: nat, blocks: set<nat>, S: set<Addr>, heads: seq<Ptr>,
                          lists: seq<seq<Addr>>, c: Addr) {
    if size == LINES_PER_BLOCK
    then Shape(m, id, blocks + {c.blk}, S + {c}, heads, lists) && c in m && !m[c].tag.used
    else NoShape(m, id, heads)
  }

  lemma StrayRelease(m0: Mem, m1: Mem, id: nat, blocks: set<nat>, S: set<Addr>, heads: seq<Ptr>, lists: seq<seq<Addr>>,
                     c: Addr)
    requires Shape(m0, id, blocks, S, heads, lists) && Stray(m0, id, blocks, c)
    requires m1 == WithTag(m0, c, m0[c].tag.(used := false))
    ensures Shape(m1, id, blocks, S, heads, lists) && c !in S && Stray(m1, id, blocks, c)
  {
    StartsInBlocks(m0, id, blocks, S);
    PayloadShape(m0, m1, id, blocks, S, heads, lists);
  }

  lemma StrayTiled(m: Mem, id: nat, blocks: set<nat>, S: set<Addr>, c: Addr)
    requires Tiled(m, id, blocks, S) && Stray(m, id, blocks, c) && m[c].tag.size == LINES_PER_BLOCK
    ensures Tiled(m, id, blocks + {c.blk}, S + {c})
  {
    var B, T := blocks + {c.blk}, S + {c};
    forall a | a in T ensures a in m && Chunk(m, id, B, T, a) {
      if a in S { assert Chunk(m, id, blocks, S, a); }
    }
  }

  lemma StrayShape(m: Mem, id: nat, blocks: set<nat>, S: set<Addr>, heads: seq<Ptr>, lists: seq<seq<Addr>>, c: Addr)
    requires Shape(m, id, blocks, S, heads, lists) && Stray(m, id, blocks, c) && c !in S
    requires m[c].tag.size == LINES_PER_BLOCK && !m[c].tag.used
    ensures ShapeBut(m, id, blocks + {c.blk}, S + {c}, heads, lists, {c}) && Isolated(m, S + {c}, c)
  {
    StrayTiled(m, id, blocks, S, c);
    StartsInBlocks(m, id, blocks, S);
    forall a | Free(m, S + {c}, a) && !m[a].tag.last ensures Free(m, S, a) && Plus(a, m[a].tag.size) != c {
      assert Chunk(m, id, blocks, S, a);
    }
  }

  lemma StrayPush(m: Mem, m': Mem, id: nat, blocks: set<nat>, S: set<Addr>, heads: seq<Ptr>, lists: seq<seq<Addr>>,
                  c: Addr, b: nat)
    requires Shape(m, id, blocks, S, heads, lists) && Stray(m, id, blocks, c) && c !in S && !m[c].tag.used
    requires b == Bucket(m[c].tag.size) && (heads[b].To? ==> heads[b].addr in m) && m' == PushMem(m, heads[b], c)
    ensures Adopted(m', m[c].tag.size, id, blocks, S, heads[b := To(c)], lists[b := [c] + lists[b]], c)
    ensures LinksOnly(m, m', lists[b := [c] + lists[b]])
  {
    assert !Listed(lists, c);
    PushThreaded(m, heads, lists, c);
    if m[c].tag.size == LINES_PER_BLOCK {
      StrayShape(m, id, blocks, S, heads, lists, c);
      PushStep(m, id, blocks + {c.blk}, S + {c}, heads, lists, c);
    } else {
      StrayNoShape(m', id, heads[b := To(c)], b, c);
    }
  }

  /** A chunk at the head of a bucket would have to be tiled, and its `last` bit contradicts its size. */
  lemma StrayNoShape(m: Mem, id: nat, heads: seq<Ptr>, b: nat, c: Addr)
    requires c in m && c.off == 0 && m[c].tag.last && m[c].tag.size != LINES_PER_BLOCK && b < |heads|
    requires heads[b] == To(c)
    ensures NoShape(m, id, heads)
  {
    forall B: set<nat>, S: set<Addr>, L: seq<seq<Addr>> ensures !Shape(m, id, B, S, heads, L) {
      HeadListed(m, heads, L, b, c);
      assert !Chunk(m, id, B, S, c);
    }
  }

  lemma HeadListed(m: Mem, heads: seq<Ptr>, L: seq<seq<Addr>>, b: nat, c: Addr)
    requires b < |heads| && heads[b] == To(c)
    ensures Threaded(m, heads, L) ==> Listed(L, c)
  {
    if Threaded(m, heads, L) {
      assert Linked(m, heads[b], L[b]);
      assert c == L[b][0];
    }
  }

  /** What freeing a stray chunk leaves: the chunks in use and their contents, in and out of the list's blocks. */
  ghost predicate StrayFreed(m0: Mem, m: Mem, id: nat, blocks: set<nat>, S: set<Addr>, heads: seq<Ptr>,
                             lists: seq<seq<Addr>>, c: Addr) {
    && c in m0 && Adopted(m, m0[c].tag.size, id, blocks, S, heads, lists, c)
    && c in m && m[c].tag == m0[c].tag.(used := false)
    && Within(m0, m, blocks + {c.blk})
    && Live(m, S) == Live(m0, S) && PayloadsKept(m0, m, Live(m0, S))
  }

  // ---------------------------------------------------------------- a free at any site

  /** What a free needs to know of the chunk. */
  ghost predicate Freeable(site: Site, mem: Mem, id: nat, blocks: set<nat>, S: set<Addr>, heads: seq<Ptr>,
                           lists: seq<seq<Addr>>, c: Addr) {
    c in mem && match site
      case Own => Shape(mem, id, blocks, S, heads, lists) && c in S && mem[c].tag.used
      case Behind(x) => TornHeap(mem, id, blocks, S, heads, lists, x, {}) && c in S && mem[c].tag.used && c != x
      case Foreign => Shape(mem, id, blocks, S, heads, lists) && Stray(mem, id, blocks, c)
      case Loose => LooseAt(mem, heads, lists, c)
  }

  /** After the merge with the previous chunk. */
  ghost predicate HalfMerged(site: Site, m0: Mem, v: Mem, m: Mem, id: nat, blocks: set<nat>, starts: set<Addr>,
                             S: set<Addr>, heads: seq<Ptr>, lists: seq<seq<Addr>>, c: Addr, fc: Addr, n: Addr)
  {
    && m.Keys == m0.Keys && c in m0
    && match site
       case Own => PrevMerged(m0, v, m, id, blocks, starts, S, heads, lists, c, fc) && LeftUsed(m0, starts, fc)
       case Behind(x) => TornMerged(v, m, id, blocks, S, heads, lists, x, c, fc, m0[c].tag, n)
       case Foreign => StrayLoose(m0, m, id, blocks, starts, S, heads, lists, c, fc)
       case Loose => fc == c && LooseAt(m, heads, lists, c) && m[c].tag.size == m0[c].tag.size
  }

  /** After both merges. */
  ghost predicate Coalesced(site: Site, m0: Mem, m: Mem, id: nat, blocks: set<nat>, starts: set<Addr>, S: set<Addr>,
                            heads: seq<Ptr>, lists: seq<seq<Addr>>, c: Addr, fc: Addr)
  {
    && m.Keys == m0.Keys && c in m0
    && match site
       case Own => Merging(m0, m, id, blocks, starts, S, heads, lists, c, fc) && Isolated(m, S, fc)
       case Behind(x) => TornMerging(m, id, blocks, S, heads, lists, x, c, m0[c].tag.size, fc)
       case Foreign => StrayLoose(m0, m, id, blocks, starts, S, heads, lists, c, fc)
       case Loose => fc == c && LooseAt(m, heads, lists, c) && m[c].tag.size == m0[c].tag.size
  }

  /** The outcome of a free: the chunk is gone and the shape holds, the heap is torn as before, or the list has a stray
      chunk. */
  ghost predicate FreeResult(site: Site, m0: Mem, m: Mem, id: nat, blocks: set<nat>, starts: set<Addr>, S: set<Addr>,
                             heads: seq<Ptr>, lists: seq<seq<Addr>>, c: Addr, fc: Addr)
  {
    && m.Keys == m0.Keys && c in m0 && Spans(m, fc, c, m0[c].tag.size)
    && match site
       case Own => Freed(m0, m, id, blocks, starts, S, heads, lists, c, fc)
       case Behind(x) => TornHeap(m, id, blocks, S, heads, lists, x, {})
       case Foreign => S == starts && fc == c && StrayFreed(m0, m, id, blocks, S, heads, lists, c)
       case Loose => NoShape(m, id, heads)
  }

  /** The bit of the stray chunk is cleared and nothing else is done yet. */
  ghost predicate StrayLoose(m0: Mem, m: Mem, id: nat, blocks: set<nat>, starts: set<Addr>, S: set<Addr>,
                             heads: seq<Ptr>, lists: seq<seq<Addr>>, c: Addr, fc: Addr) {
    && S == starts && fc == c && c in m0 && m == WithTag(m0, c, m0[c].tag.(used := false))
    && Shape(m, id, blocks, S, heads, lists) && c !in S && Stray(m, id, blocks, c)
  }

  lemma FreePrevCan(site: Site, m0: Mem, m1: Mem, id: nat, blocks: set<nat>, S: set<Addr>, heads: seq<Ptr>,
                    lists: seq<seq<Addr>>, c: Addr)
    requires Freeable(site, m0, id, blocks, S, heads, lists, c) && m1 == WithTag(m0, c, m0[c].tag.(used := false))
    ensures PrevCan(m1, heads, lists, c)
  {
    match site
    case Own => PrevStarts(m0, m1, id, blocks, S, heads, lists, c);
    case Behind(x) =>
      TornRelease(m0, m1, id, blocks, S, heads, lists, x, c);
      TornPrevCan(m1, id, blocks, S, heads, lists, x, c);
    case Foreign =>
    case Loose =>
  }

  lemma FreePrev(site: Site, m0: Mem, m1: Mem, m2: Mem, id: nat, blocks: set<nat>, S: set<Addr>, heads: seq<Ptr>,
                 lists: seq<seq<Addr>>, h2: seq<Ptr>, l2: seq<seq<Addr>>, c: Addr, fc: Addr, n: Addr) returns (v: Mem)
    requires Freeable(site, m0, id, blocks, S, heads, lists, c) && m1 == WithTag(m0, c, m0[c].tag.(used := false))
    requires n == Plus(c, m0[c].tag.size)
    requires PrevDone(m1, heads, lists, m2, h2, l2, c, fc)
    ensures HalfMerged(site, m0, v, m2, id, blocks, S, Left(S, c, fc), h2, l2, c, fc, n)
  {
    PrevKeys(m1, heads, lists, m2, h2, l2, c, fc);
    v := m2;
    match site
    case Own => v := PrevPart(m0, m1, m2, id, blocks, S, heads, lists, h2, l2, c, fc);
    case Behind(x) =>
      TornRelease(m0, m1, id, blocks, S, heads, lists, x, c);
      v := TornPrevPart(m1, m2, id, blocks, S, heads, lists, h2, l2, x, c, fc, m0[c].tag, n);
    case Foreign => StrayRelease(m0, m1, id, blocks, S, heads, lists, c);
    case Loose =>
  }

  lemma FreeNextCan(site: Site, m0: Mem, v: Mem, m2: Mem, id: nat, blocks: set<nat>, starts: set<Addr>, S: set<Addr>,
                    heads0: seq<Ptr>, lists0: seq<seq<Addr>>, h2: seq<Ptr>, l2: seq<seq<Addr>>, c: Addr, fc: Addr,
                    n: Addr)
    requires Freeable(site, m0, id, blocks, starts, heads0, lists0, c) && n == Plus(c, m0[c].tag.size)
    requires HalfMerged(site, m0, v, m2, id, blocks, starts, S, h2, l2, c, fc, n)
    ensures NextCan(m2, h2, l2, m0[c].tag, n, fc)
  {
    match site
    case Own => NextStarts(m0, v, m2, id, blocks, starts, S, h2, l2, c, fc, n);
    case Behind(x) => TornNextCan(v, m2, id, blocks, S, h2, l2, x, c, fc, m0[c].tag, n);
    case Foreign =>
    case Loose =>
  }

  lemma FreeNext(site: Site, m0: Mem, v: Mem, m2: Mem, m3: Mem, id: nat, blocks: set<nat>, starts: set<Addr>,
                 S: set<Addr>, heads0: seq<Ptr>, lists0: seq<seq<Addr>>, h2: seq<Ptr>, l2: seq<seq<Addr>>,
                 h3: seq<Ptr>, l3: seq<seq<Addr>>, c: Addr, fc: Addr, n: Addr)
    requires Freeable(site, m0, id, blocks, starts, heads0, lists0, c) && n == Plus(c, m0[c].tag.size)
    requires HalfMerged(site, m0, v, m2, id, blocks, starts, S, h2, l2, c, fc, n)
    requires NextDone(m2, h2, l2, m3, h3, l3, m0[c].tag, n, fc)
    ensures Coalesced(site, m0, m3, id, blocks, starts, LeftNext(S, m2, m0[c].tag, n), h3, l3, c, fc)
  {
    NextKeys(m2, h2, l2, m3, h3, l3, m0[c].tag, n, fc);
    match site
    case Own => NextPart(m0, v, m2, m3, id, blocks, starts, S, heads0, lists0, h2, l2, h3, l3, c, fc, n);
    case Behind(x) => TornNextPart(v, m2, m3, id, blocks, S, h2, l2, h3, l3, x, c, fc, m0[c].tag, n);
    case Foreign =>
    case Loose =>
  }

  lemma FreePush(site: Site, m0: Mem, m: Mem, m': Mem, id: nat, blocks: set<nat>, starts: set<Addr>, S: set<Addr>,
                 heads: seq<Ptr>, lists: seq<seq<Addr>>, c: Addr, fc: Addr, b: nat)
    requires Coalesced(site, m0, m, id, blocks, starts, S, heads, lists, c, fc)
    requires fc in m && |heads| == |lists| == TOTAL_BUCKETS && b == Bucket(m[fc].tag.size)
    requires (heads[b].To? ==> heads[b].addr in m) && m' == PushMem(m, heads[b], fc)
    ensures FreeResult(site, m0, m', id, blocks, starts, S, heads[b := To(fc)], lists[b := [fc] + lists[b]], c, fc)
  {
    PushTags(m, heads[b], fc);
    match site
    case Own =>
      MergingFinish(m0, m, m', id, blocks, starts, S, heads, lists, c, fc, b);
      assert Chunk(m', id, blocks, S, fc);
    case Behind(x) => TornPush(m, m', id, blocks, S, heads, lists, x, c, m0[c].tag.size, fc, b);
    case Foreign => StrayDone(m0, m, m', id, blocks, S, heads, lists, c, b);
    case Loose =>
      StrayNoShape(m', id, heads[b := To(c)], b, c);
  }

  lemma StrayDone(m0: Mem, m: Mem, m': Mem, id: nat, blocks: set<nat>, S: set<Addr>, heads: seq<Ptr>,
                  lists: seq<seq<Addr>>, c: Addr, b: nat)
    requires StrayLoose(m0, m, id, blocks, S, S, heads, lists, c, c)
    requires b == Bucket(m[c].tag.size) && (heads[b].To? ==> heads[b].addr in m) && m' == PushMem(m, heads[b], c)
    ensures StrayFreed(m0, m', id, blocks, S, heads[b := To(c)], lists[b := [c] + lists[b]], c)
  {
    StrayPush(m, m', id, blocks, S, heads, lists, c, b);
    StartsInBlocks(m, id, blocks, S);
    var lists' := lists[b := [c] + lists[b]];
    forall a ensures Listed(lists', a) <==> Listed(lists, a) || a == c {
      ListedPushed(lists, b, c, a);
    }
    assert forall a :: Listed(lists, a) ==> a.blk in blocks;
    StrayKept(m0, m', id, blocks, S, c, lists', m);
  }

  lemma StrayKept(m0: Mem, m': Mem, id: nat, blocks: set<nat>, S: set<Addr>, c: Addr, lists': seq<seq<Addr>>, m: Mem)
    requires Tiled(m, id, blocks, S) && c in m0 && c !in S && c.blk !in blocks
    requires m == WithTag(m0, c, m0[c].tag.(used := false)) && LinksOnly(m, m', lists')
    requires forall a :: Listed(lists', a) ==> a == c || (Free(m, S, a) && a.blk in blocks)
    ensures Within(m0, m', blocks + {c.blk}) && Live(m', S) == Live(m0, S) && PayloadsKept(m0, m', Live(m0, S))
  {
    assert forall a :: a in m0 && a != c && !Listed(lists', a) ==> m'[a] == m0[a];
    StrayLive(m0, m', S, c);
    var live := Live(m0, S);
    forall a | a in live ensures SamePayload(m0, m', a, live[a]) {
      StrayPayload(m0, m', id, blocks, S, c, lists', m, a);
    }
  }

  lemma StrayLive(m0: Mem, m': Mem, S: set<Addr>, c: Addr)
    requires c !in S && m'.Keys == m0.Keys && forall a :: a in m0 && a != c ==> m'[a].tag == m0[a].tag
    ensures Live(m', S) == Live(m0, S)
  {
  }

  lemma StrayPayload(m0: Mem, m': Mem, id: nat, blocks: set<nat>, S: set<Addr>, c: Addr, lists': seq<seq<Addr>>,
                     m: Mem, a: Addr)
    requires Tiled(m, id, blocks, S) && c in m0 && c !in S && c.blk !in blocks
    requires m == WithTag(m0, c, m0[c].tag.(used := false)) && m'.Keys == m0.Keys
    requires forall y :: y in m0 && y != c && !Listed(lists', y) ==> m'[y] == m0[y]
    requires forall y :: Listed(lists', y) ==> y == c || Free(m, S, y)
    requires a in S && m[a].tag.used
    ensures SamePayload(m0, m', a, m0[a].tag.size)
  {
    assert Chunk(m, id, blocks, S, a);
    forall i | 0 < i < m0[a].tag.size ensures Plus(a, i) in m0 && Plus(a, i) in m' && m'[Plus(a, i)] == m0[Plus(a, i)] {
      if Plus(a, i) in S { ChunksDisjoint(m, id, blocks, S, a, Plus(a, i)); }
    }
  }

  lemma CoalescedHeads(site: Site, m0: Mem, m: Mem, id: nat, blocks: set<nat>, starts: set<Addr>, S: set<Addr>,
                       heads: seq<Ptr>, lists: seq<seq<Addr>>, c: Addr, fc: Addr)
    requires Coalesced(site, m0, m, id, blocks, starts, S, heads, lists, c, fc)
    ensures fc in m && |heads| == |lists| == TOTAL_BUCKETS
    ensures forall b :: 0 <= b < TOTAL_BUCKETS && heads[b].To? ==> heads[b].addr in m
  {
    if site != Loose { HeadsInMem(m, heads, lists); }
  }
}
