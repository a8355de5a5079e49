/**
 The release of wholly free blocks, chunk by chunk along the last bucket.
 */
module ReleaseSteps {
  import opened HeapLayout
  import opened BucketLists
  import opened FreeListShape
  import opened AllocSteps

  const LAST_BUCKET := TOTAL_BUCKETS - 1

  /** The links lead from `head` over `path` to the end. */
  ghost predicate Walk(mem: Mem, head: Ptr, path: seq<Addr>) {
    head == PtrAt(path, 0) && (forall a :: a in path ==> a in mem) && Forth(mem, path)
  }

  /** No chunk on the path is a whole block. */
  ghost predicate NoneWhole(mem: Mem, path: seq<Addr>) {
    forall a :: a in path && a in mem ==> mem[a].tag.size != LINES_PER_BLOCK
  }

  ghost predicate WholeFree(mem: Mem, starts: set<Addr>, b: nat) {
    Free(mem, starts, Addr(b, 0)) && mem[Addr(b, 0)].tag.size == LINES_PER_BLOCK
  }

  /** Exactly the wholly free blocks are gone, each released once; chunks in use and their contents are as before. */
  ghost predicate Released(m0: Mem, m: Mem, blocks0: set<nat>, blocks: set<nat>, starts0: set<Addr>, starts: set<Addr>,
                           released: seq<nat>) {
    && (forall b :: b in released <==> b in blocks0 && WholeFree(m0, starts0, b))
    && (forall i, j :: 0 <= i < j < |released| ==> released[i] != released[j])
    && (forall b :: b in blocks <==> b in blocks0 && b !in released)
    && Live(m, starts) == Live(m0, starts0) && PayloadsKept(m0, m, Live(m0, starts0))
  }

  /** Part of the way: the chunks of `rest`, at the end of the last list, are still to be looked at. */
  ghost predicate Releasing(m0: Mem, m: Mem, id: nat, blocks0: set<nat>, blocks: set<nat>, starts0: set<Addr>,
                            starts: set<Addr>, lists0: seq<seq<Addr>>, heads: seq<Ptr>, lists: seq<seq<Addr>>,
                            rest: seq<Addr>, released: seq<nat>)
  {
    && Shape(m, id, blocks, starts, heads, lists) && LinksOnly(m0, m, lists0)
    && (forall a :: Listed(lists, a) ==> Listed(lists0, a))
    && LeftOver(m, lists[LAST_BUCKET], rest) && Gone(m0, blocks0, blocks, starts0, starts, released)
  }

  /** All that has changed, or nothing if no chunk of the path is a whole block. */
  ghost predicate Going(still: bool, m0: Mem, m: Mem, id: nat, blocks0: set<nat>, blocks: set<nat>, starts0: set<Addr>,
                        starts: set<Addr>, heads0: seq<Ptr>, heads: seq<Ptr>, lists0: seq<seq<Addr>>,
                        lists: seq<seq<Addr>>, path: seq<Addr>, rest: seq<Addr>, released: seq<nat>)
  {
    && |heads| == |lists| == TOTAL_BUCKETS
    && if still
       then NoneWhole(m0, path) && m == m0 && blocks == blocks0 && starts == starts0 && heads == heads0
           && lists == lists0 && released == []
            && |rest| <= |path| && rest == path[|path| - |rest|..]
       else Releasing(m0, m, id, blocks0, blocks, starts0, starts, lists0, heads, lists, rest, released)
  }

  /** One chunk further. */
  lemma GoingKeeps(still: bool, m0: Mem, m: Mem, id: nat, blocks0: set<nat>, blocks: set<nat>, starts0: set<Addr>,
                   starts: set<Addr>, heads0: seq<Ptr>, heads: seq<Ptr>, lists0: seq<seq<Addr>>, lists: seq<seq<Addr>>,
                   path: seq<Addr>, rest: seq<Addr>, released: seq<nat>)
    requires Going(still, m0, m, id, blocks0, blocks, starts0, starts, heads0, heads, lists0, lists, path, rest,
                   released)
    requires rest != [] && rest[0] in m && m[rest[0]].tag.size != LINES_PER_BLOCK
    ensures Going(still, m0, m, id, blocks0, blocks, starts0, starts, heads0, heads, lists0, lists, path, rest[1..],
                  released)
  {
    if !still { KeepOne(m0, m, id, blocks0, blocks, starts0, starts, lists0, heads, lists, rest, released); }
  }

  lemma GoingReleases(still: bool, m0: Mem, m: Mem, id: nat, blocks0: set<nat>, blocks: set<nat>, starts0: set<Addr>,
                      starts: set<Addr>, heads0: seq<Ptr>, heads: seq<Ptr>, lists0: seq<seq<Addr>>,
                      lists: seq<seq<Addr>>, path: seq<Addr>, rest: seq<Addr>, released: seq<nat>)
    requires Going(still, m0, m, id, blocks0, blocks, starts0, starts, heads0, heads, lists0, lists, path, rest,
                   released)
    requires rest != [] && rest[0] in m && m[rest[0]].tag.size == LINES_PER_BLOCK
    ensures !still && Releasing(m0, m, id, blocks0, blocks, starts0, starts, lists0, heads, lists, rest, released)
    ensures (m[rest[0]].prev.To? ==> m[rest[0]].prev.addr in m) && (m[rest[0]].next.To? ==> m[rest[0]].next.addr in m)
    ensures |rest| <= |lists[LAST_BUCKET]|
  {
    OnPath(path, rest);
    ReleaseOne(m0, m, id, blocks0, blocks, starts0, starts, lists0, heads, lists, rest, released);
  }

  lemma OnPath(path: seq<Addr>, rest: seq<Addr>)
    ensures rest != [] && |rest| <= |path| && rest == path[|path| - |rest|..] ==> rest[0] in path
  {
  }

  lemma GoingReleased(m0: Mem, m: Mem, m': Mem, id: nat, blocks0: set<nat>, blocks: set<nat>, blocks': set<nat>,
                      starts0: set<Addr>, starts: set<Addr>, starts': set<Addr>, heads0: seq<Ptr>, heads: seq<Ptr>,
                      heads': seq<Ptr>, lists0: seq<seq<Addr>>, lists: seq<seq<Addr>>, lists': seq<seq<Addr>>,
                      path: seq<Addr>, rest: seq<Addr>, rest': seq<Addr>, released: seq<nat>, released': seq<nat>,
                      next: Ptr)
    requires Releasing(m0, m, id, blocks0, blocks, starts0, starts, lists0, heads, lists, rest, released)
    requires rest != [] && rest[0] in m && m[rest[0]].tag.size == LINES_PER_BLOCK && rest' == rest[1..]
    requires next == m[rest[0]].next
    requires (m[rest[0]].prev.To? ==> m[rest[0]].prev.addr in m) && (next.To? ==> next.addr in m)
    requires m' == UnlinkMem(m, rest[0])
    requires |rest| <= |lists[LAST_BUCKET]| && heads' == UnlinkHeads(m, heads, LAST_BUCKET, rest[0])
    requires lists' == lists[LAST_BUCKET := Without(lists[LAST_BUCKET], |lists[LAST_BUCKET]| - |rest|)]
    requires blocks' == blocks - {rest[0].blk} && starts' == starts - {rest[0]} && released' == released + [rest[0].blk]
    ensures Going(false, m0, m', id, blocks0, blocks', starts0, starts', heads0, heads', lists0, lists', path, rest',
                  released')
    ensures Walk(m', next, rest')
  {
    ReleaseOne(m0, m, id, blocks0, blocks, starts0, starts, lists0, heads, lists, rest, released);
  }

  lemma GoingEnds(still: bool, m0: Mem, m: Mem, id: nat, blocks0: set<nat>, blocks: set<nat>, starts0: set<Addr>,
                  starts: set<Addr>, heads0: seq<Ptr>, heads: seq<Ptr>, lists0: seq<seq<Addr>>, lists: seq<seq<Addr>>,
                  path: seq<Addr>, released: seq<nat>)
    requires Going(still, m0, m, id, blocks0, blocks, starts0, starts, heads0, heads, lists0, lists, path, [], released)
    requires Shape(m0, id, blocks0, starts0, heads0, lists0) && path == lists0[LAST_BUCKET]
    ensures Shape(m, id, blocks, starts, heads, lists) && Released(m0, m, blocks0, blocks, starts0, starts, released)
  {
    if still {
      ReleaseBegins(m0, id, blocks0, starts0, heads0, lists0);
      NoneLeft(m0, heads0, lists0);
    }
    ReleaseEnds(m0, m, id, blocks0, blocks, starts0, starts, heads0, lists0, heads, lists, released);
  }

  lemma NoneLeft(m: Mem, heads: seq<Ptr>, lists: seq<seq<Addr>>)
    requires Threaded(m, heads, lists) && NoneWhole(m, lists[LAST_BUCKET])
    ensures LeftOver(m, lists[LAST_BUCKET], [])
  {
    forall i | 0 <= i < |lists[LAST_BUCKET]|
      ensures lists[LAST_BUCKET][i] in m && m[lists[LAST_BUCKET][i]].tag.size != LINES_PER_BLOCK {
      assert lists[LAST_BUCKET][i] in lists[LAST_BUCKET];
    }
  }

  /** `rest` is the end of the list `l`, and no chunk before it is a whole block. */
  ghost predicate LeftOver(m: Mem, l: seq<Addr>, rest: seq<Addr>) {
    && |rest| <= |l| && rest == l[|l| - |rest|..]
    && forall i :: 0 <= i < |l| - |rest| ==> l[i] in m && m[l[i]].tag.size != LINES_PER_BLOCK
  }

  /** The blocks released so far were wholly free, and are gone with their chunks. */
  ghost predicate Gone(m0: Mem, blocks0: set<nat>, blocks: set<nat>, starts0: set<Addr>, starts: set<Addr>,
                       released: seq<nat>) {
    && (forall b :: b in released ==> b in blocks0 && WholeFree(m0, starts0, b))
    && (forall i, j :: 0 <= i < j < |released| ==> released[i] != released[j])
    && (forall b :: b in blocks <==> b in blocks0 && b !in released)
    && (forall a :: a in starts <==> a in starts0 && !(a.off == 0 && a.blk in released))
  }

  lemma WalkStep(m: Mem, chunk: Ptr, rest: seq<Addr>)
    requires Walk(m, chunk, rest) && chunk.To?
    ensures rest != [] && chunk.addr == rest[0] && rest[0] in m && Walk(m, m[rest[0]].next, rest[1..])
  {
    var l := rest[1..];
    assert m[rest[0]].next == PtrAt(rest, 1);
    forall i | 0 <= i < |l| ensures l[i] in m && m[l[i]].next == PtrAt(l, i + 1) {
      assert l[i] == rest[i + 1] && m[rest[i + 1]].next == PtrAt(rest, i + 2);
    }
  }

  lemma ReleaseBegins(m0: Mem, id: nat, blocks: set<nat>, starts: set<Addr>, heads: seq<Ptr>, lists: seq<seq<Addr>>)
    requires Shape(m0, id, blocks, starts, heads, lists)
    ensures Releasing(m0, m0, id, blocks, blocks, starts, starts, lists, heads, lists, lists[LAST_BUCKET], [])
  {
  }

  /** A chunk that is no whole block is passed over. */
  lemma KeepOne(m0: Mem, m: Mem, id: nat, blocks0: set<nat>, blocks: set<nat>, starts0: set<Addr>, starts: set<Addr>,
                lists0: seq<seq<Addr>>, heads: seq<Ptr>, lists: seq<seq<Addr>>, rest: seq<Addr>, released: seq<nat>)
    requires Releasing(m0, m, id, blocks0, blocks, starts0, starts, lists0, heads, lists, rest, released)
    requires rest != [] && rest[0] in m && m[rest[0]].tag.size != LINES_PER_BLOCK
    ensures Releasing(m0, m, id, blocks0, blocks, starts0, starts, lists0, heads, lists, rest[1..], released)
  {
    var l := lists[LAST_BUCKET];
    assert l[|l| - |rest|] == rest[0];
  }

  /** A wholly free block without its chunk is no block of the list. */
  lemma DropBlock(m: Mem, id: nat, blocks: set<nat>, starts: set<Addr>, heads: seq<Ptr>, lists: seq<seq<Addr>>, c: Addr)
    requires ShapeBut(m, id, blocks, starts, heads, lists, {c}) && c in m && m[c].tag.size == LINES_PER_BLOCK
    requires !m[c].tag.used
    ensures c == Addr(c.blk, 0) && Shape(m, id, blocks - {c.blk}, starts - {c}, heads, lists)
  {
    assert Chunk(m, id, blocks, starts, c);
    var B, S := blocks - {c.blk}, starts - {c};
    forall a | a in S ensures a in m && Chunk(m, id, B, S, a) {
      assert Chunk(m, id, blocks, starts, a);
      OnlyChunk(m, id, blocks, starts, c, a);
    }
    forall a | Free(m, S, a) && !m[a].tag.last ensures var n := Plus(a, m[a].tag.size); n in m && m[n].tag.used {
      assert Chunk(m, id, blocks, starts, a);
      OnlyChunk(m, id, blocks, starts, c, a);
    }
  }

  lemma OnlyChunk(m: Mem, id: nat, blocks: set<nat>, starts: set<Addr>, c: Addr, a: Addr)
    requires Tiled(m, id, blocks, starts) && c in starts && a in starts && a != c && m[c].tag.size == LINES_PER_BLOCK
    ensures a.blk != c.blk
  {
    assert Chunk(m, id, blocks, starts, c) && Chunk(m, id, blocks, starts, a);
    if a.blk == c.blk { ChunksDisjoint(m, id, blocks, starts, c, a); }
  }

  /** A wholly free block is unlinked and dropped. */
  lemma ReleaseOne(m0: Mem, m: Mem, id: nat, blocks0: set<nat>, blocks: set<nat>, starts0: set<Addr>, starts: set<Addr>,
                   lists0: seq<seq<Addr>>, heads: seq<Ptr>, lists: seq<seq<Addr>>, rest: seq<Addr>, released: seq<nat>)
    requires Releasing(m0, m, id, blocks0, blocks, starts0, starts, lists0, heads, lists, rest, released)
    requires rest != [] && rest[0] in m && m[rest[0]].tag.size == LINES_PER_BLOCK
    ensures
      var c, l := rest[0], lists[LAST_BUCKET];
      && (m[c].prev.To? ==> m[c].prev.addr in m) && (m[c].next.To? ==> m[c].next.addr in m)
      && Releasing(m0, UnlinkMem(m, c), id, blocks0, blocks - {c.blk}, starts0, starts - {c}, lists0,
                   UnlinkHeads(m, heads, LAST_BUCKET, c), lists[LAST_BUCKET := Without(l, |l| - |rest|)], rest[1..],
                   released + [c.blk])
      && Walk(UnlinkMem(m, c), m[c].next, rest[1..])
  {
    var c, l := rest[0], lists[LAST_BUCKET];
    var k := |l| - |rest|;
    assert l[k] == c && c in l;
    ReleaseUnlink(m, id, blocks, starts, heads, lists, c, k);
    var m' := UnlinkMem(m, c);
    ReleaseLists(lists0, lists, k);
    ReleaseLinks(m0, m, m', lists0, lists);
    ReleaseRest(m, m', l, rest, k);
    ReleaseWhole(m0, m, blocks0, blocks, starts0, starts, lists0, released, c);
    ReleaseWalk(m', UnlinkHeads(m, heads, LAST_BUCKET, c), lists[LAST_BUCKET := Without(l, k)], rest[1..], k,
                m[c].next, l);
  }

  lemma ReleaseUnlink(m: Mem, id: nat, blocks: set<nat>, starts: set<Addr>, heads: seq<Ptr>, lists: seq<seq<Addr>>,
                      c: Addr, k: nat)
    requires Shape(m, id, blocks, starts, heads, lists) && k < |lists[LAST_BUCKET]| && lists[LAST_BUCKET][k] == c
    requires c in m && m[c].tag.size == LINES_PER_BLOCK
    ensures (m[c].prev.To? ==> m[c].prev.addr in m) && (m[c].next.To? ==> m[c].next.addr in m) && Free(m, starts, c)
    ensures c == Addr(c.blk, 0) && c.blk in blocks && m[c].next == PtrAt(lists[LAST_BUCKET], k + 1)
    ensures Shape(UnlinkMem(m, c), id, blocks - {c.blk}, starts - {c}, UnlinkHeads(m, heads, LAST_BUCKET, c),
                  lists[LAST_BUCKET := Without(lists[LAST_BUCKET], k)])
    ensures LinksOnly(m, UnlinkMem(m, c), lists)
  {
    var l := lists[LAST_BUCKET];
    assert Linked(m, heads[LAST_BUCKET], l) && m[l[k]].next == PtrAt(l, k + 1);
    UnlinkStep(m, id, blocks, starts, heads, lists, {}, LAST_BUCKET, k);
    assert {} + {c} == {c};
    assert Chunk(m, id, blocks, starts, c);
    DropBlock(UnlinkMem(m, c), id, blocks, starts, UnlinkHeads(m, heads, LAST_BUCKET, c),
              lists[LAST_BUCKET := Without(l, k)], c);
  }

  lemma ReleaseLists(lists0: seq<seq<Addr>>, lists: seq<seq<Addr>>, k: nat)
    requires |lists| == TOTAL_BUCKETS && k < |lists[LAST_BUCKET]| && forall a :: Listed(lists, a) ==> Listed(lists0, a)
    ensures forall a :: Listed(lists[LAST_BUCKET := Without(lists[LAST_BUCKET], k)], a) ==> Listed(lists0, a)
  {
    var lists' := lists[LAST_BUCKET := Without(lists[LAST_BUCKET], k)];
    forall a | Listed(lists', a) ensures Listed(lists0, a) {
      var b :| 0 <= b < |lists'| && a in lists'[b];
      assert a in lists[b];
    }
  }

  lemma ReleaseLinks(m0: Mem, m: Mem, m': Mem, lists0: seq<seq<Addr>>, lists: seq<seq<Addr>>)
    requires LinksOnly(m0, m, lists0) && LinksOnly(m, m', lists) && forall a :: Listed(lists, a) ==> Listed(lists0, a)
    ensures LinksOnly(m0, m', lists0)
  {
  }

  lemma ReleaseRest(m: Mem, m': Mem, l: seq<Addr>, rest: seq<Addr>, k: nat)
    requires LeftOver(m, l, rest) && rest != [] && k == |l| - |rest|
    requires m'.Keys == m.Keys && (forall a :: a in m ==> m'[a].tag == m[a].tag)
    ensures LeftOver(m', Without(l, k), rest[1..]) && rest[1..] == Without(l, k)[k..]
  {
  }

  /** The dropped block was wholly free from the start, and is not released twice. */
  lemma ReleaseWhole(m0: Mem, m: Mem, blocks0: set<nat>, blocks: set<nat>, starts0: set<Addr>, starts: set<Addr>,
                     lists0: seq<seq<Addr>>, released: seq<nat>, c: Addr)
    requires Gone(m0, blocks0, blocks, starts0, starts, released) && LinksOnly(m0, m, lists0)
    requires Free(m, starts, c) && m[c].tag.size == LINES_PER_BLOCK && c == Addr(c.blk, 0) && c.blk in blocks
    ensures Gone(m0, blocks0, blocks - {c.blk}, starts0, starts - {c}, released + [c.blk])
  {
    assert WholeFree(m0, starts0, c.blk);
  }

  lemma ReleaseWalk(m': Mem, heads': seq<Ptr>, lists': seq<seq<Addr>>, rest': seq<Addr>, k: nat, next: Ptr,
                    l: seq<Addr>)
    requires Threaded(m', heads', lists') && k < |l| && lists'[LAST_BUCKET] == Without(l, k)
    requires rest' == Without(l, k)[k..] && next == PtrAt(l, k + 1)
    ensures Walk(m', next, rest')
  {
    var l' := lists'[LAST_BUCKET];
    assert Linked(m', heads'[LAST_BUCKET], l');
    forall i | 0 <= i < |rest'| ensures rest'[i] in m' && m'[rest'[i]].next == PtrAt(rest', i + 1) {
      assert rest'[i] == l'[k + i] && m'[l'[k + i]].next == PtrAt(l', k + i + 1);
    }
  }

  lemma ReleaseEnds(m0: Mem, m: Mem, id: nat, blocks0: set<nat>, blocks: set<nat>, starts0: set<Addr>,
                    starts: set<Addr>, heads0: seq<Ptr>, lists0: seq<seq<Addr>>, heads: seq<Ptr>,
                    lists: seq<seq<Addr>>, released: seq<nat>)
    requires Shape(m0, id, blocks0, starts0, heads0, lists0)
    requires Releasing(m0, m, id, blocks0, blocks, starts0, starts, lists0, heads, lists, [], released)
    ensures Released(m0, m, blocks0, blocks, starts0, starts, released)
  {
    forall b | b in blocks0 && WholeFree(m0, starts0, b) ensures b in released {
      if b !in released { StillListed(m0, m, id, blocks, starts0, starts, heads, lists, released, b); }
    }
    ReleasedLive(m0, m, starts0, starts, released);
    TiledByTags(m0, m, id, blocks0, starts0);
    KeptByLinks(m0, m, starts0, lists0);
    KeptPayloads(m0, id, blocks0, starts0, m, blocks0, starts0, Live(m0, starts0));
  }

  lemma ReleasedLive(m0: Mem, m: Mem, starts0: set<Addr>, starts: set<Addr>, released: seq<nat>)
    requires m.Keys == m0.Keys && (forall a :: a in m0 ==> m[a].tag == m0[a].tag)
    requires (forall b :: b in released ==> WholeFree(m0, starts0, b))
    requires forall a :: a in starts <==> a in starts0 && !(a.off == 0 && a.blk in released)
    ensures Live(m, starts) == Live(m0, starts0)
  {
    forall b | b in released ensures Addr(b, 0) in m0 && !m0[Addr(b, 0)].tag.used { assert WholeFree(m0, starts0, b); }
    forall a: Addr | a in starts0 && a in m0 && m0[a].tag.used ensures a in starts { assert a == Addr(a.blk, a.off); }
  }

  /** A wholly free block that is left would be on the last list. */
  lemma StillListed(m0: Mem, m: Mem, id: nat, blocks: set<nat>, starts0: set<Addr>, starts: set<Addr>, heads: seq<Ptr>,
                    lists: seq<seq<Addr>>, released: seq<nat>, b: nat)
    requires Shape(m, id, blocks, starts, heads, lists) && m.Keys == m0.Keys
    requires (forall a :: a in m0 ==> m[a].tag == m0[a].tag)
    requires WholeFree(m0, starts0, b) && b !in released
    requires forall a :: a in starts <==> a in starts0 && !(a.off == 0 && a.blk in released)
    ensures exists i ::
      0 <= i < |lists[LAST_BUCKET]| && lists[LAST_BUCKET][i] in m
          && m[lists[LAST_BUCKET][i]].tag.size == LINES_PER_BLOCK
  {
    var c := Addr(b, 0);
    assert Free(m, starts, c) && Listed(lists, c);
    var d :| 0 <= d < |lists| && c in lists[d];
    assert d == Bucket(LINES_PER_BLOCK) == LAST_BUCKET;
    var i :| 0 <= i < |lists[d]| && lists[d][i] == c;
  }
}
