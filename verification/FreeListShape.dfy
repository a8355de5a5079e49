/**
 The invariant of one free list, and how each elementary store sequence of the allocator keeps it.
 `but` holds the chunks an operation has taken off the lists and not yet put back.
 */
module FreeListShape {
  import opened HeapLayout
  import opened BucketLists

  ghost predicate Free(mem: Mem, starts: set<Addr>, a: Addr) {
    a in starts && a in mem && !mem[a].tag.used
  }

  /** The lists hold exactly the free chunks outside `but`. */
  ghost predicate Exact(mem: Mem, starts: set<Addr>, lists: seq<seq<Addr>>, but: set<Addr>) {
    forall a :: Listed(lists, a) <==> Free(mem, starts, a) && a !in but
  }

  /** Two free neighbours occur only at chunks of `but`. */
  ghost predicate CoalescedBut(mem: Mem, starts: set<Addr>, but: set<Addr>) {
    forall a :: Free(mem, starts, a) && !mem[a].tag.last && a !in but ==>
      var n := Plus(a, mem[a].tag.size); n in but || (n in mem && mem[n].tag.used)
  }

  ghost predicate ShapeBut(mem: Mem, id: nat, blocks: set<nat>, starts: set<Addr>,
                           heads: seq<Ptr>, lists: seq<seq<Addr>>, but: set<Addr>)
  {
    && Tiled(mem, id, blocks, starts)
    && Threaded(mem, heads, lists)
    && Exact(mem, starts, lists, but)
    && CoalescedBut(mem, starts, but)
    && but <= starts
  }

  /** Chunks tile the blocks with right tags, no two free chunks touch, and the bucket lists hold
      exactly the free chunks, each in the bucket of its size. */
  ghost predicate Shape(mem: Mem, id: nat, blocks: set<nat>, starts: set<Addr>,
                        heads: seq<Ptr>, lists: seq<seq<Addr>>)
  {
    ShapeBut(mem, id, blocks, starts, heads, lists, {})
  }

  /** Only header words differ. */
  ghost predicate TagsOnly(mem: Mem, mem': Mem) {
    && mem'.Keys == mem.Keys
    && forall a :: a in mem ==> mem'[a] == mem[a].(tag := mem'[a].tag)
  }

  /** Taking the chunk at position `k` of a list off it. */
  lemma UnlinkStep(mem: Mem, id: nat, blocks: set<nat>, starts: set<Addr>, heads: seq<Ptr>, lists: seq<seq<Addr>>,
                   but: set<Addr>, b: nat, k: nat)
    requires ShapeBut(mem, id, blocks, starts, heads, lists, but)
    requires b < TOTAL_BUCKETS && k < |lists[b]|
    ensures
      var c := lists[b][k];
      && Free(mem, starts, c) && c !in but
      && (mem[c].prev.To? ==> mem[c].prev.addr in mem) && (mem[c].next.To? ==> mem[c].next.addr in mem)
      && ShapeBut(UnlinkMem(mem, c), id, blocks, starts, UnlinkHeads(mem, heads, b, c),
                  lists[b := Without(lists[b], k)], but + {c})
      && LinksOnly(mem, UnlinkMem(mem, c), lists)
  {
    var c := lists[b][k];
    assert Listed(lists, c);
    UnlinkThreaded(mem, heads, lists, b, k);
    UnlinkRest(mem, UnlinkMem(mem, c), id, blocks, starts, heads, UnlinkHeads(mem, heads, b, c), lists, but, b, k);
  }

  /** Taking free chunk `c` off its list. */
  lemma UnlinkFree(mem: Mem, id: nat, blocks: set<nat>, starts: set<Addr>, heads: seq<Ptr>, lists: seq<seq<Addr>>,
                   but: set<Addr>, c: Addr)
    requires ShapeBut(mem, id, blocks, starts, heads, lists, but) && Free(mem, starts, c) && c !in but
    ensures
      var b := Bucket(mem[c].tag.size);
      && |heads| == |lists| == TOTAL_BUCKETS && c in lists[b]
      && (mem[c].prev.To? ==> mem[c].prev.addr in mem) && (mem[c].next.To? ==> mem[c].next.addr in mem)
      && ShapeBut(UnlinkMem(mem, c), id, blocks, starts, UnlinkHeads(mem, heads, b, c), UnlinkLists(lists, b, c),
                  but + {c})
      && LinksOnly(mem, UnlinkMem(mem, c), lists)
  {
    assert Listed(lists, c);
    var b := Bucket(mem[c].tag.size);
    assert c in lists[b];
    UnlinkStep(mem, id, blocks, starts, heads, lists, but, b, IndexOf(lists[b], c));
  }

  lemma UnlinkRest(mem: Mem, mem': Mem, id: nat, blocks: set<nat>, starts: set<Addr>, heads: seq<Ptr>, heads': seq<Ptr>,
                   lists: seq<seq<Addr>>, but: set<Addr>, b: nat, k: nat)
    requires ShapeBut(mem, id, blocks, starts, heads, lists, but)
    requires b < TOTAL_BUCKETS && k < |lists[b]| && LinksOnly(mem, mem', lists)
    requires Threaded(mem', heads', lists[b := Without(lists[b], k)])
    ensures ShapeBut(mem', id, blocks, starts, heads', lists[b := Without(lists[b], k)], but + {lists[b][k]})
  {
    assert Listed(lists, lists[b][k]);
    UnlinkExact(mem, mem', starts, heads, lists, but, b, k);
    SameTagsShape(mem, mem', id, blocks, starts, heads', lists[b := Without(lists[b], k)], but, but + {lists[b][k]});
  }

  /** Link stores keep everything that only tags decide. */
  lemma SameTagsShape(mem: Mem, mem': Mem, id: nat, blocks: set<nat>, starts: set<Addr>,
                      heads': seq<Ptr>, lists': seq<seq<Addr>>, but: set<Addr>, but': set<Addr>)
    requires Tiled(mem, id, blocks, starts) && CoalescedBut(mem, starts, but)
    requires mem'.Keys == mem.Keys && forall a :: a in mem ==> mem'[a].tag == mem[a].tag
    requires Threaded(mem', heads', lists') && Exact(mem', starts, lists', but')
    requires but <= but' <= starts
    ensures ShapeBut(mem', id, blocks, starts, heads', lists', but')
  {
    TiledByTags(mem, mem', id, blocks, starts);
    forall a | Free(mem', starts, a) && !mem'[a].tag.last && a !in but'
      ensures var n := Plus(a, mem'[a].tag.size); n in but' || (n in mem' && mem'[n].tag.used)
    {
      assert Free(mem, starts, a);
    }
  }

  lemma UnlinkExact(mem: Mem, mem': Mem, starts: set<Addr>, heads: seq<Ptr>, lists: seq<seq<Addr>>, but: set<Addr>,
                    b: nat, k: nat)
    requires Threaded(mem, heads, lists) && Exact(mem, starts, lists, but)
    requires b < TOTAL_BUCKETS && k < |lists[b]| && LinksOnly(mem, mem', lists)
    ensures Exact(mem', starts, lists[b := Without(lists[b], k)], but + {lists[b][k]})
  {
    var c, lists' := lists[b][k], lists[b := Without(lists[b], k)];
    forall a ensures Listed(lists', a) <==> Listed(lists, a) && a != c {
      ListedUnlinked(mem, heads, lists, b, k, a);
    }
  }

  /** Both neighbours of free chunk `c` are in use. */
  ghost predicate Isolated(mem: Mem, starts: set<Addr>, c: Addr) {
    && Free(mem, starts, c)
    && (forall a :: Free(mem, starts, a) && !mem[a].tag.last ==> Plus(a, mem[a].tag.size) != c)
    && (!mem[c].tag.last ==> var n := Plus(c, mem[c].tag.size); n in mem && mem[n].tag.used)
  }

  lemma PushExact(mem: Mem, mem': Mem, starts: set<Addr>, lists: seq<seq<Addr>>, c: Addr, b: nat)
    requires Exact(mem, starts, lists, {c}) && Free(mem, starts, c) && b < |lists|
    requires mem'.Keys == mem.Keys && forall a :: a in mem ==> mem'[a].tag == mem[a].tag
    ensures Exact(mem', starts, lists[b := [c] + lists[b]], {})
  {
    var lists' := lists[b := [c] + lists[b]];
    forall a ensures Listed(lists', a) <==> Listed(lists, a) || a == c {
      ListedPushed(lists, b, c, a);
    }
  }

  /** Putting the one missing chunk on its list, once both its neighbours are in use. */
  lemma PushStep(mem: Mem, id: nat, blocks: set<nat>, starts: set<Addr>, heads: seq<Ptr>, lists: seq<seq<Addr>>,
                 c: Addr)
    requires ShapeBut(mem, id, blocks, starts, heads, lists, {c}) && Isolated(mem, starts, c)
    ensures
      var b := Bucket(mem[c].tag.size);
      && (heads[b].To? ==> heads[b].addr in mem)
      && Shape(PushMem(mem, heads[b], c), id, blocks, starts, heads[b := To(c)], lists[b := [c] + lists[b]])
      && LinksOnly(mem, PushMem(mem, heads[b], c), lists[b := [c] + lists[b]])
  {
    var b := Bucket(mem[c].tag.size);
    assert !Listed(lists, c);
    PushThreaded(mem, heads, lists, c);
    var mem' := PushMem(mem, heads[b], c);
    PushExact(mem, mem', starts, lists, c, b);
    assert CoalescedBut(mem, starts, {});
    SameTagsShape(mem, mem', id, blocks, starts, heads[b := To(c)], lists[b := [c] + lists[b]], {}, {});
  }

  /** A chunk in use needs no exception. */
  lemma DropUsed(mem: Mem, id: nat, blocks: set<nat>, starts: set<Addr>, heads: seq<Ptr>, lists: seq<seq<Addr>>,
                 but: set<Addr>, c: Addr)
    requires ShapeBut(mem, id, blocks, starts, heads, lists, but) && c in but && mem[c].tag.used
    ensures ShapeBut(mem, id, blocks, starts, heads, lists, but - {c})
  {
  }

  /** Splitting chunk `a`; the upper part is new in `but`. */
  lemma SplitStep(mem: Mem, mem': Mem, id: nat, blocks: set<nat>, starts: set<Addr>, heads: seq<Ptr>,
                  lists: seq<seq<Addr>>, but: set<Addr>, a: Addr, n: nat)
    requires ShapeBut(mem, id, blocks, starts, heads, lists, but)
    requires TagsOnly(mem, mem') && a in starts && SplitTags(mem, mem', id, starts, a, n)
    requires a in but || (Bucket(n) == Bucket(mem[a].tag.size) && mem'[a].tag.used == mem[a].tag.used)
    ensures Plus(a, n) !in starts
    ensures ShapeBut(mem', id, blocks, starts + {Plus(a, n)}, heads, lists, but + {Plus(a, n)})
  {
    var m := Plus(a, n);
    SplitTiled(mem, mem', id, blocks, starts, a, n);
    SplitExact(mem, mem', id, starts, heads, lists, but, a, n);
    ThreadedByLinks(mem, mem', heads, lists);
    var S, B := starts + {m}, but + {m};
    forall x | Free(mem', S, x) && !mem'[x].tag.last && x !in B
      ensures var y := Plus(x, mem'[x].tag.size); y in B || (y in mem' && mem'[y].tag.used)
    {
      if x != a {
        assert Free(mem, starts, x);
        assert Chunk(mem, id, blocks, starts, x);
      }
    }
  }

  lemma SplitExact(mem: Mem, mem': Mem, id: nat, starts: set<Addr>, heads: seq<Ptr>, lists: seq<seq<Addr>>,
                   but: set<Addr>, a: Addr, n: nat)
    requires Threaded(mem, heads, lists) && Exact(mem, starts, lists, but) && but <= starts
    requires TagsOnly(mem, mem') && a in starts && SplitTags(mem, mem', id, starts, a, n) && Plus(a, n) !in starts
    requires a in but || (Bucket(n) == Bucket(mem[a].tag.size) && mem'[a].tag.used == mem[a].tag.used)
    ensures Exact(mem', starts + {Plus(a, n)}, lists, but + {Plus(a, n)})
    ensures forall b, x :: 0 <= b < TOTAL_BUCKETS && x in lists[b] ==>
      mem'[x].prev == mem[x].prev && mem'[x].next == mem[x].next
      && Bucket(mem'[x].tag.size) == Bucket(mem[x].tag.size)
  {
    forall x | x in starts && x != a
      ensures mem'[x].tag.used == mem[x].tag.used && mem'[x].tag.size == mem[x].tag.size {
    }
    forall b, x | 0 <= b < TOTAL_BUCKETS && x in lists[b]
      ensures mem'[x].prev == mem[x].prev && mem'[x].next == mem[x].next
      ensures Bucket(mem'[x].tag.size) == Bucket(mem[x].tag.size)
    {
      assert Listed(lists, x);
    }
  }

  /** Merging chunk `b` into its predecessor `a`, both off the lists. */
  lemma MergeStep(mem: Mem, mem': Mem, id: nat, blocks: set<nat>, starts: set<Addr>, heads: seq<Ptr>,
                  lists: seq<seq<Addr>>, but: set<Addr>, a: Addr, b: Addr)
    requires ShapeBut(mem, id, blocks, starts, heads, lists, but)
    requires TagsOnly(mem, mem') && MergeTags(mem, mem', starts, a, b) && !mem[a].tag.last
    requires a in but && b in but
    ensures ShapeBut(mem', id, blocks, starts - {b}, heads, lists, but - {b})
  {
    MergeTiled(mem, mem', id, blocks, starts, a, b);
    assert forall x :: x in starts && x != a && x != b ==>
        mem'[x].tag.used == mem[x].tag.used && mem'[x].tag.size == mem[x].tag.size;
    forall d, x | 0 <= d < TOTAL_BUCKETS && x in lists[d]
      ensures mem'[x].prev == mem[x].prev && mem'[x].next == mem[x].next
      ensures Bucket(mem'[x].tag.size) == Bucket(mem[x].tag.size)
    {
      assert Listed(lists, x);
    }
    ThreadedByLinks(mem, mem', heads, lists);
    var S, B := starts - {b}, but - {b};
    forall x | Free(mem', S, x) && !mem'[x].tag.last && x !in B
      ensures var y := Plus(x, mem'[x].tag.size); y in B || (y in mem' && mem'[y].tag.used)
    {
      assert Free(mem, starts, x);
      assert Chunk(mem, id, blocks, starts, x);
      assert Chunk(mem, id, blocks, starts, a);
      assert Plus(x, mem[x].tag.size) != b;
    }
  }

  /** Flipping the used bit of chunk `c`, which leaves or enters `but`. */
  lemma ReleaseStep(mem: Mem, mem': Mem, id: nat, blocks: set<nat>, starts: set<Addr>, heads: seq<Ptr>,
                    lists: seq<seq<Addr>>, c: Addr)
    requires Shape(mem, id, blocks, starts, heads, lists)
    requires c in starts && mem[c].tag.used
    requires mem' == mem[c := mem[c].(tag := mem[c].tag.(used := false))]
    ensures ShapeBut(mem', id, blocks, starts, heads, lists, {c})
  {
    forall x | x in starts ensures x in mem' && Chunk(mem', id, blocks, starts, x) {
      assert Chunk(mem, id, blocks, starts, x);
    }
    forall d, x | 0 <= d < TOTAL_BUCKETS && x in lists[d]
      ensures mem'[x].prev == mem[x].prev && mem'[x].next == mem[x].next
      ensures Bucket(mem'[x].tag.size) == Bucket(mem[x].tag.size)
    {
      assert Listed(lists, x);
    }
    ThreadedByLinks(mem, mem', heads, lists);
  }
}
