/**
 The store sequences of `realloc` as functions on memory, and what they keep.
 */
module ReallocSteps {
  import opened HeapLayout
  import opened BucketLists
  import opened FreeListShape
  import opened AllocSteps
  import opened FreeSteps

  // ---------------------------------------------------------------- growing in place

  /** Split: the header of the free chunk `n` is copied `inc` lines up and corrected there. */
  function SplitUpMem(mem: Mem, n: Addr, inc: nat): (r: Mem)
    requires n in mem && 0 < inc < mem[n].tag.size && Plus(n, inc) in mem
    requires !mem[n].tag.last ==> Plus(n, mem[n].tag.size) in mem
  {
    var t, r, e := mem[n].tag, Plus(n, inc), Plus(n, mem[n].tag.size);
    var m1 := WithTag(mem, r, t.(size := t.size - inc));
    if t.last then m1 else WithTag(m1, e, m1[e].tag.(prevOffset := r.off))
  }

  /** No split: the chunk after `n` and the chunk `c` before it take over its place. */
  function AbsorbMem(mem: Mem, c: Addr, n: Addr): (r: Mem)
    requires c in mem && n in mem
    requires !mem[n].tag.last ==> Plus(n, mem[n].tag.size) in mem
  {
    var t, e := mem[n].tag, Plus(n, mem[n].tag.size);
    var m1 := if t.last then mem else WithTag(mem, e, mem[e].tag.(prevOffset := t.prevOffset));
    WithTag(m1, c, m1[c].tag.(last := t.last))
  }

  function Resized(mem: Mem, c: Addr, size: nat): (r: Mem)
    requires c in mem
  {
    WithTag(mem, c, mem[c].tag.(size := size))
  }

  /** A chunk in use may be excepted. */
  lemma AddUsed(mem: Mem, id: nat, blocks: set<nat>, starts: set<Addr>, heads: seq<Ptr>, lists: seq<seq<Addr>>,
                but: set<Addr>, c: Addr)
    requires ShapeBut(mem, id, blocks, starts, heads, lists, but) && c in starts && mem[c].tag.used
    ensures ShapeBut(mem, id, blocks, starts, heads, lists, but + {c})
  {
  }

  /** The chunks as they would be with `n` wholly merged into `c`. */
  function MergedMem(mem: Mem, c: Addr, n: Addr): (r: Mem)
    requires c in mem && n in mem
    requires !mem[n].tag.last ==> Plus(n, mem[n].tag.size) in mem
  {
    var t, e := mem[n].tag, Plus(n, mem[n].tag.size);
    var m1 := if t.last then mem else WithTag(mem, e, mem[e].tag.(prevOffset := c.off));
    WithTag(m1, c, m1[c].tag.(size := m1[c].tag.size + t.size, last := t.last))
  }

  /** `n` is the free chunk after the used chunk `c`, off the lists. */
  ghost predicate Growable(mem: Mem, id: nat, blocks: set<nat>, starts: set<Addr>, heads: seq<Ptr>,
                           lists: seq<seq<Addr>>, c: Addr, n: Addr)
  {
    && ShapeBut(mem, id, blocks, starts, heads, lists, {n}) && Isolated(mem, starts, n)
    && c in starts && mem[c].tag.used && !mem[c].tag.last && n == Plus(c, mem[c].tag.size)
  }

  lemma GrowLines(mem: Mem, id: nat, blocks: set<nat>, starts: set<Addr>, heads: seq<Ptr>, lists: seq<seq<Addr>>,
                  c: Addr, n: Addr)
    requires Growable(mem, id, blocks, starts, heads, lists, c, n)
    ensures c in mem && n in mem && n in starts && mem[n].tag.prevOffset == c.off && 0 < mem[n].tag.size
    ensures n.off + mem[n].tag.size <= LINES_PER_BLOCK
    ensures forall i: nat :: i < mem[n].tag.size ==> Plus(n, i) in mem
    ensures !mem[n].tag.last ==> Plus(n, mem[n].tag.size) in starts && Plus(n, mem[n].tag.size) in mem
    ensures c.blk == n.blk && c.off < n.off
  {
    assert Chunk(mem, id, blocks, starts, c);
    assert Chunk(mem, id, blocks, starts, n);
  }

  lemma MergedTags(mem: Mem, id: nat, blocks: set<nat>, starts: set<Addr>, heads: seq<Ptr>, lists: seq<seq<Addr>>,
                   c: Addr, n: Addr, v: Mem)
    requires Growable(mem, id, blocks, starts, heads, lists, c, n)
    requires c in mem && n in mem && (!mem[n].tag.last ==> Plus(n, mem[n].tag.size) in mem) && v == MergedMem(mem, c, n)
    ensures TagsOnly(mem, v) && MergeTags(mem, v, starts, c, n) && v[c].tag.used
  {
    GrowLines(mem, id, blocks, starts, heads, lists, c, n);
  }

  lemma MergedShape(mem: Mem, id: nat, blocks: set<nat>, starts: set<Addr>, heads: seq<Ptr>, lists: seq<seq<Addr>>,
                    c: Addr, n: Addr, v: Mem)
    requires Growable(mem, id, blocks, starts, heads, lists, c, n)
    requires c in mem && n in mem && (!mem[n].tag.last ==> Plus(n, mem[n].tag.size) in mem) && v == MergedMem(mem, c, n)
    ensures ShapeBut(v, id, blocks, starts - {n}, heads, lists, {c})
  {
    MergedTags(mem, id, blocks, starts, heads, lists, c, n, v);
    AddUsed(mem, id, blocks, starts, heads, lists, {n}, c);
    GrowLines(mem, id, blocks, starts, heads, lists, c, n);
    MergeStep(mem, v, id, blocks, starts, heads, lists, {n} + {c}, c, n);
    assert {n} + {c} - {n} == {c};
  }

  /** Chunk `c` now has `size` lines; no other chunk in use has changed. */
  ghost predicate Resize(m0: Mem, m: Mem, starts: set<Addr>, S: set<Addr>, c: Addr, size: nat) {
    && c in S && c in m && m[c].tag.used && m[c].tag.size == size
    && c in starts && c in m0 && m0[c].tag.used && m0[c].tag.size < size
    && (forall x :: x in starts && x in m0 && m0[x].tag.used && x != c ==>
        x in S && x in m && m[x].tag.used && m[x].tag.size == m0[x].tag.size)
    && (forall x :: x in S && x in m && m[x].tag.used ==> x in starts && x in m0 && m0[x].tag.used)
  }

  /** What growing in place achieves. */
  ghost predicate Extended(m0: Mem, m: Mem, id: nat, blocks: set<nat>, starts: set<Addr>, S: set<Addr>,
                           heads: seq<Ptr>, lists: seq<seq<Addr>>, c: Addr, size: nat)
  {
    Shape(m, id, blocks, S, heads, lists) && Resize(m0, m, starts, S, c, size) && Kept(m0, m, starts, S)
  }

  /** The whole of `n` is absorbed. */
  lemma AbsorbOutcome(m0: Mem, m1: Mem, m: Mem, id: nat, blocks: set<nat>, starts: set<Addr>, lists0: seq<seq<Addr>>,
                      heads: seq<Ptr>, lists: seq<seq<Addr>>, c: Addr, n: Addr, size: nat)
    requires forall a :: Listed(lists0, a) ==> Free(m0, starts, a)
    requires LinksOnly(m0, m1, lists0) && Growable(m1, id, blocks, starts, heads, lists, c, n)
    requires c in m1 && n in m1 && (!m1[n].tag.last ==> Plus(n, m1[n].tag.size) in m1)
    requires size == m1[c].tag.size + m1[n].tag.size && m == Resized(AbsorbMem(m1, c, n), c, size)
    ensures Extended(m0, m, id, blocks, starts, starts - {n}, heads, lists, c, size)
  {
    GrowLines(m1, id, blocks, starts, heads, lists, c, n);
    AbsorbIsMerged(m1, m, c, n, size);
    MergedTags(m1, id, blocks, starts, heads, lists, c, n, m);
    MergedShape(m1, id, blocks, starts, heads, lists, c, n, m);
    DropUsed(m, id, blocks, starts - {n}, heads, lists, {c}, c);
    assert {c} - {c} == {};
    AbsorbKept(m0, m1, m, starts, lists0, c, n);
    AbsorbResize(m0, m1, m, starts, c, n, size);
  }

  lemma AbsorbIsMerged(m1: Mem, m: Mem, c: Addr, n: Addr, size: nat)
    requires c in m1 && n in m1 && c != n && c != Plus(n, m1[n].tag.size)
    requires (!m1[n].tag.last ==> Plus(n, m1[n].tag.size) in m1) && m1[n].tag.prevOffset == c.off
    requires size == m1[c].tag.size + m1[n].tag.size && m == Resized(AbsorbMem(m1, c, n), c, size)
    ensures m == MergedMem(m1, c, n)
  {
  }

  lemma AbsorbKept(m0: Mem, m1: Mem, m: Mem, starts: set<Addr>, lists0: seq<seq<Addr>>, c: Addr, n: Addr)
    requires forall a :: Listed(lists0, a) ==> Free(m0, starts, a)
    requires LinksOnly(m0, m1, lists0) && c in starts && n in starts && c in m1 && n in m1 && c != n
    requires !m1[n].tag.last ==> Plus(n, m1[n].tag.size) in m1 && Plus(n, m1[n].tag.size) in starts
    requires m == MergedMem(m1, c, n)
    ensures Kept(m0, m, starts, starts - {n})
  {
    KeptByLinks(m0, m1, starts, lists0);
    KeptByTags(m1, m, starts, starts);
    KeptTwice(m0, m1, m, starts, starts, starts);
  }

  lemma AbsorbResize(m0: Mem, m1: Mem, m: Mem, starts: set<Addr>, c: Addr, n: Addr, size: nat)
    requires m1.Keys == m0.Keys && forall a :: a in m0 ==> m1[a].tag == m0[a].tag
    requires c in m1 && n in m1 && c in starts && m1[c].tag.used && !m1[n].tag.used && 0 < m1[n].tag.size
    requires c != n && c != Plus(n, m1[n].tag.size)
    requires (!m1[n].tag.last ==> Plus(n, m1[n].tag.size) in m1) && size == m1[c].tag.size + m1[n].tag.size
    requires m == MergedMem(m1, c, n)
    ensures Resize(m0, m, starts, starts - {n}, c, size)
  {
    assert forall x :: x in m1 && x != c ==> m[x].tag.used == m1[x].tag.used && m[x].tag.size == m1[x].tag.size;
  }

  /** The header at `x` once `n` is split at `r` and `c` has `size` lines. */
  function SplitUpTag(m1: Mem, c: Addr, n: Addr, r: Addr, size: nat, x: Addr): Tag
    requires x in m1 && n in m1
  {
    var t := m1[n].tag;
    if x == c then m1[x].tag.(size := size)
    else if !t.last && x == Plus(n, t.size) then m1[x].tag.(prevOffset := r.off)
    else if x == r
        then Tag(t.prevOffset, t.listId, t.last, t.used, t.jumbo,
                 if n.off + t.size >= r.off then n.off + t.size - r.off else 0)
    else m1[x].tag
  }

  lemma SplitUpAt(m1: Mem, c: Addr, n: Addr, r: Addr, g: Mem, size: nat)
    requires c in m1 && n in m1 && c != n && c.blk == n.blk && c.off < n.off && n == Plus(c, m1[c].tag.size)
    requires m1[c].tag.size < size < m1[c].tag.size + m1[n].tag.size
    requires (!m1[n].tag.last ==> Plus(n, m1[n].tag.size) in m1) && r in m1 && r == Plus(n, size - m1[c].tag.size)
    requires g == Resized(SplitUpMem(m1, n, size - m1[c].tag.size), c, size)
    ensures g.Keys == m1.Keys && forall x :: x in m1 ==> g[x] == m1[x].(tag := SplitUpTag(m1, c, n, r, size, x))
  {
  }

  lemma MergedAt(m1: Mem, c: Addr, n: Addr, v: Mem)
    requires c in m1 && n in m1 && c != n && c != Plus(n, m1[n].tag.size)
    requires (!m1[n].tag.last ==> Plus(n, m1[n].tag.size) in m1) && v == MergedMem(m1, c, n)
    ensures v.Keys == m1.Keys && forall x :: x in m1 ==> v[x] == m1[x].(tag :=
      if x == c then m1[x].tag.(size := m1[c].tag.size + m1[n].tag.size, last := m1[n].tag.last)
      else if !m1[n].tag.last && x == Plus(n, m1[n].tag.size) then m1[x].tag.(prevOffset := c.off)
      else m1[x].tag)
  {
  }

  lemma SplitUpTags(m1: Mem, id: nat, blocks: set<nat>, starts: set<Addr>, heads: seq<Ptr>, lists: seq<seq<Addr>>,
                    c: Addr, n: Addr, v: Mem, g: Mem, size: nat)
    requires Growable(m1, id, blocks, starts, heads, lists, c, n)
    requires c in m1 && n in m1 && m1[c].tag.size < size < m1[c].tag.size + m1[n].tag.size
    requires (!m1[n].tag.last ==> Plus(n, m1[n].tag.size) in m1) && Plus(n, size - m1[c].tag.size) in m1
    requires v == MergedMem(m1, c, n)
    requires g == Resized(SplitUpMem(m1, n, size - m1[c].tag.size), c, size)
    requires Tiled(v, id, blocks, starts - {n})
    ensures TagsOnly(v, g) && SplitTags(v, g, id, starts - {n}, c, size)
    ensures Plus(c, size) == Plus(n, size - m1[c].tag.size)
    ensures g[c].tag.used && TagsAt(m1, g, starts + {Plus(c, size)})
  {
    GrowLines(m1, id, blocks, starts, heads, lists, c, n);
    var r := Plus(c, size);
    if r in starts - {n} { ChunksDisjoint(v, id, blocks, starts - {n}, c, r); }
    assert Chunk(m1, id, blocks, starts, n);
    SplitUpAt(m1, c, n, r, g, size);
    MergedAt(m1, c, n, v);
    SplitUpByTag(m1, id, starts, c, n, r, v, g, size);
  }

  lemma SplitUpByTag(m1: Mem, id: nat, starts: set<Addr>, c: Addr, n: Addr, r: Addr, v: Mem, g: Mem, size: nat)
    requires c in m1 && n in m1 && r in m1 && starts <= m1.Keys && c in starts && n in starts
    requires c.blk == n.blk && c.off < n.off && n == Plus(c, m1[c].tag.size)
    requires m1[n].tag.prevOffset == c.off && m1[n].tag.listId == id
    requires m1[c].tag.size < size < m1[c].tag.size + m1[n].tag.size && r == Plus(c, size) && r !in starts - {n}
    requires !m1[n].tag.last ==> Plus(n, m1[n].tag.size) in starts
    requires g.Keys == m1.Keys && forall x :: x in m1 ==> g[x] == m1[x].(tag := SplitUpTag(m1, c, n, r, size, x))
    requires v.Keys == m1.Keys && forall x :: x in m1 ==> v[x] == m1[x].(tag :=
      if x == c then m1[x].tag.(size := m1[c].tag.size + m1[n].tag.size, last := m1[n].tag.last)
      else if !m1[n].tag.last && x == Plus(n, m1[n].tag.size) then m1[x].tag.(prevOffset := c.off)
      else m1[x].tag)
    requires m1[c].tag.used && !m1[c].tag.last
    ensures TagsOnly(v, g) && SplitTags(v, g, id, starts - {n}, c, size)
    ensures g[c].tag.used && TagsAt(m1, g, starts + {r})
  {
  }

  /** The rest of `n` is free with both neighbours in use. */
  lemma SplitUpIsolated(m1: Mem, id: nat, blocks: set<nat>, starts: set<Addr>, heads: seq<Ptr>, lists: seq<seq<Addr>>,
                        c: Addr, n: Addr, v: Mem, g: Mem, size: nat, r: Addr)
    requires Growable(m1, id, blocks, starts, heads, lists, c, n)
    requires c in m1 && n in m1 && m1[c].tag.size < size < m1[c].tag.size + m1[n].tag.size
    requires (!m1[n].tag.last ==> Plus(n, m1[n].tag.size) in m1) && r in m1 && r == Plus(n, size - m1[c].tag.size)
    requires g == Resized(SplitUpMem(m1, n, size - m1[c].tag.size), c, size)
    requires Tiled(g, id, blocks, starts - {n} + {r}) && r !in starts - {n}
    ensures Isolated(g, starts - {n} + {r}, r)
  {
    GrowLines(m1, id, blocks, starts, heads, lists, c, n);
    var S := starts - {n} + {r};
    assert Chunk(g, id, blocks, S, r);
    assert Addr(r.blk, g[r].tag.prevOffset) == c && g[c].tag.used;
    PrevUsed(g, id, blocks, S, r);
    if !g[r].tag.last {
      var e := Plus(n, m1[n].tag.size);
      assert e == Plus(r, g[r].tag.size) && g[e].tag.used == m1[e].tag.used;
    }
  }

  /** `n` is split, its rest is listed again and `c` grows. */
  lemma SplitUpShape(m1: Mem, id: nat, blocks: set<nat>, starts: set<Addr>, heads: seq<Ptr>, lists: seq<seq<Addr>>,
                     c: Addr, n: Addr, g: Mem, size: nat, r: Addr)
    requires Growable(m1, id, blocks, starts, heads, lists, c, n)
    requires c in m1 && n in m1 && m1[c].tag.size < size < m1[c].tag.size + m1[n].tag.size
    requires (!m1[n].tag.last ==> Plus(n, m1[n].tag.size) in m1) && r in m1 && r == Plus(n, size - m1[c].tag.size)
    requires g == Resized(SplitUpMem(m1, n, size - m1[c].tag.size), c, size)
    ensures ShapeBut(g, id, blocks, starts - {n} + {r}, heads, lists, {r}) && Isolated(g, starts - {n} + {r}, r)
    ensures TagsAt(m1, g, starts + {r}) && r !in starts - {n}
  {
    var v := MergedMem(m1, c, n);
    MergedShape(m1, id, blocks, starts, heads, lists, c, n, v);
    SplitUpTags(m1, id, blocks, starts, heads, lists, c, n, v, g, size);
    GrowLines(m1, id, blocks, starts, heads, lists, c, n);
    SplitStep(v, g, id, blocks, starts - {n}, heads, lists, {c}, c, size);
    DropUsed(g, id, blocks, starts - {n} + {r}, heads, lists, {c} + {r}, c);
    assert {c} + {r} - {c} == {r};
    SplitUpIsolated(m1, id, blocks, starts, heads, lists, c, n, v, g, size, r);
  }

  /** The tag of a chunk outside the list can be stored before or after a push. */
  lemma PushThenResize(mem: Mem, head: Ptr, r: Addr, c: Addr, size: nat)
    requires r in mem && c in mem && c != r && (head.To? ==> head.addr in mem && head.addr != c)
    ensures c in PushMem(mem, head, r)
    ensures Resized(PushMem(mem, head, r), c, size) == PushMem(Resized(mem, c, size), head, r)
  {
  }

  lemma SplitUpOutcome(m0: Mem, m1: Mem, g: Mem, m: Mem, id: nat, blocks: set<nat>, starts: set<Addr>,
                       lists0: seq<seq<Addr>>, heads: seq<Ptr>, lists: seq<seq<Addr>>, c: Addr, n: Addr, size: nat,
                       r: Addr, b: nat)
    requires forall a :: Listed(lists0, a) ==> Free(m0, starts, a)
    requires LinksOnly(m0, m1, lists0) && Growable(m1, id, blocks, starts, heads, lists, c, n)
    requires c in m1 && n in m1 && m1[c].tag.size < size < m1[c].tag.size + m1[n].tag.size
    requires (!m1[n].tag.last ==> Plus(n, m1[n].tag.size) in m1) && r in m1 && r == Plus(n, size - m1[c].tag.size)
    requires g == Resized(SplitUpMem(m1, n, size - m1[c].tag.size), c, size)
    requires r in g && b == Bucket(g[r].tag.size) && (heads[b].To? ==> heads[b].addr in g)
    requires m == PushMem(g, heads[b], r)
    ensures Extended(m0, m, id, blocks, starts, starts - {n} + {r}, heads[b := To(r)], lists[b := [r] + lists[b]], c,
                     size)
  {
    var S := starts - {n} + {r};
    SplitUpShape(m1, id, blocks, starts, heads, lists, c, n, g, size, r);
    PushStep(g, id, blocks, S, heads, lists, r);
    GrowLines(m1, id, blocks, starts, heads, lists, c, n);
    var lists' := lists[b := [r] + lists[b]];
    SplitUpResize(m0, m1, g, m, starts, c, n, r, size);
    SplitUpKept(m0, m1, g, m, starts, S, lists0, lists', n, r);
  }

  lemma SplitUpResize(m0: Mem, m1: Mem, g: Mem, m: Mem, starts: set<Addr>, c: Addr, n: Addr, r: Addr, size: nat)
    requires m1.Keys == m0.Keys && forall a :: a in m0 ==> m1[a].tag == m0[a].tag
    requires m.Keys == g.Keys && forall a :: a in g ==> m[a].tag == g[a].tag
    requires c in m1 && n in m1 && c in starts && m1[c].tag.used && !m1[n].tag.used && c != n && r !in starts - {n}
    requires r != c && r != n
    requires m1[c].tag.size < size && 0 < size - m1[c].tag.size < m1[n].tag.size && r in m1
    requires r == Plus(n, size - m1[c].tag.size)
    requires (!m1[n].tag.last ==> Plus(n, m1[n].tag.size) in m1)
    requires g == Resized(SplitUpMem(m1, n, size - m1[c].tag.size), c, size)
    ensures Resize(m0, m, starts, starts - {n} + {r}, c, size)
  {
    assert forall x :: x in m1 && x != r && x != c ==>
        g[x].tag.used == m1[x].tag.used && g[x].tag.size == m1[x].tag.size;
  }

  lemma SplitUpKept(m0: Mem, m1: Mem, g: Mem, m: Mem, starts: set<Addr>, S: set<Addr>, lists0: seq<seq<Addr>>,
                    lists': seq<seq<Addr>>, n: Addr, r: Addr)
    requires forall a :: Listed(lists0, a) ==> Free(m0, starts, a)
    requires LinksOnly(m0, m1, lists0) && TagsAt(m1, g, starts + {r}) && LinksOnly(g, m, lists')
    requires S == starts - {n} + {r} && n in starts && Free(m1, starts, n)
    requires forall a :: Listed(lists', a) ==> Free(m, S, a)
    requires forall x :: x in starts && x in m1 && m1[x].tag.used ==> g[x].tag.used
    ensures Kept(m0, m, starts, S)
  {
    KeptByLinks(m0, m1, starts, lists0);
    KeptByTags(m1, g, starts, starts + {r});
    KeptTwice(m0, m1, g, starts, starts, starts + {r});
    forall a | Listed(lists', a) ensures Free(g, starts + {r}, a) { }
    KeptByLinks(g, m, starts + {r}, lists');
    KeptTwice(m0, g, m, starts, starts + {r}, starts + {r});
  }

  /** In terms of chunks in use: `c` has grown and keeps its contents, and so do all others. */
  lemma ExtendedMeans(m0: Mem, m: Mem, id: nat, blocks: set<nat>, starts: set<Addr>, S: set<Addr>,
                      heads: seq<Ptr>, lists: seq<seq<Addr>>, c: Addr, size: nat)
    requires Tiled(m0, id, blocks, starts) && Extended(m0, m, id, blocks, starts, S, heads, lists, c, size)
    ensures c in Live(m0, starts) && Live(m, S) == Live(m0, starts)[c := size]
    ensures PayloadsKept(m0, m, Live(m0, starts))
  {
    ResizeLive(m0, m, starts, S, c, size);
    var live := Live(m0, starts);
    forall a | a in live ensures SamePayload(m0, m, a, live[a]) {
      PayloadKept(m0, id, blocks, starts, m, blocks, S, a);
    }
  }

  lemma ResizeLive(m0: Mem, m: Mem, starts: set<Addr>, S: set<Addr>, c: Addr, size: nat)
    requires Resize(m0, m, starts, S, c, size)
    ensures c in Live(m0, starts) && Live(m, S) == Live(m0, starts)[c := size]
  {
  }

  // ---------------------------------------------------------------- moving

  /** `x` lies among the `n` lines from `a` on, after the first. */
  predicate Inside(a: Addr, n: nat, x: Addr) {
    x.blk == a.blk && a.off < x.off < a.off + n
  }

  /** Copies the payload of `n` lines from `src` to `dst`; the header word stays. */
  function CopyMem(mem: Mem, src: Addr, dst: Addr, n: nat): (r: Mem)
    requires src in mem && dst in mem && forall i :: 0 < i < n ==> Plus(src, i) in mem
  {
    map x | x in mem ::
      if x == dst then mem[src].(tag := mem[dst].tag)
      else if Inside(dst, n, x) then mem[Plus(src, x.off - dst.off)]
      else mem[x]
  }

  /** Stores into the payload of a chunk in use keep the shape. */
  lemma PayloadShape(mem: Mem, mem': Mem, id: nat, blocks: set<nat>, starts: set<Addr>, heads: seq<Ptr>,
                     lists: seq<seq<Addr>>)
    requires Shape(mem, id, blocks, starts, heads, lists) && mem'.Keys == mem.Keys
    requires forall a :: a in starts ==> mem'[a].tag == mem[a].tag
    requires forall a :: Free(mem, starts, a) ==> mem'[a] == mem[a]
    ensures Shape(mem', id, blocks, starts, heads, lists)
  {
    TiledByTags(mem, mem', id, blocks, starts);
    forall b, x | 0 <= b < TOTAL_BUCKETS && x in lists[b]
      ensures x in mem && mem'[x].prev == mem[x].prev && mem'[x].next == mem[x].next
      ensures Bucket(mem'[x].tag.size) == Bucket(mem[x].tag.size)
    {
      assert Listed(lists, x);
    }
    ThreadedByLinks(mem, mem', heads, lists);
    forall a | Free(mem', starts, a) && !mem'[a].tag.last
      ensures var n := Plus(a, mem'[a].tag.size); n in mem' && mem'[n].tag.used
    {
      assert Chunk(mem, id, blocks, starts, a);
      assert Free(mem, starts, a);
    }
  }

  /** The `n` lines at `c` before are the `n` lines at `x` after, but for the header word. */
  ghost predicate Moved(m0: Mem, c: Addr, m: Mem, x: Addr, n: nat) {
    && c in m0 && x in m && m[x] == m0[c].(tag := m[x].tag)
    && forall i :: 0 < i < n ==> Plus(c, i) in m0 && Plus(x, i) in m && m[Plus(x, i)] == m0[Plus(c, i)]
  }

  /** Copying into a chunk in use that is large enough. */
  lemma CopyOutcome(m1: Mem, m2: Mem, id: nat, blocks: set<nat>, starts: set<Addr>, heads: seq<Ptr>,
                    lists: seq<seq<Addr>>, c: Addr, x: Addr, n: nat)
    requires Shape(m1, id, blocks, starts, heads, lists) && c in starts && x in starts && c != x
    requires m1[c].tag.used && m1[x].tag.used && n == m1[c].tag.size <= m1[x].tag.size
    requires (forall i :: 0 < i < n ==> Plus(c, i) in m1) && m2 == CopyMem(m1, c, x, n)
    ensures Shape(m2, id, blocks, starts, heads, lists) && Live(m2, starts) == Live(m1, starts)
    ensures Moved(m1, c, m2, x, n)
    ensures PayloadsKept(m1, m2, Live(m1, starts) - {x})
  {
    forall a | a in starts ensures m2[a].tag == m1[a].tag && (a != x ==> m2[a] == m1[a]) {
      CopyApart(m1, id, blocks, starts, x, n, a, 0);
    }
    PayloadShape(m1, m2, id, blocks, starts, heads, lists);
    CopyMoves(m1, m2, id, blocks, starts, c, x, n);
    CopyKeeps(m1, m2, id, blocks, starts, c, x, n);
  }

  lemma CopyMoves(m1: Mem, m2: Mem, id: nat, blocks: set<nat>, starts: set<Addr>, c: Addr, x: Addr, n: nat)
    requires Tiled(m1, id, blocks, starts) && c in starts && x in starts && c != x
    requires n == m1[c].tag.size <= m1[x].tag.size
    requires (forall i :: 0 < i < n ==> Plus(c, i) in m1) && m2 == CopyMem(m1, c, x, n)
    ensures Moved(m1, c, m2, x, n)
  {
    assert Chunk(m1, id, blocks, starts, x);
    forall i | 0 < i < n ensures Plus(x, i) in m2 && m2[Plus(x, i)] == m1[Plus(c, i)] {
      assert Inside(x, n, Plus(x, i));
    }
  }

  lemma CopyKeeps(m1: Mem, m2: Mem, id: nat, blocks: set<nat>, starts: set<Addr>, c: Addr, x: Addr, n: nat)
    requires Tiled(m1, id, blocks, starts) && c in starts && x in starts && n <= m1[x].tag.size
    requires (forall i :: 0 < i < n ==> Plus(c, i) in m1) && m2 == CopyMem(m1, c, x, n)
    ensures PayloadsKept(m1, m2, Live(m1, starts) - {x})
  {
    var live := Live(m1, starts) - {x};
    forall a | a in live ensures SamePayload(m1, m2, a, live[a]) {
      assert Chunk(m1, id, blocks, starts, a);
      CopyApart(m1, id, blocks, starts, x, n, a, 0);
      forall i | 0 < i < live[a] ensures Plus(a, i) in m1 && Plus(a, i) in m2 && m2[Plus(a, i)] == m1[Plus(a, i)] {
        CopyApart(m1, id, blocks, starts, x, n, a, i);
      }
    }
  }

  /** No line of another chunk is among the first `n` lines of `x`. */
  lemma CopyApart(mem: Mem, id: nat, blocks: set<nat>, starts: set<Addr>, x: Addr, n: nat, a: Addr, i: nat)
    requires Tiled(mem, id, blocks, starts) && x in starts && a in starts && n <= mem[x].tag.size
    requires i == 0 || (a != x && i < mem[a].tag.size)
    ensures !Inside(x, n, Plus(a, i)) && (a != x ==> Plus(a, i) != x)
  {
    assert Chunk(mem, id, blocks, starts, a);
    if a.blk == x.blk && a.off < x.off { ChunksDisjoint(mem, id, blocks, starts, a, x); }
    if a.blk == x.blk && x.off < a.off { ChunksDisjoint(mem, id, blocks, starts, x, a); }
  }

  /** The chunks in use after a `realloc` that grows: `x` in place of `c`, with the old contents,
      and all others as they were. */
  ghost predicate Regrown(m0: Mem, m: Mem, live0: map<Addr, nat>, live: map<Addr, nat>, c: Addr, x: Addr, size: nat) {
    && c in live0 && live == (live0 - {c})[x := size] && (x == c || x !in live0)
    && Moved(m0, c, m, x, live0[c])
    && PayloadsKept(m0, m, live0 - {c})
  }

  lemma MoveOutcome(m0: Mem, m1: Mem, m: Mem, live0: map<Addr, nat>, live1: map<Addr, nat>, c: Addr, x: Addr, size: nat)
    requires CopiedTo(m0, m1, live0, live1, c, x, size) && PayloadsKept(m1, m, live1 - {c})
    ensures Regrown(m0, m, live0, live1 - {c}, c, x, size)
  {
    assert live1 - {c} == (live0 - {c})[x := size];
    assert SamePayload(m1, m, x, (live1 - {c})[x]);
    forall a | a in live0 - {c} ensures SamePayload(m0, m, a, (live0 - {c})[a]) {
      assert SamePayload(m0, m1, a, live0[a]);
      assert SamePayload(m1, m, a, (live1 - {c})[a]);
    }
  }

  lemma StayOutcome(m0: Mem, m: Mem, live0: map<Addr, nat>, c: Addr, size: nat)
    requires c in live0 && PayloadsKept(m0, m, live0)
    ensures Regrown(m0, m, live0, live0[c := size], c, c, size)
  {
    assert (live0 - {c})[c := size] == live0[c := size];
    assert SamePayload(m0, m, c, live0[c]);
  }

  /** A new chunk `x` holds a copy of the payload of `c`. */
  ghost predicate CopiedTo(m0: Mem, m: Mem, live0: map<Addr, nat>, live: map<Addr, nat>, c: Addr, x: Addr, size: nat) {
    && c in live0 && x !in live0 && live == live0[x := size] && live0[c] <= size
    && Moved(m0, c, m, x, live0[c]) && PayloadsKept(m0, m, live0)
  }

  lemma CopiedOutcome(m0: Mem, m1: Mem, m2: Mem, live0: map<Addr, nat>, c: Addr, x: Addr, size: nat)
    requires c in live0 && x !in live0 && live0[c] <= size
    requires PayloadsKept(m0, m1, live0) && Moved(m1, c, m2, x, live0[c])
    requires PayloadsKept(m1, m2, live0[x := size] - {x})
    ensures CopiedTo(m0, m2, live0, live0[x := size], c, x, size)
  {
    assert live0[x := size] - {x} == live0;
    assert SamePayload(m0, m1, c, live0[c]);
    forall a | a in live0 ensures SamePayload(m0, m2, a, live0[a]) {
      assert SamePayload(m0, m1, a, live0[a]) && SamePayload(m1, m2, a, live0[a]);
    }
  }
}
