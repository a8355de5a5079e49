/**
 The store sequences of `findBestMatch` and `alloc` as functions on memory, and what they keep.
 */
module AllocSteps {
  import opened HeapLayout
  import opened BucketLists
  import opened FreeListShape

  function WithTag(mem: Mem, a: Addr, t: Tag): (r: Mem)
    requires a in mem
  {
    mem[a := mem[a].(tag := t)]
  }

  /** Header stores happen only at `touched`. */
  ghost predicate TagsAt(mem: Mem, mem': Mem, touched: set<Addr>) {
    TagsOnly(mem, mem') && forall a :: a in mem && a !in touched ==> mem'[a] == mem[a]
  }

  /** In a well-shaped list a free chunk has both neighbours in use. */
  lemma ListedIsolated(mem: Mem, id: nat, blocks: set<nat>, starts: set<Addr>, heads: seq<Ptr>, lists: seq<seq<Addr>>,
                       c: Addr)
    requires Shape(mem, id, blocks, starts, heads, lists) && Free(mem, starts, c)
    ensures Isolated(mem, starts, c)
  {
  }

  /** Only tags decide isolation. */
  lemma IsolatedByTags(mem: Mem, mem': Mem, starts: set<Addr>, c: Addr)
    requires Isolated(mem, starts, c)
    requires mem'.Keys == mem.Keys && forall a :: a in mem ==> mem'[a].tag == mem[a].tag
    ensures Isolated(mem', starts, c)
  {
    assert forall a :: Free(mem', starts, a) ==> Free(mem, starts, a);
  }

  // ---------------------------------------------------------------- tail of a free chunk

  /** Cut the end off free chunk `fc`, which keeps its place on its list. */
  function TailMem(mem: Mem, id: nat, fc: Addr, size: nat): (r: Mem)
    requires fc in mem && 0 < size < mem[fc].tag.size && Plus(fc, mem[fc].tag.size - size) in mem
    requires !mem[fc].tag.last ==> Plus(fc, mem[fc].tag.size) in mem
  {
    var t := mem[fc].tag;
    var c, n := Plus(fc, t.size - size), Plus(fc, t.size);
    var m1 := WithTag(mem, c, mem[c].tag.(prevOffset := fc.off, used := false));
    var m2 := if t.last then m1 else WithTag(m1, n, m1[n].tag.(prevOffset := c.off));
    var m3 := WithTag(m2, fc, t.(last := false, size := t.size - size));
    WithTag(m3, c, Tag(fc.off, id, c.off + size == LINES_PER_BLOCK, true, m3[c].tag.jumbo, size))
  }

  /** The tag of line `a` after the cut. */
  ghost function TailTag(mem: Mem, id: nat, fc: Addr, size: nat, a: Addr): Tag
    requires fc in mem && a in mem && size < mem[fc].tag.size
  {
    var t := mem[fc].tag;
    var c := Plus(fc, t.size - size);
    if a == c then Tag(fc.off, id, c.off + size == LINES_PER_BLOCK, true, mem[a].tag.jumbo, size)
    else if a == fc then t.(last := false, size := t.size - size)
    else if !t.last && a == Plus(fc, t.size) then mem[a].tag.(prevOffset := c.off)
    else mem[a].tag
  }

  lemma TailPointwise(mem: Mem, id: nat, fc: Addr, size: nat)
    requires fc in mem && 0 < size < mem[fc].tag.size && Plus(fc, mem[fc].tag.size - size) in mem
    requires !mem[fc].tag.last ==> Plus(fc, mem[fc].tag.size) in mem
    ensures
      var mem' := TailMem(mem, id, fc, size);
      mem'.Keys == mem.Keys && forall a :: a in mem ==> mem'[a] == mem[a].(tag := TailTag(mem, id, fc, size, a))
  {
  }

  lemma TailTags(mem: Mem, mem': Mem, id: nat, blocks: set<nat>, starts: set<Addr>, fc: Addr, size: nat)
    requires Tiled(mem, id, blocks, starts) && Free(mem, starts, fc) && 0 < size < mem[fc].tag.size
    requires mem'.Keys == mem.Keys && forall a :: a in mem ==> mem'[a] == mem[a].(tag := TailTag(mem, id, fc, size, a))
    requires Plus(fc, mem[fc].tag.size - size) !in starts
    ensures
      var c := Plus(fc, mem[fc].tag.size - size);
      && SplitTags(mem, mem', id, starts, fc, mem[fc].tag.size - size)
      && TagsAt(mem, mem', starts + {c})
      && Carved(mem, mem', starts, starts + {c}, c, size)
      && !mem'[fc].tag.used
  {
    assert Chunk(mem, id, blocks, starts, fc);
  }

  lemma TailLines(mem: Mem, id: nat, blocks: set<nat>, starts: set<Addr>, fc: Addr, n: nat)
    requires Tiled(mem, id, blocks, starts) && fc in starts && 0 < n < mem[fc].tag.size
    ensures Plus(fc, n) in mem && Plus(fc, n) !in starts
    ensures !mem[fc].tag.last ==> Plus(fc, mem[fc].tag.size) in mem
  {
    assert Chunk(mem, id, blocks, starts, fc);
    if Plus(fc, n) in starts { ChunksDisjoint(mem, id, blocks, starts, fc, Plus(fc, n)); }
  }

  lemma TailShape(mem: Mem, id: nat, blocks: set<nat>, starts: set<Addr>, heads: seq<Ptr>, lists: seq<seq<Addr>>,
                  fc: Addr, size: nat)
    requires Shape(mem, id, blocks, starts, heads, lists) && Free(mem, starts, fc)
    requires 0 < size < mem[fc].tag.size
    requires Bucket(mem[fc].tag.size - size) == Bucket(mem[fc].tag.size)
    ensures
      var c := Plus(fc, mem[fc].tag.size - size);
      && c in mem && (!mem[fc].tag.last ==> Plus(fc, mem[fc].tag.size) in mem)
      && c !in starts
      && var mem' := TailMem(mem, id, fc, size);
      && Shape(mem', id, blocks, starts + {c}, heads, lists)
      && Kept(mem, mem', starts, starts + {c})
      && Carved(mem, mem', starts, starts + {c}, c, size)
  {
    TailLines(mem, id, blocks, starts, fc, mem[fc].tag.size - size);
    TailPointwise(mem, id, fc, size);
    var c, mem' := Plus(fc, mem[fc].tag.size - size), TailMem(mem, id, fc, size);
    TailTags(mem, mem', id, blocks, starts, fc, size);
    SplitStep(mem, mem', id, blocks, starts, heads, lists, {}, fc, mem[fc].tag.size - size);
    assert {} + {c} == {c} && {c} - {c} == {};
    DropUsed(mem', id, blocks, starts + {c}, heads, lists, {c}, c);
    KeptByTags(mem, mem', starts, starts + {c});
  }

  /** Chunk `c` of `size` lines is new and in use; every other chunk in use is as before. */
  ghost predicate Carved(mem: Mem, mem': Mem, starts: set<Addr>, starts': set<Addr>, c: Addr, size: nat) {
    && c in starts' && c in mem' && mem'[c].tag.used && mem'[c].tag.size == size
    && (forall a :: a in starts && a in mem && mem[a].tag.used ==>
          a in starts' && a != c && a in mem' && mem'[a].tag == mem[a].tag.(prevOffset := mem'[a].tag.prevOffset))
    && (forall a :: a in starts' && a != c && a in mem' && mem'[a].tag.used ==>
          a in starts && a in mem && mem[a].tag.used)
  }

  // ---------------------------------------------------------------- head of a free chunk

  /** The line right after a chunk, in the next block when the chunk ends its own. */
  function After(a: Addr, size: nat): Addr {
    if a.off + size == LINES_PER_BLOCK then Addr(a.blk + 1, 0) else Plus(a, size)
  }

  /** Use the start of free chunk `fc`, already off its list, and make the rest a free chunk whose
      `last` bit is `last`. */
  function HeadMem(mem: Mem, id: nat, fc: Addr, size: nat, last: bool): (r: Mem)
    requires fc in mem && 0 < size < mem[fc].tag.size && Plus(fc, size) in mem
  {
    var t, r := mem[fc].tag, Plus(fc, size);
    var n := After(r, t.size - size);
    var m1 := WithTag(mem, r, Tag(fc.off, id, last, false, mem[r].tag.jumbo, t.size - size));
    var m2 := if last || n !in m1 then m1 else WithTag(m1, n, m1[n].tag.(prevOffset := r.off));
    WithTag(m2, fc, m2[fc].tag.(listId := id, last := fc.off + size == LINES_PER_BLOCK, used := true, size := size))
  }

  /** The `last` bit the source computes for the rest: it reads the size word found in memory
      before writing the new size. */
  predicate StaleLast(mem: Mem, fc: Addr, size: nat)
    requires Plus(fc, size) in mem
  {
    fc.off + size + mem[Plus(fc, size)].tag.size == LINES_PER_BLOCK
  }

  ghost function HeadTag(mem: Mem, id: nat, fc: Addr, size: nat, a: Addr): Tag
    requires fc in mem && a in mem && size < mem[fc].tag.size
  {
    var t, r := mem[fc].tag, Plus(fc, size);
    if a == r then Tag(fc.off, id, t.last, false, mem[a].tag.jumbo, t.size - size)
    else if a == fc then t.(listId := id, last := false, used := true, size := size)
    else if !t.last && a == Plus(fc, t.size) then mem[a].tag.(prevOffset := r.off)
    else mem[a].tag
  }

  lemma HeadPointwise(mem: Mem, id: nat, fc: Addr, size: nat)
    requires fc in mem && 0 < size < mem[fc].tag.size && Plus(fc, size) in mem
    requires fc.off + mem[fc].tag.size <= LINES_PER_BLOCK
    requires mem[fc].tag.last <==> fc.off + mem[fc].tag.size == LINES_PER_BLOCK
    requires !mem[fc].tag.last ==> Plus(fc, mem[fc].tag.size) in mem
    ensures
      var mem' := HeadMem(mem, id, fc, size, mem[fc].tag.last);
      mem'.Keys == mem.Keys && forall a :: a in mem ==> mem'[a] == mem[a].(tag := HeadTag(mem, id, fc, size, a))
  {
  }

  lemma HeadTags(mem: Mem, mem': Mem, id: nat, blocks: set<nat>, starts: set<Addr>, fc: Addr, size: nat)
    requires Tiled(mem, id, blocks, starts) && Free(mem, starts, fc) && 0 < size < mem[fc].tag.size
    requires mem'.Keys == mem.Keys && forall a :: a in mem ==> mem'[a] == mem[a].(tag := HeadTag(mem, id, fc, size, a))
    requires Plus(fc, size) in mem && Plus(fc, size) !in starts
    ensures SplitTags(mem, mem', id, starts, fc, size)
    ensures TagsAt(mem, mem', starts + {Plus(fc, size)})
    ensures Carved(mem, mem', starts, starts + {Plus(fc, size)}, fc, size)
    ensures Free(mem', starts + {Plus(fc, size)}, Plus(fc, size))
  {
    assert Chunk(mem, id, blocks, starts, fc);
  }

  /** With the right `last` bit the rest is a proper free chunk between two used ones. */
  lemma HeadShape(mem: Mem, id: nat, blocks: set<nat>, starts: set<Addr>, heads: seq<Ptr>, lists: seq<seq<Addr>>,
                  fc: Addr, size: nat)
    requires ShapeBut(mem, id, blocks, starts, heads, lists, {fc}) && Isolated(mem, starts, fc)
    requires 0 < size < mem[fc].tag.size
    ensures
      var r := Plus(fc, size);
      && r in mem && r !in starts
      && var mem' := HeadMem(mem, id, fc, size, mem[fc].tag.last);
      && ShapeBut(mem', id, blocks, starts + {r}, heads, lists, {r}) && Isolated(mem', starts + {r}, r)
      && TagsAt(mem, mem', starts + {r})
      && Carved(mem, mem', starts, starts + {r}, fc, size)
  {
    var r := Plus(fc, size);
    assert Chunk(mem, id, blocks, starts, fc);
    TailLines(mem, id, blocks, starts, fc, size);
    HeadPointwise(mem, id, fc, size);
    var mem' := HeadMem(mem, id, fc, size, mem[fc].tag.last);
    HeadTags(mem, mem', id, blocks, starts, fc, size);
    SplitStep(mem, mem', id, blocks, starts, heads, lists, {fc}, fc, size);
    DropUsed(mem', id, blocks, starts + {r}, heads, lists, {fc} + {r}, fc);
    assert {fc} + {r} - {fc} == {r};
    HeadIsolated(mem, mem', id, blocks, starts, fc, size);
  }

  lemma HeadIsolated(mem: Mem, mem': Mem, id: nat, blocks: set<nat>, starts: set<Addr>, fc: Addr, size: nat)
    requires Tiled(mem, id, blocks, starts) && Isolated(mem, starts, fc) && 0 < size < mem[fc].tag.size
    requires SplitTags(mem, mem', id, starts, fc, size) && mem'[fc].tag.used && !mem'[Plus(fc, size)].tag.used
    requires Tiled(mem', id, blocks, starts + {Plus(fc, size)})
    ensures Isolated(mem', starts + {Plus(fc, size)}, Plus(fc, size))
  {
    var r, S := Plus(fc, size), starts + {Plus(fc, size)};
    assert Chunk(mem, id, blocks, starts, fc);
    assert Chunk(mem', id, blocks, S, r);
    forall a | Free(mem', S, a) && !mem'[a].tag.last ensures Plus(a, mem'[a].tag.size) != r {
      assert Chunk(mem', id, blocks, S, a);
    }
  }

  // ---------------------------------------------------------------- the wrong bit

  /** No choice of chunk starts makes the tags right. */
  ghost predicate NoTiling(mem: Mem, id: nat, blocks: set<nat>) {
    forall S: set<Addr> :: !Tiled(mem, id, blocks, S)
  }

  /** Memory in which chunk `x` and the chunk behind it are one, with the opposite `last` bit. */
  function Mended(mem: Mem, x: Addr): (r: Mem)
    requires x in mem && Plus(x, mem[x].tag.size) in mem
  {
    var r := Plus(x, mem[x].tag.size);
    WithTag(mem, x, mem[x].tag.(size := mem[x].tag.size + mem[r].tag.size, last := !mem[r].tag.last))
  }

  /** The used chunk `x` is followed by a header with the wrong `last` bit; but for that, the tags of `S` are right. */
  ghost predicate TornTags(mem: Mem, id: nat, blocks: set<nat>, S: set<Addr>, x: Addr) {
    && x in S && x in mem && mem[x].tag.used && !mem[x].tag.last && 0 < mem[x].tag.size
    && var r := Plus(x, mem[x].tag.size);
    && r in mem && 0 < mem[r].tag.size && Tiled(Mended(mem, x), id, blocks, S)
  }

  /** The chunks of `g` up to `x` are found in any tiling of `m`. */
  lemma {:induction false} StartsForced(m: Mem, g: Mem, id: nat, blocks: set<nat>, starts: set<Addr>, S: set<Addr>,
                                        x: Addr, a: Addr)
    requires Tiled(g, id, blocks, starts) && Tiled(m, id, blocks, S) && x in starts && a in starts && a.blk == x.blk
    requires a.off <= x.off
    requires forall y :: y in starts && y != x ==>
      y in m && m[y].tag.size == g[y].tag.size && m[y].tag.last == g[y].tag.last
    ensures a in S
    decreases a.off
  {
    assert Chunk(g, id, blocks, starts, a);
    if 0 < a.off {
      var p := Addr(a.blk, g[a].tag.prevOffset);
      assert Chunk(g, id, blocks, starts, p);
      StartsForced(m, g, id, blocks, starts, S, x, p);
      assert Chunk(m, id, blocks, S, p);
    }
  }

  /** In any tiling the header behind `x` would be a chunk, and its bit contradicts its place. */
  lemma TornChunk(m: Mem, id: nat, blocks: set<nat>, starts: set<Addr>, x: Addr, S: set<Addr>)
    requires TornTags(m, id, blocks, starts, x)
    ensures !Chunk(m, id, blocks, S, Plus(x, m[x].tag.size))
    ensures Tiled(m, id, blocks, S) ==> Plus(x, m[x].tag.size) in S
  {
    var g := Mended(m, x);
    assert Chunk(g, id, blocks, starts, x);
    if Tiled(m, id, blocks, S) {
      StartsForced(m, g, id, blocks, starts, S, x, x);
      assert x in S;
    }
  }

  lemma TornNoTiling(m: Mem, id: nat, blocks: set<nat>, starts: set<Addr>, x: Addr)
    requires TornTags(m, id, blocks, starts, x)
    ensures NoTiling(m, id, blocks)
  {
    forall S: set<Addr> ensures !Tiled(m, id, blocks, S) {
      TornChunk(m, id, blocks, starts, x, S);
    }
  }

  /** Only sizes, bits, list ids and the predecessor offsets inside blocks decide the tiling. */
  lemma TiledBySizes(mem: Mem, mem': Mem, id: nat, blocks: set<nat>, starts: set<Addr>)
    requires Tiled(mem, id, blocks, starts) && mem.Keys <= mem'.Keys
    requires forall a :: a in starts ==>
      mem'[a].tag ==
          mem[a].tag.(used := mem'[a].tag.used,
                      prevOffset := if a.off == 0 then mem'[a].tag.prevOffset else mem[a].tag.prevOffset)
    ensures Tiled(mem', id, blocks, starts)
  {
    forall a | a in starts ensures a in mem' && Chunk(mem', id, blocks, starts, a) {
      assert Chunk(mem, id, blocks, starts, a);
    }
  }

  /** The stores of a split with the wrong bit, line by line. */
  ghost predicate WrongSplit(mem: Mem, mem': Mem, id: nat, fc: Addr, size: nat) {
    && fc in mem && mem'.Keys == mem.Keys && 0 < size < mem[fc].tag.size
    && var t, r := mem[fc].tag, Plus(fc, size);
    && r in mem && mem'[fc] == mem[fc].(tag := t.(listId := id, last := false, used := true, size := size))
    && mem'[r] == mem[r].(tag := Tag(fc.off, id, !t.last, false, mem[r].tag.jumbo, t.size - size))
    && (forall a :: a in mem && a != fc && a != r ==>
          mem'[a] == mem[a].(tag := mem[a].tag.(prevOffset := mem'[a].tag.prevOffset))
              && (a.off != 0 ==> mem'[a] == mem[a]))
  }

  lemma HeadWrong(mem: Mem, id: nat, fc: Addr, size: nat, mem': Mem)
    requires fc in mem && 0 < size < mem[fc].tag.size && Plus(fc, size) in mem
    requires fc.off + mem[fc].tag.size <= LINES_PER_BLOCK
    requires mem[fc].tag.last <==> fc.off + mem[fc].tag.size == LINES_PER_BLOCK
    requires mem' == HeadMem(mem, id, fc, size, !mem[fc].tag.last)
    ensures WrongSplit(mem, mem', id, fc, size)
  {
  }

  lemma HeadTorn(mem: Mem, id: nat, blocks: set<nat>, starts: set<Addr>, fc: Addr, size: nat, mem': Mem)
    requires Tiled(mem, id, blocks, starts) && fc in starts && WrongSplit(mem, mem', id, fc, size)
    ensures TornTags(mem', id, blocks, starts, fc) && Plus(fc, size) !in starts
  {
    assert Chunk(mem, id, blocks, starts, fc);
    var r := Plus(fc, size);
    if r in starts { ChunksDisjoint(mem, id, blocks, starts, fc, r); }
    TiledBySizes(mem, Mended(mem', fc), id, blocks, starts);
  }

  /** Using the whole of free chunk `fc`, already off its list. */
  lemma WholeShape(mem: Mem, id: nat, blocks: set<nat>, starts: set<Addr>, heads: seq<Ptr>, lists: seq<seq<Addr>>,
                   fc: Addr)
    requires ShapeBut(mem, id, blocks, starts, heads, lists, {fc}) && Free(mem, starts, fc)
    ensures
      var mem' := WithTag(mem, fc, mem[fc].tag.(used := true));
      && Shape(mem', id, blocks, starts, heads, lists)
      && TagsAt(mem, mem', starts) && Carved(mem, mem', starts, starts, fc, mem[fc].tag.size)
  {
    var mem' := WithTag(mem, fc, mem[fc].tag.(used := true));
    forall x | x in starts ensures x in mem' && Chunk(mem', id, blocks, starts, x) {
      assert Chunk(mem, id, blocks, starts, x);
    }
    forall d, x | 0 <= d < TOTAL_BUCKETS && x in lists[d]
      ensures mem'[x].prev == mem[x].prev && mem'[x].next == mem[x].next
      ensures Bucket(mem'[x].tag.size) == Bucket(mem[x].tag.size)
    {
      assert Listed(lists, x);
    }
    ThreadedByLinks(mem, mem', heads, lists);
    assert ShapeBut(mem', id, blocks, starts, heads, lists, {fc});
    assert {fc} - {fc} == {};
    DropUsed(mem', id, blocks, starts, heads, lists, {fc}, fc);
  }

  // ---------------------------------------------------------------- a fresh block

  /** The headers `alloc` writes into a block it has just received. */
  function FreshMem(mem: Mem, id: nat, b: nat, size: nat): (r: Mem)
    requires 0 < size <= LINES_PER_BLOCK && Addr(b, 0) in mem && (size < LINES_PER_BLOCK ==> Addr(b, size) in mem)
  {
    var c, r := Addr(b, 0), Addr(b, size);
    var m := if size < LINES_PER_BLOCK
             then WithTag(mem, r, Tag(0, id, true, false, mem[r].tag.jumbo, LINES_PER_BLOCK - size)) else mem;
    WithTag(m, c, Tag(0, id, size == LINES_PER_BLOCK, true, m[c].tag.jumbo, size))
  }

  ghost function FreshStarts(b: nat, size: nat): set<Addr> {
    if size < LINES_PER_BLOCK then {Addr(b, 0), Addr(b, size)} else {Addr(b, 0)}
  }

  lemma FreshTiled(mem: Mem, mem': Mem, id: nat, blocks: set<nat>, starts: set<Addr>, b: nat, size: nat)
    requires Tiled(mem, id, blocks, starts) && b !in blocks && 0 < size <= LINES_PER_BLOCK
    requires forall a: Addr :: a.blk == b && a.off < LINES_PER_BLOCK ==> a in mem
    requires mem' == FreshMem(mem, id, b, size)
    ensures Tiled(mem', id, blocks + {b}, starts + FreshStarts(b, size))
    ensures forall a :: a in starts ==> a.blk != b && mem'[a] == mem[a]
  {
    var S, B := starts + FreshStarts(b, size), blocks + {b};
    forall a | a in starts ensures a.blk != b {
      assert Chunk(mem, id, blocks, starts, a);
    }
    forall x | x in S ensures x in mem' && Chunk(mem', id, B, S, x) {
      if x in starts { assert Chunk(mem, id, blocks, starts, x); }
    }
  }

  lemma FreshShape(mem: Mem, id: nat, blocks: set<nat>, starts: set<Addr>, heads: seq<Ptr>, lists: seq<seq<Addr>>,
                   b: nat, size: nat)
    requires Shape(mem, id, blocks, starts, heads, lists) && b !in blocks && 0 < size <= LINES_PER_BLOCK
    requires forall a: Addr :: a.blk == b && a.off < LINES_PER_BLOCK ==> a in mem
    ensures
      var S := starts + FreshStarts(b, size);
      var but := FreshStarts(b, size) - {Addr(b, 0)};
      var mem' := FreshMem(mem, id, b, size);
      && ShapeBut(mem', id, blocks + {b}, S, heads, lists, but)
      && (size < LINES_PER_BLOCK ==> but == {Addr(b, size)} && Isolated(mem', S, Addr(b, size)))
      && TagsAt(mem, mem', S)
      && Carved(mem, mem', starts, S, Addr(b, 0), size)
  {
    var S, mem' := starts + FreshStarts(b, size), FreshMem(mem, id, b, size);
    FreshTiled(mem, mem', id, blocks, starts, b, size);
    FreshLists(mem, mem', id, blocks, starts, heads, lists, b, size);
    forall a | Free(mem', S, a) && !mem'[a].tag.last && a in starts
      ensures var n := Plus(a, mem'[a].tag.size); n in starts
    {
      assert Chunk(mem, id, blocks, starts, a);
    }
  }

  lemma FreshLists(mem: Mem, mem': Mem, id: nat, blocks: set<nat>, starts: set<Addr>, heads: seq<Ptr>,
                   lists: seq<seq<Addr>>, b: nat, size: nat)
    requires Shape(mem, id, blocks, starts, heads, lists) && 0 < size <= LINES_PER_BLOCK
    requires mem.Keys <= mem'.Keys
    requires forall a :: a in starts ==> a.blk != b && mem'[a] == mem[a]
    requires Addr(b, 0) in mem' && mem'[Addr(b, 0)].tag.used
    ensures Threaded(mem', heads, lists)
    ensures Exact(mem', starts + FreshStarts(b, size), lists, FreshStarts(b, size) - {Addr(b, 0)})
  {
    forall d, x | 0 <= d < TOTAL_BUCKETS && x in lists[d]
      ensures mem'[x].prev == mem[x].prev && mem'[x].next == mem[x].next
      ensures Bucket(mem'[x].tag.size) == Bucket(mem[x].tag.size)
    {
      assert Listed(lists, x);
      assert Free(mem, starts, x);
    }
    ThreadedByLinks(mem, mem', heads, lists);
  }

  // ---------------------------------------------------------------- chunks in use

  /** The chunks in use after a carve are those before and the new one. */
  lemma CarvedLive(mem: Mem, mem': Mem, starts: set<Addr>, starts': set<Addr>, c: Addr, size: nat)
    requires Carved(mem, mem', starts, starts', c, size)
    ensures Live(mem', starts') == Live(mem, starts)[c := size]
    ensures c !in Live(mem, starts)
  {
  }

  /** Same payload: link and rest words of the first line, and all of the other lines. */
  ghost predicate SamePayload(mem: Mem, mem': Mem, a: Addr, n: nat) {
    && a in mem && a in mem' && mem'[a] == mem[a].(tag := mem'[a].tag)
    && forall i :: 0 < i < n ==> Plus(a, i) in mem && Plus(a, i) in mem' && mem'[Plus(a, i)] == mem[Plus(a, i)]
  }

  /** Stores to chunk headers and to the links of free chunks leave the payload of chunk `a` alone. */
  lemma PayloadKept(mem: Mem, id: nat, blocks: set<nat>, starts: set<Addr>, mem': Mem, blocks': set<nat>,
                    starts': set<Addr>, a: Addr)
    requires Tiled(mem, id, blocks, starts) && Tiled(mem', id, blocks', starts')
    requires a in starts && a in starts' && mem[a].tag.size <= mem'[a].tag.size
    requires mem.Keys <= mem'.Keys && mem'[a] == mem[a].(tag := mem'[a].tag)
    requires forall x :: x in mem && x !in starts && x !in starts' ==> mem'[x] == mem[x]
    ensures SamePayload(mem, mem', a, mem[a].tag.size)
  {
    assert Chunk(mem, id, blocks, starts, a);
    forall i | 0 < i < mem[a].tag.size
      ensures Plus(a, i) in mem && Plus(a, i) in mem' && mem'[Plus(a, i)] == mem[Plus(a, i)]
    {
      if Plus(a, i) in starts { ChunksDisjoint(mem, id, blocks, starts, a, Plus(a, i)); }
      if Plus(a, i) in starts' { ChunksDisjoint(mem', id, blocks', starts', a, Plus(a, i)); }
    }
  }

  /** Lines inside chunks are untouched, and so are the payload words of chunks in use. */
  ghost predicate Kept(mem: Mem, mem': Mem, starts: set<Addr>, starts': set<Addr>) {
    && mem'.Keys == mem.Keys
    && (forall x :: x in mem && x !in starts && x !in starts' ==> mem'[x] == mem[x])
    && (forall x :: x in mem && x in starts && mem[x].tag.used ==> mem'[x] == mem[x].(tag := mem'[x].tag))
  }

  lemma KeptByTags(mem: Mem, mem': Mem, starts: set<Addr>, starts': set<Addr>)
    requires TagsAt(mem, mem', starts')
    ensures Kept(mem, mem', starts, starts')
  {
  }

  lemma KeptByLinks(mem: Mem, mem': Mem, starts: set<Addr>, lists: seq<seq<Addr>>)
    requires LinksOnly(mem, mem', lists)
    requires forall a :: Listed(lists, a) ==> Free(mem, starts, a)
    ensures Kept(mem, mem', starts, starts)
  {
  }

  /** Kept lines compose while chunks in use stay in use. */
  lemma KeptTwice(m0: Mem, m1: Mem, m2: Mem, s0: set<Addr>, s1: set<Addr>, s2: set<Addr>)
    requires Kept(m0, m1, s0, s1) && Kept(m1, m2, s1, s2)
    requires s0 <= s1 <= s2
    requires forall x :: x in m0 && x in s0 && m0[x].tag.used ==> m1[x].tag.used
    ensures Kept(m0, m2, s0, s2)
  {
  }

  /** What every live chunk keeps. */
  ghost predicate PayloadsKept(mem: Mem, mem': Mem, live: map<Addr, nat>) {
    forall a :: a in live ==> SamePayload(mem, mem', a, live[a])
  }

  lemma KeptPayloads(mem: Mem, id: nat, blocks: set<nat>, starts: set<Addr>, mem': Mem, blocks': set<nat>,
                     starts': set<Addr>, live: map<Addr, nat>)
    requires Tiled(mem, id, blocks, starts) && Tiled(mem', id, blocks', starts') && Kept(mem, mem', starts, starts')
    requires forall a :: a in live ==> a in starts && mem[a].tag.used && a in starts'
                                       && mem[a].tag.size == live[a] == mem'[a].tag.size
    ensures PayloadsKept(mem, mem', live)
  {
    forall a | a in live ensures SamePayload(mem, mem', a, live[a]) {
      PayloadKept(mem, id, blocks, starts, mem', blocks', starts', a);
    }
  }

  // ---------------------------------------------------------------- the whole head carve

  lemma HeadsInMem(mem: Mem, heads: seq<Ptr>, lists: seq<seq<Addr>>)
    requires Threaded(mem, heads, lists)
    ensures forall b :: 0 <= b < TOTAL_BUCKETS && heads[b].To? ==> heads[b].addr in mem
  {
    forall b | 0 <= b < TOTAL_BUCKETS && heads[b].To? ensures heads[b].addr in mem {
      assert Linked(mem, heads[b], lists[b]);
      assert heads[b].addr == lists[b][0];
    }
  }

  /** Carving composes with link stores before it and after it. */
  lemma CarvedBetween(m0: Mem, m1: Mem, m2: Mem, m3: Mem, s: set<Addr>, s': set<Addr>, c: Addr, size: nat)
    requires m1.Keys == m0.Keys && forall a :: a in m0 ==> m1[a].tag == m0[a].tag
    requires m3.Keys == m2.Keys && forall a :: a in m2 ==> m3[a].tag == m2[a].tag
    requires Carved(m1, m2, s, s', c, size)
    ensures Carved(m0, m3, s, s', c, size)
  {
  }

  /** Unlink, split with the right `last` bit, list the rest: the heap has its shape again. */
  lemma HeadFinish(m0: Mem, m1: Mem, id: nat, blocks: set<nat>, starts: set<Addr>, lists0: seq<seq<Addr>>,
                   heads: seq<Ptr>, lists: seq<seq<Addr>>, fc: Addr, size: nat)
    requires Isolated(m0, starts, fc) && 0 < size < m0[fc].tag.size
    requires forall a :: Listed(lists0, a) ==> Free(m0, starts, a)
    requires LinksOnly(m0, m1, lists0) && ShapeBut(m1, id, blocks, starts, heads, lists, {fc})
    ensures
      var r := Plus(fc, size);
      && r in m1
      && var m2 := HeadMem(m1, id, fc, size, m1[fc].tag.last);
      && r in m2
      && var b := Bucket(m2[r].tag.size);
      && (heads[b].To? ==> heads[b].addr in m2)
      && var m3 := PushMem(m2, heads[b], r);
      && Shape(m3, id, blocks, starts + {r}, heads[b := To(r)], lists[b := [r] + lists[b]])
      && Carved(m0, m3, starts, starts + {r}, fc, size)
      && Kept(m0, m3, starts, starts + {r})
  {
    var r := Plus(fc, size);
    IsolatedByTags(m0, m1, starts, fc);
    HeadShape(m1, id, blocks, starts, heads, lists, fc, size);
    var m2 := HeadMem(m1, id, fc, size, m1[fc].tag.last);
    PushStep(m2, id, blocks, starts + {r}, heads, lists, r);
    var b := Bucket(m2[r].tag.size);
    HeadKept(m0, m1, m2, PushMem(m2, heads[b], r), starts, lists0, lists[b := [r] + lists[b]], r, fc, size);
  }

  lemma HeadKept(m0: Mem, m1: Mem, m2: Mem, m3: Mem, starts: set<Addr>, lists0: seq<seq<Addr>>, lists: seq<seq<Addr>>,
                 r: Addr, fc: Addr, size: nat)
    requires forall a :: Listed(lists0, a) ==> Free(m0, starts, a)
    requires LinksOnly(m0, m1, lists0) && TagsAt(m1, m2, starts + {r}) && LinksOnly(m2, m3, lists)
    requires Carved(m1, m2, starts, starts + {r}, fc, size)
    requires forall a :: Listed(lists, a) ==> Free(m3, starts + {r}, a)
    ensures Carved(m0, m3, starts, starts + {r}, fc, size)
    ensures Kept(m0, m3, starts, starts + {r})
  {
    CarvedBetween(m0, m1, m2, m3, starts, starts + {r}, fc, size);
    KeptByLinks(m0, m1, starts, lists0);
    KeptByTags(m1, m2, starts, starts + {r});
    KeptTwice(m0, m1, m2, starts, starts, starts + {r});
    forall a | Listed(lists, a) ensures Free(m2, starts + {r}, a) { }
    KeptByLinks(m2, m3, starts + {r}, lists);
    KeptTwice(m0, m2, m3, starts, starts + {r}, starts + {r});
  }

  /** Unlink and use whole. */
  lemma WholeFinish(m0: Mem, m1: Mem, id: nat, blocks: set<nat>, starts: set<Addr>, lists0: seq<seq<Addr>>,
                    heads: seq<Ptr>, lists: seq<seq<Addr>>, fc: Addr)
    requires Free(m0, starts, fc)
    requires forall a :: Listed(lists0, a) ==> Free(m0, starts, a)
    requires LinksOnly(m0, m1, lists0) && ShapeBut(m1, id, blocks, starts, heads, lists, {fc})
    ensures
      var m2 := WithTag(m1, fc, m1[fc].tag.(used := true));
      && Shape(m2, id, blocks, starts, heads, lists)
      && Carved(m0, m2, starts, starts, fc, m0[fc].tag.size)
      && Kept(m0, m2, starts, starts)
  {
    WholeShape(m1, id, blocks, starts, heads, lists, fc);
    var m2 := WithTag(m1, fc, m1[fc].tag.(used := true));
    KeptByLinks(m0, m1, starts, lists0);
    KeptByTags(m1, m2, starts, starts);
    KeptTwice(m0, m1, m2, starts, starts, starts);
    CarvedBetween(m0, m1, m2, m2, starts, starts, fc, m1[fc].tag.size);
  }

  /** The chunk is used whole, or the size word that happens to lie where the rest begins gives
      the right `last` bit for the rest. */
  ghost predicate HeadSafe(mem: Mem, fc: Addr, size: nat) {
    fc in mem && size < mem[fc].tag.size && Plus(fc, size) in mem ==> (StaleLast(mem, fc, size) <==> mem[fc].tag.last)
  }

  /** Where the store sequence leads: chunk `fc` is in use with `size` lines, nothing else in use
      has changed and the shape holds again; or, when the carve is not safe, the tags are wrong. */
  ghost predicate HeadResult(m0: Mem, m3: Mem, id: nat, blocks: set<nat>, starts: set<Addr>, starts': set<Addr>,
                             heads: seq<Ptr>, lists: seq<seq<Addr>>, fc: Addr, size: nat)
  {
    AllocResult(HeadSafe(m0, fc, size), m0, m3, id, blocks, starts, starts', heads, lists, fc, size)
  }

  ghost predicate AllocResult(safe: bool, m0: Mem, m: Mem, id: nat, blocks: set<nat>, starts: set<Addr>,
                              starts': set<Addr>, heads: seq<Ptr>, lists: seq<seq<Addr>>, c: Addr, size: nat)
  {
    if safe
    then Allocated(m0, m, id, blocks, starts, starts', heads, lists, c, size)
    else starts' == starts && Torn(m0, m, id, blocks, starts, heads, lists, c, size)
  }

  /** The heap after an unsafe split, which has used the first `size` lines of free chunk `x`. */
  ghost predicate Torn(m0: Mem, m: Mem, id: nat, blocks: set<nat>, starts: set<Addr>, heads: seq<Ptr>,
                       lists: seq<seq<Addr>>, x: Addr, size: nat) {
    m.Keys == m0.Keys && TornHeap(m, id, blocks, starts, heads, lists, x, {})
        && TornFrom(m0, m, blocks, starts, x, size)
  }

  /** The lists hold the free chunks of `S` outside `but`, and the line `r`. */
  ghost predicate TornListed(mem: Mem, S: set<Addr>, lists: seq<seq<Addr>>, r: Addr, but: set<Addr>) {
    forall a :: Listed(lists, a) <==> a == r || (Free(mem, S, a) && a !in but)
  }

  /** A heap that is right but for the header behind chunk `x`; its lists are whole and hold that header too. */
  ghost predicate TornHeap(mem: Mem, id: nat, blocks: set<nat>, S: set<Addr>, heads: seq<Ptr>, lists: seq<seq<Addr>>,
                           x: Addr, but: set<Addr>) {
    TornTags(mem, id, blocks, S, x) && Threaded(mem, heads, lists)
        && TornListed(mem, S, lists, Plus(x, mem[x].tag.size), but)
  }

  /** Chunk `x` is now in use with `size` lines, and the chunks in use before, and what lies in other blocks, are as
      they were, up to the offset at the start of a block. */
  ghost predicate TornFrom(m0: Mem, m: Mem, blocks: set<nat>, starts: set<Addr>, x: Addr, size: nat) {
    && x in m0 && x in m && !m0[x].tag.used && m[x].tag.size == size
    && forall a: Addr :: a in m0 && a in m && ((a in starts && m0[a].tag.used) || a.blk !in blocks) ==>
         m[a] == m0[a].(tag := m0[a].tag.(prevOffset := m[a].tag.prevOffset)) && (a.off != 0 ==> m[a] == m0[a])
  }

  lemma HeadOutcome(m0: Mem, m1: Mem, m2: Mem, m3: Mem, id: nat, blocks: set<nat>, starts: set<Addr>,
                    lists0: seq<seq<Addr>>, heads: seq<Ptr>, lists: seq<seq<Addr>>, fc: Addr, size: nat, r: Addr,
                    b: nat)
    requires Isolated(m0, starts, fc) && 0 < size < m0[fc].tag.size && r == Plus(fc, size)
    requires forall a :: Listed(lists0, a) ==> Free(m0, starts, a)
    requires LinksOnly(m0, m1, lists0) && ShapeBut(m1, id, blocks, starts, heads, lists, {fc})
    requires r in m1 && m2 == HeadMem(m1, id, fc, size, StaleLast(m1, fc, size))
    requires r in m2 && b == Bucket(m2[r].tag.size) && (heads[b].To? ==> heads[b].addr in m2)
    requires m3 == PushMem(m2, heads[b], r)
    ensures HeadResult(m0, m3, id, blocks, starts, if HeadSafe(m0, fc, size) then starts + {r} else starts,
                       heads[b := To(r)], lists[b := [r] + lists[b]], fc, size)
  {
    assert StaleLast(m1, fc, size) == StaleLast(m0, fc, size) && m1[fc].tag.last == m0[fc].tag.last;
    if HeadSafe(m0, fc, size) {
      HeadFinish(m0, m1, id, blocks, starts, lists0, heads, lists, fc, size);
    } else {
      HeadUnsafe(m0, m1, m2, m3, id, blocks, starts, lists0, heads, lists, fc, size, r, b);
    }
  }

  lemma HeadUnsafe(m0: Mem, m1: Mem, m2: Mem, m3: Mem, id: nat, blocks: set<nat>, starts: set<Addr>,
                   lists0: seq<seq<Addr>>, heads: seq<Ptr>, lists: seq<seq<Addr>>, fc: Addr, size: nat, r: Addr, b: nat)
    requires Free(m0, starts, fc) && 0 < size < m0[fc].tag.size && r == Plus(fc, size)
    requires forall a :: Listed(lists0, a) ==> Free(m0, starts, a)
    requires LinksOnly(m0, m1, lists0) && ShapeBut(m1, id, blocks, starts, heads, lists, {fc})
    requires r in m1 && m2 == HeadMem(m1, id, fc, size, !m1[fc].tag.last)
    requires r in m2 && b == Bucket(m2[r].tag.size) && (heads[b].To? ==> heads[b].addr in m2)
    requires m3 == PushMem(m2, heads[b], r)
    ensures m3.Keys == m0.Keys
    ensures TornHeap(m3, id, blocks, starts, heads[b := To(r)], lists[b := [r] + lists[b]], fc, {})
    ensures TornFrom(m0, m3, blocks, starts, fc, size)
  {
    assert Chunk(m1, id, blocks, starts, fc);
    HeadWrong(m1, id, fc, size, m2);
    HeadTorn(m1, id, blocks, starts, fc, size, m2);
    PushTags(m2, heads[b], r);
    TornByTags(m2, m3, id, blocks, starts, fc);
    UnsafeLists(m1, m2, starts, heads, lists, fc, r);
    PushThreaded(m2, heads, lists, r);
    UnsafeListed(m1, m2, m3, starts, lists, fc, r, b);
    StartsInBlocks(m1, id, blocks, starts);
    UnsafeKept(m0, m1, m2, m3, blocks, starts, lists0, heads, lists, fc, r, b, size);
  }

  lemma TornByTags(m: Mem, m': Mem, id: nat, blocks: set<nat>, S: set<Addr>, x: Addr)
    requires TornTags(m, id, blocks, S, x) && m'.Keys == m.Keys && forall a :: a in m ==> m'[a].tag == m[a].tag
    ensures TornTags(m', id, blocks, S, x)
  {
    TiledByTags(Mended(m, x), Mended(m', x), id, blocks, S);
  }

  lemma UnsafeLists(m1: Mem, m2: Mem, starts: set<Addr>, heads: seq<Ptr>, lists: seq<seq<Addr>>, fc: Addr, r: Addr)
    requires Threaded(m1, heads, lists) && Exact(m1, starts, lists, {fc}) && r !in starts && m2.Keys == m1.Keys
    requires forall a :: a in m1 && a != fc && a != r ==>
      m2[a] == m1[a].(tag := m1[a].tag.(prevOffset := m2[a].tag.prevOffset))
    ensures Threaded(m2, heads, lists) && !Listed(lists, r)
  {
    forall d, x | 0 <= d < TOTAL_BUCKETS && x in lists[d]
      ensures m2[x].prev == m1[x].prev && m2[x].next == m1[x].next && Bucket(m2[x].tag.size) == Bucket(m1[x].tag.size)
    {
      assert Listed(lists, x);
    }
    ThreadedByLinks(m1, m2, heads, lists);
  }

  lemma UnsafeListed(m1: Mem, m2: Mem, m3: Mem, starts: set<Addr>, lists: seq<seq<Addr>>, fc: Addr, r: Addr, b: nat)
    requires Exact(m1, starts, lists, {fc}) && b < |lists| && r !in starts && m2.Keys == m1.Keys && m3.Keys == m2.Keys
    requires fc in m2 && m2[fc].tag.used
    requires forall a :: a in m1 && a != fc && a != r ==> m2[a].tag.used == m1[a].tag.used
    requires forall a :: a in m2 ==> m3[a].tag == m2[a].tag
    ensures TornListed(m3, starts, lists[b := [r] + lists[b]], r, {})
  {
    var lists' := lists[b := [r] + lists[b]];
    forall a ensures Listed(lists', a) <==> Listed(lists, a) || a == r {
      ListedPushed(lists, b, r, a);
    }
  }

  /** A chunk in use, or none at all, is not at the head of a list. */
  lemma HeadNotUsed(mem: Mem, starts: set<Addr>, heads: seq<Ptr>, lists: seq<seq<Addr>>, but: set<Addr>, b: nat,
                    c: Addr)
    requires Threaded(mem, heads, lists) && Exact(mem, starts, lists, but) && b < TOTAL_BUCKETS && c in mem
    requires (mem[c].tag.used || c !in starts)
    ensures heads[b] != To(c)
  {
    assert Linked(mem, heads[b], lists[b]);
    if heads[b].To? {
      assert heads[b].addr == lists[b][0];
      assert Listed(lists, heads[b].addr);
    }
  }

  lemma UnsafeKept(m0: Mem, m1: Mem, m2: Mem, m3: Mem, blocks: set<nat>, starts: set<Addr>, lists0: seq<seq<Addr>>,
                   heads: seq<Ptr>, lists: seq<seq<Addr>>, fc: Addr, r: Addr, b: nat, size: nat)
    requires Free(m0, starts, fc) && (forall a :: Listed(lists0, a) ==> Free(m0, starts, a))
    requires LinksOnly(m0, m1, lists0)
    requires Threaded(m1, heads, lists) && Exact(m1, starts, lists, {fc}) && r !in starts && m2.Keys == m1.Keys
    requires fc in m2 && m2[fc].tag.size == size
    requires forall a :: a in m1 && a != fc && a != r ==>
      m2[a] == m1[a].(tag := m1[a].tag.(prevOffset := m2[a].tag.prevOffset)) && (a.off != 0 ==> m2[a] == m1[a])
    requires b < TOTAL_BUCKETS && r in m2 && (heads[b].To? ==> heads[b].addr in m2) && m3 == PushMem(m2, heads[b], r)
    requires (forall a :: a in starts ==> a.blk in blocks) && r.blk in blocks
    ensures TornFrom(m0, m3, blocks, starts, fc, size)
  {
    forall a: Addr | a in m0 && ((a in starts && m0[a].tag.used) || a.blk !in blocks)
      ensures m1[a] == m0[a] && a != fc && a != r && heads[b] != To(a) {
      assert !Listed(lists0, a);
      HeadNotUsed(m1, starts, heads, lists, {fc}, b, a);
    }
  }

  lemma PushTags(mem: Mem, head: Ptr, c: Addr)
    requires c in mem && (head.To? ==> head.addr in mem)
    ensures PushMem(mem, head, c).Keys == mem.Keys
    ensures forall a :: a in mem ==> PushMem(mem, head, c)[a].tag == mem[a].tag
  {
  }

  /** The stores of the split are defined. */
  lemma HeadDefined(m1: Mem, id: nat, blocks: set<nat>, starts: set<Addr>, heads: seq<Ptr>, lists: seq<seq<Addr>>,
                    fc: Addr, size: nat)
    requires ShapeBut(m1, id, blocks, starts, heads, lists, {fc}) && fc in m1 && 0 < size < m1[fc].tag.size
    ensures |heads| == |lists| == TOTAL_BUCKETS
    ensures Plus(fc, size) in m1
    ensures HeadMem(m1, id, fc, size, StaleLast(m1, fc, size)).Keys == m1.Keys
    ensures forall b :: 0 <= b < TOTAL_BUCKETS && heads[b].To? ==> heads[b].addr in m1
  {
    HeadsInMem(m1, heads, lists);
    TailLines(m1, id, blocks, starts, fc, size);
  }

  // ---------------------------------------------------------------- what allocation achieves

  /** Chunk `c` is newly in use with `size` lines; nothing else in use has changed; the shape holds. */
  ghost predicate Allocated(m0: Mem, m: Mem, id: nat, blocks: set<nat>, starts: set<Addr>, starts': set<Addr>,
                            heads: seq<Ptr>, lists: seq<seq<Addr>>, c: Addr, size: nat)
  {
    Shape(m, id, blocks, starts', heads, lists) && Carved(m0, m, starts, starts', c, size)
        && Kept(m0, m, starts, starts')
  }

  /** A fresh block, whose rest (if any) is put on its list. */
  lemma FreshOutcome(m0: Mem, m1: Mem, m: Mem, id: nat, blocks: set<nat>, starts: set<Addr>, heads: seq<Ptr>,
                     lists: seq<seq<Addr>>, heads': seq<Ptr>, lists': seq<seq<Addr>>, b: nat, size: nat)
    requires Shape(m0, id, blocks, starts, heads, lists) && b !in blocks && 0 < size <= LINES_PER_BLOCK
    requires forall a: Addr :: a.blk == b && a.off < LINES_PER_BLOCK ==> a in m0
    requires m1 == FreshMem(m0, id, b, size)
    requires size == LINES_PER_BLOCK ==> m == m1 && heads' == heads && lists' == lists
    requires size < LINES_PER_BLOCK ==>
      var r := Addr(b, size);
      && r in m1
      && var k := Bucket(m1[r].tag.size);
      && (heads[k].To? ==> heads[k].addr in m1)
      && m == PushMem(m1, heads[k], r) && heads' == heads[k := To(r)] && lists' == lists[k := [r] + lists[k]]
    ensures Allocated(m0, m, id, blocks + {b}, starts, starts + FreshStarts(b, size), heads', lists', Addr(b, 0), size)
  {
    FreshShape(m0, id, blocks, starts, heads, lists, b, size);
    var S := starts + FreshStarts(b, size);
    KeptByTags(m0, m1, starts, S);
    if size < LINES_PER_BLOCK {
      PushStep(m1, id, blocks + {b}, S, heads, lists, Addr(b, size));
      PushOutcome(m0, m1, m, starts, S, lists', Addr(b, 0), size);
    } else {
      assert FreshStarts(b, size) - {Addr(b, 0)} == {};
    }
  }

  lemma PushOutcome(m0: Mem, m1: Mem, m: Mem, starts: set<Addr>, starts': set<Addr>, lists': seq<seq<Addr>>, c: Addr,
                    size: nat)
    requires Carved(m0, m1, starts, starts', c, size) && Kept(m0, m1, starts, starts') && starts <= starts'
    requires LinksOnly(m1, m, lists') && forall a :: Listed(lists', a) ==> Free(m, starts', a)
    ensures Carved(m0, m, starts, starts', c, size) && Kept(m0, m, starts, starts')
  {
    CarvedBetween(m0, m0, m1, m, starts, starts', c, size);
    forall a | Listed(lists', a) ensures Free(m1, starts', a) { }
    KeptByLinks(m1, m, starts', lists');
    KeptTwice(m0, m1, m, starts, starts', starts');
  }

  /** In terms of chunks in use: one more, disjoint from all others, whose payloads are untouched. */
  lemma AllocatedMeans(m0: Mem, m: Mem, id: nat, blocks0: set<nat>, blocks: set<nat>, starts: set<Addr>,
                       starts': set<Addr>, heads: seq<Ptr>, lists: seq<seq<Addr>>, c: Addr, size: nat)
    requires Tiled(m0, id, blocks0, starts) && Allocated(m0, m, id, blocks, starts, starts', heads, lists, c, size)
    ensures c !in Live(m0, starts) && Live(m, starts') == Live(m0, starts)[c := size]
    ensures PayloadsKept(m0, m, Live(m0, starts))
    ensures forall a :: a in Live(m0, starts) && a.blk == c.blk ==>
      a.off + Live(m0, starts)[a] <= c.off || c.off + size <= a.off
  {
    CarvedLive(m0, m, starts, starts', c, size);
    var live := Live(m0, starts);
    KeptPayloads(m0, id, blocks0, starts, m, blocks, starts', live);
    forall a | a in live && a.blk == c.blk ensures a.off + live[a] <= c.off || c.off + size <= a.off {
      if a.off < c.off { ChunksDisjoint(m, id, blocks, starts', a, c); } else {
        ChunksDisjoint(m, id, blocks, starts', c, a);
      }
    }
  }

  /** Lines outside `blocks` are untouched. */
  ghost predicate Within(m0: Mem, m: Mem, blocks: set<nat>) {
    m.Keys == m0.Keys && forall x: Addr :: x in m0 && x.blk !in blocks ==> m[x] == m0[x]
  }

  lemma KeptWithin(m0: Mem, m: Mem, id: nat, blocks0: set<nat>, blocks: set<nat>, starts: set<Addr>, starts': set<Addr>)
    requires Tiled(m0, id, blocks0, starts) && Tiled(m, id, blocks, starts') && Kept(m0, m, starts, starts')
    requires blocks0 <= blocks
    ensures Within(m0, m, blocks)
  {
    StartsInBlocks(m0, id, blocks0, starts);
    StartsInBlocks(m, id, blocks, starts');
  }

  lemma WithinTwice(m0: Mem, m1: Mem, m2: Mem, blocks: set<nat>)
    requires Within(m0, m1, blocks) && Within(m1, m2, blocks)
    ensures Within(m0, m2, blocks)
  {
  }

  /** In other blocks a split writes one word at most: if the rest ends its block and is not marked so, the offset in
      the first header of the next block. */
  lemma HeadElsewhere(mem: Mem, id: nat, fc: Addr, size: nat, last: bool, a: Addr)
    requires fc in mem && 0 < size < mem[fc].tag.size && Plus(fc, size) in mem && a in mem && a.blk != fc.blk
    requires fc.off + mem[fc].tag.size <= LINES_PER_BLOCK
    ensures a in HeadMem(mem, id, fc, size, last)
    ensures
      var m := HeadMem(mem, id, fc, size, last);
      if fc.off + mem[fc].tag.size == LINES_PER_BLOCK && !last && a == Addr(fc.blk + 1, 0)
      then m[a] == mem[a].(tag := mem[a].tag.(prevOffset := fc.off + size))
      else m[a] == mem[a]
  {
  }
}
