/**
 Agreement of the page bitmap with the chunks in use.
 */
module HeapBits {
  import opened HeapLayout
  import opened PageBitmaps
  import opened BucketLists
  import opened FreeListShape
  import opened AllocSteps
  import opened FreeSteps

  function Abs(a: Addr): nat {
    a.blk * LINES_PER_BLOCK + a.off
  }

  predicate PageBit(cells: seq<Cell>, b: nat, p: nat) {
    (b * PAGES_PER_BLOCK + p) / CELL < |cells| && Bit(cells, b * PAGES_PER_BLOCK + p)
  }

  /** The bitmap is long enough for the blocks. */
  ghost predicate Room(cells: seq<Cell>, blocks: set<nat>) {
    forall b :: b in blocks ==> (b + 1) * CELLS_PER_BLOCK <= |cells|
  }

  /** `n` lines from `a` on meet page `p` of its block. */
  predicate Touches(a: Addr, n: nat, p: nat) {
    a.off < (p + 1) * LINES_PER_PAGE && p * LINES_PER_PAGE < a.off + n
  }

  ghost predicate SomeTouches(live: map<Addr, nat>, b: nat, p: nat) {
    exists a :: a in live && a.blk == b && Touches(a, live[a], p)
  }

  /** In the given blocks a bit is set only for pages that meet a chunk in use, and for all of
      these, except that the pages of the chunk `pending` may still be missing. */
  ghost predicate Bits(cells: seq<Cell>, blocks: set<nat>, live: map<Addr, nat>, pending: Ptr) {
    && (forall b, p :: b in blocks && 0 <= p < PAGES_PER_BLOCK && PageBit(cells, b, p) ==> SomeTouches(live, b, p))
    && (forall a, p ::
        a in live && a.blk in blocks && 0 <= p < PAGES_PER_BLOCK && To(a) != pending && Touches(a, live[a], p) ==>
          PageBit(cells, a.blk, p))
  }

  /** A bit is set if and only if its page meets a chunk in use. */
  ghost predicate ExactBits(cells: seq<Cell>, blocks: set<nat>, live: map<Addr, nat>) {
    forall b, p :: b in blocks && 0 <= p < PAGES_PER_BLOCK ==> (PageBit(cells, b, p) <==> SomeTouches(live, b, p))
  }

  lemma ExactIsBits(cells: seq<Cell>, blocks: set<nat>, live: map<Addr, nat>)
    ensures ExactBits(cells, blocks, live) <==> Bits(cells, blocks, live, Null)
  {
    if ExactBits(cells, blocks, live) {
      forall a, p | a in live && a.blk in blocks && 0 <= p < PAGES_PER_BLOCK && Touches(a, live[a], p)
        ensures PageBit(cells, a.blk, p)
      {
        assert SomeTouches(live, a.blk, p);
      }
    }
  }

  /** `post` is `pre` with the bits of pages `lo` to `hi` of block `b` set to `value`. */
  ghost predicate PagesWritten(pre: seq<Cell>, post: seq<Cell>, b: nat, lo: nat, hi: nat, value: bool) {
    && |post| == |pre|
    && forall d: nat, p :: 0 <= p < PAGES_PER_BLOCK && (d * PAGES_PER_BLOCK + p) / CELL < |pre| ==>
         (PageBit(post, d, p) <==> if d == b && lo <= p < hi then value else PageBit(pre, d, p))
  }

  lemma WrittenPages(pre: seq<Cell>, post: seq<Cell>, b: nat, off: nat, size: nat, value: bool)
    requires Written(pre, post, b * LINES_PER_BLOCK + off, size, value) && off + size <= LINES_PER_BLOCK
    ensures PagesWritten(pre, post, b, off / LINES_PER_PAGE, (off + size + LINES_PER_PAGE - 1) / LINES_PER_PAGE, value)
  {
    forall d: nat, p | 0 <= p < PAGES_PER_BLOCK && (d * PAGES_PER_BLOCK + p) / CELL < |pre|
      ensures PageBit(post, d, p) <==>
        if d == b && off / LINES_PER_PAGE <= p < (off + size + LINES_PER_PAGE - 1) / LINES_PER_PAGE then value
            else PageBit(pre, d, p)
    {
      var page := d * PAGES_PER_BLOCK + p;
      assert page < |pre| * CELL;
      MeetsInBlock(b, off, size, d, p);
    }
  }

  lemma MeetsInBlock(b: nat, off: nat, size: nat, d: nat, p: nat)
    requires off + size <= LINES_PER_BLOCK && p < PAGES_PER_BLOCK
    ensures Meets(d * PAGES_PER_BLOCK + p, b * LINES_PER_BLOCK + off, size) <==>
      d == b && off / LINES_PER_PAGE <= p < (off + size + LINES_PER_PAGE - 1) / LINES_PER_PAGE
  {
    assert (b * LINES_PER_BLOCK + off) / LINES_PER_PAGE == b * PAGES_PER_BLOCK + off / LINES_PER_PAGE;
  }

  /** Setting the pages of the pending chunk completes the bitmap. */
  lemma MarkBits(cells: seq<Cell>, cells': seq<Cell>, blocks: set<nat>, live: map<Addr, nat>, x: Addr)
    requires Bits(cells, blocks, live, To(x)) && x in live && x.off + live[x] <= LINES_PER_BLOCK
    requires Room(cells, blocks)
    requires PagesWritten(cells, cells', x.blk, x.off / LINES_PER_PAGE,
                          (x.off + live[x] + LINES_PER_PAGE - 1) / LINES_PER_PAGE, true)
    ensures ExactBits(cells', blocks, live)
  {
    forall b, p | b in blocks && 0 <= p < PAGES_PER_BLOCK
      ensures PageBit(cells', b, p) <==> SomeTouches(live, b, p)
    {
      assert (b * PAGES_PER_BLOCK + p) / CELL < |cells|;
      if b == x.blk && Touches(x, live[x], p) {
        assert SomeTouches(live, b, p);
      } else {
        assert PageBit(cells', b, p) <==> PageBit(cells, b, p);
        if SomeTouches(live, b, p) {
          var a :| a in live && a.blk == b && Touches(a, live[a], p);
          assert To(a) != To(x);
        }
      }
    }
  }

  /** No page outside the blocks handed out is marked. */
  ghost predicate ClearOutside(cells: seq<Cell>, out: set<nat>) {
    forall b: nat, p :: b !in out && 0 <= p < PAGES_PER_BLOCK ==> !PageBit(cells, b, p)
  }

  /** After an allocation only the pages of the new chunk may be missing. */
  lemma PendBits(cells: seq<Cell>, blocks: set<nat>, blocks': set<nat>, live: map<Addr, nat>, c: Addr, size: nat)
    requires ExactBits(cells, blocks, live) && c !in live && blocks <= blocks'
    requires forall a :: a in live ==> a.blk in blocks
    requires forall b, p :: b in blocks' - blocks && 0 <= p < PAGES_PER_BLOCK ==> !PageBit(cells, b, p)
    ensures Bits(cells, blocks', live[c := size], To(c))
  {
    var live' := live[c := size];
    ExactIsBits(cells, blocks, live);
    forall b, p | b in blocks' && 0 <= p < PAGES_PER_BLOCK && PageBit(cells, b, p) ensures SomeTouches(live', b, p) {
      assert b !in blocks' - blocks;
      var a :| a in live && a.blk == b && Touches(a, live[a], p);
      assert a in live' && live'[a] == live[a];
    }
  }

  /** Setting the pages of the lines a chunk gained. */
  lemma GrowBits(cells: seq<Cell>, cells': seq<Cell>, blocks: set<nat>, live: map<Addr, nat>, c: Addr, size: nat)
    requires ExactBits(cells, blocks, live) && c in live && live[c] < size && c.off + size <= LINES_PER_BLOCK
    requires Room(cells, blocks)
    requires PagesWritten(cells, cells', c.blk, (c.off + live[c]) / LINES_PER_PAGE,
                          (c.off + size + LINES_PER_PAGE - 1) / LINES_PER_PAGE, true)
    ensures ExactBits(cells', blocks, live[c := size])
  {
    var live' := live[c := size];
    forall b, p | b in blocks && 0 <= p < PAGES_PER_BLOCK ensures PageBit(cells', b, p) <==> SomeTouches(live', b, p) {
      assert (b * PAGES_PER_BLOCK + p) / CELL < |cells|;
      if b == c.blk && Touches(c, size, p) {
        assert c in live' && live'[c] == size;
        assert SomeTouches(live', b, p);
        if Touches(c, live[c], p) { assert SomeTouches(live, b, p); }
      } else {
        GrowBitsOther(live, c, size, b, p);
      }
    }
  }

  lemma GrowBitsOther(live: map<Addr, nat>, c: Addr, size: nat, b: nat, p: nat)
    requires c in live && live[c] < size && !(b == c.blk && Touches(c, size, p))
    ensures SomeTouches(live[c := size], b, p) <==> SomeTouches(live, b, p)
  {
    var live' := live[c := size];
    if SomeTouches(live, b, p) {
      var a :| a in live && a.blk == b && Touches(a, live[a], p);
      assert a in live' && a.blk == b && Touches(a, live'[a], p);
    }
    if SomeTouches(live', b, p) {
      var a :| a in live' && a.blk == b && Touches(a, live'[a], p);
      assert a in live && a.blk == b && Touches(a, live[a], p);
    }
  }

  /** Writing the pages of one block leaves the bits of all others alone. */
  ghost predicate OthersSameBits(cells: seq<Cell>, cells': seq<Cell>, blocks: set<nat>) {
    && |cells'| == |cells|
    && forall b: nat, p :: b !in blocks && 0 <= p < PAGES_PER_BLOCK ==>
         (PageBit(cells', b, p) <==> PageBit(cells, b, p))
  }

  // ---------------------------------------------------------------- freeing

  /** First page the source clears. */
  function LowPage(c: Addr, fc: Addr): nat {
    var lb := c.off / LINES_PER_PAGE;
    if lb * LINES_PER_PAGE < fc.off then lb + 1 else lb
  }

  /** First page after those. */
  function HighPage(c: Addr, size: nat, fc: Addr, fcSize: nat): nat {
    var ub := (c.off + size) / LINES_PER_PAGE;
    if (ub + 1) * LINES_PER_PAGE <= fc.off + fcSize then ub + 1 else ub
  }

  /** The cleared pages are the pages inside `fc` that may meet the freed chunk. */
  lemma ClearedInside(c: Addr, size: nat, fc: Addr, fcSize: nat)
    requires fc.off <= c.off && c.off + size <= fc.off + fcSize && 0 < size && LINES_PER_PAGE <= fcSize
    ensures LowPage(c, fc) <= HighPage(c, size, fc, fcSize)
    ensures fc.off <= LowPage(c, fc) * LINES_PER_PAGE
    ensures HighPage(c, size, fc, fcSize) * LINES_PER_PAGE <= fc.off + fcSize
    ensures forall p: nat ::
      Touches(c, size, p) && fc.off <= p * LINES_PER_PAGE && (p + 1) * LINES_PER_PAGE <= fc.off + fcSize ==>
      LowPage(c, fc) <= p < HighPage(c, size, fc, fcSize)
  {
  }

  /** The bounds the source computes on absolute addresses. */
  function LowerBound(c: Addr, fc: Addr): nat {
    var lb := Abs(c) - Abs(c) % LINES_PER_PAGE;
    if lb < Abs(fc) then lb + LINES_PER_PAGE else lb
  }

  function UpperBound(c: Addr, size: nat, fc: Addr, fcSize: nat): nat {
    var ub := Abs(c) + size - (Abs(c) + size) % LINES_PER_PAGE;
    if ub + LINES_PER_PAGE <= Abs(fc) + fcSize then ub + LINES_PER_PAGE else ub
  }

  lemma BoundsArePages(c: Addr, size: nat, fc: Addr, fcSize: nat)
    requires fc.blk == c.blk
    ensures LowerBound(c, fc) == c.blk * LINES_PER_BLOCK + LowPage(c, fc) * LINES_PER_PAGE
    ensures UpperBound(c, size, fc, fcSize) == c.blk * LINES_PER_BLOCK + HighPage(c, size, fc, fcSize) * LINES_PER_PAGE
  {
  }

  lemma ClearedByWrite(pre: seq<Cell>, post: seq<Cell>, c: Addr, size: nat, fc: Addr, fcSize: nat)
    requires fc.blk == c.blk && fc.off <= c.off && c.off + size <= fc.off + fcSize <= LINES_PER_BLOCK && 0 < size
    requires LINES_PER_PAGE <= fcSize
    requires LowerBound(c, fc) <= UpperBound(c, size, fc, fcSize)
    requires Written(pre, post, LowerBound(c, fc), UpperBound(c, size, fc, fcSize) - LowerBound(c, fc), false)
    ensures Cleared(pre, post, c, size, fc, fcSize)
  {
    ClearedInside(c, size, fc, fcSize);
    BoundsArePages(c, size, fc, fcSize);
    var lo, hi := LowPage(c, fc), HighPage(c, size, fc, fcSize);
    WrittenPages(pre, post, c.blk, lo * LINES_PER_PAGE, (hi - lo) * LINES_PER_PAGE, false);
  }

  lemma BoundsOrdered(c: Addr, size: nat, fc: Addr, fcSize: nat)
    requires fc.blk == c.blk && fc.off <= c.off && c.off + size <= fc.off + fcSize <= LINES_PER_BLOCK && 0 < size
    requires LINES_PER_PAGE <= fcSize
    ensures LowerBound(c, fc) <= UpperBound(c, size, fc, fcSize) <= (c.blk + 1) * LINES_PER_BLOCK
  {
    ClearedInside(c, size, fc, fcSize);
    BoundsArePages(c, size, fc, fcSize);
  }

  lemma NothingWritten(cells: seq<Cell>, ptr: nat)
    requires ptr % LINES_PER_PAGE == 0
    ensures Written(cells, cells, ptr, 0, false)
  {
  }

  /** What `dealloc` does to the bitmap. */
  ghost predicate Cleared(cells: seq<Cell>, cells': seq<Cell>, c: Addr, size: nat, fc: Addr, fcSize: nat) {
    if fcSize < LINES_PER_PAGE then cells' == cells
    else PagesWritten(cells, cells', c.blk, LowPage(c, fc), HighPage(c, size, fc, fcSize), false)
  }

  /** A page of the freed chunk that is not wholly free meets a neighbour in use. */
  lemma StillTouched(m: Mem, id: nat, blocks: set<nat>, S: set<Addr>, heads: seq<Ptr>, lists: seq<seq<Addr>>, fc: Addr,
                     p: nat)
    requires Shape(m, id, blocks, S, heads, lists) && Free(m, S, fc) && Touches(fc, m[fc].tag.size, p)
    requires p < PAGES_PER_BLOCK
    requires p * LINES_PER_PAGE < fc.off || fc.off + m[fc].tag.size < (p + 1) * LINES_PER_PAGE
    ensures SomeTouches(Live(m, S), fc.blk, p)
  {
    assert Chunk(m, id, blocks, S, fc);
    if p * LINES_PER_PAGE < fc.off {
      PrevChunk(m, id, blocks, S, fc);
      var a := Addr(fc.blk, m[fc].tag.prevOffset);
      assert Chunk(m, id, blocks, S, a);
      assert m[a].tag.used;
      assert Touches(a, Live(m, S)[a], p);
    } else {
      var a := Plus(fc, m[fc].tag.size);
      assert Chunk(m, id, blocks, S, a);
      assert Touches(a, Live(m, S)[a], p);
    }
  }

  /** A page wholly inside a free chunk meets no chunk in use. */
  lemma InsideUntouched(m: Mem, id: nat, blocks: set<nat>, S: set<Addr>, fc: Addr, p: nat, a: Addr)
    requires Tiled(m, id, blocks, S) && Free(m, S, fc) && a in S && m[a].tag.used && a.blk == fc.blk
    requires fc.off <= p * LINES_PER_PAGE && (p + 1) * LINES_PER_PAGE <= fc.off + m[fc].tag.size
    ensures !Touches(a, m[a].tag.size, p)
  {
    if a.off < fc.off { ChunksDisjoint(m, id, blocks, S, a, fc); }
    if fc.off < a.off { ChunksDisjoint(m, id, blocks, S, fc, a); }
  }

  /** The trimmed clearing of `dealloc` keeps the bitmap right. */
  lemma FreeBits(cells: seq<Cell>, cells': seq<Cell>, m0: Mem, m: Mem, id: nat, blocks: set<nat>, starts: set<Addr>,
                 S: set<Addr>, heads: seq<Ptr>, lists: seq<seq<Addr>>, c: Addr, fc: Addr, pending: Ptr)
    requires Tiled(m0, id, blocks, starts) && c in starts && m0[c].tag.used
    requires Freed(m0, m, id, blocks, starts, S, heads, lists, c, fc)
    requires Bits(cells, blocks, Live(m0, starts), pending) && pending != To(c)
    requires Room(cells, blocks)
    requires Cleared(cells, cells', c, m0[c].tag.size, fc, m[fc].tag.size)
    ensures Bits(cells', blocks, Live(m, S), pending)
  {
    var live0, live := Live(m0, starts), Live(m, S);
    FreedMeans(m0, m, id, blocks, starts, S, heads, lists, c, fc);
    assert Chunk(m0, id, blocks, starts, c);
    forall b, p | b in blocks && 0 <= p < PAGES_PER_BLOCK && PageBit(cells', b, p) ensures SomeTouches(live, b, p) {
      FreeBitsSound(cells, cells', m0, m, id, blocks, starts, S, heads, lists, c, fc, b, p);
    }
    forall a, p | a in live && a.blk in blocks && 0 <= p < PAGES_PER_BLOCK && To(a) != pending && Touches(a, live[a], p)
      ensures PageBit(cells', a.blk, p)
    {
      assert a in live0 && live0[a] == live[a];
      assert PageBit(cells, a.blk, p);
      FreeBitsKeep(cells, cells', m, id, blocks, S, c, m0[c].tag.size, fc, a, p);
    }
  }

  lemma FreeBitsKeep(cells: seq<Cell>, cells': seq<Cell>, m: Mem, id: nat, blocks: set<nat>, S: set<Addr>,
                     c: Addr, size: nat, fc: Addr, a: Addr, p: nat)
    requires Tiled(m, id, blocks, S) && Free(m, S, fc) && a in S && m[a].tag.used
    requires fc.blk == c.blk && fc.off <= c.off && c.off + size <= fc.off + m[fc].tag.size && 0 < size
    requires Cleared(cells, cells', c, size, fc, m[fc].tag.size)
    requires p < PAGES_PER_BLOCK && Touches(a, m[a].tag.size, p) && PageBit(cells, a.blk, p)
    ensures PageBit(cells', a.blk, p)
  {
    if LINES_PER_PAGE <= m[fc].tag.size {
      ClearedInside(c, size, fc, m[fc].tag.size);
      if a.blk == c.blk && LowPage(c, fc) <= p < HighPage(c, size, fc, m[fc].tag.size) {
        InsideUntouched(m, id, blocks, S, fc, p, a);
      }
    }
  }

  lemma FreeBitsSound(cells: seq<Cell>, cells': seq<Cell>, m0: Mem, m: Mem, id: nat, blocks: set<nat>,
                      starts: set<Addr>, S: set<Addr>, heads: seq<Ptr>, lists: seq<seq<Addr>>, c: Addr, fc: Addr,
                      b: nat, p: nat)
    requires Freed(m0, m, id, blocks, starts, S, heads, lists, c, fc) && 0 < m0[c].tag.size
    requires c in Live(m0, starts) && Live(m, S) == Live(m0, starts) - {c}
    requires b in blocks && p < PAGES_PER_BLOCK && (b * PAGES_PER_BLOCK + p) / CELL < |cells|
    requires PageBit(cells, b, p) ==> SomeTouches(Live(m0, starts), b, p)
    requires Cleared(cells, cells', c, m0[c].tag.size, fc, m[fc].tag.size)
    requires PageBit(cells', b, p)
    ensures SomeTouches(Live(m, S), b, p)
  {
    assert PageBit(cells, b, p);
    var a :| a in Live(m0, starts) && a.blk == b && Touches(a, Live(m0, starts)[a], p);
    if a == c {
      if fc.off <= p * LINES_PER_PAGE && (p + 1) * LINES_PER_PAGE <= fc.off + m[fc].tag.size {
        ClearedInside(c, m0[c].tag.size, fc, m[fc].tag.size);
      } else {
        StillTouched(m, id, blocks, S, heads, lists, fc, p);
      }
    } else {
      assert a in Live(m, S) && Live(m, S)[a] == Live(m0, starts)[a];
    }
  }

  /** All but the given block is as before. */
  lemma PagesElsewhere(cells: seq<Cell>, cells': seq<Cell>, blocks: set<nat>, b: nat, lo: nat, hi: nat, value: bool)
    requires PagesWritten(cells, cells', b, lo, hi, value) && b in blocks
    ensures OthersSameBits(cells, cells', blocks)
  {
    forall d: nat, p | d !in blocks && 0 <= p < PAGES_PER_BLOCK
      ensures PageBit(cells', d, p) <==> PageBit(cells, d, p) {
      if (d * PAGES_PER_BLOCK + p) / CELL < |cells| { assert d != b; }
    }
  }

  lemma ClearedElsewhere(cells: seq<Cell>, cells': seq<Cell>, blocks: set<nat>, c: Addr, size: nat, fc: Addr,
                         fcSize: nat)
    requires Cleared(cells, cells', c, size, fc, fcSize) && c.blk in blocks
    ensures OthersSameBits(cells, cells', blocks)
  {
    if LINES_PER_PAGE <= fcSize {
      PagesElsewhere(cells, cells', blocks, c.blk, LowPage(c, fc), HighPage(c, size, fc, fcSize), false);
    }
  }

  /** Bits outside `out` stay clear when only blocks of `out` are written. */
  lemma StillClear(cells: seq<Cell>, cells': seq<Cell>, blocks: set<nat>, out: set<nat>, out': set<nat>)
    requires ClearOutside(cells, out) && OthersSameBits(cells, cells', blocks) && blocks <= out' && out <= out'
    ensures ClearOutside(cells', out')
  {
  }

  lemma SameTwice(c0: seq<Cell>, c1: seq<Cell>, c2: seq<Cell>, blocks: set<nat>)
    requires OthersSameBits(c0, c1, blocks) && OthersSameBits(c1, c2, blocks)
    ensures OthersSameBits(c0, c2, blocks)
  {
  }

  /** A newly taken block has no marked page. */
  lemma TakenClear(cells: seq<Cell>, blocks: set<nat>, blocks': set<nat>, out: set<nat>, out': set<nat>,
                   live: map<Addr, nat>, x: Addr, size: nat)
    requires ExactBits(cells, blocks, live) && ClearOutside(cells, out) && x !in live
    requires forall a :: a in live ==> a.blk in blocks
    requires (blocks' == blocks && out' == out)
      || (blocks' == blocks + {x.blk} && out' == out + {x.blk} && x.blk !in out)
    ensures Bits(cells, blocks', live[x := size], To(x))
  {
    PendBits(cells, blocks, blocks', live, x, size);
  }

  lemma LiveBlocks(mem: Mem, id: nat, blocks: set<nat>, starts: set<Addr>)
    requires Tiled(mem, id, blocks, starts)
    ensures forall a :: a in Live(mem, starts) ==> a.blk in blocks && a.off + Live(mem, starts)[a] <= LINES_PER_BLOCK
  {
    forall a | a in Live(mem, starts) ensures a.blk in blocks && a.off + Live(mem, starts)[a] <= LINES_PER_BLOCK {
      assert Chunk(mem, id, blocks, starts, a);
    }
  }

  lemma RoomBelow(cells: seq<Cell>, blocks: set<nat>, limit: nat)
    requires |cells| == limit * CELLS_PER_BLOCK && forall b :: b in blocks ==> b < limit
    ensures Room(cells, blocks)
  {
  }

  lemma RoomAt(cells: seq<Cell>, limit: nat, b: nat)
    requires |cells| == limit * CELLS_PER_BLOCK && b < limit
    ensures (b + 1) * CELLS_PER_BLOCK <= |cells|
  {
  }
}
