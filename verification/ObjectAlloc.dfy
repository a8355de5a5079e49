/**
 The allocator of one object: several free lists over the same memory, block supply and bitmap.
 */
module ObjectAllocs {
  import opened HeapLayout
  import opened BucketLists
  import opened FreeListShape
  import opened AllocSteps
  import opened ReallocSteps
  import opened PageBitmaps
  import opened HeapBits
  import opened GlobalAllocator
  import opened BigChunks
  import opened FreeSites
  import opened FreeLists
  import ByteCounts

  const HEADER_BYTES := 8
  const LINE_BYTES := 64

  /** Lines of a chunk for a request of `size` bytes: header added, rounded up. */
  function Lines(size: nat): (n: nat)
    ensures 0 < n && size + HEADER_BYTES <= n * LINE_BYTES < size + HEADER_BYTES + LINE_BYTES
  {
    (size + HEADER_BYTES + LINE_BYTES - 1) / LINE_BYTES
  }

  /** The units in bytes: blocks of 2 MB in 1 TB of addresses, 29-bit sizes in chunk and region headers, a 64-bit
      counter, and one bit of the bitmap for each 4 KB page. */
  lemma Widths()
    ensures LINE_BYTES * LINES_PER_BLOCK == Pow2(21) && LINE_BYTES * LINES_PER_BLOCK * MAX_BLOCKS == Pow2(40)
    ensures LINE_BYTES * SIZE_FIELD == Pow2(29) && LINE_BYTES * LINES_PER_BLOCK * SIZE_LIMIT == Pow2(29)
    ensures LINE_BYTES * ByteCounts.COUNTER == Pow2(64)
    ensures LINE_BYTES * LINES_PER_PAGE == Pow2(12) && LINES_PER_PAGE == PAGE && LINES_PER_BLOCK == BLOCK
    ensures CELLS_PER_BLOCK * CELL * PAGE == BLOCK && PAGES_PER_BLOCK * PAGE == BLOCK
  {
    assert Pow2(12) == 0x1000 && Pow2(21) == 0x200000 && Pow2(29) == 0x20000000;
    assert Pow2(40) == 0x10000000000 && Pow2(52) == 0x10000000000000 && Pow2(64) == 0x10000000000000000;
  }

  /** What one list promises about its blocks. */
  ghost predicate ListOk(mem: Mem, cells: seq<Cell>, out: set<nat>, id: nat, blocks: set<nat>, starts: set<Addr>,
                         heads: seq<Ptr>, lists: seq<seq<Addr>>)
  {
    Shape(mem, id, blocks, starts, heads, lists) && ExactBits(cells, blocks, Live(mem, starts)) && blocks <= out
  }

  /** Work in other blocks does not touch a list, its chunks in use or their contents. */
  lemma ListFrame(mem: Mem, mem': Mem, cells: seq<Cell>, cells': seq<Cell>, out: set<nat>, out': set<nat>,
                  other: set<nat>, id: nat, blocks: set<nat>, starts: set<Addr>, heads: seq<Ptr>, lists: seq<seq<Addr>>)
    requires ListOk(mem, cells, out, id, blocks, starts, heads, lists) && blocks !! other && out - other <= out'
    requires Within(mem, mem', other) && OthersSameBits(cells, cells', other)
    ensures ListOk(mem', cells', out', id, blocks, starts, heads, lists)
    ensures Live(mem', starts) == Live(mem, starts) && PayloadsKept(mem, mem', Live(mem, starts))
  {
    StartsInBlocks(mem, id, blocks, starts);
    assert forall a :: a in starts ==> mem'[a] == mem[a];
    PayloadShape(mem, mem', id, blocks, starts, heads, lists);
    assert Live(mem', starts) == Live(mem, starts);
    forall a | a in Live(mem, starts) ensures SamePayload(mem, mem', a, Live(mem, starts)[a]) {
      assert Chunk(mem, id, blocks, starts, a);
    }
    forall b, p | b in blocks && 0 <= p < PAGES_PER_BLOCK
      ensures PageBit(cells', b, p) <==> SomeTouches(Live(mem, starts), b, p)
    {
      assert b !in other;
    }
  }

  /** The lines of the blocks are as before. */
  ghost predicate SameLines(m0: Mem, m: Mem, blocks: set<nat>) {
    forall a: Addr :: a in m0 && a.blk in blocks ==> a in m && m[a] == m0[a]
  }

  /** The ghost view of one list. */
  datatype ListState = ListState(blocks: set<nat>, starts: set<Addr>, heads: seq<Ptr>, lists: seq<seq<Addr>>)

  ghost predicate StateOk(mem: Mem, cells: seq<Cell>, out: set<nat>, id: nat, s: ListState) {
    ListOk(mem, cells, out, id, s.blocks, s.starts, s.heads, s.lists)
  }

  /** No block belongs to two lists, to two big chunks, or to a list and a big chunk. */
  ghost predicate Apart(states: seq<ListState>, big: map<nat, nat>) {
    && (forall i, j :: 0 <= i < j < |states| ==> states[i].blocks !! states[j].blocks)
    && (forall b, i :: b in big && 0 <= i < |states| ==> BigRange(b, big[b]) !! states[i].blocks)
    && (forall b, d :: b in big && d in big && b != d ==> BigRange(b, big[b]) !! BigRange(d, big[d]))
  }

  /** All lists and all big chunks are well. */
  ghost predicate AllOk(mem: Mem, cells: seq<Cell>, out: set<nat>, states: seq<ListState>, big: map<nat, nat>) {
    && (forall i :: 0 <= i < |states| ==> StateOk(mem, cells, out, i, states[i]))
    && (forall b :: b in big ==> BigOk(mem, cells, out, |states|, b, big[b]))
    && Apart(states, big)
  }

  /** All lists but `i` have the same chunks in use with the same contents, and the big chunks still in use have the
      same lines. */
  ghost predicate AllKept(mem: Mem, mem': Mem, states: seq<ListState>, states': seq<ListState>, big: map<nat, nat>,
                          big': map<nat, nat>, i: int) {
    && |states'| == |states|
    && (forall j :: 0 <= j < |states| && j != i ==>
          Live(mem', states'[j].starts) == Live(mem, states[j].starts)
              && PayloadsKept(mem, mem', Live(mem, states[j].starts)))
    && (forall b :: b in big && b in big' ==> SameLines(mem, mem', BigRange(b, big[b])))
  }

  /** All lists but `i` are as they were. */
  ghost predicate OnlyList(states: seq<ListState>, states': seq<ListState>, i: int) {
    |states'| == |states| && forall j :: 0 <= j < |states| && j != i ==> states'[j] == states[j]
  }

  /** Only the blocks `other` were worked on, and nothing but list `i` lives there. */
  ghost predicate Worked(mem: Mem, mem': Mem, cells: seq<Cell>, cells': seq<Cell>, out: set<nat>, out': set<nat>,
                         other: set<nat>, states: seq<ListState>, states': seq<ListState>, big: map<nat, nat>,
                         big': map<nat, nat>, i: int)
  {
    && Within(mem, mem', other) && OthersSameBits(cells, cells', other) && out - other <= out' && |states'| == |states|
    && (forall j :: 0 <= j < |states| && j != i ==> states'[j] == states[j] && states[j].blocks !! other)
    && (forall b :: b in big && b in big' ==> big'[b] == big[b] && BigRange(b, big[b]) !! other)
  }

  lemma Untouched(mem: Mem, mem': Mem, cells: seq<Cell>, cells': seq<Cell>, out: set<nat>, out': set<nat>,
                  other: set<nat>, states: seq<ListState>, states': seq<ListState>, big: map<nat, nat>,
                  big': map<nat, nat>, i: int)
    requires AllOk(mem, cells, out, states, big)
    requires Worked(mem, mem', cells, cells', out, out', other, states, states', big, big', i)
    ensures forall j :: 0 <= j < |states| && j != i ==> StateOk(mem', cells', out', j, states'[j])
    ensures forall b :: b in big && b in big' ==> BigOk(mem', cells', out', |states|, b, big'[b])
    ensures AllKept(mem, mem', states, states', big, big', i)
  {
    forall j | 0 <= j < |states| && j != i
      ensures StateOk(mem', cells', out', j, states'[j])
      ensures Live(mem', states'[j].starts) == Live(mem, states[j].starts)
      ensures PayloadsKept(mem, mem', Live(mem, states[j].starts))
    {
      var s := states[j];
      ListFrame(mem, mem', cells, cells', out, out', other, j, s.blocks, s.starts, s.heads, s.lists);
    }
    forall b | b in big && b in big'
      ensures BigOk(mem', cells', out', |states|, b, big'[b]) && SameLines(mem, mem', BigRange(b, big[b]))
    {
      BigFrame(mem, mem', cells, cells', out, out', other, |states|, b, big[b]);
    }
  }

  /** Work on list `i`, whose blocks were its own or nobody's. */
  lemma Reassemble(mem: Mem, mem': Mem, cells: seq<Cell>, cells': seq<Cell>, out: set<nat>, out': set<nat>,
                   states: seq<ListState>, states': seq<ListState>, big: map<nat, nat>, i: nat)
    requires AllOk(mem, cells, out, states, big) && i < |states| && OnlyList(states, states', i) && out <= out'
    requires StateOk(mem', cells', out', i, states'[i]) && (states'[i].blocks - states[i].blocks) !! out
    requires Within(mem, mem', states'[i].blocks) && OthersSameBits(cells, cells', states'[i].blocks)
    ensures AllOk(mem', cells', out', states', big) && AllKept(mem, mem', states, states', big, big, i)
  {
    var other := states'[i].blocks;
    forall j | 0 <= j < |states| && j != i ensures states[j].blocks !! other {
      assert StateOk(mem, cells, out, j, states[j]);
      assert states[j].blocks !! states[i].blocks;
    }
    forall b | b in big ensures BigRange(b, big[b]) !! other {
      assert BigOk(mem, cells, out, |states|, b, big[b]);
      assert BigRange(b, big[b]) !! states[i].blocks;
    }
    Untouched(mem, mem', cells, cells', out, out', other, states, states', big, big, i);
  }

  /** A new big chunk in blocks that were not handed out. */
  lemma BigTaken(mem: Mem, mem': Mem, cells: seq<Cell>, cells': seq<Cell>, out: set<nat>, states: seq<ListState>,
                 big: map<nat, nat>, i: nat, b: nat, n: nat)
    requires AllOk(mem, cells, out, states, big) && i < |states| && LINES_PER_BLOCK < n && BigRange(b, n) !! out
    requires ClearOutside(cells, out) && |cells| == MAX_BLOCKS * CELLS_PER_BLOCK && b + BigBlocks(n) <= MAX_BLOCKS
    requires Addr(b, 0) in mem && mem' == WithTag(mem, Addr(b, 0), Tag(0, i, true, true, true, SizeField(n)))
    requires Written(cells, cells', b * BLOCK, n, true)
    ensures b !in big && AllOk(mem', cells', out + BigRange(b, n), states, big[b := n])
    ensures ClearOutside(cells', out + BigRange(b, n))
    ensures AllKept(mem, mem', states, states, big, big[b := n], -1)
  {
    var other := BigRange(b, n);
    assert b in other;
    BigsHeld(mem, cells, out, states, big);
    BigMarked(cells, cells', MAX_BLOCKS, b, n);
    StillClear(cells, cells', other, out, out + other);
    OutApart(mem, cells, out, states, big, other);
    Untouched(mem, mem', cells, cells', out, out + other, other, states, states, big, big[b := n], -1);
  }

  /** The first block of a big chunk is handed out and is no list's. */
  lemma BigsHeld(mem: Mem, cells: seq<Cell>, out: set<nat>, states: seq<ListState>, big: map<nat, nat>)
    requires AllOk(mem, cells, out, states, big)
    ensures forall b :: b in big ==> b in BigRange(b, big[b]) && b in out
    ensures forall b, i :: b in big && 0 <= i < |states| ==> b !in states[i].blocks
  {
    forall b | b in big ensures b in BigRange(b, big[b]) && b in out {
      assert BigOk(mem, cells, out, |states|, b, big[b]);
    }
    forall b, i | b in big && 0 <= i < |states| ensures b !in states[i].blocks {
      assert BigRange(b, big[b]) !! states[i].blocks;
    }
  }

  /** Blocks that were not handed out are apart from all lists and all big chunks. */
  lemma OutApart(mem: Mem, cells: seq<Cell>, out: set<nat>, states: seq<ListState>, big: map<nat, nat>, other: set<nat>)
    requires AllOk(mem, cells, out, states, big) && other !! out
    ensures forall j :: 0 <= j < |states| ==> states[j].blocks !! other
    ensures forall b :: b in big ==> BigRange(b, big[b]) !! other
  {
    forall j | 0 <= j < |states| ensures states[j].blocks !! other { assert StateOk(mem, cells, out, j, states[j]); }
    forall b | b in big ensures BigRange(b, big[b]) !! other { assert BigOk(mem, cells, out, |states|, b, big[b]); }
  }

  /** The first `k` blocks of big chunk `b` are given back; the rest of them, if any, is nobody's. */
  lemma BigGiven(mem: Mem, mem': Mem, cells: seq<Cell>, cells': seq<Cell>, out: set<nat>, states: seq<ListState>,
                 big: map<nat, nat>, b: nat, k: nat)
    requires AllOk(mem, cells, out, states, big) && ClearOutside(cells, out) && b in big && 0 < k <= BigBlocks(big[b])
    requires Addr(b, 0) in mem && mem' == WithTag(mem, Addr(b, 0), Tag(0, 0, false, false, false, 0))
    requires Written(cells, cells', b * BLOCK, k * BLOCK, false)
    ensures AllOk(mem', cells', out - Blocks(b, k), states, big - {b}) && ClearOutside(cells', out - Blocks(b, k))
    ensures AllKept(mem, mem', states, states, big, big - {b}, -1)
  {
    var other := Blocks(b, k);
    assert b in other && other <= BigRange(b, big[b]);
    BigCleared(cells, cells', out, b, k);
    forall j | 0 <= j < |states| ensures states[j].blocks !! other { assert BigRange(b, big[b]) !! states[j].blocks; }
    forall d | d in big && d != b ensures BigRange(d, big[d]) !! other {
      assert BigRange(d, big[d]) !! BigRange(b, big[b]);
    }
    Untouched(mem, mem', cells, cells', out, out - other, other, states, states, big, big - {b}, -1);
  }

  /** Big chunk `b` has gone to list `i` as a stray chunk that it could take over. */
  lemma BigStrayed(mem: Mem, mem': Mem, cells: seq<Cell>, cells': seq<Cell>, out: set<nat>, states: seq<ListState>,
                   states': seq<ListState>, big: map<nat, nat>, i: nat, b: nat)
    requires AllOk(mem, cells, out, states, big) && b in big && i < |states| && OnlyList(states, states', i)
    requires StateOk(mem', cells', out, i, states'[i]) && states'[i].blocks == states[i].blocks + {b}
    requires Within(mem, mem', states'[i].blocks) && OthersSameBits(cells, cells', states'[i].blocks)
    ensures AllOk(mem', cells', out, states', big - {b}) && AllKept(mem, mem', states, states', big, big - {b}, i)
  {
    var other := states'[i].blocks;
    assert b in BigRange(b, big[b]);
    forall j | 0 <= j < |states| && j != i ensures states[j].blocks !! other {
      assert BigRange(b, big[b]) !! states[j].blocks && states[j].blocks !! states[i].blocks;
    }
    forall d | d in big && d != b ensures BigRange(d, big[d]) !! other {
      assert BigRange(d, big[d]) !! BigRange(b, big[b]) && BigRange(d, big[d]) !! states[i].blocks;
    }
    Untouched(mem, mem', cells, cells', out, out, other, states, states', big, big - {b}, i);
  }

  /** What the dispatch to a free list leads to. A stray chunk is taken over when it has the size of a block; otherwise
      the list has no shape. */
  ghost predicate SmallFreed(stray: bool, mem: Mem, mem': Mem, cells: seq<Cell>, cells': seq<Cell>, out: set<nat>,
                             states: seq<ListState>, states': seq<ListState>, big: map<nat, nat>, k: nat, c: Addr)
  {
    && k < |states| == |states'| && c in mem
    && if !stray
       then AllOk(mem', cells', out, states', big) && AllKept(mem, mem', states, states', big, big, k)
            && Live(mem', states'[k].starts) == Live(mem, states[k].starts) - {c}
            && PayloadsKept(mem, mem', Live(mem', states'[k].starts))
       else if mem[c].tag.size == LINES_PER_BLOCK
       then AllOk(mem', cells', out, states', big - {c.blk})
           && AllKept(mem, mem', states, states', big, big - {c.blk}, -1)
       else NoShape(mem', k, states'[k].heads)
  }

  lemma SmallDone(stray: bool, mem: Mem, mem': Mem, cells: seq<Cell>, cells': seq<Cell>, out: set<nat>,
                  states: seq<ListState>, states': seq<ListState>, big: map<nat, nat>, k: nat, c: Addr)
    requires AllOk(mem, cells, out, states, big) && k < |states| && OnlyList(states, states', k) && c in mem
    requires stray ==> c.blk in big && c.blk in out
    requires DeallocGood(stray, mem, mem', cells, cells', out, k, states[k].blocks, states'[k].blocks,
                         states[k].starts, states'[k].starts, states'[k].heads, states'[k].lists, c)
    ensures SmallFreed(stray, mem, mem', cells, cells', out, states, states', big, k, c)
  {
    assert StateOk(mem, cells, out, k, states[k]);
    if !stray {
      Reassemble(mem, mem', cells, cells', out, out, states, states', big, k);
    } else if mem[c].tag.size == LINES_PER_BLOCK {
      BigStrayed(mem, mem', cells, cells', out, states, states', big, k, c.blk);
    }
  }

  /** The end of big chunk `c`. All its blocks are given back exactly when its size fits the 29-bit field. The lists and
      the other big chunks keep their contents, unless the field holds less than a block: then the list named in the
      header has no shape left. */
  ghost predicate BigFreed(mem: Mem, mem': Mem, out: set<nat>, out': set<nat>, states: seq<ListState>,
                           states': seq<ListState>, big: map<nat, nat>, big': map<nat, nat>, c: Addr)
  {
    && c.blk in big && big' == big - {c.blk} && c in mem
    && var n, k := big[c.blk], mem[c].tag.listId;
    && out' == (if LINES_PER_BLOCK < SizeField(n) then out - BigRange(c.blk, SizeField(n)) else out)
    && (out' !! BigRange(c.blk, n) <==> n < SIZE_FIELD)
    && if SizeField(n) < LINES_PER_BLOCK
       then k < |states'| && NoShape(mem', k, states'[k].heads)
       else AllKept(mem, mem', states, states', big, big', -1)
  }

  lemma StrayGone(mem: Mem, mem': Mem, cells: seq<Cell>, cells': seq<Cell>, out: set<nat>, states: seq<ListState>,
                  states': seq<ListState>, big: map<nat, nat>, k: nat, c: Addr)
    requires AllOk(mem, cells, out, states, big) && c.off == 0 && c.blk in big && c in mem && mem[c].tag.listId == k
    requires mem[c].tag.size <= LINES_PER_BLOCK
    requires SmallFreed(true, mem, mem', cells, cells', out, states, states', big, k, c)
    ensures BigFreed(mem, mem', out, out, states, states', big, big - {c.blk}, c)
  {
    assert BigOk(mem, cells, out, |states|, c.blk, big[c.blk]) && c == Addr(c.blk, 0);
    StoredBlocks(c.blk, big[c.blk]);
    assert c.blk in BigRange(c.blk, big[c.blk]);
  }

  /** All is well after a stray chunk exactly if it has the size of a block. */
  lemma StrayOk(mem: Mem, mem': Mem, cells: seq<Cell>, cells': seq<Cell>, out: set<nat>, states: seq<ListState>,
                states': seq<ListState>, big: map<nat, nat>, k: nat, c: Addr)
    requires SmallFreed(true, mem, mem', cells, cells', out, states, states', big, k, c)
    ensures AllOk(mem', cells', out, states', big - {c.blk}) <==> mem[c].tag.size == LINES_PER_BLOCK
  {
    if AllOk(mem', cells', out, states', big - {c.blk}) { assert StateOk(mem', cells', out, k, states'[k]); }
  }

  /** A chunk of list `i`, or a big one that the size field sends to a list, is freed. */
  ghost predicate ListedFreed(stray: bool, mem: Mem, mem': Mem, cells: seq<Cell>, cells': seq<Cell>, out: set<nat>,
                              states: seq<ListState>, states': seq<ListState>, big: map<nat, nat>, big': map<nat, nat>,
                              i: nat, c: Addr)
  {
    if stray
    then
      && BigFreed(mem, mem', out, out, states, states', big, big', c)
      && SizeField(big[c.blk]) <= LINES_PER_BLOCK
      && (AllOk(mem', cells', out, states', big') <==> SizeField(big[c.blk]) == LINES_PER_BLOCK)
    else big' == big && SmallFreed(false, mem, mem', cells, cells', out, states, states', big, i, c)
  }

  lemma GivenFreed(mem: Mem, mem': Mem, out: set<nat>, out': set<nat>, states: seq<ListState>, big: map<nat, nat>,
                   c: Addr)
    requires c.blk in big && c in mem && LINES_PER_BLOCK < big[c.blk] && LINES_PER_BLOCK < SizeField(big[c.blk])
    requires BigRange(c.blk, big[c.blk]) <= out
    requires AllKept(mem, mem', states, states, big, big - {c.blk}, -1)
    requires out' == out - BigRange(c.blk, SizeField(big[c.blk]))
    ensures BigFreed(mem, mem', out, out', states, states, big, big - {c.blk}, c)
  {
    StoredBlocks(c.blk, big[c.blk]);
  }

  /** The stores of a big free: the header cleared, and the blocks that its size field stands for given back with their
      bits. */
  ghost predicate GivenBack(mem: Mem, mem': Mem, cells: seq<Cell>, cells': seq<Cell>, out: set<nat>, out': set<nat>,
                            big: map<nat, nat>, c: Addr) {
    && c.blk in big && c == Addr(c.blk, 0) && c in mem && mem' == WithTag(mem, c, Tag(0, 0, false, false, false, 0))
    && var k := BigBlocks(SizeField(big[c.blk]));
         0 < k && out' == out - Blocks(c.blk, k) && Written(cells, cells', c.blk * BLOCK, k * BLOCK, false)
  }

  lemma BigDone(mem: Mem, mem': Mem, cells: seq<Cell>, cells': seq<Cell>, out: set<nat>, out': set<nat>,
                states: seq<ListState>, big: map<nat, nat>, c: Addr)
    requires AllOk(mem, cells, out, states, big) && ClearOutside(cells, out)
    requires GivenBack(mem, mem', cells, cells', out, out', big, c)
    requires LINES_PER_BLOCK < SizeField(big[c.blk])
    ensures AllOk(mem', cells', out', states, big - {c.blk}) && ClearOutside(cells', out') && mem'.Keys == mem.Keys
    ensures BigFreed(mem, mem', out, out', states, states, big, big - {c.blk}, c)
  {
    assert BigOk(mem, cells, out, |states|, c.blk, big[c.blk]);
    StoredBlocks(c.blk, big[c.blk]);
    BigGiven(mem, mem', cells, cells', out, states, big, c.blk, BigBlocks(SizeField(big[c.blk])));
    GivenFreed(mem, mem', out, out', states, big, c);
  }

  /** What growing chunk `c` of list `k` to `n` lines leads to. */
  ghost predicate Grew(safe: bool, mem: Mem, mem': Mem, cells': seq<Cell>, out': set<nat>, states: seq<ListState>,
                       states': seq<ListState>, big: map<nat, nat>, k: nat, c: Addr, x: Addr, n: nat)
  {
    && k < |states| == |states'|
    && if safe
       then AllOk(mem', cells', out', states', big) && AllKept(mem, mem', states, states', big, big, k)
            && Regrown(mem, mem', Live(mem, states[k].starts), Live(mem', states'[k].starts), c, x, n)
       else NoTiling(mem', k, states'[k].blocks) && states'[k].blocks == states[k].blocks
  }

  lemma GrewDone(safe: bool, mem: Mem, mem': Mem, cells: seq<Cell>, cells': seq<Cell>, out: set<nat>, out': set<nat>,
                 states: seq<ListState>, states': seq<ListState>, big: map<nat, nat>, k: nat, c: Addr, x: Addr, n: nat)
    requires AllOk(mem, cells, out, states, big) && k < |states| && OnlyList(states, states', k)
    requires BlockTaken(states[k].blocks, out, states'[k].blocks, out', x) && states'[k].blocks <= out'
    requires (safe || states'[k].blocks == states[k].blocks)
    requires MoveResult(safe, mem, mem', cells, cells', out', k, states'[k].blocks, states[k].starts,
                        states'[k].starts, states'[k].heads, states'[k].lists, c, x, n)
    ensures Grew(safe, mem, mem', cells', out', states, states', big, k, c, x, n)
  {
    if safe { Reassemble(mem, mem', cells, cells', out, out', states, states', big, k); }
  }

  class ObjectAlloc {
    const lists: seq<FreeList>
    const space: AddressSpace
    const ga: GlobalAlloc
    const bitmap: PageBitmap

    /** Lines of the big chunks in use, by their first block. */
    ghost var big: map<nat, nat>

    ghost predicate Wired()
    {
      && 0 < |lists|
      && forall i :: 0 <= i < |lists| ==>
           lists[i].id == i && lists[i].space == space && lists[i].ga == ga && lists[i].bitmap == bitmap
    }

    /** The address range and the bitmap are there, and no page is marked outside the blocks handed out. */
    ghost predicate Spacious()
      reads space, ga, bitmap.cells
    {
      && (forall a: Addr :: a.blk < MAX_BLOCKS && a.off < LINES_PER_BLOCK ==> a in space.mem)
      && bitmap.cells.Length == MAX_BLOCKS * CELLS_PER_BLOCK && ClearOutside(bitmap.cells[..], ga.out)
    }

    ghost function State(i: nat): ListState
      requires i < |lists|
      reads lists[i]
    {
      ListState(lists[i].blocks, lists[i].starts, lists[i].buckets, lists[i].lists)
    }

    ghost function States(): (s: seq<ListState>)
      reads lists
      ensures |s| == |lists| && forall i :: 0 <= i < |lists| ==> s[i] == State(i)
    {
      seq(|lists|, i requires 0 <= i < |lists| reads lists => State(i))
    }

    ghost predicate Valid()
      reads this, lists, space, ga, bitmap.cells
    {
      ga.Valid() && Sound()
    }

    /** All but the partition of the global allocator. */
    ghost predicate Sound()
      reads this, lists, space, ga, bitmap.cells
    {
      Wired() && Spacious() && AllOk(space.mem, bitmap.cells[..], ga.out, States(), big)
    }

    /** Chunks in use of list `i`. */
    ghost function LiveOf(i: nat): map<Addr, nat>
      requires i < |lists|
      reads lists[i], space
    {
      Live(space.mem, lists[i].starts)
    }

    /** An allocation of at most a block from list `i`. Exactly when the split is safe all lists are well again; the
        chunk is then fresh, all other contents stay, and the page bits are exact. */
    method AllocSmall(i: nat, n: nat) returns (c: Addr)
      requires Valid() && i < |lists| && 0 < n <= LINES_PER_BLOCK && Extent(ga.mapped) + MIN_POOL_BLOCKS <= MAX_BLOCKS
      modifies lists[i], space, ga, bitmap.cells
      ensures if SplitSafe(old(space.mem), old(lists[i].lists), n)
              then Valid() && AllKept(old(space.mem), space.mem, old(States()), States(), big, big, i)
                   && c !in old(LiveOf(i)) && LiveOf(i) == old(LiveOf(i))[c := n]
                   && PayloadsKept(old(space.mem), space.mem, old(LiveOf(i)))
              else NoTiling(space.mem, i, lists[i].blocks) && lists[i].blocks == old(lists[i].blocks)
    {
      ghost var m0, cells0, out0, states0 := space.mem, bitmap.cells[..], ga.out, States();
      ListReady(i);
      ghost var safe := SplitSafe(space.mem, lists[i].lists, n);
      c := lists[i].AllocMarked(n);
      if safe { Reassemble(m0, space.mem, cells0, bitmap.cells[..], out0, ga.out, states0, States(), big, i); }
    }

    /** There is room for the blocks, and the global allocator can keep what is left of a newly mapped region. */
    ghost predicate BigFits(n: nat)
      reads ga
    {
      Fits(ga.freeList, BigBlocks(n)) || Grown(MIN_POOL_BLOCKS, BigBlocks(n)) - BigBlocks(n) < SIZE_LIMIT
    }

    /** A chunk of more than a block. Exactly when its blocks fit a free region, or the rest of a newly mapped one fits
        the size field, all is well again. */
    method AllocBig(i: nat, n: nat) returns (c: Addr)
      requires Valid() && i < |lists| && LINES_PER_BLOCK < n
      requires Extent(ga.mapped) + Grown(MIN_POOL_BLOCKS, BigBlocks(n)) <= MAX_BLOCKS
      modifies this`big, space, ga, bitmap.cells
      ensures Valid() <==> old(BigFits(n))
      ensures c.off == 0 && c.blk !in old(big) && big == old(big)[c.blk := n] && BigRange(c.blk, n) !! old(ga.out)
      ensures AllKept(old(space.mem), space.mem, old(States()), States(), old(big), big, -1)
    {
      ghost var m0, cells0, out0, states0 := space.mem, bitmap.cells[..], ga.out, States();
      var b := lists[i].BigAlloc(n);
      c := Addr(b, 0);
      BigTaken(m0, space.mem, cells0, bitmap.cells[..], out0, states0, big, i, b, n);
      big := big[b := n];
    }

    /** An allocation of any size. */
    method Alloc(i: nat, size: nat) returns (c: Addr)
      requires Valid() && i < |lists|
      requires Extent(ga.mapped) + Grown(MIN_POOL_BLOCKS, BigBlocks(Lines(size))) <= MAX_BLOCKS
      modifies this`big, lists[i], space, ga, bitmap.cells
      ensures Lines(size) <= LINES_PER_BLOCK ==>
        big == old(big) &&
        if SplitSafe(old(space.mem), old(lists[i].lists), Lines(size))
        then Valid() && AllKept(old(space.mem), space.mem, old(States()), States(), big, big, i)
             && c !in old(LiveOf(i)) && LiveOf(i) == old(LiveOf(i))[c := Lines(size)]
             && PayloadsKept(old(space.mem), space.mem, old(LiveOf(i)))
        else NoTiling(space.mem, i, lists[i].blocks) && lists[i].blocks == old(lists[i].blocks)
      ensures LINES_PER_BLOCK < Lines(size) ==>
        && (Valid() <==> old(BigFits(Lines(size))))
             && AllKept(old(space.mem), space.mem, old(States()), States(), old(big), big, -1)
        && c.off == 0 && c.blk !in old(big) && big == old(big)[c.blk := Lines(size)]
        && BigRange(c.blk, Lines(size)) !! old(ga.out)
    {
      if Lines(size) <= LINES_PER_BLOCK {
        assert BigBlocks(Lines(size)) <= 1;
        c := AllocSmall(i, Lines(size));
      } else {
        c := AllocBig(i, Lines(size));
      }
    }

    /** What the methods of a list ask for. */
    lemma ListReady(k: nat)
      requires Valid() && k < |lists|
      ensures lists[k].Valid() && lists[k].Supplied() && lists[k].Marked() && lists[k].id == k
      ensures lists[k].space == space && lists[k].ga == ga && lists[k].bitmap == bitmap
      ensures forall j :: 0 <= j < |lists| && j != k ==> lists[j] != lists[k]
    {
      assert StateOk(space.mem, bitmap.cells[..], ga.out, k, State(k));
    }

    /** The header of a chunk in use names its list. */
    lemma Owner(i: nat, c: Addr)
      requires Valid() && i < |lists| && c in LiveOf(i)
      ensures c in space.mem && space.mem[c].tag.listId == i && c in lists[i].starts && space.mem[c].tag.used
      ensures space.mem[c].tag.size <= LINES_PER_BLOCK
      ensures lists[i].Valid() && lists[i].Supplied() && lists[i].Marked() && !BigAt(c)
    {
      assert StateOk(space.mem, bitmap.cells[..], ga.out, i, State(i));
      assert Chunk(space.mem, i, lists[i].blocks, lists[i].starts, c);
      BigsHeld(space.mem, bitmap.cells[..], ga.out, States(), big);
    }

    /** The chunk is a big one. */
    ghost predicate BigAt(c: Addr)
      reads this
    {
      c.off == 0 && c.blk in big
    }

    /** The header of a big chunk names its list too; its size field may be that of a small chunk. */
    lemma BigOwner(c: Addr)
      requires Valid() && BigAt(c)
      ensures c in space.mem && BigOk(space.mem, bitmap.cells[..], ga.out, |lists|, c.blk, big[c.blk])
      ensures c.blk in BigRange(c.blk, big[c.blk])
      ensures
        var k := space.mem[c].tag.listId;
        && lists[k].Valid() && lists[k].Supplied() && lists[k].Marked() && c.blk !in lists[k].blocks && c.blk in ga.out
        && (space.mem[c].tag.size <= LINES_PER_BLOCK ==> Stray(space.mem, k, lists[k].blocks, c))
    {
      assert BigOk(space.mem, bitmap.cells[..], ga.out, |States()|, c.blk, big[c.blk]);
      var k := space.mem[c].tag.listId;
      assert StateOk(space.mem, bitmap.cells[..], ga.out, k, State(k));
      assert c.blk in BigRange(c.blk, big[c.blk]) && BigRange(c.blk, big[c.blk]) !! States()[k].blocks;
    }

    /** The dispatch to a free list: a chunk of list `k`, or a big chunk whose size field says so. */
    method FreeSmall(c: Addr, k: nat, ghost stray: bool)
      requires Valid() && Freeing(c, k, stray)
      modifies lists[k], space, bitmap.cells
      ensures Spacious()
      ensures SmallFreed(stray, old(space.mem), space.mem, old(bitmap.cells[..]), bitmap.cells[..], ga.out,
                         old(States()), States(), big, k, c)
      ensures stray ==>
        BigFreed(old(space.mem), space.mem, ga.out, ga.out, old(States()), States(), big, big - {c.blk}, c)
      ensures stray ==>
        (AllOk(space.mem, bitmap.cells[..], ga.out, States(), big - {c.blk}) <==>
         old(space.mem[c].tag.size) == LINES_PER_BLOCK)
    {
      ghost var m0, cells0, states0 := space.mem, bitmap.cells[..], States();
      FreeIn(c, k, stray);
      assert OnlyList(states0, States(), k);
      SmallDone(stray, m0, space.mem, cells0, bitmap.cells[..], ga.out, states0, States(), big, k, c);
      if stray {
        StrayGone(m0, space.mem, cells0, bitmap.cells[..], ga.out, states0, States(), big, k, c);
        StrayOk(m0, space.mem, cells0, bitmap.cells[..], ga.out, states0, States(), big, k, c);
      }
    }

    method FreeIn(c: Addr, k: nat, ghost stray: bool)
      requires Valid() && Freeing(c, k, stray)
      modifies lists[k], space, bitmap.cells
      ensures Spacious()
      ensures DeallocGood(stray, old(space.mem), space.mem, old(bitmap.cells[..]), bitmap.cells[..], ga.out, k,
                          old(lists[k].blocks), lists[k].blocks, old(lists[k].starts), lists[k].starts,
                          lists[k].buckets, lists[k].lists, c)
    {
      ListReady(k);
      lists[k].DeallocMarked(c, stray);
    }

    /** The dispatch to the global allocator. */
    method FreeBig(c: Addr, k: nat)
      requires Valid() && BigAt(c) && k < |lists| && LINES_PER_BLOCK < SizeField(big[c.blk])
      modifies this`big, space, ga`freeList, ga`out, bitmap.cells
      ensures Sound()
      ensures (ga.Valid() <==>
               RunFits(old(ga.freeList), Extent(ga.mapped), c.blk, BigBlocks(SizeField(old(big)[c.blk]))))
      ensures BigFreed(old(space.mem), space.mem, old(ga.out), ga.out, old(States()), States(), old(big), big, c)
    {
      ghost var m0, cells0, out0, states0 := space.mem, bitmap.cells[..], ga.out, States();
      GiveBack(c, k);
      BigDone(m0, space.mem, cells0, bitmap.cells[..], out0, ga.out, states0, big, c);
      assert States() == states0;
      big := big - {c.blk};
    }

    method GiveBack(c: Addr, k: nat)
      requires Valid() && BigAt(c) && k < |lists| && LINES_PER_BLOCK < SizeField(big[c.blk])
      modifies space, ga`freeList, ga`out, bitmap.cells
      ensures ga.Valid() <==> RunFits(old(ga.freeList), Extent(ga.mapped), c.blk, BigBlocks(SizeField(big[c.blk])))
      ensures GivenBack(old(space.mem), space.mem, old(bitmap.cells[..]), bitmap.cells[..], old(ga.out), ga.out, big, c)
    {
      BigReady(c, k);
      lists[k].BigDealloc(c.blk);
    }

    lemma BigReady(c: Addr, k: nat)
      requires Valid() && BigAt(c) && k < |lists|
      ensures c in space.mem && space.mem[c].tag.size == SizeField(big[c.blk]) && LINES_PER_BLOCK < big[c.blk]
      ensures BigRange(c.blk, big[c.blk]) <= ga.out
      ensures BigRange(c.blk, SizeField(big[c.blk])) <= ga.out
      ensures BigBlocks(SizeField(big[c.blk])) <= BigBlocks(big[c.blk])
      ensures lists[k].space == space && lists[k].ga == ga && lists[k].bitmap == bitmap
    {
      assert BigOk(space.mem, bitmap.cells[..], ga.out, |States()|, c.blk, big[c.blk]);
      StoredBlocks(c.blk, big[c.blk]);
    }

    /** Frees a chunk of any size, found through its header. A null pointer is ignored. A big chunk goes where its
        29-bit size field sends it; all is well again exactly when that field holds a block, or more than a block and
        the merged free run fits. */
    method Dealloc(p: Ptr, ghost i: nat)
      requires Valid() && (p.To? ==> BigAt(p.addr) || (i < |lists| && p.addr in LiveOf(i)))
      modifies this`big, lists, space, ga`freeList, ga`out, bitmap.cells
      ensures p.Null? ==> Valid() && big == old(big) && space.mem == old(space.mem) && States() == old(States())
      ensures p.To? && !old(BigAt(p.addr)) ==>
        Valid() && big == old(big)
            && SmallFreed(false, old(space.mem), space.mem, old(bitmap.cells[..]), bitmap.cells[..], ga.out,
                          old(States()), States(), big, i, p.addr)
      ensures p.To? && old(BigAt(p.addr)) ==>
        && (Valid() <==> old(FreeFits(p.addr.blk)))
        && BigFreed(old(space.mem), space.mem, old(ga.out), ga.out, old(States()), States(), old(big), big, p.addr)
    {
      if p.To? {
        var c := p.addr;
        if BigAt(c) { BigOwner(c); } else { Owner(i, c); }
        if space.mem[c].tag.size <= LINES_PER_BLOCK {
          FreeListed(c, i);
        } else {
          FreeBig(c, space.mem[c].tag.listId);
        }
      }
    }

    /** A chunk whose size field holds no more than a block goes to the list its header names. */
    method FreeListed(c: Addr, ghost i: nat)
      requires Valid() && (BigAt(c) || (i < |lists| && c in LiveOf(i))) && c in space.mem
      requires space.mem[c].tag.size <= LINES_PER_BLOCK
      modifies this`big, lists, space, bitmap.cells
      ensures Spacious()
      ensures ListedFreed(old(BigAt(c)), old(space.mem), space.mem, old(bitmap.cells[..]), bitmap.cells[..], ga.out,
                          old(States()), States(), old(big), big, i, c)
    {
      ghost var stray := BigAt(c);
      SmallReady(c, i);
      FreeSmall(c, space.mem[c].tag.listId, stray);
      big := if stray then big - {c.blk} else big;
    }

    /** Whose chunk it is, before it goes to a list. */
    ghost predicate Freeing(c: Addr, k: nat, stray: bool)
      reads this, lists, space, ga
    {
      && k < |lists| && c in space.mem
      && if stray then Stray(space.mem, k, lists[k].blocks, c) && BigAt(c) && c.blk in ga.out else c in LiveOf(k)
    }

    lemma SmallReady(c: Addr, i: nat)
      requires Valid() && (BigAt(c) || (i < |lists| && c in LiveOf(i))) && c in space.mem
      requires space.mem[c].tag.size <= LINES_PER_BLOCK
      ensures Freeing(c, space.mem[c].tag.listId, BigAt(c))
      ensures if BigAt(c) then space.mem[c].tag.size == SizeField(big[c.blk]) else space.mem[c].tag.listId == i
    {
      if BigAt(c) { BigOwner(c); } else { Owner(i, c); }
    }

    /** The size field of big chunk `b` holds a block, or more and the free run its blocks join fits the size field. */
    ghost predicate FreeFits(b: nat)
      reads this, ga
      requires b in big && 0 < |ga.mapped|
    {
      var s := SizeField(big[b]);
      s == LINES_PER_BLOCK || (LINES_PER_BLOCK < s && RunFits(ga.freeList, Extent(ga.mapped), b, BigBlocks(s)))
    }

    /** What a caller of `Realloc` hands in: a chunk of list `i` or a big one, with room in its list should it have to
        move. */
    ghost predicate Growable(i: nat, c: Addr, n: nat)
      reads this, lists, space, ga
      requires 0 < |ga.mapped|
    {
      && (BigAt(c) || (i < |lists| && c in LiveOf(i)))
      && (c in space.mem && space.mem[c].tag.size < n <= LINES_PER_BLOCK && Moves(space.mem, c, n) ==>
          Extent(ga.mapped) + MIN_POOL_BLOCKS <= MAX_BLOCKS)
    }

    /** Grows a chunk. A null pointer and a size above a block are refused, and a chunk that is large enough stays.
        Otherwise, exactly when the chunk need not move or the split is safe, all is well again and the result holds the
        old contents. A big chunk whose size field holds less is moved like a small one, and then the list named in its
        header has no shape left. `crash` tells that the field is zero: the number of bytes to copy, less the header,
        wraps around, and the copy runs out of the address range. */
    method Realloc(p: Ptr, size: nat, ghost i: nat) returns (r: Ptr, crash: bool)
      requires Valid() && (p.To? ==> Growable(i, p.addr, Lines(size)))
      modifies lists, space, ga, bitmap.cells
      ensures p.To? ==> p.addr in old(space.mem)
      ensures crash <==> p.To? && BigAt(p.addr) && SizeField(big[p.addr.blk]) == 0 && Lines(size) <= LINES_PER_BLOCK
      ensures !crash ==> (r.Null? <==> p.Null? || LINES_PER_BLOCK < Lines(size))
      ensures !crash && (r.Null? || Lines(size) <= old(space.mem)[p.addr].tag.size) ==>
        Valid() && space.mem == old(space.mem) && States() == old(States()) && (r.Null? || r == p)
      ensures !crash && r.To? && old(space.mem)[p.addr].tag.size < Lines(size) && !BigAt(p.addr) ==>
        && i < |lists| && (GrowSafe(old(space.mem), old(lists[i].lists), p.addr, Lines(size)) ==> Valid())
        && Grew(GrowSafe(old(space.mem), old(lists[i].lists), p.addr, Lines(size)), old(space.mem), space.mem,
                bitmap.cells[..], ga.out, old(States()), States(), big, i, p.addr, r.addr, Lines(size))
      ensures !crash && r.To? && old(space.mem)[p.addr].tag.size < Lines(size) && BigAt(p.addr) ==>
        var k := old(space.mem)[p.addr].tag.listId; k < |lists| && NoShape(space.mem, k, lists[k].buckets)
    {
      r, crash := Null, false;
      if p.To? {
        Holder(i, p.addr, Lines(size));
        if Lines(size) <= LINES_PER_BLOCK {
          crash := space.mem[p.addr].tag.size == 0;
          if !crash {
            var x := Resize(p.addr, space.mem[p.addr].tag.listId, Lines(size), BigAt(p.addr));
            r := To(x);
          }
        }
      }
    }

    /** The chunk that list `k` is to grow. */
    ghost predicate Resizing(c: Addr, k: nat, n: nat, stray: bool)
      reads this, lists, space, ga
    {
      && k < |lists| && 0 < |ga.mapped| && c in space.mem
      && (space.mem[c].tag.size < n <= LINES_PER_BLOCK ==>
            && Movable(stray, space.mem, k, lists[k].blocks, lists[k].starts, c)
            && (stray ==> c.blk in ga.out && c.blk < MAX_BLOCKS)
            && (Moves(space.mem, c, n) ==> Extent(ga.mapped) + MIN_POOL_BLOCKS <= MAX_BLOCKS))
    }

    /** The header of a chunk names its list. */
    lemma Holder(i: nat, c: Addr, n: nat)
      requires Valid() && Growable(i, c, n)
      ensures c in space.mem && (!BigAt(c) ==> space.mem[c].tag.listId == i)
      ensures if BigAt(c) then space.mem[c].tag.size == SizeField(big[c.blk]) else 0 < space.mem[c].tag.size
      ensures 0 < space.mem[c].tag.size ==> Resizing(c, space.mem[c].tag.listId, n, BigAt(c))
    {
      if BigAt(c) {
        BigOwner(c);
      } else {
        Owner(i, c);
        assert Chunk(space.mem, i, lists[i].blocks, lists[i].starts, c);
      }
    }

    method Resize(c: Addr, k: nat, n: nat, ghost stray: bool) returns (x: Addr)
      requires Valid() && Resizing(c, k, n, stray) && 0 < n <= LINES_PER_BLOCK
      modifies lists[k], space, ga, bitmap.cells
      ensures n <= old(space.mem)[c].tag.size ==>
        x == c && unchanged(lists[k]) && unchanged(space) && unchanged(ga) && unchanged(bitmap.cells)
      ensures old(space.mem)[c].tag.size < n && !stray ==>
        && (GrowSafe(old(space.mem), old(lists[k].lists), c, n) ==> ga.Valid() && Spacious())
        && Grew(GrowSafe(old(space.mem), old(lists[k].lists), c, n), old(space.mem), space.mem, bitmap.cells[..],
                ga.out, old(States()), States(), big, k, c, x, n)
      ensures old(space.mem)[c].tag.size < n && stray ==> NoShape(space.mem, k, lists[k].buckets)
    {
      ghost var m0, cells0, out0, states0 := space.mem, bitmap.cells[..], ga.out, States();
      ghost var grows, safe := space.mem[c].tag.size < n, GrowSafe(space.mem, lists[k].lists, c, n);
      x := ResizeIn(c, k, n, stray);
      if grows && !stray {
        assert OnlyList(states0, States(), k);
        GrewDone(safe, m0, space.mem, cells0, bitmap.cells[..], out0, ga.out, states0, States(), big, k, c, x, n);
      }
    }

    method ResizeIn(c: Addr, k: nat, n: nat, ghost stray: bool) returns (x: Addr)
      requires Valid() && Resizing(c, k, n, stray) && 0 < n <= LINES_PER_BLOCK
      modifies lists[k], space, ga, bitmap.cells
      ensures n <= old(space.mem)[c].tag.size ==>
        x == c && unchanged(lists[k]) && unchanged(space) && unchanged(ga) && unchanged(bitmap.cells)
      ensures old(space.mem)[c].tag.size < n ==>
        && lists[k].Supplied() && bitmap.cells.Length == MAX_BLOCKS * CELLS_PER_BLOCK
        && BlockTaken(old(lists[k].blocks), old(ga.out), lists[k].blocks, ga.out, x)
        && (GrowSafe(old(space.mem), old(lists[k].lists), c, n) || lists[k].blocks == old(lists[k].blocks))
        && MoveEnd(stray, GrowSafe(old(space.mem), old(lists[k].lists), c, n), old(space.mem), space.mem,
                   old(bitmap.cells[..]), bitmap.cells[..], ga.out, k, lists[k].blocks, old(lists[k].starts),
                   lists[k].starts, lists[k].buckets, lists[k].lists, c, x, n)
    {
      ListReady(k);
      x := lists[k].Realloc(c, n, stray);
    }

    constructor (n: nat, space: AddressSpace, ga: GlobalAlloc, bitmap: PageBitmap)
      requires 0 < n && ga.Valid() && bitmap.cells.Length == MAX_BLOCKS * CELLS_PER_BLOCK
      requires ClearOutside(bitmap.cells[..], ga.out)
      requires forall a: Addr :: a.blk < MAX_BLOCKS && a.off < LINES_PER_BLOCK ==> a in space.mem
      ensures this.space == space && this.ga == ga && this.bitmap == bitmap && |lists| == n && Valid() && big == map[]
      ensures forall i :: 0 <= i < n ==> LiveOf(i) == map[]
    {
      this.space, this.ga, this.bitmap, big := space, ga, bitmap, map[];
      var made: seq<FreeList> := [];
      while |made| < n
        invariant |made| <= n
        invariant forall i :: 0 <= i < |made| ==>
          made[i].id == i && made[i].space == space && made[i].ga == ga && made[i].bitmap == bitmap
          && made[i].Valid() && made[i].blocks == {} && made[i].starts == {}
      {
        var l := new FreeList(|made|, space, ga, bitmap);
        made := made + [l];
      }
      this.lists := made;
      new;
      forall i | 0 <= i < |lists|
        ensures StateOk(space.mem, bitmap.cells[..], ga.out, i, State(i)) && LiveOf(i) == map[] {
        assert Live(space.mem, lists[i].starts) == map[];
      }
    }
  }
}
