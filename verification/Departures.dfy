/**
 Concrete inputs on which the code does not do what it is meant to do.
 */
module Departures {
  import opened HeapLayout
  import opened BucketLists
  import opened FreeListShape
  import opened AllocSteps
  import opened FreeSites
  import opened PageBitmaps
  import opened HeapBits
  import opened PageImages
  import opened GlobalAllocator
  import opened BigChunks
  import opened ByteCounts
  import opened FreeLists
  import opened ObjectAllocs
  import opened Restores

  // ---------------------------------------------------------------- new heaps

  /** An address range of zeros. */
  function Zeros(): (m: Mem)
    ensures forall a: Addr :: a.blk < MAX_BLOCKS && a.off < LINES_PER_BLOCK ==> a in m && m[a] == ZERO
  {
    map b: nat, o: nat | b < MAX_BLOCKS && o < LINES_PER_BLOCK :: Addr(b, o) := ZERO
  }

  /** The only list of a new heap. */
  method NewList() returns (list: FreeList)
    ensures fresh(list) && fresh(list.space) && fresh(list.ga) && fresh(list.bitmap.cells)
    ensures list.Valid() && list.Supplied() && list.Marked() && list.Counted() && list.blocks == {}
    ensures list.totalAllocated == 0 && list.grown == 0
    ensures Extent(list.ga.mapped) == MIN_POOL_BLOCKS && Live(list.space.mem, list.starts) == map[]
  {
    var space := new AddressSpace(Zeros());
    var ga := new GlobalAlloc();
    var bitmap := new PageBitmap(MAX_BLOCKS * CELLS_PER_BLOCK);
    list := new FreeList(0, space, ga, bitmap);
    NothingMarked(bitmap.cells[..]);
    StartsInBlocks(space.mem, 0, {}, list.starts);
    assert Live(space.mem, list.starts) == map[];
  }

  lemma NothingMarked(cells: seq<Cell>)
    requires forall page: nat :: page < |cells| * CELL ==> !Bit(cells, page)
    ensures ClearOutside(cells, {})
  {
  }

  /** One line from a new heap: the first of a block, with the rest of the block free behind it. */
  method OneLine() returns (list: FreeList, c: Addr)
    ensures fresh(list) && fresh(list.space) && fresh(list.ga) && fresh(list.bitmap.cells)
    ensures list.Valid() && list.Supplied() && list.Marked() && list.Counted() && list.grown == 0
    ensures list.blocks == {c.blk} && c in list.space.mem
    ensures Live(list.space.mem, list.starts) == map[c := 1] && !Moves(list.space.mem, c, 2)
  {
    list := NewList();
    c := list.AllocMarked(1);
    assert Tiled(list.space.mem, list.id, {}, {});
    assert c in Live(list.space.mem, list.starts);
    assert Chunk(list.space.mem, list.id, list.blocks, list.starts, c);
    RoomBehind(list.space.mem, list.id, list.blocks, list.starts, c);
  }

  lemma RoomBehind(m: Mem, id: nat, blocks: set<nat>, starts: set<Addr>, c: Addr)
    requires Tiled(m, id, blocks, starts) && c in starts && c.off == 0 && Live(m, starts) == map[c := 1]
    ensures !Moves(m, c, 2)
  {
    assert Chunk(m, id, blocks, starts, c);
    assert c in Live(m, starts) && m[c].tag.size == 1;
    var n := Plus(c, 1);
    assert n in starts && Chunk(m, id, blocks, starts, n);
    assert n !in Live(m, starts);
  }

  // ---------------------------------------------------------------- the byte count

  /** One chunk in use, of `n` lines, of which `grown` are not counted. */
  ghost predicate Lone(list: FreeList, c: Addr, n: nat, grown: nat)
    reads list, list.space, list.ga, list.bitmap.cells
  {
    && list.Valid() && list.Supplied() && list.Marked() && list.Counted() && list.grown == grown
    && c in list.space.mem && c in list.starts && list.space.mem[c].tag.used
    && Live(list.space.mem, list.starts) == map[c := n]
  }

  /** Allocate a line, grow it in place, free it: the byte count wraps. */
  method CountUnderflow() returns (list: FreeList)
    ensures list.Valid() && Live(list.space.mem, list.starts) == map[] && list.totalAllocated == COUNTER - 1
  {
    var c;
    list, c := OneLine();
    assert c in Live(list.space.mem, list.starts);
    GrowLine(list, c);
    OneCounted(list.totalAllocated, c);
    assert c in Live(list.space.mem, list.starts);
    list.DeallocMarked(c, false);
    assert map[c := 2] - {c} == map[];
  }

  method GrowLine(list: FreeList, c: Addr)
    requires Lone(list, c, 1, 0) && !Moves(list.space.mem, c, 2)
    modifies list, list.space, list.ga, list.bitmap.cells
    ensures Lone(list, c, 2, 1)
  {
    ghost var m0, starts0 := list.space.mem, list.starts;
    assert c in Live(m0, starts0) && m0[c].tag.size == 1;
    var x := list.Realloc(c, 2, false);
    GrownLine(m0, list.space.mem, starts0, list.starts, c);
  }

  lemma GrownLine(m0: Mem, m: Mem, starts0: set<Addr>, starts: set<Addr>, c: Addr)
    requires Live(m0, starts0) == map[c := 1]
    ensures Live(m, starts) == (Live(m0, starts0) - {c})[c := 2] ==>
      Live(m, starts) == map[c := 2] && c in m && c in starts && m[c].tag.used
  {
    assert map[c := 1] - {c} == map[];
    assert c in Live(m, starts) ==> c in starts;
  }

  lemma OneCounted(total: Count, c: Addr)
    ensures Counts(total, map[c := 2], 1) ==> total == 1
  {
    InUseWithout(map[c := 2], c);
    assert map[c := 2] - {c} == map[];
  }

  // ---------------------------------------------------------------- 29-bit sizes

  /** A big chunk of 258 blocks gives back two. */
  lemma BigLost()
    ensures var n := SIZE_FIELD + 2 * LINES_PER_BLOCK; BigBlocks(n) == 258 && BigBlocks(SizeField(n)) == 2
  {
  }

  /** 513 blocks of a new region of 1024: the rest is too long for its size field, and blocks are lost. */
  method MapLeak() returns (ga: GlobalAlloc)
    ensures ga.mapped != [] && Leaked(ga.freeList, ga.out, Extent(ga.mapped))
  {
    ga := new GlobalAlloc();
    TooLong(ga.freeList, ga.out, 513);
    assert Grown(MIN_POOL_BLOCKS, 513) == 1024 by { assert Grown(256, 513) == Grown(512, 513) == Grown(1024, 513); }
    var p := ga.Alloc(513);
  }

  /** 200 blocks taken from a new region and given back: the free run of 384 blocks is too long for its size field. */
  method ReleaseLeak() returns (ga: GlobalAlloc)
    ensures ga.mapped != [] && Leaked(ga.freeList, ga.out, Extent(ga.mapped))
  {
    var p;
    ga, p := TakeMany();
    RunBelow(ga.freeList, p);
    RunAbove(ga.freeList, p + 200, Extent(ga.mapped));
    ga.Release(p, 200);
  }

  method TakeMany() returns (ga: GlobalAlloc, p: nat)
    ensures fresh(ga) && ga.Valid() && ga.out == Blocks(p, 200) && p + 200 <= Extent(ga.mapped) == 384
    ensures forall b: nat :: b < 384 && !(p <= b < p + 200) ==> InFree(ga.freeList, b)
  {
    ga := new GlobalAlloc();
    TooLong(ga.freeList, ga.out, 200);
    assert Grown(MIN_POOL_BLOCKS, 200) == 256 by { assert Grown(256, 200) == 256; }
    p := ga.Alloc(200);
  }

  lemma TooLong(free: seq<Region>, out: set<nat>, size: nat)
    requires Partition(free, out, MIN_POOL_BLOCKS) && MIN_POOL_BLOCKS < size
    ensures !Fits(free, size)
  {
    forall i | 0 <= i < |free| ensures free[i].size < size {
      var b := free[i].ptr + free[i].size - 1;
      assert free[i].Has(b) && InFree(free, b);
    }
  }

  lemma {:induction false} RunBelow(free: seq<Region>, b: nat)
    requires forall d: nat :: d < b ==> InFree(free, d)
    ensures RunLow(free, b) == 0
  {
    if 0 < b { RunBelow(free, b - 1); }
  }

  lemma {:induction false} RunAbove(free: seq<Region>, b: nat, extent: nat)
    requires b <= extent && forall d: nat :: b <= d < extent ==> InFree(free, d)
    ensures RunHigh(free, b, extent) == extent
    decreases extent - b
  {
    if b < extent { RunAbove(free, b + 1, extent); }
  }

  // ---------------------------------------------------------------- seventeen regions

  /** Seventeen free blocks, with a block in use between any two. */
  function Seventeen(): (free: seq<Region>)
    ensures |free| == 17 && forall i :: 0 <= i < 17 ==> free[i] == Region(2 * i, 1)
  {
    seq(17, i requires 0 <= i < 17 => Region(2 * i, 1))
  }

  predicate Even(b: nat) {
    b < 34 && b % 2 == 0
  }

  function Others(): set<nat> {
    set b: nat | b < MIN_POOL_BLOCKS && !Even(b)
  }

  /** The first word of an object table takes the place of the last region, which loading then misses. */
  lemma RegionLost(objects: seq<nat>)
    requires 0 < |objects| && objects[0] != 32
    ensures Partition(Seventeen(), Others(), MIN_POOL_BLOCKS) && !Unharmed(MIN_POOL_BLOCKS, Seventeen(), objects)
  {
    var free := Seventeen();
    forall b: nat ensures InFree(free, b) <==> b < MIN_POOL_BLOCKS && b !in Others() {
      if InFree(free, b) {
        var i :| 0 <= i < |free| && free[i].Has(b);
        assert b == 2 * i;
      }
      if Even(b) { assert free[b / 2].Has(b); }
    }
    assert Words(MIN_POOL_BLOCKS, free)[SAVED_WORDS] == free[16].ptr;
  }

  // ---------------------------------------------------------------- a big chunk in a free list

  /** A new heap with one list. */
  method NewHeap() returns (heap: ObjectAlloc)
    ensures fresh(heap) && fresh(heap.lists) && fresh(heap.space) && fresh(heap.ga) && fresh(heap.bitmap.cells)
    ensures heap.Valid() && |heap.lists| == 1 && Extent(heap.ga.mapped) == MIN_POOL_BLOCKS
  {
    var space := new AddressSpace(Zeros());
    var ga := new GlobalAlloc();
    var bitmap := new PageBitmap(MAX_BLOCKS * CELLS_PER_BLOCK);
    NothingMarked(bitmap.cells[..]);
    heap := new ObjectAlloc(1, space, ga, bitmap);
  }

  /** Bytes of a request that needs 256 blocks and 100 lines. */
  const BIG_REQUEST: nat := (SIZE_FIELD + 100) * LINE_BYTES - HEADER_BYTES

  lemma BigRequest()
    ensures Lines(BIG_REQUEST) == SIZE_FIELD + 100 && BigBlocks(SIZE_FIELD + 100) == 257
    ensures SizeField(SIZE_FIELD + 100) == 100
    ensures Grown(MIN_POOL_BLOCKS, 257) == 512
  {
    assert Grown(256, 257) == Grown(512, 257) == 512;
  }

  /** A big chunk of 256 blocks and 100 lines: its size field holds 100, so that freeing it takes it for a small one,
      and the list has no shape left. */
  method BigTakenForSmall() returns (heap: ObjectAlloc, k: nat)
    ensures k < |heap.lists| && NoShape(heap.space.mem, k, heap.lists[k].buckets)
  {
    heap := NewHeap();
    var c := BigTaken(heap);
    k := heap.space.mem[c].tag.listId;
    heap.Dealloc(To(c), 0);
  }

  method BigTaken(heap: ObjectAlloc) returns (c: Addr)
    requires heap.Valid() && |heap.lists| == 1 && Extent(heap.ga.mapped) == MIN_POOL_BLOCKS
    modifies heap`big, heap.lists[0], heap.space, heap.ga, heap.bitmap.cells
    ensures heap.Valid() && heap.BigAt(c) && c in heap.space.mem && SizeField(heap.big[c.blk]) == 100
  {
    BigRequest();
    c := heap.Alloc(0, BIG_REQUEST);
    heap.BigOwner(c);
  }

  // ---------------------------------------------------------------- a wholly free block

  /** Allocate a line and free it: the block of the list is wholly free. */
  method LineFreed() returns (list: FreeList)
    ensures list.Valid() && list.Supplied() && list.Marked() && list.blocks != {}
    ensures Live(list.space.mem, list.starts) == map[]
  {
    var c;
    list, c := OneLine();
    assert c in Live(list.space.mem, list.starts);
    list.DeallocMarked(c, false);
    assert map[c := 1] - {c} == map[];
    assert c.blk in list.blocks;
  }

  /** Nothing of the block is saved, and in newly mapped memory the list has no shape. */
  lemma FreeBlockLost(m: Mem, r: Mem, id: nat, blocks: set<nat>, starts: set<Addr>, heads: seq<Ptr>,
                      lists: seq<seq<Addr>>, cells: seq<Cell>)
    requires Shape(m, id, blocks, starts, heads, lists) && ExactBits(cells, blocks, Live(m, starts)) && blocks != {}
    requires Live(m, starts) == map[]
    requires r.Keys == m.Keys && forall a :: a in r ==> r[a] == ZERO
    ensures Recovers(m, r, cells, blocks) && ZeroElsewhere(r, cells, blocks) && NoShape(r, id, heads)
  {
    NoneUsed(m, id, blocks, starts, cells);
    var b :| b in blocks;
    RestoredHeap(m, r, id, blocks, starts, heads, lists, cells);
  }

  lemma NoneUsed(m: Mem, id: nat, blocks: set<nat>, starts: set<Addr>, cells: seq<Cell>)
    requires Tiled(m, id, blocks, starts) && ExactBits(cells, blocks, Live(m, starts)) && Live(m, starts) == map[]
    ensures forall b :: b in blocks ==> !BlockUsed(cells, b)
  {
    forall b | b in blocks ensures !BlockUsed(cells, b) { UsedBlock(m, id, blocks, starts, cells, b); }
  }
}
