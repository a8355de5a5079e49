/**
 The free list object: best-fit allocation, coalescing deallocation and growing in place, with
 every store going to the shared memory.
 */
module FreeLists {
  import opened HeapLayout
  import opened BucketLists
  import opened FreeListShape
  import opened AllocSteps
  import opened FreeSteps
  import opened ReallocSteps
  import opened TornSteps
  import opened ByteCounts
  import opened PageBitmaps
  import opened HeapBits
  import opened GlobalAllocator
  import opened BigChunks
  import opened FreeSites
  import opened ReleaseSteps

  /** The lines of the address range the heap is mapped to. */
  class AddressSpace {
    var mem: Mem
    constructor (m: Mem) ensures mem == m { mem := m; }
  }

  /** The chunk the search stops at: first fit from position `i` of bucket `b` on. */
  ghost function FirstFit(mem: Mem, lists: seq<seq<Addr>>, size: nat, b: nat, i: nat): Ptr
    requires |lists| == TOTAL_BUCKETS
    decreases TOTAL_BUCKETS - b, if b < TOTAL_BUCKETS then |lists[b]| - i else 0
  {
    if TOTAL_BUCKETS <= b then Null
    else if |lists[b]| <= i then FirstFit(mem, lists, size, b + 1, 0)
    else if lists[b][i] in mem && size <= mem[lists[b][i]].tag.size then To(lists[b][i])
    else FirstFit(mem, lists, size, b, i + 1)
  }

  /** The source cuts the tail off chunk `fc` when the rest stays in the same bucket. */
  predicate KeepsBucket(fcSize: nat, size: nat) {
    size <= fcSize && 0 < Bucket(fcSize) && CAPS[Bucket(fcSize) - 1] < fcSize - size
  }

  /** The rest is then not empty and in the bucket the chunk is in. */
  lemma KeepsBucketMeans(fcSize: nat, size: nat)
    requires 0 < size <= fcSize
    ensures KeepsBucket(fcSize, size) <==> size < fcSize && Bucket(fcSize - size) == Bucket(fcSize)
  {
    var rest := fcSize - size;
    BucketSmallest(fcSize);
    if KeepsBucket(fcSize, size) { BucketKept(fcSize, rest); }
    if 0 < rest && Bucket(rest) == Bucket(fcSize) && 0 < Bucket(fcSize) { BucketLeft(fcSize, rest); }
  }

  /** Where `size` lines of free chunk `fc` are taken: at its end if its rest stays in its bucket, at its start
      otherwise. */
  function PlaceIn(mem: Mem, fc: Addr, size: nat): Addr
    requires fc in mem && size <= mem[fc].tag.size
  {
    var rest := mem[fc].tag.size - size;
    if 0 < rest && Bucket(rest) == Bucket(mem[fc].tag.size) then Plus(fc, rest) else fc
  }

  ghost predicate AtPlace(mem: Mem, fc: Ptr, size: nat, blocks: set<nat>, c: Addr) {
    match fc
    case Null => c.off == 0 && c.blk !in blocks
    case To(a) => a in mem && size <= mem[a].tag.size && c == PlaceIn(mem, a, size)
  }

  lemma PlaceTaken(mem: Mem, fc: Addr, size: nat, blocks: set<nat>)
    requires fc in mem && 0 < size <= mem[fc].tag.size
    ensures KeepsBucket(mem[fc].tag.size, size) ==>
      AtPlace(mem, To(fc), size, blocks, Plus(fc, mem[fc].tag.size - size))
    ensures !KeepsBucket(mem[fc].tag.size, size) ==> AtPlace(mem, To(fc), size, blocks, fc)
  {
    KeepsBucketMeans(mem[fc].tag.size, size);
  }

  /** The new chunk is in the first chunk found that is large enough, or starts a new block if there is none. */
  ghost predicate TakenFrom(mem: Mem, lists: seq<seq<Addr>>, size: nat, blocks: set<nat>, c: Addr) {
    |lists| == TOTAL_BUCKETS && AtPlace(mem, FirstFit(mem, lists, size, Bucket(size), 0), size, blocks, c)
  }

  /** Chunk `j` of list `d` is searched before chunk `i` of list `b`. */
  predicate Before(d: nat, j: nat, b: nat, i: nat) {
    d < b || (d == b && j < i)
  }

  /** What the search stops at is the first chunk, from the bucket of the size on, that is large enough. */
  lemma {:induction false} FirstFitFirst(mem: Mem, lists: seq<seq<Addr>>, size: nat, b: nat, i: nat)
    returns (d: nat, j: nat)
    requires |lists| == TOTAL_BUCKETS && FirstFit(mem, lists, size, b, i).To?
    ensures d < TOTAL_BUCKETS && j < |lists[d]| && !Before(d, j, b, i)
    ensures FirstFit(mem, lists, size, b, i) == To(lists[d][j])
    ensures lists[d][j] in mem && size <= mem[lists[d][j]].tag.size
    ensures forall d': nat, j': nat {:trigger lists[d'][j']} ::
      d' < TOTAL_BUCKETS && j' < |lists[d']| && !Before(d', j', b, i) && Before(d', j', d, j) ==>
        (lists[d'][j'] in mem ==> mem[lists[d'][j']].tag.size < size)
    decreases TOTAL_BUCKETS - b, if b < TOTAL_BUCKETS then |lists[b]| - i else 0
  {
    if |lists[b]| <= i {
      d, j := FirstFitFirst(mem, lists, size, b + 1, 0);
    } else if lists[b][i] in mem && size <= mem[lists[b][i]].tag.size {
      d, j := b, i;
    } else {
      d, j := FirstFitFirst(mem, lists, size, b, i + 1);
    }
  }

  /** What a caller can test before `alloc`: the chunk the search stops at is cut at its tail, or
      is safe to use from its head. */
  ghost predicate SplitSafe(mem: Mem, lists: seq<seq<Addr>>, size: nat) {
    |lists| == TOTAL_BUCKETS ==>
    var f := FirstFit(mem, lists, size, Bucket(size), 0);
    f.To? ==> CarveSafe(mem, f.addr, size)
  }

  ghost predicate CarveSafe(mem: Mem, fc: Addr, size: nat) {
    fc in mem && !KeepsBucket(mem[fc].tag.size, size) ==> HeadSafe(mem, fc, size)
  }

  /** No chunk of the list has `size` lines. */
  ghost predicate TooSmall(mem: Mem, l: seq<Addr>, size: nat) {
    forall a :: a in l && a in mem ==> mem[a].tag.size < size
  }

  /** No chunk of buckets `from` to `to` has `size` lines. */
  ghost predicate NoneBetween(mem: Mem, lists: seq<seq<Addr>>, size: nat, from: nat, to: nat) {
    forall b :: from <= b < to && b < |lists| ==> TooSmall(mem, lists[b], size)
  }

  /** A free chunk sits in the bucket of its size, hence at or above the bucket of any smaller size. */
  lemma FreeBelow(mem: Mem, starts: set<Addr>, heads: seq<Ptr>, lists: seq<seq<Addr>>, size: nat, a: Addr)
    requires Threaded(mem, heads, lists) && Exact(mem, starts, lists, {}) && Free(mem, starts, a)
    requires NoneBetween(mem, lists, size, Bucket(size), TOTAL_BUCKETS)
    ensures mem[a].tag.size < size
  {
    assert Listed(lists, a);
    var b :| 0 <= b < |lists| && a in lists[b];
    if size <= mem[a].tag.size { BucketMonotone(size, mem[a].tag.size); }
    assert b < Bucket(size) || TooSmall(mem, lists[b], size);
  }

  /** What the search stops at is a free chunk that is large enough. */
  lemma {:induction false} FoundFits(mem: Mem, starts: set<Addr>, lists: seq<seq<Addr>>, size: nat, b: nat, i: nat)
    requires |lists| == TOTAL_BUCKETS && Exact(mem, starts, lists, {}) && FirstFit(mem, lists, size, b, i).To?
    ensures var a := FirstFit(mem, lists, size, b, i).addr; Free(mem, starts, a) && size <= mem[a].tag.size
    decreases TOTAL_BUCKETS - b, if b < TOTAL_BUCKETS then |lists[b]| - i else 0
  {
    if |lists[b]| <= i {
      FoundFits(mem, starts, lists, size, b + 1, 0);
    } else if lists[b][i] in mem && size <= mem[lists[b][i]].tag.size {
      assert Listed(lists, lists[b][i]);
    } else {
      FoundFits(mem, starts, lists, size, b, i + 1);
    }
  }

  lemma LiveAt(m: Mem, starts: set<Addr>, live0: map<Addr, nat>, c: Addr, x: Addr, size: nat)
    requires Live(m, starts) == live0[x := size] && c in live0 && x !in live0
    ensures c != x && c in starts && c in m && m[c].tag.used && m[c].tag.size == live0[c]
    ensures x in starts && x in m && m[x].tag.used && m[x].tag.size == size
  {
    assert c in Live(m, starts) && Live(m, starts)[c] == live0[c];
    assert x in Live(m, starts) && Live(m, starts)[x] == size;
  }

  /** A block of zero lines. */
  function ZeroBlock(b: nat): (m: Mem)
    ensures forall a: Addr :: a in m <==> a.blk == b && a.off < LINES_PER_BLOCK
    ensures forall a :: a in m ==> m[a] == Line(Tag(0, 0, false, false, false, 0), Null, Null, 0)
  {
    var lines := set o: nat | o < LINES_PER_BLOCK :: Addr(b, o);
    map a | a in lines :: Line(Tag(0, 0, false, false, false, 0), Null, Null, 0)
  }

  lemma LargeBucket(size: nat)
    requires CAPS[12] < size
    ensures Bucket(size) == 13
  {
    BucketSmallest(size);
    if Bucket(size) < 13 { CapsIncrease(Bucket(size), 12); }
  }

  lemma EmptyShape(m: Mem, id: nat)
    ensures Shape(m, id, {}, {}, seq(TOTAL_BUCKETS, i => Null), seq(TOTAL_BUCKETS, i => []))
  {
  }

  /** A large free chunk with zero memory behind the split point. */
  lemma StaleUnsafe(m: Mem, lists: seq<seq<Addr>>, r: Addr)
    requires |lists| == TOTAL_BUCKETS && lists[13] == [r] && r in m && r.off == 1
    requires m[r].tag.size == 32767 && m[r].tag.last && Plus(r, 30000) in m && m[Plus(r, 30000)].tag.size == 0
    ensures !SplitSafe(m, lists, 30000)
  {
    LargeBucket(32767);
    LargeBucket(30000);
    assert FirstFit(m, lists, 30000, 13, 0) == To(r);
  }

  /** An allocation that is not split-safe: one line from an empty list, then 30000 lines. The rest
      of 2767 lines is headed with the size word found in fresh memory, which is zero. */
  lemma StaleSizeExample() returns (m: Mem, starts: set<Addr>, heads: seq<Ptr>, lists: seq<seq<Addr>>)
    ensures Allocated(ZeroBlock(0), m, 0, {0}, {}, starts, heads, lists, Addr(0, 0), 1)
    ensures |lists| == TOTAL_BUCKETS && !SplitSafe(m, lists, 30000)
  {
    var m0, heads0: seq<Ptr>, lists0: seq<seq<Addr>> := ZeroBlock(0), seq(TOTAL_BUCKETS, i => Null),
        seq(TOTAL_BUCKETS, i => []);
    var r := Addr(0, 1);
    var m1 := FreshMem(m0, 0, 0, 1);
    m, heads, lists := PushMem(m1, heads0[13], r), heads0[13 := To(r)], lists0[13 := [r] + lists0[13]];
    StaleUnsafe(m, lists, r);
    StaleFresh(m0, m1, m, heads0, lists0, heads, lists);
    starts := {} + FreshStarts(0, 1);
  }

  /** One line from an empty list: the only chunk in use, with the rest of the block free behind it. */
  lemma OneLineExample() returns (m: Mem, starts: set<Addr>, heads: seq<Ptr>, lists: seq<seq<Addr>>)
    ensures Shape(m, 0, {0}, starts, heads, lists)
    ensures Live(m, starts) == map[Addr(0, 0) := 1] && !Moves(m, Addr(0, 0), 2)
  {
    m, starts, heads, lists := StaleSizeExample();
    var c := Addr(0, 0);
    assert Live(ZeroBlock(0), {}) == map[];
    EmptyShape(ZeroBlock(0), 0);
    AllocatedMeans(ZeroBlock(0), m, 0, {}, {0}, {}, starts, heads, lists, c, 1);
    assert c in Live(m, starts) && Chunk(m, 0, {0}, starts, c);
    var n := Plus(c, 1);
    assert n in starts && Chunk(m, 0, {0}, starts, n);
    assert n !in Live(m, starts);
  }

  lemma StaleFresh(m0: Mem, m1: Mem, m: Mem, heads0: seq<Ptr>, lists0: seq<seq<Addr>>, heads: seq<Ptr>,
                   lists: seq<seq<Addr>>)
    requires heads0 == seq(TOTAL_BUCKETS, i => Null) && lists0 == seq(TOTAL_BUCKETS, i => [])
    requires forall a: Addr :: a.blk == 0 && a.off < LINES_PER_BLOCK ==> a in m0
    requires m1 == FreshMem(m0, 0, 0, 1) && m == PushMem(m1, Null, Addr(0, 1))
    requires heads == heads0[13 := To(Addr(0, 1))] && lists == lists0[13 := [Addr(0, 1)] + lists0[13]]
    ensures Allocated(m0, m, 0, {0}, {}, {} + FreshStarts(0, 1), heads, lists, Addr(0, 0), 1)
  {
    EmptyShape(m0, 0);
    LargeBucket(32767);
    assert {} + {0} == {0};
    FreshOutcome(m0, m1, m, 0, {}, {}, heads0, lists0, heads, lists, 0, 1);
  }

  /** `realloc` takes a new chunk: the next chunk is missing, in use or too small. */
  predicate Moves(mem: Mem, c: Addr, size: nat)
    requires c in mem
  {
    && mem[c].tag.size < size
    && var n := Plus(c, mem[c].tag.size);
    (!mem[c].tag.last && n in mem ==> mem[n].tag.used || mem[n].tag.size < size - mem[c].tag.size)
  }

  /** From the tiling: the chunk stays exactly if it is large enough, or the next one is free and holds the missing
      lines, be it just these. */
  lemma StaysExactly(mem: Mem, id: nat, blocks: set<nat>, starts: set<Addr>, c: Addr, size: nat)
    requires Tiled(mem, id, blocks, starts) && c in starts
    ensures !Moves(mem, c, size) <==> size <= mem[c].tag.size || exists n :: RoomAfter(mem, starts, c, n, size)
  {
    var n := Plus(c, mem[c].tag.size);
    NextStart(mem, id, blocks, starts, c);
    assert !Moves(mem, c, size) <==> size <= mem[c].tag.size || RoomAfter(mem, starts, c, n, size);
    assert forall x :: RoomAfter(mem, starts, c, x, size) ==> x == n;
  }

  /** Chunk `n` is the next after `c`, is free, and has the lines that `c` lacks. */
  ghost predicate RoomAfter(mem: Mem, starts: set<Addr>, c: Addr, n: Addr, size: nat) {
    && c in mem && n in mem && n in starts && n.blk == c.blk && n.off == c.off + mem[c].tag.size
    && !mem[n].tag.used && size <= mem[c].tag.size + mem[n].tag.size
  }

  /** All chunks but the last of a block have a next one. */
  lemma NextStart(mem: Mem, id: nat, blocks: set<nat>, starts: set<Addr>, c: Addr)
    requires Tiled(mem, id, blocks, starts) && c in starts
    ensures c in mem
    ensures var n := Plus(c, mem[c].tag.size); n in starts <==> !mem[c].tag.last
    ensures var n := Plus(c, mem[c].tag.size); n in starts ==> n in mem
  {
    assert Chunk(mem, id, blocks, starts, c);
    var n := Plus(c, mem[c].tag.size);
    if n in starts { assert Chunk(mem, id, blocks, starts, n); }
  }

  /** The chunk need not move, or the split its new place takes is safe. */
  ghost predicate GrowSafe(mem: Mem, lists: seq<seq<Addr>>, c: Addr, size: nat) {
    c in mem && Moves(mem, c, size) ==> SplitSafe(mem, lists, size)
  }

  lemma TailReady(m0: Mem, id: nat, blocks: set<nat>, starts: set<Addr>, heads: seq<Ptr>, lists: seq<seq<Addr>>,
                  fc: Addr, size: nat)
    requires Shape(m0, id, blocks, starts, heads, lists) && Free(m0, starts, fc) && 0 < size
    requires KeepsBucket(m0[fc].tag.size, size)
    ensures size < m0[fc].tag.size && Plus(fc, m0[fc].tag.size - size) in m0
    ensures (!m0[fc].tag.last ==> Plus(fc, m0[fc].tag.size) in m0)
  {
    BucketKept(m0[fc].tag.size, m0[fc].tag.size - size);
    TailShape(m0, id, blocks, starts, heads, lists, fc, size);
  }

  lemma TailAllocated(m0: Mem, m: Mem, id: nat, blocks: set<nat>, starts: set<Addr>, heads: seq<Ptr>,
                      lists: seq<seq<Addr>>, fc: Addr, size: nat, c: Addr)
    requires Shape(m0, id, blocks, starts, heads, lists) && Free(m0, starts, fc) && 0 < size < m0[fc].tag.size
    requires KeepsBucket(m0[fc].tag.size, size)
    requires c == Plus(fc, m0[fc].tag.size - size) && c in m0 && (!m0[fc].tag.last ==> Plus(fc, m0[fc].tag.size) in m0)
    requires m == TailMem(m0, id, fc, size)
    ensures Allocated(m0, m, id, blocks, starts, starts + {c}, heads, lists, c, size)
  {
    BucketKept(m0[fc].tag.size, m0[fc].tag.size - size);
    TailShape(m0, id, blocks, starts, heads, lists, fc, size);
  }

  /** All buckets from that of `size` up searched without success: no free chunk is large enough. */
  lemma NoneFits(mem: Mem, starts: set<Addr>, heads: seq<Ptr>, lists: seq<seq<Addr>>, size: nat)
    requires Threaded(mem, heads, lists) && Exact(mem, starts, lists, {})
    requires NoneBetween(mem, lists, size, Bucket(size), TOTAL_BUCKETS)
    ensures forall a :: Free(mem, starts, a) ==> mem[a].tag.size < size
  {
    forall a | Free(mem, starts, a) ensures mem[a].tag.size < size {
      FreeBelow(mem, starts, heads, lists, size, a);
    }
  }

  /** Either no block was taken, or just the one that `x` starts. */
  ghost predicate BlockTaken(blocks0: set<nat>, out0: set<nat>, blocks: set<nat>, out: set<nat>, x: Addr) {
    || (blocks == blocks0 && out == out0)
    || (blocks == blocks0 + {x.blk} && out == out0 + {x.blk} && x.blk !in out0 && x.off == 0)
  }

  /** What a safe allocation achieves: one more chunk in use, all contents kept, page bits exact, other blocks
      untouched. */
  ghost predicate AllocGood(m0: Mem, m: Mem, cells0: seq<Cell>, cells: seq<Cell>, out0: set<nat>, out: set<nat>,
                            id: nat, blocks0: set<nat>, blocks: set<nat>, starts0: set<Addr>, starts: set<Addr>,
                            heads: seq<Ptr>, lists: seq<seq<Addr>>, x: Addr, size: nat)
  {
    && Shape(m, id, blocks, starts, heads, lists)
    && x !in Live(m0, starts0) && Live(m, starts) == Live(m0, starts0)[x := size]
    && PayloadsKept(m0, m, Live(m0, starts0))
    && ExactBits(cells, blocks, Live(m, starts)) && ClearOutside(cells, out)
    && OthersSameBits(cells0, cells, blocks) && Within(m0, m, blocks)
  }

  lemma AllocMarks(m0: Mem, m: Mem, cells0: seq<Cell>, cells: seq<Cell>, out0: set<nat>, out: set<nat>, id: nat,
                   blocks0: set<nat>, blocks: set<nat>, starts0: set<Addr>, starts: set<Addr>, heads: seq<Ptr>,
                   lists: seq<seq<Addr>>, x: Addr, size: nat)
    requires Tiled(m0, id, blocks0, starts0) && Allocated(m0, m, id, blocks, starts0, starts, heads, lists, x, size)
    requires ExactBits(cells0, blocks0, Live(m0, starts0)) && ClearOutside(cells0, out0)
    requires BlockTaken(blocks0, out0, blocks, out, x) && blocks <= out && x.blk in blocks
    requires x.off + size <= LINES_PER_BLOCK
    requires |cells0| == MAX_BLOCKS * CELLS_PER_BLOCK && forall b :: b in blocks ==> b < MAX_BLOCKS
    requires PagesWritten(cells0, cells, x.blk, x.off / LINES_PER_PAGE,
                          (x.off + size + LINES_PER_PAGE - 1) / LINES_PER_PAGE, true)
    ensures AllocGood(m0, m, cells0, cells, out0, out, id, blocks0, blocks, starts0, starts, heads, lists, x, size)
  {
    AllocatedMeans(m0, m, id, blocks0, blocks, starts0, starts, heads, lists, x, size);
    KeptWithin(m0, m, id, blocks0, blocks, starts0, starts);
    LiveBlocks(m0, id, blocks0, starts0);
    MarksExact(cells0, cells, out0, out, blocks0, blocks, Live(m0, starts0), x, size);
  }

  lemma MarksExact(cells0: seq<Cell>, cells: seq<Cell>, out0: set<nat>, out: set<nat>, blocks0: set<nat>,
                   blocks: set<nat>, live: map<Addr, nat>, x: Addr, size: nat)
    requires ExactBits(cells0, blocks0, live) && ClearOutside(cells0, out0) && x !in live
    requires forall a :: a in live ==> a.blk in blocks0
    requires BlockTaken(blocks0, out0, blocks, out, x) && blocks <= out && x.blk in blocks
    requires x.off + size <= LINES_PER_BLOCK
    requires |cells0| == MAX_BLOCKS * CELLS_PER_BLOCK && forall b :: b in blocks ==> b < MAX_BLOCKS
    requires PagesWritten(cells0, cells, x.blk, x.off / LINES_PER_PAGE,
                          (x.off + size + LINES_PER_PAGE - 1) / LINES_PER_PAGE, true)
    ensures ExactBits(cells, blocks, live[x := size]) && ClearOutside(cells, out)
    ensures OthersSameBits(cells0, cells, blocks)
  {
    TakenClear(cells0, blocks0, blocks, out0, out, live, x, size);
    RoomBelow(cells0, blocks, MAX_BLOCKS);
    MarkBits(cells0, cells, blocks, live[x := size], x);
    PagesElsewhere(cells0, cells, blocks, x.blk, x.off / LINES_PER_PAGE,
                   (x.off + size + LINES_PER_PAGE - 1) / LINES_PER_PAGE, true);
    StillClear(cells0, cells, blocks, out0, out);
  }

  /** What a free achieves: one chunk in use less, all other contents kept, page bits exact, other blocks untouched. */
  ghost predicate FreeGood(m0: Mem, m: Mem, cells0: seq<Cell>, cells: seq<Cell>, out: set<nat>, id: nat,
                           blocks: set<nat>, starts0: set<Addr>, starts: set<Addr>, heads: seq<Ptr>,
                           lists: seq<seq<Addr>>, c: Addr)
  {
    && Shape(m, id, blocks, starts, heads, lists)
    && Live(m, starts) == Live(m0, starts0) - {c} && PayloadsKept(m0, m, Live(m0, starts0) - {c})
    && ExactBits(cells, blocks, Live(m, starts)) && ClearOutside(cells, out)
    && OthersSameBits(cells0, cells, blocks) && Within(m0, m, blocks)
  }

  lemma OwnBlock(stray: bool, m: Mem, id: nat, blocks: set<nat>, starts: set<Addr>, c: Addr)
    requires Tiled(m, id, blocks, starts) && (stray || c in starts)
    ensures stray || (c in m && c.blk in blocks && 0 < m[c].tag.size)
  {
    if !stray { assert Chunk(m, id, blocks, starts, c); }
  }

  lemma FreeMarks(m0: Mem, m: Mem, cells0: seq<Cell>, cells: seq<Cell>, out: set<nat>, id: nat, blocks: set<nat>,
                  starts0: set<Addr>, starts: set<Addr>, heads: seq<Ptr>, lists: seq<seq<Addr>>, c: Addr, fc: Addr)
    requires Tiled(m0, id, blocks, starts0) && c in starts0 && m0[c].tag.used
    requires Freed(m0, m, id, blocks, starts0, starts, heads, lists, c, fc)
    requires ExactBits(cells0, blocks, Live(m0, starts0)) && ClearOutside(cells0, out) && blocks <= out
    requires |cells0| == MAX_BLOCKS * CELLS_PER_BLOCK && forall b :: b in blocks ==> b < MAX_BLOCKS
    requires Cleared(cells0, cells, c, m0[c].tag.size, fc, m[fc].tag.size)
    ensures FreeGood(m0, m, cells0, cells, out, id, blocks, starts0, starts, heads, lists, c)
  {
    assert Chunk(m0, id, blocks, starts0, c);
    RoomBelow(cells0, blocks, MAX_BLOCKS);
    ExactIsBits(cells0, blocks, Live(m0, starts0));
    FreedMeans(m0, m, id, blocks, starts0, starts, heads, lists, c, fc);
    FreedWithin(m0, m, id, blocks, starts0, starts, heads, lists, c, fc);
    FreeBits(cells0, cells, m0, m, id, blocks, starts0, starts, heads, lists, c, fc, Null);
    ExactIsBits(cells, blocks, Live(m, starts));
    ClearedElsewhere(cells0, cells, blocks, c, m0[c].tag.size, fc, m[fc].tag.size);
    StillClear(cells0, cells, blocks, out, out);
  }

  /** What freeing a stray chunk does: a block-sized one is taken over by the list, with exact page bits; any other
      ruins the list. The chunks in use and all other blocks stay as they were. */
  ghost predicate StrayGood(m0: Mem, m: Mem, cells0: seq<Cell>, cells: seq<Cell>, out: set<nat>, id: nat,
                            blocks0: set<nat>, blocks: set<nat>, starts0: set<Addr>, starts: set<Addr>,
                            heads: seq<Ptr>, lists: seq<seq<Addr>>, c: Addr)
  {
    && Live(m, starts) == Live(m0, starts0) && PayloadsKept(m0, m, Live(m0, starts0))
    && ClearOutside(cells, out) && OthersSameBits(cells0, cells, blocks0 + {c.blk}) && Within(m0, m, blocks0 + {c.blk})
    && c in m0
    && if m0[c].tag.size == LINES_PER_BLOCK
       then blocks == blocks0 + {c.blk} && Shape(m, id, blocks, starts, heads, lists)
           && ExactBits(cells, blocks, Live(m, starts))
       else blocks == blocks0 && NoShape(m, id, heads)
  }

  lemma StrayMarks(m0: Mem, m: Mem, cells0: seq<Cell>, cells: seq<Cell>, out: set<nat>, id: nat, blocks: set<nat>,
                   starts: set<Addr>, heads: seq<Ptr>, lists: seq<seq<Addr>>, c: Addr)
    requires Tiled(m0, id, blocks, starts) && Stray(m0, id, blocks, c)
    requires StrayFreed(m0, m, id, blocks, starts, heads, lists, c)
    requires ExactBits(cells0, blocks, Live(m0, starts)) && ClearOutside(cells0, out) && blocks <= out && c.blk in out
    requires |cells0| == MAX_BLOCKS * CELLS_PER_BLOCK && (forall b :: b in blocks ==> b < MAX_BLOCKS)
    requires c.blk < MAX_BLOCKS
    requires Cleared(cells0, cells, c, m0[c].tag.size, c, m0[c].tag.size)
    ensures StrayGood(m0, m, cells0, cells, out, id, blocks,
                      if m0[c].tag.size == LINES_PER_BLOCK then blocks + {c.blk} else blocks, starts,
                      if m0[c].tag.size == LINES_PER_BLOCK then starts + {c} else starts, heads, lists, c)
  {
    ClearedElsewhere(cells0, cells, blocks + {c.blk}, c, m0[c].tag.size, c, m0[c].tag.size);
    StillClear(cells0, cells, blocks + {c.blk}, out, out);
    if m0[c].tag.size == LINES_PER_BLOCK {
      assert Live(m, starts + {c}) == Live(m, starts);
      StrayBits(m0, cells0, cells, id, blocks, starts, c);
    }
  }

  /** All pages of the block are cleared, and none of its lines is in use. */
  lemma StrayBits(m0: Mem, cells0: seq<Cell>, cells: seq<Cell>, id: nat, blocks: set<nat>, starts: set<Addr>, c: Addr)
    requires Tiled(m0, id, blocks, starts) && c.off == 0 && c.blk !in blocks
    requires ExactBits(cells0, blocks, Live(m0, starts))
    requires |cells0| == MAX_BLOCKS * CELLS_PER_BLOCK && (forall b :: b in blocks ==> b < MAX_BLOCKS)
    requires c.blk < MAX_BLOCKS
    requires Cleared(cells0, cells, c, LINES_PER_BLOCK, c, LINES_PER_BLOCK)
    ensures ExactBits(cells, blocks + {c.blk}, Live(m0, starts))
  {
    LiveBlocks(m0, id, blocks, starts);
    forall b, p | b in blocks + {c.blk} && 0 <= p < PAGES_PER_BLOCK
      ensures PageBit(cells, b, p) <==> SomeTouches(Live(m0, starts), b, p)
    {
      BigPage(cells0, MAX_BLOCKS, b, p);
    }
  }

  ghost predicate DeallocGood(stray: bool, m0: Mem, m: Mem, cells0: seq<Cell>, cells: seq<Cell>, out: set<nat>,
                              id: nat, blocks0: set<nat>, blocks: set<nat>, starts0: set<Addr>, starts: set<Addr>,
                              heads: seq<Ptr>, lists: seq<seq<Addr>>, c: Addr)
  {
    if stray then StrayGood(m0, m, cells0, cells, out, id, blocks0, blocks, starts0, starts, heads, lists, c)
    else blocks == blocks0 && FreeGood(m0, m, cells0, cells, out, id, blocks, starts0, starts, heads, lists, c)
  }

  lemma DeallocMarks(stray: bool, m0: Mem, m: Mem, cells0: seq<Cell>, cells: seq<Cell>, out: set<nat>, id: nat,
                     blocks: set<nat>, starts0: set<Addr>, starts: set<Addr>, heads: seq<Ptr>, lists: seq<seq<Addr>>,
                     c: Addr, fc: Addr)
    requires Tiled(m0, id, blocks, starts0)
    requires (if stray then Stray(m0, id, blocks, c) && c.blk in out else c in starts0 && m0[c].tag.used)
    requires FreeResult(if stray then Foreign else Own, m0, m, id, blocks, starts0, starts, heads, lists, c, fc)
    requires ExactBits(cells0, blocks, Live(m0, starts0)) && ClearOutside(cells0, out) && blocks <= out
    requires |cells0| == MAX_BLOCKS * CELLS_PER_BLOCK && forall b :: b in out ==> b < MAX_BLOCKS
    requires Cleared(cells0, cells, c, m0[c].tag.size, fc, m[fc].tag.size)
    ensures
      var taken := stray && m0[c].tag.size == LINES_PER_BLOCK;
      DeallocGood(stray, m0, m, cells0, cells, out, id, blocks, if taken then blocks + {c.blk} else blocks,
                  starts0, if taken then starts + {c} else starts, heads, lists, c)
  {
    if stray {
      StrayMarks(m0, m, cells0, cells, out, id, blocks, starts, heads, lists, c);
    } else {
      FreeMarks(m0, m, cells0, cells, out, id, blocks, starts0, starts, heads, lists, c, fc);
    }
  }

  lemma FreeCounted(stray: bool, total0: Count, total: Count, m0: Mem, m: Mem, starts0: set<Addr>, starts: set<Addr>,
                    grown: nat, c: Addr)
    requires c in m0 && total == Down(total0, m0[c].tag.size)
    requires !stray ==> c in starts0 && m0[c].tag.used && Live(m, starts) == Live(m0, starts0) - {c}
    ensures !stray && Counts(total0, Live(m0, starts0), grown) ==> Counts(total, Live(m, starts), grown)
  {
    if !stray && Counts(total0, Live(m0, starts0), grown) { FreeCounts(total0, Live(m0, starts0), grown, c); }
  }

  /** What a growing `realloc` achieves: the chunk has the new size and the old contents, all other contents are kept,
      page bits are exact. */
  ghost predicate MoveGood(m0: Mem, m: Mem, cells0: seq<Cell>, cells: seq<Cell>, out: set<nat>, id: nat,
                           blocks: set<nat>, starts0: set<Addr>, starts: set<Addr>, heads: seq<Ptr>,
                           lists: seq<seq<Addr>>, c: Addr, x: Addr, size: nat)
  {
    && Shape(m, id, blocks, starts, heads, lists) && Regrown(m0, m, Live(m0, starts0), Live(m, starts), c, x, size)
    && ExactBits(cells, blocks, Live(m, starts)) && ClearOutside(cells, out)
    && OthersSameBits(cells0, cells, blocks) && Within(m0, m, blocks)
  }

  ghost predicate MoveResult(safe: bool, m0: Mem, m: Mem, cells0: seq<Cell>, cells: seq<Cell>, out: set<nat>, id: nat,
                             blocks: set<nat>, starts0: set<Addr>, starts: set<Addr>, heads: seq<Ptr>,
                             lists: seq<seq<Addr>>, c: Addr, x: Addr, size: nat)
  {
    if safe then MoveGood(m0, m, cells0, cells, out, id, blocks, starts0, starts, heads, lists, c, x, size)
        else NoTiling(m, id, blocks)
  }

  /** Chunk `x` is new and holds a copy of chunk `c`, which is still in use; the heap is well or torn. */
  ghost predicate Copied(safe: bool, m0: Mem, m2: Mem, id: nat, blocks: set<nat>, starts0: set<Addr>, starts: set<Addr>,
                         heads: seq<Ptr>, lists: seq<seq<Addr>>, c: Addr, x: Addr, size: nat)
  {
    && (if safe then Shape(m2, id, blocks, starts, heads, lists)
        else TornHeap(m2, id, blocks, starts, heads, lists, x, {}))
    && c in m0 && c in m2 && c in starts && c != x && c.blk in blocks && m2[c].tag.used
    && 0 < m2[c].tag.size == m0[c].tag.size
    && (safe ==> CopiedTo(m0, m2, Live(m0, starts0), Live(m2, starts), c, x, size) && Within(m0, m2, blocks))
  }

  /** What a move may start from: a chunk in use of the list, or the stray part of a big chunk. */
  ghost predicate Movable(stray: bool, m: Mem, id: nat, blocks: set<nat>, starts: set<Addr>, c: Addr) {
    c in m && if stray then Stray(m, id, blocks, c) && 0 < m[c].tag.size else c in starts && m[c].tag.used
  }

  ghost predicate CopyDone(stray: bool, safe: bool, m0: Mem, m2: Mem, id: nat, blocks: set<nat>, starts0: set<Addr>,
                           starts: set<Addr>, heads: seq<Ptr>, lists: seq<seq<Addr>>, c: Addr, x: Addr, size: nat)
  {
    if stray then c in m0 && LooseAt(m2, heads, lists, c) && m2[c].tag.size == m0[c].tag.size
    else Copied(safe, m0, m2, id, blocks, starts0, starts, heads, lists, c, x, size)
  }

  /** Where a move leads: as `MoveResult` for a chunk of the list; after that of a stray chunk the list has no shape
      left. */
  ghost predicate MoveEnd(stray: bool, safe: bool, m0: Mem, m: Mem, cells0: seq<Cell>, cells: seq<Cell>, out: set<nat>,
                          id: nat, blocks: set<nat>, starts0: set<Addr>, starts: set<Addr>, heads: seq<Ptr>,
                          lists: seq<seq<Addr>>, c: Addr, x: Addr, size: nat)
  {
    if stray then NoShape(m, id, heads)
    else MoveResult(safe, m0, m, cells0, cells, out, id, blocks, starts0, starts, heads, lists, c, x, size)
  }

  /** The allocation leaves the stray chunk alone, up to its offset. */
  lemma StrayReady(safe: bool, m0: Mem, m1: Mem, id: nat, blocks0: set<nat>, blocks: set<nat>, starts0: set<Addr>,
                   starts: set<Addr>, heads: seq<Ptr>, lists: seq<seq<Addr>>, c: Addr, x: Addr, size: nat)
    requires Tiled(m0, id, blocks0, starts0) && Stray(m0, id, blocks0, c)
    requires AllocResult(safe, m0, m1, id, blocks, starts0, starts, heads, lists, x, size)
    requires blocks0 <= blocks && c.blk !in blocks && 0 < m0[c].tag.size < size <= LINES_PER_BLOCK
    ensures c in m1 && x in m1 && c.blk != x.blk && LooseAt(m1, heads, lists, c) && m1[c].tag.size == m0[c].tag.size
    ensures forall i :: 0 < i < m0[c].tag.size ==> Plus(c, i) in m1
  {
    HeadsInMem(m1, heads, lists);
    if safe {
      KeptWithin(m0, m1, id, blocks0, blocks, starts0, starts);
      StartsInBlocks(m1, id, blocks, starts);
    } else {
      StartsInBlocks(Mended(m1, x), id, blocks, starts);
    }
  }

  lemma StrayCopied(m1: Mem, m2: Mem, heads: seq<Ptr>, lists: seq<seq<Addr>>, c: Addr, x: Addr, n: nat)
    requires LooseAt(m1, heads, lists, c) && x in m1 && c.blk != x.blk && (forall i :: 0 < i < n ==> Plus(c, i) in m1)
    requires m2 == CopyMem(m1, c, x, n)
    ensures LooseAt(m2, heads, lists, c) && m2[c].tag == m1[c].tag
  {
  }

  lemma CopyReady(stray: bool, safe: bool, m0: Mem, m1: Mem, id: nat, blocks0: set<nat>, blocks: set<nat>,
                  starts0: set<Addr>, starts: set<Addr>, heads: seq<Ptr>, lists: seq<seq<Addr>>, c: Addr, x: Addr,
                  size: nat)
    requires Tiled(m0, id, blocks0, starts0) && Movable(stray, m0, id, blocks0, starts0, c)
    requires m0[c].tag.size < size <= LINES_PER_BLOCK
    requires blocks0 <= blocks && (stray ==> c.blk !in blocks)
    requires AllocResult(safe, m0, m1, id, blocks, starts0, starts, heads, lists, x, size)
    ensures c in m1 && x in m1 && c != x && m1[c].tag.size == m0[c].tag.size
    ensures (forall i :: 0 < i < m0[c].tag.size ==> Plus(c, i) in m1)
    ensures !stray ==> c.blk in blocks
  {
    if stray {
      StrayReady(safe, m0, m1, id, blocks0, blocks, starts0, starts, heads, lists, c, x, size);
    } else {
      MoveReady(safe, m0, m1, id, blocks0, blocks, starts0, starts, heads, lists, c, x, size);
    }
  }

  lemma CopyEnds(stray: bool, safe: bool, m0: Mem, m1: Mem, m2: Mem, id: nat, blocks0: set<nat>, blocks: set<nat>,
                 starts0: set<Addr>, starts: set<Addr>, heads: seq<Ptr>, lists: seq<seq<Addr>>, c: Addr, x: Addr,
                 size: nat)
    requires Tiled(m0, id, blocks0, starts0) && Movable(stray, m0, id, blocks0, starts0, c)
    requires m0[c].tag.size < size <= LINES_PER_BLOCK
    requires blocks0 <= blocks && (stray ==> c.blk !in blocks)
    requires AllocResult(safe, m0, m1, id, blocks, starts0, starts, heads, lists, x, size)
    requires c in m1 && x in m1 && (forall i :: 0 < i < m0[c].tag.size ==> Plus(c, i) in m1)
    requires m2 == CopyMem(m1, c, x, m0[c].tag.size)
    ensures CopyDone(stray, safe, m0, m2, id, blocks, starts0, starts, heads, lists, c, x, size) && m2.Keys == m1.Keys
  {
    if stray {
      StrayReady(safe, m0, m1, id, blocks0, blocks, starts0, starts, heads, lists, c, x, size);
      StrayCopied(m1, m2, heads, lists, c, x, m0[c].tag.size);
    } else {
      MoveReady(safe, m0, m1, id, blocks0, blocks, starts0, starts, heads, lists, c, x, size);
      MoveCopied(safe, m0, m1, m2, id, blocks0, blocks, starts0, starts, heads, lists, c, x, size);
    }
  }

  /** What an allocation with its pages marked leads to. */
  ghost predicate AllocEnd(safe: bool, m0: Mem, m: Mem, cells0: seq<Cell>, cells: seq<Cell>, out0: set<nat>,
                           out: set<nat>, id: nat, blocks0: set<nat>, blocks: set<nat>, starts0: set<Addr>,
                           starts: set<Addr>, heads: seq<Ptr>, lists: seq<seq<Addr>>, x: Addr, size: nat)
  {
    if safe then AllocGood(m0, m, cells0, cells, out0, out, id, blocks0, blocks, starts0, starts, heads, lists, x, size)
    else NoTiling(m, id, blocks) && blocks == blocks0
  }

  lemma AllocMarksEnd(safe: bool, m0: Mem, m: Mem, cells0: seq<Cell>, cells: seq<Cell>, out0: set<nat>, out: set<nat>,
                      id: nat, blocks0: set<nat>, blocks: set<nat>, starts0: set<Addr>, starts: set<Addr>,
                      heads: seq<Ptr>, lists: seq<seq<Addr>>, x: Addr, size: nat)
    requires Tiled(m0, id, blocks0, starts0)
    requires AllocResult(safe, m0, m, id, blocks, starts0, starts, heads, lists, x, size)
    requires safe || (NoTiling(m, id, blocks) && blocks == blocks0)
    requires ExactBits(cells0, blocks0, Live(m0, starts0)) && ClearOutside(cells0, out0)
    requires BlockTaken(blocks0, out0, blocks, out, x) && blocks <= out && x.off + size <= LINES_PER_BLOCK
    requires |cells0| == MAX_BLOCKS * CELLS_PER_BLOCK && forall b :: b in out ==> b < MAX_BLOCKS
    requires PagesWritten(cells0, cells, x.blk, x.off / LINES_PER_PAGE,
                          (x.off + size + LINES_PER_PAGE - 1) / LINES_PER_PAGE, true)
    ensures AllocEnd(safe, m0, m, cells0, cells, out0, out, id, blocks0, blocks, starts0, starts, heads, lists, x, size)
  {
    if safe {
      StartsInBlocks(m, id, blocks, starts);
      AllocMarks(m0, m, cells0, cells, out0, out, id, blocks0, blocks, starts0, starts, heads, lists, x, size);
    }
  }

  lemma AllocCounted(safe: bool, total0: Count, total: Count, live0: map<Addr, nat>, live: map<Addr, nat>, grown: nat,
                     x: Addr, size: nat)
    requires total == Up(total0, size) && (safe ==> x !in live0 && live == live0[x := size])
    ensures safe && Counts(total0, live0, grown) ==> Counts(total, live, grown)
  {
    if safe && Counts(total0, live0, grown) { AllocCounts(total0, live0, grown, x, size); }
  }

  lemma MoveCounted(safe: bool, total0: Count, total: Count, m0: Mem, m: Mem, starts0: set<Addr>, starts: set<Addr>,
                    grown: nat, c: Addr, x: Addr, size: nat)
    requires c in m0 && c in starts0 && m0[c].tag.used && c != x
    requires safe ==> Regrown(m0, m, Live(m0, starts0), Live(m, starts), c, x, size)
    ensures total == Down(Up(total0, size), m0[c].tag.size) && safe && Counts(total0, Live(m0, starts0), grown) ==>
      Counts(total, Live(m, starts), grown)
  {
    var live0 := Live(m0, starts0);
    if safe && Counts(total0, live0, grown) { MoveCounts(total0, live0, grown, c, x, size); }
  }

  lemma GrowCounted(total: Count, m0: Mem, m: Mem, starts0: set<Addr>, starts: set<Addr>, grown: nat, grown': nat,
                    c: Addr, size: nat)
    requires c in m0 && c in starts0 && m0[c].tag.used && m0[c].tag.size <= size
    requires grown' == grown + size - m0[c].tag.size
    requires Regrown(m0, m, Live(m0, starts0), Live(m, starts), c, c, size)
    ensures Counts(total, Live(m0, starts0), grown) ==> Counts(total, Live(m, starts), grown')
  {
    var live0 := Live(m0, starts0);
    assert (live0 - {c})[c := size] == live0[c := size];
    if Counts(total, live0, grown) { GrowCounts(total, live0, grown, c, size); }
  }

  /** After the allocation of a move, the old chunk is still there and the copy is defined. */
  lemma MoveReady(safe: bool, m0: Mem, m1: Mem, id: nat, blocks0: set<nat>, blocks: set<nat>, starts0: set<Addr>,
                  starts: set<Addr>, heads: seq<Ptr>, lists: seq<seq<Addr>>, c: Addr, x: Addr, size: nat)
    requires Tiled(m0, id, blocks0, starts0) && c in starts0 && m0[c].tag.used
    requires AllocResult(safe, m0, m1, id, blocks, starts0, starts, heads, lists, x, size)
    requires blocks0 <= blocks
    ensures c in m1 && x in m1 && c != x && c in starts && m1[c].tag.used && m1[c].tag.size == m0[c].tag.size
    ensures 0 < m0[c].tag.size
    ensures c.blk in blocks0 && forall i :: 0 < i < m0[c].tag.size ==> Plus(c, i) in m1
  {
    assert Chunk(m0, id, blocks0, starts0, c);
    if safe {
      AllocatedMeans(m0, m1, id, blocks0, blocks, starts0, starts, heads, lists, x, size);
      LiveAt(m1, starts, Live(m0, starts0), c, x, size);
    }
  }

  lemma MoveCopied(safe: bool, m0: Mem, m1: Mem, m2: Mem, id: nat, blocks0: set<nat>, blocks: set<nat>,
                   starts0: set<Addr>, starts: set<Addr>, heads: seq<Ptr>, lists: seq<seq<Addr>>, c: Addr, x: Addr,
                   size: nat)
    requires Tiled(m0, id, blocks0, starts0) && c in starts0 && m0[c].tag.used
    requires AllocResult(safe, m0, m1, id, blocks, starts0, starts, heads, lists, x, size)
    requires blocks0 <= blocks && m0[c].tag.size < size
    requires c in m1 && x in m1 && c in starts && c != x && m1[c].tag.used && m1[c].tag.size == m0[c].tag.size
    requires (forall i :: 0 < i < m0[c].tag.size ==> Plus(c, i) in m1) && m2 == CopyMem(m1, c, x, m0[c].tag.size)
    ensures Copied(safe, m0, m2, id, blocks, starts0, starts, heads, lists, c, x, size)
  {
    assert Chunk(m0, id, blocks0, starts0, c);
    if safe {
      AllocatedMeans(m0, m1, id, blocks0, blocks, starts0, starts, heads, lists, x, size);
      LiveAt(m1, starts, Live(m0, starts0), c, x, size);
      CopyOutcome(m1, m2, id, blocks, starts, heads, lists, c, x, m0[c].tag.size);
      CopiedOutcome(m0, m1, m2, Live(m0, starts0), c, x, size);
      LiveAt(m2, starts, Live(m0, starts0), c, x, size);
      KeptWithin(m0, m1, id, blocks0, blocks, starts0, starts);
      CopyWithin(m0, m1, m2, id, blocks, starts, c, x, m0[c].tag.size);
    } else {
      TornCopy(m1, m2, id, blocks, starts, heads, lists, x, c, m0[c].tag.size);
    }
  }

  lemma CopyWithin(m0: Mem, m1: Mem, m2: Mem, id: nat, blocks: set<nat>, starts: set<Addr>, c: Addr, x: Addr, n: nat)
    requires Within(m0, m1, blocks) && Tiled(m1, id, blocks, starts) && x in starts && c in m1
    requires (forall i :: 0 < i < n ==> Plus(c, i) in m1) && m2 == CopyMem(m1, c, x, n)
    ensures Within(m0, m2, blocks)
  {
    assert Chunk(m1, id, blocks, starts, x);
  }

  /** The second half of a safe move: the old chunk is freed and the new one is marked. */
  lemma MoveFreed(m0: Mem, m2: Mem, m3: Mem, cells0: seq<Cell>, cells1: seq<Cell>, cells: seq<Cell>, out0: set<nat>,
                  out: set<nat>, id: nat, blocks0: set<nat>, blocks: set<nat>, starts0: set<Addr>, starts1: set<Addr>,
                  starts: set<Addr>, heads: seq<Ptr>, lists: seq<seq<Addr>>, c: Addr, x: Addr, fc: Addr, size: nat)
    requires Tiled(m0, id, blocks0, starts0) && Tiled(m2, id, blocks, starts1) && c in starts1 && m2[c].tag.used
    requires CopiedTo(m0, m2, Live(m0, starts0), Live(m2, starts1), c, x, size) && Within(m0, m2, blocks)
    requires Freed(m2, m3, id, blocks, starts1, starts, heads, lists, c, fc)
    requires ExactBits(cells0, blocks0, Live(m0, starts0)) && ClearOutside(cells0, out0)
    requires BlockTaken(blocks0, out0, blocks, out, x) && blocks <= out && x.blk in blocks
    requires x.off + size <= LINES_PER_BLOCK
    requires |cells0| == MAX_BLOCKS * CELLS_PER_BLOCK && forall b :: b in blocks ==> b < MAX_BLOCKS
    requires Cleared(cells0, cells1, c, m2[c].tag.size, fc, m3[fc].tag.size)
    requires PagesWritten(cells1, cells, x.blk, x.off / LINES_PER_PAGE,
                          (x.off + size + LINES_PER_PAGE - 1) / LINES_PER_PAGE, true)
    ensures MoveGood(m0, m3, cells0, cells, out, id, blocks, starts0, starts, heads, lists, c, x, size)
  {
    var live0 := Live(m0, starts0);
    FreedMeans(m2, m3, id, blocks, starts1, starts, heads, lists, c, fc);
    FreedWithin(m2, m3, id, blocks, starts1, starts, heads, lists, c, fc);
    WithinTwice(m0, m2, m3, blocks);
    MoveOutcome(m0, m2, m3, live0, Live(m2, starts1), c, x, size);
    LiveBlocks(m0, id, blocks0, starts0);
    TakenClear(cells0, blocks0, blocks, out0, out, live0, x, size);
    RoomBelow(cells0, blocks, MAX_BLOCKS);
    FreeBits(cells0, cells1, m2, m3, id, blocks, starts1, starts, heads, lists, c, fc, To(x));
    assert Chunk(m2, id, blocks, starts1, c);
    ClearedElsewhere(cells0, cells1, blocks, c, m2[c].tag.size, fc, m3[fc].tag.size);
    MoveMarks(cells0, cells1, cells, out0, out, blocks, Live(m3, starts), x, size);
  }

  lemma MoveMarks(cells0: seq<Cell>, cells1: seq<Cell>, cells: seq<Cell>, out0: set<nat>, out: set<nat>,
                  blocks: set<nat>, live: map<Addr, nat>, x: Addr, size: nat)
    requires Bits(cells1, blocks, live, To(x)) && x in live && live[x] == size && OthersSameBits(cells0, cells1, blocks)
    requires ClearOutside(cells0, out0)
    requires out0 <= out && blocks <= out && x.blk in blocks && x.off + size <= LINES_PER_BLOCK
    requires |cells0| == MAX_BLOCKS * CELLS_PER_BLOCK && forall b :: b in blocks ==> b < MAX_BLOCKS
    requires PagesWritten(cells1, cells, x.blk, x.off / LINES_PER_PAGE,
                          (x.off + size + LINES_PER_PAGE - 1) / LINES_PER_PAGE, true)
    ensures ExactBits(cells, blocks, live) && ClearOutside(cells, out) && OthersSameBits(cells0, cells, blocks)
  {
    RoomBelow(cells1, blocks, MAX_BLOCKS);
    MarkBits(cells1, cells, blocks, live, x);
    PagesElsewhere(cells1, cells, blocks, x.blk, x.off / LINES_PER_PAGE,
                   (x.off + size + LINES_PER_PAGE - 1) / LINES_PER_PAGE, true);
    SameTwice(cells0, cells1, cells, blocks);
    StillClear(cells0, cells, blocks, out0, out);
  }

  lemma OneBlock(b: nat)
    ensures Blocks(b, 1) == {b}
  {
  }

  class FreeList {
    const id: nat
    const space: AddressSpace
    const ga: GlobalAlloc
    const bitmap: PageBitmap
    var buckets: seq<Ptr>
    var totalAllocated: Count
    ghost var grown: nat
    ghost var blocks: set<nat>
    ghost var starts: set<Addr>
    ghost var lists: seq<seq<Addr>>

    ghost predicate ValidBut(but: set<Addr>)
      reads this, space
    {
      ShapeBut(space.mem, id, blocks, starts, buckets, lists, but)
    }

    ghost predicate Valid()
      reads this, space
    {
      ValidBut({})
    }

    /** The byte count against the chunks in use; `grown` counts the lines gained in place. */
    ghost predicate Counted()
      reads this, space
    {
      Counts(totalAllocated, Live(space.mem, starts), grown)
    }

    static method FindBucket(size: nat) returns (b: nat)
      ensures b == Bucket(size)
    {
      b := 0;
      while b < TOTAL_BUCKETS - 1 && CAPS[b] < size
        invariant b < TOTAL_BUCKETS && BucketFrom(size, b) == Bucket(size)
      {
        b := b + 1;
      }
    }

    /** Takes a chunk off its list. */
    method RemoveChunkFromBuckets(c: Addr)
      requires |buckets| == |lists| == TOTAL_BUCKETS && c in space.mem && c in lists[Bucket(space.mem[c].tag.size)]
      requires space.mem[c].prev.To? ==> space.mem[c].prev.addr in space.mem
      requires space.mem[c].next.To? ==> space.mem[c].next.addr in space.mem
      modifies this`buckets, this`lists, space
      ensures
        var b := Bucket(old(space.mem)[c].tag.size);
        && space.mem == UnlinkMem(old(space.mem), c)
        && buckets == UnlinkHeads(old(space.mem), old(buckets), b, c)
        && lists == UnlinkLists(old(lists), b, c)
    {
      var b := FindBucket(space.mem[c].tag.size);
      ghost var m0 := space.mem;
      if space.mem[c].prev.Null? { buckets := buckets[b := space.mem[c].next]; }
      var m := WriteUnlink(space.mem, c);
      space.mem := m;
      lists := UnlinkLists(lists, b, c);
    }

    static method WriteUnlink(mem: Mem, c: Addr) returns (m: Mem)
      requires c in mem
      requires mem[c].prev.To? ==> mem[c].prev.addr in mem
      requires mem[c].next.To? ==> mem[c].next.addr in mem
      ensures m == UnlinkMem(mem, c)
    {
      m := mem;
      if m[c].prev.To? {
        var p := m[c].prev.addr;
        m := m[p := m[p].(next := m[c].next)];
      }
      if m[c].next.To? && m[c].next.addr in m {
        var n := m[c].next.addr;
        m := m[n := m[n].(prev := m[c].prev)];
      }
    }

    /** Puts a chunk at the front of the list of its size class. */
    method AddFreeChunk(c: Addr)
      requires |buckets| == |lists| == TOTAL_BUCKETS && c in space.mem
      requires buckets[Bucket(space.mem[c].tag.size)].To? ==> buckets[Bucket(space.mem[c].tag.size)].addr in space.mem
      modifies this`buckets, this`lists, space
      ensures
        var b := Bucket(old(space.mem)[c].tag.size);
        && space.mem == PushMem(old(space.mem), old(buckets)[b], c)
        && buckets == old(buckets)[b := To(c)]
        && lists == old(lists)[b := [c] + old(lists)[b]]
    {
      var b := FindBucket(space.mem[c].tag.size);
      var m := space.mem;
      m := m[c := m[c].(prev := Null, next := buckets[b])];
      if buckets[b].To? {
        var h := buckets[b].addr;
        m := m[h := m[h].(prev := To(c))];
      }
      space.mem := m;
      buckets := buckets[b := To(c)];
      lists := lists[b := [c] + lists[b]];
    }

    /** A free chunk that is large enough, if there is one. */
    method FindFit(size: nat) returns (fc: Ptr)
      requires Threaded(space.mem, buckets, lists) && Exact(space.mem, starts, lists, {})
      ensures fc == FirstFit(space.mem, lists, size, Bucket(size), 0)
      ensures fc.To? ==> Free(space.mem, starts, fc.addr) && size <= space.mem[fc.addr].tag.size
      ensures SplitSafe(space.mem, lists, size) <==> (fc.To? ==> CarveSafe(space.mem, fc.addr, size))
      ensures fc.Null? ==> NoFit(size)
    {
      fc := Search(size);
      if fc.To? {
        FoundFits(space.mem, starts, lists, size, Bucket(size), 0);
      } else {
        NoneFits(space.mem, starts, buckets, lists, size);
      }
    }

    /** Walks the bucket lists from the bucket of `size` upwards. */
    method Search(size: nat) returns (fc: Ptr)
      requires Threaded(space.mem, buckets, lists) && Exact(space.mem, starts, lists, {})
      ensures fc == FirstFit(space.mem, lists, size, Bucket(size), 0)
      ensures fc.Null? ==> NoneBetween(space.mem, lists, size, Bucket(size), TOTAL_BUCKETS)
    {
      var bucket := FindBucket(size);
      ghost var from, found := bucket, FirstFit(space.mem, lists, size, bucket, 0);
      fc := Null;
      while bucket < TOTAL_BUCKETS && fc.Null?
        invariant from <= bucket <= TOTAL_BUCKETS
        invariant found == if fc.To? then fc else FirstFit(space.mem, lists, size, bucket, 0)
        invariant fc.Null? ==> NoneBetween(space.mem, lists, size, from, bucket)
        decreases TOTAL_BUCKETS - bucket
      {
        fc := FindInBucket(bucket, size);
        bucket := bucket + 1;
      }
    }

    method FindInBucket(b: nat, size: nat) returns (fc: Ptr)
      requires Threaded(space.mem, buckets, lists) && Exact(space.mem, starts, lists, {}) && b < TOTAL_BUCKETS
      ensures FirstFit(space.mem, lists, size, b, 0) == if fc.To? then fc
        else FirstFit(space.mem, lists, size, b + 1, 0)
      ensures fc.Null? ==> TooSmall(space.mem, lists[b], size)
    {
      fc := buckets[b];
      assert Linked(space.mem, buckets[b], lists[b]);
      ghost var i := 0;
      while fc.To?
        invariant 0 <= i <= |lists[b]| && fc == PtrAt(lists[b], i)
        invariant FirstFit(space.mem, lists, size, b, i) == FirstFit(space.mem, lists, size, b, 0)
        invariant forall j :: 0 <= j < i ==> space.mem[lists[b][j]].tag.size < size
        decreases |lists[b]| - i
      {
        assert fc.addr == lists[b][i] && Listed(lists, fc.addr);
        if size <= space.mem[fc.addr].tag.size { return; }
        fc := space.mem[fc.addr].next;
        i := i + 1;
      }
    }

    /** The stores that cut the tail off free chunk `fc` and head it as a chunk in use. */
    static method WriteTail(mem: Mem, id: nat, fc: Addr, size: nat) returns (m: Mem)
      requires fc in mem && 0 < size < mem[fc].tag.size && Plus(fc, mem[fc].tag.size - size) in mem
      requires !mem[fc].tag.last ==> Plus(fc, mem[fc].tag.size) in mem
      ensures m == TailMem(mem, id, fc, size)
    {
      m := mem;
      var t := m[fc].tag;
      var c := Plus(fc, t.size - size);
      m := WithTag(m, c, m[c].tag.(prevOffset := fc.off, used := false));
      if !t.last {
        var n := Plus(fc, t.size);
        m := WithTag(m, n, m[n].tag.(prevOffset := c.off));
      }
      m := WithTag(m, fc, t.(last := false, size := t.size - size));
      m := WithTag(m, c, Tag(fc.off, id, c.off + size == LINES_PER_BLOCK, true, m[c].tag.jumbo, size));
    }

    /** Cuts the tail off a free chunk that stays in its bucket. */
    method CarveTail(fc: Addr, size: nat) returns (c: Addr)
      requires Valid() && Free(space.mem, starts, fc) && 0 < size && KeepsBucket(space.mem[fc].tag.size, size)
      modifies this`starts, space
      ensures Allocated(old(space.mem), space.mem, id, blocks, old(starts), starts, buckets, lists, c, size)
      ensures c == Plus(fc, old(space.mem)[fc].tag.size - size)
    {
      c := Plus(fc, space.mem[fc].tag.size - size);
      TailReady(space.mem, id, blocks, starts, buckets, lists, fc, size);
      var m := WriteTail(space.mem, id, fc, size);
      TailAllocated(space.mem, m, id, blocks, starts, buckets, lists, fc, size, c);
      space.mem := m;
      starts := starts + {c};
    }

    /** The stores that use the start of free chunk `fc` and head the rest as a free chunk. */
    static method WriteHead(mem: Mem, id: nat, fc: Addr, size: nat) returns (m: Mem)
      requires fc in mem && 0 < size < mem[fc].tag.size && Plus(fc, size) in mem
      ensures m == HeadMem(mem, id, fc, size, StaleLast(mem, fc, size))
    {
      m := mem;
      var t, r := m[fc].tag, Plus(fc, size);
      var last := r.off + m[r].tag.size == LINES_PER_BLOCK;
      m := WithTag(m, r, Tag(fc.off, id, last, false, m[r].tag.jumbo, t.size - size));
      var n := After(r, t.size - size);
      if !last && n in m {
        m := WithTag(m, n, m[n].tag.(prevOffset := r.off));
      }
      m := WithTag(m, fc,
                   m[fc].tag.(listId := id, last := fc.off + size == LINES_PER_BLOCK, used := true, size := size));
    }

    /** Uses the whole of a free chunk. */
    method CarveWhole(fc: Addr)
      requires Valid() && Free(space.mem, starts, fc)
      modifies this`buckets, this`lists, space
      ensures Allocated(old(space.mem), space.mem, id, blocks, starts, starts, buckets, lists, fc,
                        old(space.mem)[fc].tag.size)
    {
      ghost var m0, lists0 := space.mem, lists;
      UnlinkFree(m0, id, blocks, starts, buckets, lists, {}, fc);
      RemoveChunkFromBuckets(fc);
      ghost var m1 := space.mem;
      assert {} + {fc} == {fc};
      WholeFinish(m0, m1, id, blocks, starts, lists0, buckets, lists, fc);
      space.mem := WithTag(space.mem, fc, space.mem[fc].tag.(used := true));
    }

    /** Uses the start of a free chunk and lists the rest again. The heap keeps its shape exactly
        when the size word read from the rest gives the right `last` bit. */
    method CarveHead(fc: Addr, size: nat)
      requires Valid() && Free(space.mem, starts, fc) && 0 < size < space.mem[fc].tag.size
      modifies this`buckets, this`lists, this`starts, space
      ensures HeadResult(old(space.mem), space.mem, id, blocks, old(starts), starts, buckets, lists, fc, size)
    {
      ghost var m0, lists0 := space.mem, lists;
      ListedIsolated(m0, id, blocks, starts, buckets, lists, fc);
      UnlinkFree(m0, id, blocks, starts, buckets, lists, {}, fc);
      RemoveChunkFromBuckets(fc);
      assert {} + {fc} == {fc};
      SplitHead(fc, size, m0, lists0);
    }

    /** The split of `CarveHead`, once the chunk is off its list. */
    method SplitHead(fc: Addr, size: nat, ghost m0: Mem, ghost lists0: seq<seq<Addr>>)
      requires ValidBut({fc}) && LinksOnly(m0, space.mem, lists0)
      requires Isolated(m0, starts, fc) && 0 < size < m0[fc].tag.size
      requires forall a :: Listed(lists0, a) ==> Free(m0, starts, a)
      modifies this`buckets, this`lists, this`starts, space
      ensures HeadResult(m0, space.mem, id, blocks, old(starts), starts, buckets, lists, fc, size)
    {
      ghost var m1, heads1, lists1, starts1 := space.mem, buckets, lists, starts;
      HeadDefined(m1, id, blocks, starts, buckets, lists, fc, size);
      var m := WriteHead(space.mem, id, fc, size);
      space.mem := m;
      AddFreeChunk(Plus(fc, size));
      HeadOutcome(m0, m1, m, space.mem, id, blocks, starts1, lists0, heads1, lists1, fc, size, Plus(fc, size),
                  Bucket(m[Plus(fc, size)].tag.size));
      if HeadSafe(m0, fc, size) { starts := starts + {Plus(fc, size)}; }
    }

    /** The blocks of this list are among those handed out, and the address range is all there. */
    ghost predicate Supplied()
      reads this, space, ga
    {
      && ga.Valid() && blocks <= ga.out
      && forall a: Addr :: a.blk < MAX_BLOCKS && a.off < LINES_PER_BLOCK ==> a in space.mem
    }

    /** Asks the global allocator for one block. */
    method TakeBlock() returns (b: nat)
      requires Supplied() && Extent(ga.mapped) + MIN_POOL_BLOCKS <= MAX_BLOCKS
      modifies ga
      ensures Supplied() && b !in old(ga.out) && ga.out == old(ga.out) + {b} && b < MAX_BLOCKS
    {
      assert Grown(MIN_POOL_BLOCKS, 1) == MIN_POOL_BLOCKS;
      b := ga.Alloc(1);
      OneBlock(b);
    }

    /** The stores into a fresh block. */
    static method WriteFresh(mem: Mem, id: nat, b: nat, size: nat) returns (m: Mem)
      requires 0 < size <= LINES_PER_BLOCK && Addr(b, 0) in mem && (size < LINES_PER_BLOCK ==> Addr(b, size) in mem)
      ensures m == FreshMem(mem, id, b, size)
    {
      m := mem;
      if size < LINES_PER_BLOCK {
        m := WithTag(m, Addr(b, size), Tag(0, id, true, false, m[Addr(b, size)].tag.jumbo, LINES_PER_BLOCK - size));
      }
      m := WithTag(m, Addr(b, 0), Tag(0, id, size == LINES_PER_BLOCK, true, m[Addr(b, 0)].tag.jumbo, size));
    }

    /** Uses the start of a fresh block; the rest of it becomes a free chunk. */
    method AllocFresh(b: nat, size: nat)
      requires Valid() && b !in blocks && 0 < size <= LINES_PER_BLOCK
      requires forall a: Addr :: a.blk == b && a.off < LINES_PER_BLOCK ==> a in space.mem
      modifies this`buckets, this`lists, this`starts, this`blocks, space
      ensures blocks == old(blocks) + {b}
      ensures Allocated(old(space.mem), space.mem, id, blocks, old(starts), starts, buckets, lists, Addr(b, 0), size)
    {
      ghost var m0, heads0, lists0 := space.mem, buckets, lists;
      HeadsInMem(m0, buckets, lists);
      var m := WriteFresh(space.mem, id, b, size);
      space.mem := m;
      if size < LINES_PER_BLOCK {
        AddFreeChunk(Addr(b, size));
      }
      FreshOutcome(m0, m, space.mem, id, blocks, starts, heads0, lists0, buckets, lists, b, size);
      blocks, starts := blocks + {b}, starts + FreshStarts(b, size);
    }

    /** The lines lie in one of this list's blocks. */
    ghost predicate Placed(c: Addr, size: nat)
      reads this
    {
      c.blk in blocks && c.off + size <= LINES_PER_BLOCK
    }

    /** Allocation from the free chunk the search found. */
    method AllocFrom(fc: Addr, size: nat) returns (c: Addr)
      requires Valid() && Free(space.mem, starts, fc) && 0 < size <= space.mem[fc].tag.size
      modifies this`buckets, this`lists, this`starts, space
      ensures AllocResult(CarveSafe(old(space.mem), fc, size), old(space.mem), space.mem, id, blocks, old(starts),
                          starts, buckets, lists, c, size)
      ensures space.mem.Keys == old(space.mem).Keys
      ensures Placed(c, size) && AtPlace(old(space.mem), To(fc), size, old(blocks), c)
    {
      assert Chunk(space.mem, id, blocks, starts, fc);
      PlaceTaken(space.mem, fc, size, blocks);
      if KeepsBucket(space.mem[fc].tag.size, size) {
        c := CarveTail(fc, size);
      } else {
        c := fc;
        if size < space.mem[c].tag.size { CarveHead(c, size); } else { CarveWhole(c); }
      }
    }

    /** No free chunk has `size` lines. */
    ghost predicate NoFit(size: nat)
      reads this, space
    {
      forall a :: Free(space.mem, starts, a) ==> space.mem[a].tag.size < size
    }

    /** Best fit, then a fresh block. The heap gets its shape back exactly when the split is safe,
        and a fresh block is taken only when no free chunk is large enough. */
    method Alloc(size: nat) returns (c: Addr)
      requires Valid() && Supplied() && 0 < size <= LINES_PER_BLOCK
      requires Extent(ga.mapped) + MIN_POOL_BLOCKS <= MAX_BLOCKS
      modifies this, space, ga
      ensures Supplied()
      ensures AllocResult(SplitSafe(old(space.mem), old(lists), size), old(space.mem), space.mem, id, blocks,
                          old(starts), starts, buckets, lists, c, size)
      ensures SplitSafe(old(space.mem), old(lists), size) || (NoTiling(space.mem, id, blocks) && blocks == old(blocks))
      ensures totalAllocated == Up(old(totalAllocated), size) && grown == old(grown)
      ensures BlockTaken(old(blocks), old(ga.out), blocks, ga.out, c) && (blocks != old(blocks) ==> old(NoFit(size)))
      ensures Placed(c, size) && TakenFrom(old(space.mem), old(lists), size, old(blocks), c)
    {
      c := AllocBest(size);
      totalAllocated := Up(totalAllocated, size);
    }

    method AllocBest(size: nat) returns (c: Addr)
      requires Valid() && Supplied() && 0 < size <= LINES_PER_BLOCK
      requires Extent(ga.mapped) + MIN_POOL_BLOCKS <= MAX_BLOCKS
      modifies this`buckets, this`lists, this`starts, this`blocks, space, ga
      ensures Supplied()
      ensures AllocResult(SplitSafe(old(space.mem), old(lists), size), old(space.mem), space.mem, id, blocks,
                          old(starts), starts, buckets, lists, c, size)
      ensures SplitSafe(old(space.mem), old(lists), size) || (NoTiling(space.mem, id, blocks) && blocks == old(blocks))
      ensures BlockTaken(old(blocks), old(ga.out), blocks, ga.out, c) && (blocks != old(blocks) ==> old(NoFit(size)))
      ensures Placed(c, size) && TakenFrom(old(space.mem), old(lists), size, old(blocks), c)
    {
      var fc := FindFit(size);
      ghost var safe := SplitSafe(space.mem, lists, size);
      c := AllocAt(fc, size);
      if !safe { TornNoTiling(space.mem, id, blocks, starts, c); }
    }

    /** Allocation from what the search found, or from a fresh block if it found nothing. */
    method AllocAt(fc: Ptr, size: nat) returns (c: Addr)
      requires Valid() && Supplied() && 0 < size <= LINES_PER_BLOCK
      requires Extent(ga.mapped) + MIN_POOL_BLOCKS <= MAX_BLOCKS
      requires fc.To? ==> Free(space.mem, starts, fc.addr) && size <= space.mem[fc.addr].tag.size
      modifies this`buckets, this`lists, this`starts, this`blocks, space, ga
      ensures Supplied()
      ensures AllocResult(fc.To? ==> CarveSafe(old(space.mem), fc.addr, size), old(space.mem), space.mem, id, blocks,
                          old(starts), starts, buckets, lists, c, size)
      ensures BlockTaken(old(blocks), old(ga.out), blocks, ga.out, c) && (blocks != old(blocks) ==> fc.Null?)
      ensures Placed(c, size) && AtPlace(old(space.mem), fc, size, old(blocks), c)
    {
      if fc.To? {
        c := AllocFrom(fc.addr, size);
      } else {
        c := AllocNew(size);
      }
    }

    /** Allocation from a fresh block. */
    method AllocNew(size: nat) returns (c: Addr)
      requires Valid() && Supplied() && 0 < size <= LINES_PER_BLOCK
      requires Extent(ga.mapped) + MIN_POOL_BLOCKS <= MAX_BLOCKS
      modifies this`buckets, this`lists, this`starts, this`blocks, space, ga
      ensures Supplied()
      ensures Allocated(old(space.mem), space.mem, id, blocks, old(starts), starts, buckets, lists, c, size)
      ensures BlockTaken(old(blocks), old(ga.out), blocks, ga.out, c) && Placed(c, size)
      ensures AtPlace(old(space.mem), Null, size, old(blocks), c)
    {
      var b := TakeBlock();
      AllocFresh(b, size);
      c := Addr(b, 0);
    }

    /** The stores that extend `prev` over chunk `c`; a used successor learns of it. */
    static method WritePrev(mem: Mem, prev: Addr, c: Addr) returns (m: Mem)
      requires prev in mem && c in mem && prev != c && prev != Plus(c, mem[c].tag.size)
      ensures m == PrevMem(mem, prev, c, Told(mem, c))
    {
      m := mem;
      var t, n := m[c].tag, Plus(c, m[c].tag.size);
      m := WithTag(m, prev, m[prev].tag.(size := m[prev].tag.size + t.size, last := t.last));
      if !t.last && n in m && m[n].tag.used {
        m := WithTag(m, n, m[n].tag.(prevOffset := prev.off));
      }
    }

    /** The stores that extend `fc` over its successor `n`. */
    static method WriteNext(mem: Mem, fc: Addr, n: Addr) returns (m: Mem)
      requires fc in mem && n in mem
      ensures m == NextMem(mem, fc, n)
    {
      m := mem;
      var t, e := m[n].tag, Plus(n, m[n].tag.size);
      m := WithTag(m, fc, m[fc].tag.(size := m[fc].tag.size + t.size, last := t.last));
      if !t.last && e in m {
        m := WithTag(m, e, m[e].tag.(prevOffset := fc.off));
      }
    }

    /** The merge with the previous chunk, if that is free. */
    method TryPrev(c: Addr) returns (fc: Addr)
      requires PrevCan(space.mem, buckets, lists, c)
      modifies this`buckets, this`lists, space
      ensures PrevDone(old(space.mem), old(buckets), old(lists), space.mem, buckets, lists, c, fc)
    {
      fc := c;
      var prev := Addr(c.blk, space.mem[c].tag.prevOffset);
      if 0 < c.off && !space.mem[prev].tag.used {
        UnlinkTags(space.mem, prev);
        RemoveChunkFromBuckets(prev);
        var m := WritePrev(space.mem, prev, c);
        space.mem := m;
        fc := prev;
      }
    }

    /** The merge with the next chunk, if that is free. */
    method TryNext(t: Tag, n: Addr, fc: Addr)
      requires NextCan(space.mem, buckets, lists, t, n, fc)
      modifies this`buckets, this`lists, space
      ensures NextDone(old(space.mem), old(buckets), old(lists), space.mem, buckets, lists, t, n, fc)
    {
      if !t.last && !space.mem[n].tag.used {
        UnlinkTags(space.mem, n);
        RemoveChunkFromBuckets(n);
        var m := WriteNext(space.mem, fc, n);
        space.mem := m;
      }
    }

    /** Clears the used bit and merges with free neighbours. */
    method FreeAndCoalesce(c: Addr, ghost site: Site) returns (fc: Addr)
      requires Freeable(site, space.mem, id, blocks, starts, buckets, lists, c)
      modifies this`buckets, this`lists, this`starts, space
      ensures Coalesced(site, old(space.mem), space.mem, id, blocks, old(starts), starts, buckets, lists, c, fc)
    {
      ghost var m0, heads0, lists0 := space.mem, buckets, lists;
      var t, next := space.mem[c].tag, Plus(c, space.mem[c].tag.size);
      space.mem := WithTag(space.mem, c, t.(used := false));
      ghost var m1 := space.mem;
      FreePrevCan(site, m0, m1, id, blocks, starts, buckets, lists, c);
      fc := TryPrev(c);
      ghost var m2, h2, l2, S := space.mem, buckets, lists, Left(starts, c, fc);
      ghost var v := FreePrev(site, m0, m1, m2, id, blocks, starts, heads0, lists0, h2, l2, c, fc, next);
      FreeNextCan(site, m0, v, m2, id, blocks, starts, S, heads0, lists0, h2, l2, c, fc, next);
      TryNext(t, next, fc);
      FreeNext(site, m0, v, m2, space.mem, id, blocks, starts, S, heads0, lists0, h2, l2, buckets, lists, c, fc, next);
      starts := LeftNext(S, m2, t, next);
    }

    /** Frees a chunk: merges it and puts the result on its list. */
    method DeallocChunk(c: Addr, ghost site: Site) returns (fc: Addr)
      requires Freeable(site, space.mem, id, blocks, starts, buckets, lists, c)
      modifies this`buckets, this`lists, this`starts, space
      ensures FreeResult(site, old(space.mem), space.mem, id, blocks, old(starts), starts, buckets, lists, c, fc)
    {
      ghost var m0, starts0 := space.mem, starts;
      fc := FreeAndCoalesce(c, site);
      ghost var m, heads1, lists1 := space.mem, buckets, lists;
      CoalescedHeads(site, m0, m, id, blocks, starts0, starts, buckets, lists, c, fc);
      AddFreeChunk(fc);
      FreePush(site, m0, m, space.mem, id, blocks, starts0, starts, heads1, lists1, c, fc, Bucket(m[fc].tag.size));
    }

    /** Clears the bits of the pages of the freed lines that are now wholly free. */
    method UnsetPages(c: Addr, size: nat, fc: Addr, fcSize: nat)
      requires fc.blk == c.blk && fc.off <= c.off && c.off + size <= fc.off + fcSize <= LINES_PER_BLOCK
      requires (LINES_PER_PAGE <= fcSize ==> 0 < size)
      requires (c.blk + 1) * CELLS_PER_BLOCK <= bitmap.cells.Length
      modifies bitmap.cells
      ensures Cleared(old(bitmap.cells[..]), bitmap.cells[..], c, size, fc, fcSize)
    {
      if fcSize < LINES_PER_PAGE { return; }
      BoundsOrdered(c, size, fc, fcSize);
      var lb, ub := LowerBound(c, fc), UpperBound(c, size, fc, fcSize);
      ghost var pre := bitmap.cells[..];
      if 0 < ub - lb {
        bitmap.UnsetBitmap(lb, ub - lb);
      } else {
        NothingWritten(pre, lb);
      }
      ClearedByWrite(pre, bitmap.cells[..], c, size, fc, fcSize);
    }

    /** Frees a chunk and the bits of its pages. */
    method Dealloc(c: Addr, ghost site: Site) returns (ghost fc: Addr)
      requires Freeable(site, space.mem, id, blocks, starts, buckets, lists, c)
      requires (site.Foreign? || 0 < space.mem[c].tag.size) && (c.blk + 1) * CELLS_PER_BLOCK <= bitmap.cells.Length
      modifies this`buckets, this`lists, this`starts, this`totalAllocated, space, bitmap.cells
      ensures FreeResult(site, old(space.mem), space.mem, id, blocks, old(starts), starts, buckets, lists, c, fc)
      ensures Cleared(old(bitmap.cells[..]), bitmap.cells[..], c, old(space.mem)[c].tag.size, fc,
                      space.mem[fc].tag.size)
      ensures totalAllocated == Down(old(totalAllocated), old(space.mem)[c].tag.size)
    {
      var size := space.mem[c].tag.size;
      var f := DeallocChunk(c, site);
      fc := f;
      totalAllocated := Down(totalAllocated, size);
      UnsetPages(c, size, f, space.mem[f].tag.size);
    }

    /** The next chunk gives up what is needed; its rest, if any, is listed again. */
    method GrowInPlace(c: Addr, n: Addr, size: nat)
      requires Valid() && c in starts && space.mem[c].tag.used && !space.mem[c].tag.last
      requires n == Plus(c, space.mem[c].tag.size)
      requires Free(space.mem, starts, n)
      requires space.mem[c].tag.size < size <= space.mem[c].tag.size + space.mem[n].tag.size
      modifies this`buckets, this`lists, this`starts, space
      ensures Extended(old(space.mem), space.mem, id, blocks, old(starts), starts, buckets, lists, c, size)
    {
      ghost var m0, lists0 := space.mem, lists;
      ListedIsolated(m0, id, blocks, starts, buckets, lists, n);
      UnlinkFree(m0, id, blocks, starts, buckets, lists, {}, n);
      RemoveChunkFromBuckets(n);
      assert {} + {n} == {n};
      IsolatedByTags(m0, space.mem, starts, n);
      GrowLines(space.mem, id, blocks, starts, buckets, lists, c, n);
      if size - space.mem[c].tag.size < space.mem[n].tag.size {
        GrowSplit(c, n, size, m0, lists0);
      } else {
        ghost var m1 := space.mem;
        space.mem := AbsorbMem(space.mem, c, n);
        space.mem := Resized(space.mem, c, size);
        AbsorbOutcome(m0, m1, space.mem, id, blocks, starts, lists0, buckets, lists, c, n, size);
        starts := starts - {n};
      }
    }

    method GrowSplit(c: Addr, n: Addr, size: nat, ghost m0: Mem, ghost lists0: seq<seq<Addr>>)
      requires forall a :: Listed(lists0, a) ==> Free(m0, starts, a)
      requires LinksOnly(m0, space.mem, lists0) && Growable(space.mem, id, blocks, starts, buckets, lists, c, n)
      requires c in space.mem && n in space.mem
      requires space.mem[c].tag.size < size < space.mem[c].tag.size + space.mem[n].tag.size
      modifies this`buckets, this`lists, this`starts, space
      ensures Extended(m0, space.mem, id, blocks, old(starts), starts, buckets, lists, c, size)
    {
      ghost var m1, heads1, lists1 := space.mem, buckets, lists;
      GrowLines(m1, id, blocks, starts, buckets, lists, c, n);
      HeadsInMem(m1, buckets, lists);
      var inc := size - space.mem[c].tag.size;
      var r := Plus(n, inc);
      space.mem := SplitUpMem(space.mem, n, inc);
      ghost var m2 := space.mem;
      ghost var b := Bucket(m2[r].tag.size);
      AddFreeChunk(r);
      HeadNotUsed(m1, starts, heads1, lists1, {n}, b, c);
      PushThenResize(m2, heads1[b], r, c, size);
      space.mem := Resized(space.mem, c, size);
      ghost var g := Resized(m2, c, size);
      SplitUpOutcome(m0, m1, g, space.mem, id, blocks, starts, lists0, heads1, lists1, c, n, size, r, b);
      starts := starts - {n} + {r};
    }

    /** The page bits of this list's blocks are exact, and no bit is set outside the blocks handed out. */
    ghost predicate Marked()
      reads this, space, ga, bitmap.cells
    {
      && bitmap.cells.Length == MAX_BLOCKS * CELLS_PER_BLOCK
      && ExactBits(bitmap.cells[..], blocks, Live(space.mem, starts))
      && ClearOutside(bitmap.cells[..], ga.out)
    }

    /** Room for a new block, should no free chunk be large enough. */
    ghost predicate Roomy(size: nat)
      reads this, space, ga
    {
      Valid() && Supplied() && 0 < size <= LINES_PER_BLOCK && Extent(ga.mapped) + MIN_POOL_BLOCKS <= MAX_BLOCKS
    }

    /** Marks the pages of a chunk. */
    method MarkChunk(x: Addr, size: nat)
      requires x.off + size <= LINES_PER_BLOCK && x.blk < MAX_BLOCKS
      requires bitmap.cells.Length == MAX_BLOCKS * CELLS_PER_BLOCK
      modifies bitmap.cells
      ensures PagesWritten(old(bitmap.cells[..]), bitmap.cells[..], x.blk, x.off / LINES_PER_PAGE,
                           (x.off + size + LINES_PER_PAGE - 1) / LINES_PER_PAGE, true)
    {
      ghost var pre := bitmap.cells[..];
      bitmap.SetBitmap(Abs(x), size);
      WrittenPages(pre, bitmap.cells[..], x.blk, x.off, size, true);
    }

    /** Copies the payload of one chunk to another. */
    method CopyPayload(c: Addr, x: Addr)
      requires c in space.mem && x in space.mem && forall i :: 0 < i < space.mem[c].tag.size ==> Plus(c, i) in space.mem
      modifies space
      ensures space.mem == CopyMem(old(space.mem), c, x, old(space.mem)[c].tag.size)
    {
      space.mem := CopyMem(space.mem, c, x, space.mem[c].tag.size);
    }

    /** The new chunk is placed, and the page bits are still those of before. */
    ghost predicate Prepared(x: Addr, size: nat, m0: Mem, blocks0: set<nat>, starts0: set<Addr>, out0: set<nat>)
      reads this, ga, bitmap.cells
    {
      && blocks <= ga.out && (forall b :: b in blocks ==> b < MAX_BLOCKS)
      && bitmap.cells.Length == MAX_BLOCKS * CELLS_PER_BLOCK && Placed(x, size)
      && BlockTaken(blocks0, out0, blocks, ga.out, x)
      && Tiled(m0, id, blocks0, starts0) && ExactBits(bitmap.cells[..], blocks0, Live(m0, starts0))
      && ClearOutside(bitmap.cells[..], out0)
    }

    /** Out of place: allocate, copy, free the old chunk, mark the new one. Exactly when the split is safe the list is
        well again. */
    method Move(c: Addr, size: nat, ghost stray: bool) returns (x: Addr)
      requires Roomy(size) && Marked() && Moving(stray, c) && space.mem[c].tag.size < size
      modifies this, space, ga, bitmap.cells
      ensures Supplied() && BlockTaken(old(blocks), old(ga.out), blocks, ga.out, x)
      ensures MoveEnd(stray, SplitSafe(old(space.mem), old(lists), size), old(space.mem), space.mem,
                      old(bitmap.cells[..]), bitmap.cells[..], ga.out, id, blocks, old(starts), starts, buckets, lists,
                      c, x, size)
      ensures SplitSafe(old(space.mem), old(lists), size) || blocks == old(blocks)
      ensures x != c && grown == old(grown)
      ensures totalAllocated == Down(Up(old(totalAllocated), size), old(space.mem)[c].tag.size)
    {
      ghost var m0, starts0, blocks0, out0, cells0 := space.mem, starts, blocks, ga.out, bitmap.cells[..];
      ghost var safe := SplitSafe(space.mem, lists, size);
      x := AllocCopy(c, size, stray, safe);
      assert bitmap.cells[..] == cells0;
      SettleMove(c, x, size, stray, safe, m0, blocks0, starts0, out0, cells0);
    }

    /** The chunk a move starts from, and that its block is handed out. */
    ghost predicate Moving(stray: bool, c: Addr)
      reads this, space, ga
    {
      Movable(stray, space.mem, id, blocks, starts, c) && (stray ==> c.blk in ga.out && c.blk < MAX_BLOCKS)
    }

    /** The second half of a move: the old chunk is freed and the new one is marked. */
    method SettleMove(c: Addr, x: Addr, size: nat, ghost stray: bool, ghost safe: bool,
                      ghost m0: Mem, ghost blocks0: set<nat>, ghost starts0: set<Addr>, ghost out0: set<nat>,
                      ghost cells0: seq<Cell>)
      requires Prepared(x, size, m0, blocks0, starts0, out0) && c.blk < MAX_BLOCKS && cells0 == bitmap.cells[..]
      requires Supplied()
      requires CopyDone(stray, safe, m0, space.mem, id, blocks, starts0, starts, buckets, lists, c, x, size)
      modifies this`buckets, this`lists, this`starts, this`totalAllocated, space, bitmap.cells
      ensures Supplied() && BlockTaken(blocks0, out0, blocks, ga.out, x)
      ensures MoveEnd(stray, safe, m0, space.mem, cells0, bitmap.cells[..], ga.out, id, blocks, starts0, starts,
                      buckets, lists, c, x, size)
      ensures c in m0 && totalAllocated == Down(old(totalAllocated), m0[c].tag.size)
    {
      ghost var m2, starts1 := space.mem, starts;
      RoomAt(cells0, MAX_BLOCKS, c.blk);
      ghost var fc := Dealloc(c, if stray then Loose else if safe then Own else Behind(x));
      ghost var cells1 := bitmap.cells[..];
      MarkChunk(x, size);
      if !stray {
        if safe {
          MoveFreed(m0, m2, space.mem, cells0, cells1, bitmap.cells[..], out0, ga.out, id, blocks0, blocks, starts0,
                    starts1, starts, buckets, lists, c, x, fc, size);
        } else {
          TornNoTiling(space.mem, id, blocks, starts, x);
        }
      }
    }

    /** The first half of a move: a new chunk with a copy of the old contents. */
    method AllocCopy(c: Addr, size: nat, ghost stray: bool, ghost safe: bool) returns (x: Addr)
      requires Roomy(size) && Marked() && Moving(stray, c) && space.mem[c].tag.size < size
      requires safe == SplitSafe(space.mem, lists, size)
      modifies this, space, ga
      ensures Supplied() && Prepared(x, size, old(space.mem), old(blocks), old(starts), old(ga.out)) && x != c
      ensures c.blk < MAX_BLOCKS
      ensures CopyDone(stray, safe, old(space.mem), space.mem, id, blocks, old(starts), starts, buckets, lists, c, x,
                       size)
      ensures safe || blocks == old(blocks)
      ensures totalAllocated == Up(old(totalAllocated), size) && grown == old(grown)
    {
      ghost var m0, starts0, blocks0 := space.mem, starts, blocks;
      x := Alloc(size);
      CopyOver(c, x, size, stray, safe, m0, blocks0, starts0);
    }

    method CopyOver(c: Addr, x: Addr, size: nat, ghost stray: bool, ghost safe: bool, ghost m0: Mem,
                    ghost blocks0: set<nat>, ghost starts0: set<Addr>)
      requires Tiled(m0, id, blocks0, starts0) && Movable(stray, m0, id, blocks0, starts0, c)
      requires m0[c].tag.size < size <= LINES_PER_BLOCK && blocks0 <= blocks
      requires stray ==> c.blk !in blocks
      requires AllocResult(safe, m0, space.mem, id, blocks, starts0, starts, buckets, lists, x, size)
      modifies space
      ensures CopyDone(stray, safe, m0, space.mem, id, blocks, starts0, starts, buckets, lists, c, x, size)
      ensures space.mem.Keys == old(space.mem).Keys
      ensures c != x && (!stray ==> c.blk in blocks)
    {
      ghost var m1 := space.mem;
      CopyReady(stray, safe, m0, m1, id, blocks0, blocks, starts0, starts, buckets, lists, c, x, size);
      CopyPayload(c, x);
      CopyEnds(stray, safe, m0, m1, space.mem, id, blocks0, blocks, starts0, starts, buckets, lists, c, x, size);
    }

    /** Growing in place, in terms of the chunks in use. */
    method ExtendLive(c: Addr, size: nat)
      requires Valid() && c in starts && space.mem[c].tag.used
      requires space.mem[c].tag.size < size && !Moves(space.mem, c, size)
      modifies this`buckets, this`lists, this`starts, space
      ensures Valid() && Within(old(space.mem), space.mem, blocks)
      ensures c in Live(old(space.mem), old(starts))
      ensures Live(space.mem, starts) == Live(old(space.mem), old(starts))[c := size]
      ensures PayloadsKept(old(space.mem), space.mem, Live(old(space.mem), old(starts)))
      ensures c.blk in blocks && c.off + size <= LINES_PER_BLOCK
    {
      ghost var m0, starts0 := space.mem, starts;
      assert Chunk(m0, id, blocks, starts, c);
      GrowInPlace(c, Plus(c, space.mem[c].tag.size), size);
      ExtendedMeans(m0, space.mem, id, blocks, starts0, starts, buckets, lists, c, size);
      KeptWithin(m0, space.mem, id, blocks, blocks, starts0, starts);
      assert Chunk(space.mem, id, blocks, starts, c);
    }

    /** Marks the lines from `was` to `size` of a chunk. */
    method MarkGained(c: Addr, was: nat, size: nat, ghost live0: map<Addr, nat>)
      requires bitmap.cells.Length == MAX_BLOCKS * CELLS_PER_BLOCK && Supplied()
      requires ClearOutside(bitmap.cells[..], ga.out)
      requires ExactBits(bitmap.cells[..], blocks, live0) && c in live0 && live0[c] == was < size
      requires c.blk in blocks && c.off + size <= LINES_PER_BLOCK && Live(space.mem, starts) == live0[c := size]
      modifies bitmap.cells
      ensures Marked() && OthersSameBits(old(bitmap.cells[..]), bitmap.cells[..], blocks)
    {
      ghost var cells0 := bitmap.cells[..];
      RoomBelow(cells0, blocks, MAX_BLOCKS);
      bitmap.SetBitmap(Abs(c) + was, size - was);
      WrittenPages(cells0, bitmap.cells[..], c.blk, c.off + was, size - was, true);
      GrowBits(cells0, bitmap.cells[..], blocks, live0, c, size);
      PagesElsewhere(cells0, bitmap.cells[..], blocks, c.blk, (c.off + was) / LINES_PER_PAGE,
                     (c.off + size + LINES_PER_PAGE - 1) / LINES_PER_PAGE, true);
      StillClear(cells0, bitmap.cells[..], blocks, ga.out, ga.out);
    }

    /** In place: grow, and mark the pages of the lines gained. */
    method Extend(c: Addr, size: nat)
      requires Valid() && Supplied() && Marked() && c in starts && space.mem[c].tag.used
      requires space.mem[c].tag.size < size && !Moves(space.mem, c, size)
      modifies this`buckets, this`lists, this`starts, space, bitmap.cells
      ensures Supplied()
      ensures MoveGood(old(space.mem), space.mem, old(bitmap.cells[..]), bitmap.cells[..], ga.out, id, blocks,
                       old(starts), starts, buckets, lists, c, c, size)
    {
      ghost var live0 := Live(space.mem, starts);
      var was := space.mem[c].tag.size;
      ExtendLive(c, size);
      StayOutcome(old(space.mem), space.mem, live0, c, size);
      MarkGained(c, was, size, live0);
    }

    /** The chunk keeps its contents and has at least `size` lines; all other chunks in use and their contents stay; the
        page bits stay exact. Exactly when the chunk moves and the split is unsafe, no tiling is left; and no shape when
        it is a stray one. */
    method Realloc(c: Addr, size: nat, ghost stray: bool) returns (x: Addr)
      requires c in space.mem && (space.mem[c].tag.size < size ==> Reallocable(c, size, stray))
      modifies this, space, ga, bitmap.cells
      ensures size <= old(space.mem)[c].tag.size ==>
        x == c && unchanged(this) && unchanged(space) && unchanged(ga) && unchanged(bitmap.cells)
      ensures old(space.mem)[c].tag.size < size ==>
        && Supplied() && BlockTaken(old(blocks), old(ga.out), blocks, ga.out, x)
             && (x != c ==> Moves(old(space.mem), c, size))
        && MoveEnd(stray, GrowSafe(old(space.mem), old(lists), c, size), old(space.mem), space.mem,
                   old(bitmap.cells[..]), bitmap.cells[..], ga.out, id, blocks, old(starts), starts, buckets, lists, c,
                   x, size)
        && (GrowSafe(old(space.mem), old(lists), c, size) || blocks == old(blocks))
        && (old(Counted()) && GrowSafe(old(space.mem), old(lists), c, size) && !stray ==> Counted())
      ensures grown == old(grown) + if size <= old(space.mem)[c].tag.size || Moves(old(space.mem), c, size) then 0
        else size - old(space.mem)[c].tag.size
    {
      x := c;
      if space.mem[c].tag.size < size {
        if Moves(space.mem, c, size) {
          x := MoveCount(c, size, stray);
        } else {
          ExtendCount(c, size);
        }
      }
    }

    /** A chunk in use of a list, or a stray one, with room for `size` lines in the list should it have to move. */
    ghost predicate Reallocable(c: Addr, size: nat, stray: bool)
      reads this, space, ga, bitmap.cells
    {
      Valid() && Supplied() && Marked() && Moving(stray, c) && (Moves(space.mem, c, size) ==> Roomy(size))
    }

    /** A move, and what it does to the byte count. */
    method MoveCount(c: Addr, size: nat, ghost stray: bool) returns (x: Addr)
      requires Roomy(size) && Marked() && Moving(stray, c) && space.mem[c].tag.size < size
      modifies this, space, ga, bitmap.cells
      ensures Supplied() && BlockTaken(old(blocks), old(ga.out), blocks, ga.out, x)
      ensures MoveEnd(stray, SplitSafe(old(space.mem), old(lists), size), old(space.mem), space.mem,
                      old(bitmap.cells[..]), bitmap.cells[..], ga.out, id, blocks, old(starts), starts, buckets, lists,
                      c, x, size)
      ensures SplitSafe(old(space.mem), old(lists), size) || blocks == old(blocks)
      ensures grown == old(grown)
      ensures (old(Counted()) && SplitSafe(old(space.mem), old(lists), size) && !stray ==> Counted())
    {
      ghost var m0, starts0, total0, safe := space.mem, starts, totalAllocated, SplitSafe(space.mem, lists, size);
      x := Move(c, size, stray);
      if !stray { MoveCounted(safe, total0, totalAllocated, m0, space.mem, starts0, starts, grown, c, x, size); }
    }

    /** Growing in place leaves the byte count as it is. */
    method ExtendCount(c: Addr, size: nat)
      requires Valid() && Supplied() && Marked() && c in starts && space.mem[c].tag.used
      requires space.mem[c].tag.size < size && !Moves(space.mem, c, size)
      modifies this`buckets, this`lists, this`starts, this`grown, space, bitmap.cells
      ensures Supplied()
      ensures MoveGood(old(space.mem), space.mem, old(bitmap.cells[..]), bitmap.cells[..], ga.out, id, blocks,
                       old(starts), starts, buckets, lists, c, c, size)
      ensures grown == old(grown) + size - old(space.mem)[c].tag.size && (old(Counted()) ==> Counted())
    {
      ghost var m0, starts0, grown0 := space.mem, starts, grown;
      Extend(c, size);
      grown := grown + size - m0[c].tag.size;
      GrowCounted(totalAllocated, m0, space.mem, starts0, starts, grown0, grown, c, size);
    }

    /** Allocation with its pages marked. The list is well again, with exact page bits, exactly when the split is
        safe. */
    method AllocMarked(size: nat) returns (x: Addr)
      requires Roomy(size) && Marked()
      modifies this, space, ga, bitmap.cells
      ensures Supplied()
      ensures AllocEnd(SplitSafe(old(space.mem), old(lists), size), old(space.mem), space.mem, old(bitmap.cells[..]),
                       bitmap.cells[..], old(ga.out), ga.out, id, old(blocks), blocks, old(starts), starts, buckets,
                       lists, x, size)
      ensures BlockTaken(old(blocks), old(ga.out), blocks, ga.out, x)
      ensures grown == old(grown) && (old(Counted()) && SplitSafe(old(space.mem), old(lists), size) ==> Counted())
    {
      ghost var m0, starts0, total0, safe := space.mem, starts, totalAllocated, SplitSafe(space.mem, lists, size);
      x := AllocPages(size);
      AllocCounted(safe, total0, totalAllocated, Live(m0, starts0), Live(space.mem, starts), grown, x, size);
    }

    method AllocPages(size: nat) returns (x: Addr)
      requires Roomy(size) && Marked()
      modifies this, space, ga, bitmap.cells
      ensures Supplied()
      ensures AllocEnd(SplitSafe(old(space.mem), old(lists), size), old(space.mem), space.mem, old(bitmap.cells[..]),
                       bitmap.cells[..], old(ga.out), ga.out, id, old(blocks), blocks, old(starts), starts, buckets,
                       lists, x, size)
      ensures BlockTaken(old(blocks), old(ga.out), blocks, ga.out, x)
      ensures grown == old(grown) && totalAllocated == Up(old(totalAllocated), size)
    {
      ghost var m0, blocks0, starts0, out0, cells0 := space.mem, blocks, starts, ga.out, bitmap.cells[..];
      ghost var safe := SplitSafe(space.mem, lists, size);
      x := Alloc(size);
      MarkChunk(x, size);
      AllocMarksEnd(safe, m0, space.mem, cells0, bitmap.cells[..], out0, ga.out, id, blocks0, blocks, starts0, starts,
                    buckets, lists, x, size);
    }

    /** Deallocation of a marked chunk of the list, or of a stray one. */
    method DeallocMarked(c: Addr, ghost stray: bool)
      requires Valid() && Supplied() && Marked() && c in space.mem
      requires if stray then Stray(space.mem, id, blocks, c) && c.blk in ga.out
        else c in starts && space.mem[c].tag.used
      modifies this, space, bitmap.cells
      ensures space.mem.Keys == old(space.mem).Keys && grown == old(grown)
      ensures DeallocGood(stray, old(space.mem), space.mem, old(bitmap.cells[..]), bitmap.cells[..], ga.out, id,
                          old(blocks), blocks, old(starts), starts, buckets, lists, c)
      ensures old(Counted()) && !stray ==> Counted()
      ensures totalAllocated == Down(old(totalAllocated), old(space.mem)[c].tag.size)
    {
      ghost var m0, starts0, total0 := space.mem, starts, totalAllocated;
      DeallocSite(c, stray);
      FreeCounted(stray, total0, totalAllocated, m0, space.mem, starts0, starts, grown, c);
    }

    method DeallocSite(c: Addr, ghost stray: bool)
      requires Valid() && Supplied() && Marked() && c in space.mem
      requires if stray then Stray(space.mem, id, blocks, c) && c.blk in ga.out
        else c in starts && space.mem[c].tag.used
      modifies this`buckets, this`lists, this`starts, this`blocks, this`totalAllocated, space, bitmap.cells
      ensures space.mem.Keys == old(space.mem).Keys
      ensures DeallocGood(stray, old(space.mem), space.mem, old(bitmap.cells[..]), bitmap.cells[..], ga.out, id,
                          old(blocks), blocks, old(starts), starts, buckets, lists, c)
      ensures totalAllocated == Down(old(totalAllocated), old(space.mem)[c].tag.size)
    {
      ghost var m0, starts0, cells0 := space.mem, starts, bitmap.cells[..];
      OwnBlock(stray, m0, id, blocks, starts, c);
      RoomAt(cells0, MAX_BLOCKS, c.blk);
      ghost var fc := Dealloc(c, if stray then Foreign else Own);
      DeallocMarks(stray, m0, space.mem, cells0, bitmap.cells[..], ga.out, id, blocks, starts0, starts, buckets, lists,
                   c, fc);
      if stray && m0[c].tag.size == LINES_PER_BLOCK { blocks, starts := blocks + {c.blk}, starts + {c}; }
    }

    /** A chunk of more than a block: whole blocks, a header in the first line, and its pages marked. */
    method BigAlloc(size: nat) returns (b: nat)
      requires ga.Valid() && LINES_PER_BLOCK < size && bitmap.cells.Length == MAX_BLOCKS * CELLS_PER_BLOCK
      requires Extent(ga.mapped) + Grown(MIN_POOL_BLOCKS, BigBlocks(size)) <= MAX_BLOCKS
      requires forall n: nat :: n < MAX_BLOCKS ==> Addr(n, 0) in space.mem
      modifies space, ga, bitmap.cells
      ensures Blocks(b, BigBlocks(size)) !! old(ga.out) && ga.out == old(ga.out) + Blocks(b, BigBlocks(size))
      ensures ga.Valid() <==>
        Fits(old(ga.freeList), BigBlocks(size))
            || Grown(MIN_POOL_BLOCKS, BigBlocks(size)) - BigBlocks(size) < SIZE_LIMIT
      ensures b + BigBlocks(size) <= MAX_BLOCKS
      ensures Addr(b, 0) in old(space.mem)
      ensures space.mem == WithTag(old(space.mem), Addr(b, 0), Tag(0, id, true, true, true, SizeField(size)))
      ensures Written(old(bitmap.cells[..]), bitmap.cells[..], b * BLOCK, size, true)
    {
      b := ga.Alloc(BigBlocks(size));
      BigRoom(b, size);
      space.mem := WithTag(space.mem, Addr(b, 0), Tag(0, id, true, true, true, SizeField(size)));
      bitmap.SetBitmapForBigAlloc(b * BLOCK, size);
    }

    /** Gives back the whole blocks that the size in the header stands for. */
    method BigDealloc(b: nat)
      requires ga.Valid() && Addr(b, 0) in space.mem && bitmap.cells.Length == MAX_BLOCKS * CELLS_PER_BLOCK
      requires var k := BigBlocks(space.mem[Addr(b, 0)].tag.size); 0 < k && Blocks(b, k) <= ga.out
      modifies space, ga`freeList, ga`out, bitmap.cells
      ensures
        var k := BigBlocks(old(space.mem)[Addr(b, 0)].tag.size);
        && space.mem == WithTag(old(space.mem), Addr(b, 0), Tag(0, 0, false, false, false, 0))
        && ga.out == old(ga.out) - Blocks(b, k)
        && Written(old(bitmap.cells[..]), bitmap.cells[..], b * BLOCK, k * BLOCK, false)
        && (ga.Valid() <==> RunFits(old(ga.freeList), Extent(ga.mapped), b, k))
    {
      var blocks := BigBlocks(space.mem[Addr(b, 0)].tag.size);
      OutInRange(ga.freeList, ga.out, Extent(ga.mapped), b, blocks);
      space.mem := WithTag(space.mem, Addr(b, 0), Tag(0, 0, false, false, false, 0));
      bitmap.UnsetBitmapForBigDealloc(b * BLOCK, blocks);
      ga.Release(b, blocks);
    }

    /** After a restart: unlinks the wholly free blocks in the last bucket and hands them to the global allocator, in
        this order. `path` is where the links lead, in a list that is well shaped or on a path without such blocks. A
        well-shaped list loses exactly its wholly free blocks; on a path without them nothing happens. */
    method ReleaseFreeBlocks(ghost path: seq<Addr>) returns (released: seq<nat>)
      requires |buckets| == |lists| == TOTAL_BUCKETS && Walk(space.mem, buckets[LAST_BUCKET], path)
      requires (Valid() && path == lists[LAST_BUCKET]) || NoneWhole(space.mem, path)
      modifies this`buckets, this`lists, this`starts, this`blocks, space
      ensures NoneWhole(old(space.mem), path) ==>
        released == [] && buckets == old(buckets) && lists == old(lists) && blocks == old(blocks)
            && starts == old(starts) && space.mem == old(space.mem)
      ensures old(Valid()) && path == old(lists[LAST_BUCKET]) ==>
        Valid() && Released(old(space.mem), space.mem, old(blocks), blocks, old(starts), starts, released)
    {
      ghost var m0, blocks0, starts0, heads0, lists0 := space.mem, blocks, starts, buckets, lists;
      ghost var still, rest := NoneWhole(m0, path), path;
      if Valid() && path == lists[LAST_BUCKET] { ReleaseBegins(m0, id, blocks, starts, buckets, lists); }
      released := ReleaseFrom(buckets[LAST_BUCKET], path, still, m0, blocks0, starts0, heads0, lists0);
      if old(Valid()) && path == lists0[LAST_BUCKET] {
        GoingEnds(still, m0, space.mem, id, blocks0, blocks, starts0, starts, heads0, buckets, lists0, lists, path,
                  released);
      }
    }

    /** The loop, from the head of the last bucket on. */
    method ReleaseFrom(head: Ptr, ghost path: seq<Addr>, ghost still: bool, ghost m0: Mem, ghost blocks0: set<nat>,
                       ghost starts0: set<Addr>, ghost heads0: seq<Ptr>, ghost lists0: seq<seq<Addr>>)
                         returns (released: seq<nat>)
      requires Walk(space.mem, head, path)
      requires Going(still, m0, space.mem, id, blocks0, blocks, starts0, starts, heads0, buckets, lists0, lists, path,
                     path, [])
      modifies this`buckets, this`lists, this`starts, this`blocks, space
      ensures Going(still, m0, space.mem, id, blocks0, blocks, starts0, starts, heads0, buckets, lists0, lists, path,
                    [], released)
    {
      released := [];
      var chunk := head;
      ghost var rest := path;
      while chunk.To?
        invariant Walk(space.mem, chunk, rest)
        invariant Going(still, m0, space.mem, id, blocks0, blocks, starts0, starts, heads0, buckets, lists0, lists,
                        path, rest, released)
        decreases |rest|
      {
        WalkStep(space.mem, chunk, rest);
        if space.mem[chunk.addr].tag.size == LINES_PER_BLOCK {
          GoingReleases(still, m0, space.mem, id, blocks0, blocks, starts0, starts, heads0, buckets, lists0, lists,
                        path, rest, released);
          chunk, released := ReleaseAt(chunk.addr, released, path, rest, m0, blocks0, starts0, heads0, lists0);
        } else {
          GoingKeeps(still, m0, space.mem, id, blocks0, blocks, starts0, starts, heads0, buckets, lists0, lists, path,
                     rest, released);
          chunk := space.mem[chunk.addr].next;
        }
        rest := rest[1..];
      }
    }

    /** A wholly free block in the last bucket. */
    method ReleaseAt(c: Addr, released: seq<nat>, ghost path: seq<Addr>, ghost rest: seq<Addr>, ghost m0: Mem,
                     ghost blocks0: set<nat>, ghost starts0: set<Addr>, ghost heads0: seq<Ptr>,
                     ghost lists0: seq<seq<Addr>>) returns (next: Ptr, released': seq<nat>)
      requires Releasing(m0, space.mem, id, blocks0, blocks, starts0, starts, lists0, buckets, lists, rest, released)
      requires rest != [] && c == rest[0] && c in space.mem && space.mem[c].tag.size == LINES_PER_BLOCK
      requires |rest| <= |lists[LAST_BUCKET]|
      requires (space.mem[c].prev.To? ==> space.mem[c].prev.addr in space.mem)
      requires (space.mem[c].next.To? ==> space.mem[c].next.addr in space.mem)
      modifies this`buckets, this`lists, this`starts, this`blocks, space
      ensures Going(false, m0, space.mem, id, blocks0, blocks, starts0, starts, heads0, buckets, lists0, lists, path,
                    rest[1..], released')
      ensures Walk(space.mem, next, rest[1..])
    {
      ghost var m1, blocks1, starts1, heads1, lists1 := space.mem, blocks, starts, buckets, lists;
      next := space.mem[c].next;
      ReleaseChunk(c, |lists[LAST_BUCKET]| - |rest|);
      released' := released + [c.blk];
      GoingReleased(m0, m1, space.mem, id, blocks0, blocks1, blocks, starts0, starts1, starts, heads0, heads1, buckets,
                    lists0, lists1, lists, path, rest, rest[1..], released, released', next);
    }

    /** Unlinks chunk `c`, which is number `k` of the last bucket. */
    method ReleaseChunk(c: Addr, ghost k: nat)
      requires c in space.mem && |buckets| == |lists| == TOTAL_BUCKETS && k < |lists[LAST_BUCKET]|
      requires (space.mem[c].prev.To? ==> space.mem[c].prev.addr in space.mem)
      requires (space.mem[c].next.To? ==> space.mem[c].next.addr in space.mem)
      modifies this`buckets, this`lists, this`starts, this`blocks, space
      ensures space.mem == UnlinkMem(old(space.mem), c)
      ensures buckets == UnlinkHeads(old(space.mem), old(buckets), LAST_BUCKET, c)
      ensures blocks == old(blocks) - {c.blk} && starts == old(starts) - {c}
      ensures lists == old(lists)[LAST_BUCKET := Without(old(lists)[LAST_BUCKET], k)]
    {
      if space.mem[c].prev.Null? { buckets := buckets[LAST_BUCKET := space.mem[c].next]; }
      var m := WriteUnlink(space.mem, c);
      space.mem := m;
      blocks, starts, lists := blocks - {c.blk}, starts - {c}, lists[LAST_BUCKET := Without(lists[LAST_BUCKET], k)];
    }

    constructor (id: nat, space: AddressSpace, ga: GlobalAlloc, bitmap: PageBitmap)
      ensures this.id == id && this.space == space && this.ga == ga && this.bitmap == bitmap && Valid()
      ensures blocks == {} && totalAllocated == 0 && grown == 0 && Counted()
    {
      this.id, this.space, this.ga, this.bitmap := id, space, ga, bitmap;
      buckets := seq(TOTAL_BUCKETS, i => Null);
      totalAllocated, grown := 0, 0;
      blocks, starts, lists := {}, {}, seq(TOTAL_BUCKETS, i => []);
    }
  }
}
