/**
 The data part of a snapshot: pages with a set bit are copied whole, of the others only the first
 line, and blocks without a set bit not at all.
 */
module PageImages {
  import opened HeapLayout
  import opened PageBitmaps
  import opened HeapBits
  import GlobalAllocator

  const SNAPSHOT_THREADS := 4

  predicate HasBlock(lines: set<Addr>, b: nat) {
    forall o: nat :: o < LINES_PER_BLOCK ==> Addr(b, o) in lines
  }

  /** Line `off` of block `b` is part of the image. */
  predicate SavedLine(cells: seq<Cell>, b: nat, off: nat) {
    off % LINES_PER_PAGE == 0 || PageBit(cells, b, off / LINES_PER_PAGE)
  }

  /** Some bit of the block is set. */
  ghost predicate BlockUsed(cells: seq<Cell>, b: nat) {
    exists p :: 0 <= p < PAGES_PER_BLOCK && PageBit(cells, b, p)
  }

  function CellOf(cells: seq<Cell>, b: nat, k: nat): Cell
    requires (b + 1) * CELLS_PER_BLOCK <= |cells| && k < CELLS_PER_BLOCK
  {
    cells[b * CELLS_PER_BLOCK + k]
  }

  /** The eight cells of a block are all zero. */
  predicate EightZero(cells: seq<Cell>, b: nat)
    requires (b + 1) * CELLS_PER_BLOCK <= |cells|
  {
    forall k :: 0 <= k < CELLS_PER_BLOCK ==> CellOf(cells, b, k) == {}
  }

  lemma EightZeroUnused(cells: seq<Cell>, b: nat)
    requires (b + 1) * CELLS_PER_BLOCK <= |cells|
    ensures EightZero(cells, b) <==> !BlockUsed(cells, b)
  {
    if BlockUsed(cells, b) {
      var p :| 0 <= p < PAGES_PER_BLOCK && PageBit(cells, b, p);
      CellOfPage(b, p);
      assert p % CELL in CellOf(cells, b, p / CELL);
    } else if !EightZero(cells, b) {
      var k :| 0 <= k < CELLS_PER_BLOCK && CellOf(cells, b, k) != {};
      var i :| i in CellOf(cells, b, k);
      CellOfPage(b, k * CELL + i);
      assert PageBit(cells, b, k * CELL + i);
    }
  }

  lemma CellOfPage(b: nat, p: nat)
    requires p < PAGES_PER_BLOCK
    ensures (b * PAGES_PER_BLOCK + p) / CELL == b * CELLS_PER_BLOCK + p / CELL
    ensures (b * PAGES_PER_BLOCK + p) % CELL == p % CELL
  {
  }

  /** `m` is `dst` with the first `pages` pages of block `b` copied from `src`. */
  ghost predicate PagesCopied(dst: Mem, src: Mem, m: Mem, cells: seq<Cell>, b: nat, pages: nat) {
    && m.Keys == dst.Keys
    && forall a: Addr :: a in dst ==>
         m[a] == if a.blk == b && a.off < pages * LINES_PER_PAGE && SavedLine(cells, b, a.off) && a in src then src[a]
             else dst[a]
  }

  /** One page, or its first line. */
  method CopyLines(dst: Mem, src: Mem, b: nat, from: nat, n: nat) returns (m: Mem)
    requires HasBlock(dst.Keys, b) && HasBlock(src.Keys, b) && from + n <= LINES_PER_BLOCK
    ensures m.Keys == dst.Keys
    ensures forall a: Addr :: a in dst ==> m[a] == if a.blk == b && from <= a.off < from + n then src[Addr(b, a.off)]
      else dst[a]
  {
    m := dst;
    for i := 0 to n
      invariant m.Keys == dst.Keys
      invariant forall a: Addr :: a in dst ==> m[a] == if a.blk == b && from <= a.off < from + i
        then src[Addr(b, a.off)] else dst[a]
    {
      m := m[Addr(b, from + i) := src[Addr(b, from + i)]];
    }
  }

  /** The copy loop of a block. */
  method CopyBlock(dst: Mem, src: Mem, cells: seq<Cell>, b: nat) returns (m: Mem)
    requires HasBlock(dst.Keys, b) && HasBlock(src.Keys, b) && (b + 1) * CELLS_PER_BLOCK <= |cells|
    ensures PagesCopied(dst, src, m, cells, b, PAGES_PER_BLOCK)
  {
    m := dst;
    var p := 0;
    while p < PAGES_PER_BLOCK
      invariant 0 <= p <= PAGES_PER_BLOCK && PagesCopied(dst, src, m, cells, b, p)
    {
      CellOfPage(b, p);
      var bit := p % CELL in CellOf(cells, b, p / CELL);
      assert bit == PageBit(cells, b, p);
      var before := m;
      m := CopyLines(m, src, b, p * LINES_PER_PAGE, if bit then LINES_PER_PAGE else 1);
      PageCopied(dst, src, before, m, cells, b, p);
      p := p + 1;
    }
  }

  lemma PageCopied(dst: Mem, src: Mem, m0: Mem, m: Mem, cells: seq<Cell>, b: nat, p: nat)
    requires PagesCopied(dst, src, m0, cells, b, p) && HasBlock(src.Keys, b) && p < PAGES_PER_BLOCK && m.Keys == m0.Keys
    requires
      var n := if PageBit(cells, b, p) then LINES_PER_PAGE else 1;
      forall a: Addr :: a in m0 ==>
        m[a] == if a.blk == b && p * LINES_PER_PAGE <= a.off < p * LINES_PER_PAGE + n then src[Addr(b, a.off)]
            else m0[a]
    ensures PagesCopied(dst, src, m, cells, b, p + 1)
  {
    forall a: Addr | a in dst
      ensures m[a] == if a.blk == b && a.off < (p + 1) * LINES_PER_PAGE && SavedLine(cells, b, a.off) && a in src
        then src[a] else dst[a]
    {
      if a.blk == b && p * LINES_PER_PAGE <= a.off < (p + 1) * LINES_PER_PAGE {
        assert a == Addr(b, a.off) && a.off / LINES_PER_PAGE == p;
      }
    }
  }

  /** `m` is `mem` with the saved lines of the used blocks from `lo` to `hi` taken from the image. */
  ghost predicate BlocksRestored(mem: Mem, image: Mem, m: Mem, cells: seq<Cell>, lo: nat, hi: nat) {
    && m.Keys == mem.Keys
    && forall a: Addr :: a in mem ==>
         m[a] == if lo <= a.blk < hi && a.off < LINES_PER_BLOCK && BlockUsed(cells, a.blk)
             && SavedLine(cells, a.blk, a.off) && a in image
                 then image[a] else mem[a]
  }

  /** One restore thread. */
  method RestoreWorker(mem: Mem, image: Mem, cells: seq<Cell>, offset: nat, length: nat) returns (m: Mem)
    requires (offset + length) * CELLS_PER_BLOCK <= |cells|
    requires forall b: nat :: offset <= b < offset + length ==> HasBlock(mem.Keys, b) && HasBlock(image.Keys, b)
    ensures BlocksRestored(mem, image, m, cells, offset, offset + length)
  {
    m := mem;
    var sp := 0;
    while sp < length
      invariant sp <= length && BlocksRestored(mem, image, m, cells, offset, offset + sp)
    {
      EightZeroUnused(cells, offset + sp);
      if !EightZero(cells, offset + sp) {
        ghost var before := m;
        m := CopyBlock(m, image, cells, offset + sp);
        BlockRestored(mem, image, before, m, cells, offset, offset + sp);
      }
      sp := sp + 1;
    }
  }

  lemma BlockRestored(mem: Mem, image: Mem, m0: Mem, m: Mem, cells: seq<Cell>, lo: nat, b: nat)
    requires lo <= b && BlocksRestored(mem, image, m0, cells, lo, b) && BlockUsed(cells, b)
    requires PagesCopied(m0, image, m, cells, b, PAGES_PER_BLOCK)
    ensures BlocksRestored(mem, image, m, cells, lo, b + 1)
  {
  }

  /** All restore threads. Each takes an equal share, so a number of blocks that is no multiple of
      the number of threads leaves the last blocks out. The global allocator maps whole pools, and then
      none is left out. */
  method RestoreAll(mem: Mem, image: Mem, cells: seq<Cell>, extent: nat) returns (m: Mem)
    requires extent * CELLS_PER_BLOCK <= |cells|
    requires forall b: nat :: b < extent ==> HasBlock(mem.Keys, b) && HasBlock(image.Keys, b)
    ensures BlocksRestored(mem, image, m, cells, 0, extent / SNAPSHOT_THREADS * SNAPSHOT_THREADS)
    ensures GlobalAllocator.Whole(extent) ==> BlocksRestored(mem, image, m, cells, 0, extent)
  {
    var share, index := extent / SNAPSHOT_THREADS, 0;
    m := mem;
    for i := 0 to SNAPSHOT_THREADS
      invariant index == Start(extent, i) && BlocksRestored(mem, image, m, cells, 0, index)
    {
      ghost var before := m;
      NextShare(extent, i);
      m := RestoreShare(m, image, cells, index, share, extent);
      SharesJoin(mem, image, before, m, cells, index, index + share);
      index := index + share;
    }
  }

  method RestoreShare(mem: Mem, image: Mem, cells: seq<Cell>, index: nat, share: nat, extent: nat) returns (m: Mem)
    requires extent * CELLS_PER_BLOCK <= |cells| && index + share <= extent
    requires forall b: nat :: b < extent ==> HasBlock(mem.Keys, b) && HasBlock(image.Keys, b)
    ensures BlocksRestored(mem, image, m, cells, index, index + share)
  {
    m := RestoreWorker(mem, image, cells, index, share);
  }

  /** First block of the `i`th thread. */
  function Start(extent: nat, i: nat): nat {
    extent / SNAPSHOT_THREADS * i
  }

  lemma NextShare(extent: nat, i: nat)
    requires i < SNAPSHOT_THREADS
    ensures Start(extent, i + 1) == Start(extent, i) + extent / SNAPSHOT_THREADS <= extent
  {
  }

  lemma SharesJoin(mem: Mem, image: Mem, m0: Mem, m: Mem, cells: seq<Cell>, mid: nat, hi: nat)
    requires mid <= hi && BlocksRestored(mem, image, m0, cells, 0, mid) && BlocksRestored(m0, image, m, cells, mid, hi)
    ensures BlocksRestored(mem, image, m, cells, 0, hi)
  {
  }
}
