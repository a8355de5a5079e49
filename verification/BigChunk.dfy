/**
 Chunks of more than a block: whole blocks from the global allocator, a header in the first line, and page bits of their
 own.
 */
module BigChunks {
  import opened HeapLayout
  import opened AllocSteps
  import opened PageBitmaps
  import opened HeapBits
  import opened GlobalAllocator

  /** Lines that fit the 29-bit size field of a chunk header. */
  const SIZE_FIELD := 8388608

  /** Whole blocks for `size` lines. */
  function BigBlocks(size: nat): nat {
    (size + LINES_PER_BLOCK - 1) / LINES_PER_BLOCK
  }

  /** The size as the header keeps it. */
  function SizeField(size: nat): nat {
    size % SIZE_FIELD
  }

  /** The blocks a big chunk gives back, by the size in its header, are those it took exactly when the size fits. */
  lemma BigBlocksBack(size: nat)
    ensures BigBlocks(SizeField(size)) == BigBlocks(size) <==> size < SIZE_FIELD
  {
    if size < SIZE_FIELD {
      assert SizeField(size) == size;
    } else {
      assert SizeField(size) + LINES_PER_BLOCK <= SIZE_FIELD + LINES_PER_BLOCK - 1;
    }
  }

  /** Marking a big chunk and clearing its blocks again leaves the bitmap as it was, if no page of them was marked. */
  lemma BigBitsBack(c0: seq<Cell>, c1: seq<Cell>, c2: seq<Cell>, b: nat, size: nat)
    requires Written(c0, c1, b * BLOCK, size, true) && Written(c1, c2, b * BLOCK, BigBlocks(size) * BLOCK, false)
    requires forall page: nat :: page < |c0| * CELL && Meets(page, b * BLOCK, BigBlocks(size) * BLOCK) ==>
      !Bit(c0, page)
    ensures c2 == c0
  {
    forall page: nat | page < |c0| * CELL ensures Bit(c2, page) <==> Bit(c0, page) {
      BigMeets(b, size, page);
    }
    forall i | 0 <= i < |c0| ensures c2[i] == c0[i] {
      forall k: nat | k < CELL ensures k in c2[i] <==> k in c0[i] {
        assert Bit(c2, i * CELL + k) <==> Bit(c0, i * CELL + k);
        assert (i * CELL + k) / CELL == i && (i * CELL + k) % CELL == k;
      }
    }
  }

  lemma BigRoom(b: nat, size: nat)
    requires b + BigBlocks(size) <= MAX_BLOCKS && 0 < size
    ensures b < MAX_BLOCKS && b * BLOCK % BLOCK == 0 && b * BLOCK + size <= MAX_BLOCKS * CELLS_PER_BLOCK * CELL * PAGE
  {
  }

  lemma BigMeets(b: nat, size: nat, page: nat)
    ensures Meets(page, b * BLOCK, size) ==> Meets(page, b * BLOCK, BigBlocks(size) * BLOCK)
  {
  }

  /** The blocks of a big chunk. */
  ghost function BigRange(b: nat, size: nat): set<nat> {
    Blocks(b, BigBlocks(size))
  }

  /** In the blocks of a big chunk a page is marked if and only if it holds a line of the chunk. */
  ghost predicate BigBits(cells: seq<Cell>, b: nat, size: nat) {
    forall d: nat, p: nat :: d in BigRange(b, size) && p < PAGES_PER_BLOCK ==>
      (PageBit(cells, d, p) <==> d * LINES_PER_BLOCK + p * LINES_PER_PAGE < b * LINES_PER_BLOCK + size)
  }

  /** What a big chunk promises: its header, its blocks and its page bits. */
  ghost predicate BigOk(mem: Mem, cells: seq<Cell>, out: set<nat>, lists: nat, b: nat, size: nat) {
    && LINES_PER_BLOCK < size && Addr(b, 0) in mem && mem[Addr(b, 0)].tag.listId < lists
    && mem[Addr(b, 0)].tag == Tag(0, mem[Addr(b, 0)].tag.listId, true, true, true, SizeField(size))
    && BigRange(b, size) <= out && BigBits(cells, b, size)
  }

  /** Work in other blocks does not touch a big chunk. */
  lemma BigFrame(mem: Mem, mem': Mem, cells: seq<Cell>, cells': seq<Cell>, out: set<nat>, out': set<nat>,
                 other: set<nat>, lists: nat, b: nat, size: nat)
    requires BigOk(mem, cells, out, lists, b, size) && BigRange(b, size) !! other && out - other <= out'
    requires Within(mem, mem', other) && OthersSameBits(cells, cells', other)
    ensures BigOk(mem', cells', out', lists, b, size)
    ensures forall a: Addr :: a in mem && a.blk in BigRange(b, size) ==> mem'[a] == mem[a]
  {
    assert b in BigRange(b, size);
  }

  lemma MeetsBig(b: nat, lines: nat, d: nat, p: nat)
    requires p < PAGES_PER_BLOCK
    ensures Meets(d * PAGES_PER_BLOCK + p, b * BLOCK, lines) <==>
      b <= d && d * LINES_PER_BLOCK + p * LINES_PER_PAGE < b * LINES_PER_BLOCK + lines
  {
  }

  /** Marking a big chunk in blocks without marked pages. */
  lemma BigMarked(cells: seq<Cell>, cells': seq<Cell>, limit: nat, b: nat, size: nat)
    requires Written(cells, cells', b * BLOCK, size, true) && |cells| == limit * CELLS_PER_BLOCK
    requires b + BigBlocks(size) <= limit
    requires forall d: nat, p: nat :: d in BigRange(b, size) && p < PAGES_PER_BLOCK ==> !PageBit(cells, d, p)
    ensures BigBits(cells', b, size) && OthersSameBits(cells, cells', BigRange(b, size))
  {
    forall d: nat, p: nat | d in BigRange(b, size) && p < PAGES_PER_BLOCK
      ensures PageBit(cells', d, p) <==> d * LINES_PER_BLOCK + p * LINES_PER_PAGE < b * LINES_PER_BLOCK + size
    {
      assert !PageBit(cells, d, p) && b <= d < b + BigBlocks(size);
      BigPage(cells, limit, d, p);
      MarkedPage(cells, cells', b, size, d, p);
    }
    BigElsewhere(cells, cells', b, size, BigBlocks(size), true);
  }

  lemma MarkedPage(cells: seq<Cell>, cells': seq<Cell>, b: nat, size: nat, d: nat, p: nat)
    requires Written(cells, cells', b * BLOCK, size, true) && b <= d && p < PAGES_PER_BLOCK
    requires (d * PAGES_PER_BLOCK + p) / CELL < |cells| && !Bit(cells, d * PAGES_PER_BLOCK + p)
    ensures PageBit(cells', d, p) <==> d * LINES_PER_BLOCK + p * LINES_PER_PAGE < b * LINES_PER_BLOCK + size
  {
    MeetsBig(b, size, d, p);
    assert d * PAGES_PER_BLOCK + p < |cells| * CELL;
  }

  lemma BigPage(cells: seq<Cell>, limit: nat, d: nat, p: nat)
    requires |cells| == limit * CELLS_PER_BLOCK && d < limit && p < PAGES_PER_BLOCK
    ensures (d * PAGES_PER_BLOCK + p) / CELL < |cells| && d * PAGES_PER_BLOCK + p < |cells| * CELL
  {
  }

  lemma BigElsewhere(cells: seq<Cell>, cells': seq<Cell>, b: nat, lines: nat, k: nat, value: bool)
    requires Written(cells, cells', b * BLOCK, lines, value) && lines <= k * BLOCK
    ensures OthersSameBits(cells, cells', Blocks(b, k))
  {
    forall d: nat, p: nat | d !in Blocks(b, k) && p < PAGES_PER_BLOCK
      ensures PageBit(cells', d, p) <==> PageBit(cells, d, p) {
      MeetsBig(b, lines, d, p);
      var page := d * PAGES_PER_BLOCK + p;
      assert page / CELL < |cells| ==> page < |cells| * CELL;
    }
  }

  /** Clearing whole blocks. */
  lemma BigCleared(cells: seq<Cell>, cells': seq<Cell>, out: set<nat>, b: nat, k: nat)
    requires Written(cells, cells', b * BLOCK, k * BLOCK, false) && ClearOutside(cells, out)
    ensures OthersSameBits(cells, cells', Blocks(b, k)) && ClearOutside(cells', out - Blocks(b, k))
  {
    BigElsewhere(cells, cells', b, k * BLOCK, k, false);
    forall d: nat, p: nat | d !in out - Blocks(b, k) && p < PAGES_PER_BLOCK ensures !PageBit(cells', d, p) {
      MeetsBig(b, k * BLOCK, d, p);
    }
  }

  /** The blocks of the stored size are among those of the chunk, and all of them exactly when the size fits its
      field. */
  lemma StoredBlocks(b: nat, size: nat)
    requires LINES_PER_BLOCK < size
    ensures BigBlocks(SizeField(size)) <= BigBlocks(size) && BigRange(b, SizeField(size)) <= BigRange(b, size)
    ensures SizeField(size) <= LINES_PER_BLOCK ==> SIZE_FIELD <= size
    ensures forall out: set<nat> :: BigRange(b, size) <= out ==>
      (out - BigRange(b, SizeField(size)) !! BigRange(b, size) <==> size < SIZE_FIELD)
  {
    BigBlocksBack(size);
    forall out: set<nat> | BigRange(b, size) <= out
      ensures out - BigRange(b, SizeField(size)) !! BigRange(b, size) <==> size < SIZE_FIELD
    {
      if SIZE_FIELD <= size {
        var last := b + BigBlocks(size) - 1;
        assert last in BigRange(b, size) && last !in BigRange(b, SizeField(size));
      }
    }
  }

  /** Blocks that are handed out lie in the address range. */
  lemma OutInRange(free: seq<Region>, out: set<nat>, extent: nat, b: nat, k: nat)
    requires Partition(free, out, extent) && extent <= MAX_BLOCKS && 0 < k && Blocks(b, k) <= out
    ensures b + k <= MAX_BLOCKS
  {
    assert b + k - 1 in Blocks(b, k);
  }

  /** The free run that `k` blocks from `b` on join fits the size field. */
  ghost predicate RunFits(free: seq<Region>, extent: nat, b: nat, k: nat) {
    RunHigh(free, b + k, extent) - RunLow(free, b) < SIZE_LIMIT
  }
}
