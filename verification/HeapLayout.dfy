/**
 The chunked heap of one free list, as values.

 Memory is counted in 64-byte cache lines: every chunk size and every chunk address is a
 multiple of 64 bytes. A page has 64 lines and a block 32768. An address is a block number and a
 line offset in that block, which are the two parts the source extracts with `& 0x1FFFFF` and
 `>> 6`.
 */
module HeapLayout {

  const LINES_PER_PAGE := 64
  const LINES_PER_BLOCK := 32768
  const PAGES_PER_BLOCK := 512
  const TOTAL_BUCKETS := 14

  datatype Addr = Addr(blk: nat, off: nat)

  datatype Ptr = Null | To(addr: Addr)

  /** The 64-bit chunk header. */
  datatype Tag = Tag(prevOffset: nat, listId: nat, last: bool, used: bool, jumbo: bool, size: nat)

  /** One cache line: header word, the two link words of a free chunk, and the other 40 bytes.
      In the middle of a chunk all four parts are payload. */
  datatype Line = Line(tag: Tag, prev: Ptr, next: Ptr, rest: int)

  type Mem = map<Addr, Line>

  function Plus(a: Addr, n: nat): Addr {
    Addr(a.blk, a.off + n)
  }

  // ---------------------------------------------------------------- size classes

  const CAPS: seq<nat> := [1, 2, 4, 8, 16, 32, 64, 128, 256, 512, 1024, 2048, 4096]

  function Pow2(n: nat): (p: nat)
    ensures 0 < p
  {
    if n == 0 then 1 else 2 * Pow2(n - 1)
  }

  /** The caps double from one line on. */
  lemma CapsDouble(b: nat)
    requires b < TOTAL_BUCKETS - 1
    ensures |CAPS| == TOTAL_BUCKETS - 1 && CAPS[b] == Pow2(b)
  {
    if 0 < b { CapsDouble(b - 1); }
  }

  /** The source's search: step over the buckets whose cap is below `size`. */
  function BucketFrom(size: nat, b: nat): (r: nat)
    requires b < TOTAL_BUCKETS
    ensures r < TOTAL_BUCKETS
    decreases TOTAL_BUCKETS - b
  {
    if b == TOTAL_BUCKETS - 1 || size <= CAPS[b] then b else BucketFrom(size, b + 1)
  }

  function Bucket(size: nat): (r: nat)
    ensures r < TOTAL_BUCKETS
  {
    BucketFrom(size, 0)
  }

  lemma {:induction false} BucketFromSmallest(size: nat, b: nat)
    requires b < TOTAL_BUCKETS
    ensures
      var r := BucketFrom(size, b);
      && b <= r && (r < TOTAL_BUCKETS - 1 ==> size <= CAPS[r]) && forall i :: b <= i < r ==> CAPS[i] < size
    decreases TOTAL_BUCKETS - b
  {
    if b < TOTAL_BUCKETS - 1 && CAPS[b] < size {
      BucketFromSmallest(size, b + 1);
    }
  }

  /** `findBucket` gives the smallest bucket whose cap is at least `size`; the last has no cap. */
  lemma BucketSmallest(size: nat)
    ensures
      var r := Bucket(size);
      && (r < TOTAL_BUCKETS - 1 ==> size <= CAPS[r]) && forall i :: 0 <= i < r ==> CAPS[i] < size
  {
    BucketFromSmallest(size, 0);
  }

  lemma BucketMonotone(s: nat, t: nat)
    requires s <= t
    ensures Bucket(s) <= Bucket(t)
  {
    BucketSmallest(s);
    BucketSmallest(t);
  }

  lemma CapsIncrease(i: nat, j: nat)
    requires i <= j < TOTAL_BUCKETS - 1
    ensures CAPS[i] <= CAPS[j]
  {
  }

  /** Shrinking a chunk leaves it in its bucket while it stays above the previous cap. */
  lemma BucketKept(s: nat, t: nat)
    requires 0 < Bucket(s)
    requires CAPS[Bucket(s) - 1] < t <= s
    ensures Bucket(t) == Bucket(s)
  {
    BucketSmallest(t);
    BucketMonotone(t, s);
    if Bucket(t) < Bucket(s) {
      CapsIncrease(Bucket(t), Bucket(s) - 1);
    }
  }

  /** And no longer. */
  lemma BucketLeft(s: nat, t: nat)
    requires 0 < t <= s && Bucket(t) == Bucket(s) && 0 < Bucket(s)
    ensures CAPS[Bucket(s) - 1] < t
  {
    BucketSmallest(t);
  }

  // ---------------------------------------------------------------- tiling

  /** The boundary tags of chunk `a` agree with its neighbours and with its block. */
  ghost predicate Chunk(mem: Mem, id: nat, blocks: set<nat>, starts: set<Addr>, a: Addr)
    requires a in mem
  {
    var t := mem[a].tag;
    && a.blk in blocks && t.listId == id
    && 0 < t.size && a.off + t.size <= LINES_PER_BLOCK
    && (t.last <==> a.off + t.size == LINES_PER_BLOCK)
    && (!t.last ==>
          var n := Plus(a, t.size);
          n in starts && n in mem && mem[n].tag.prevOffset == a.off)
    && (0 < a.off ==>
          var p := Addr(a.blk, t.prevOffset);
          p in starts && p in mem && 0 < mem[p].tag.size && p.off + mem[p].tag.size == a.off)
  }

  /** `starts` are the first lines of the chunks of `blocks`, and every tag is right. */
  ghost predicate Tiled(mem: Mem, id: nat, blocks: set<nat>, starts: set<Addr>) {
    && (forall a: Addr :: a.blk in blocks && a.off < LINES_PER_BLOCK ==> a in mem)
    && (forall b: nat :: b in blocks ==> Addr(b, 0) in starts)
    && (forall a :: a in starts ==> a in mem && Chunk(mem, id, blocks, starts, a))
  }

  ghost function Live(mem: Mem, starts: set<Addr>): map<Addr, nat> {
    map a | a in starts && a in mem && mem[a].tag.used :: mem[a].tag.size
  }

  lemma StartsInBlocks(mem: Mem, id: nat, blocks: set<nat>, starts: set<Addr>)
    requires Tiled(mem, id, blocks, starts)
    ensures forall a :: a in starts ==> a.blk in blocks
  {
    forall a | a in starts ensures a.blk in blocks {
      assert Chunk(mem, id, blocks, starts, a);
    }
  }

  /** Two chunks of a block do not overlap. */
  lemma {:induction false} ChunksDisjoint(mem: Mem, id: nat, blocks: set<nat>, starts: set<Addr>, a: Addr, b: Addr)
    requires Tiled(mem, id, blocks, starts)
    requires a in starts && b in starts && a.blk == b.blk && a.off < b.off
    ensures a.off + mem[a].tag.size <= b.off
    decreases b.off
  {
    assert Chunk(mem, id, blocks, starts, b);
    var p := Addr(b.blk, mem[b].tag.prevOffset);
    if p.off == a.off {
      assert p == a;
    } else if a.off < p.off {
      ChunksDisjoint(mem, id, blocks, starts, a, p);
    } else {
      ChunksDisjoint(mem, id, blocks, starts, p, a);
    }
  }

  /** The chunks of a block leave no line of it uncovered. */
  lemma {:induction false} ChunksCover(mem: Mem, id: nat, blocks: set<nat>, starts: set<Addr>, x: Addr, from: Addr)
    returns (a: Addr)
    requires Tiled(mem, id, blocks, starts)
    requires from in starts && from.blk == x.blk && from.off <= x.off < LINES_PER_BLOCK
    ensures a in starts && a.blk == x.blk && a.off <= x.off < a.off + mem[a].tag.size
    decreases x.off - from.off
  {
    assert Chunk(mem, id, blocks, starts, from);
    if x.off < from.off + mem[from].tag.size {
      a := from;
    } else {
      a := ChunksCover(mem, id, blocks, starts, x, Plus(from, mem[from].tag.size));
    }
  }

  /** Chunks partition every block: each line is in exactly one chunk. */
  lemma TilingPartitions(mem: Mem, id: nat, blocks: set<nat>, starts: set<Addr>, x: Addr)
    requires Tiled(mem, id, blocks, starts)
    requires x.blk in blocks && x.off < LINES_PER_BLOCK
    ensures exists a :: (a in starts && Covers(mem, a, x) &&
                         forall b :: b in starts && Covers(mem, b, x) ==> b == a)
  {
    var a := ChunksCover(mem, id, blocks, starts, x, Addr(x.blk, 0));
    forall b | b in starts && Covers(mem, b, x) ensures b == a {
      if a.off < b.off { ChunksDisjoint(mem, id, blocks, starts, a, b); }
      if b.off < a.off { ChunksDisjoint(mem, id, blocks, starts, b, a); }
    }
    assert Covers(mem, a, x);
  }

  ghost predicate Covers(mem: Mem, a: Addr, x: Addr) {
    a in mem && a.blk == x.blk && a.off <= x.off < a.off + mem[a].tag.size
  }

  /** Only the tags at chunk starts matter for the tiling. */
  lemma TiledByTags(mem: Mem, mem': Mem, id: nat, blocks: set<nat>, starts: set<Addr>)
    requires Tiled(mem, id, blocks, starts)
    requires mem.Keys <= mem'.Keys
    requires forall a :: a in starts ==> mem'[a].tag == mem[a].tag
    ensures Tiled(mem', id, blocks, starts)
  {
    forall a | a in starts ensures a in mem' && Chunk(mem', id, blocks, starts, a) {
      assert Chunk(mem, id, blocks, starts, a);
    }
  }

  /** `mem'` is `mem` with chunk `a` split after `n` lines. */
  ghost predicate SplitTags(mem: Mem, mem': Mem, id: nat, starts: set<Addr>, a: Addr, n: nat) {
    && a in mem && 0 < n < mem[a].tag.size
    && starts <= mem.Keys <= mem'.Keys
    && var t, m := mem[a].tag, Plus(a, n);
    && mem'[a].tag == t.(size := n, last := false, used := mem'[a].tag.used, jumbo := mem'[a].tag.jumbo)
    && m in mem'
    && mem'[m].tag.prevOffset == a.off && mem'[m].tag.listId == id
    && mem'[m].tag.last == t.last && mem'[m].tag.size == t.size - n
    && forall x :: x in starts && x != a ==>
         mem'[x].tag == if !t.last && x == Plus(a, t.size) then mem[x].tag.(prevOffset := m.off) else mem[x].tag
  }

  /** A chunk other than `a` is still well tagged after the split. */
  lemma SplitOther(mem: Mem, mem': Mem, id: nat, blocks: set<nat>, starts: set<Addr>, a: Addr, n: nat, x: Addr)
    requires Tiled(mem, id, blocks, starts)
    requires a in starts && SplitTags(mem, mem', id, starts, a, n)
    requires x in starts && x != a && x != Plus(a, n)
    ensures Chunk(mem', id, blocks, starts + {Plus(a, n)}, x)
  {
    assert Chunk(mem, id, blocks, starts, a);
    assert Chunk(mem, id, blocks, starts, x);
    var e := Plus(a, mem[a].tag.size);
    if 0 < x.off {
      var p := Addr(x.blk, mem[x].tag.prevOffset);
      if p == a {
        assert x == e;
      } else {
        assert mem'[p].tag.size == mem[p].tag.size;
      }
    }
    if !mem[x].tag.last {
      var y := Plus(x, mem[x].tag.size);
      assert mem[a].tag.last || y != e;
      if y == a {
        assert mem'[y].tag.prevOffset == mem[y].tag.prevOffset;
      }
    }
  }

  /** Splitting keeps the tiling, with one more chunk. */
  lemma SplitTiled(mem: Mem, mem': Mem, id: nat, blocks: set<nat>, starts: set<Addr>, a: Addr, n: nat)
    requires Tiled(mem, id, blocks, starts)
    requires a in starts && SplitTags(mem, mem', id, starts, a, n)
    ensures Plus(a, n) !in starts
    ensures Tiled(mem', id, blocks, starts + {Plus(a, n)})
  {
    var m := Plus(a, n);
    var S := starts + {m};
    assert Chunk(mem, id, blocks, starts, a);
    if m in starts { ChunksDisjoint(mem, id, blocks, starts, a, m); }
    forall x | x in S ensures x in mem' && Chunk(mem', id, blocks, S, x) {
      if x != m && x != a {
        SplitOther(mem, mem', id, blocks, starts, a, n, x);
      } else if x == a && 0 < a.off {
        assert mem'[Addr(a.blk, mem[a].tag.prevOffset)].tag.size == mem[Addr(a.blk, mem[a].tag.prevOffset)].tag.size;
      }
    }
  }

  /** `mem'` is `mem` with chunk `a` extended over the chunk `b` that follows it. */
  ghost predicate MergeTags(mem: Mem, mem': Mem, starts: set<Addr>, a: Addr, b: Addr) {
    && starts <= mem.Keys <= mem'.Keys
    && a in starts && b in starts && b == Plus(a, mem[a].tag.size)
    && mem'[a].tag == mem[a].tag.(size := mem[a].tag.size + mem[b].tag.size, last := mem[b].tag.last,
                                  used := mem'[a].tag.used, jumbo := mem'[a].tag.jumbo)
    && forall x :: x in starts && x != a && x != b ==>
         mem'[x].tag == if !mem[b].tag.last && x == Plus(b, mem[b].tag.size)
                        then mem[x].tag.(prevOffset := a.off) else mem[x].tag
  }

  lemma MergeOther(mem: Mem, mem': Mem, id: nat, blocks: set<nat>, starts: set<Addr>, a: Addr, b: Addr, x: Addr)
    requires Tiled(mem, id, blocks, starts)
    requires MergeTags(mem, mem', starts, a, b) && !mem[a].tag.last
    requires x in starts && x != a && x != b
    ensures Chunk(mem', id, blocks, starts - {b}, x)
  {
    assert Chunk(mem, id, blocks, starts, a);
    assert Chunk(mem, id, blocks, starts, b);
    assert Chunk(mem, id, blocks, starts, x);
    var e := Plus(b, mem[b].tag.size);
    if 0 < x.off {
      var p := Addr(x.blk, mem[x].tag.prevOffset);
      if p == b {
        assert x == e;
      } else {
        assert p != a;
        assert mem'[p].tag.size == mem[p].tag.size;
      }
    }
    if !mem[x].tag.last {
      var y := Plus(x, mem[x].tag.size);
      assert y != b;
      assert mem[b].tag.last || y != e;
      assert mem'[y].tag.prevOffset == mem[y].tag.prevOffset;
    }
  }

  lemma MergeSelf(mem: Mem, mem': Mem, id: nat, blocks: set<nat>, starts: set<Addr>, a: Addr, b: Addr)
    requires Tiled(mem, id, blocks, starts)
    requires MergeTags(mem, mem', starts, a, b) && !mem[a].tag.last
    ensures Chunk(mem', id, blocks, starts - {b}, a)
  {
    assert Chunk(mem, id, blocks, starts, a);
    assert Chunk(mem, id, blocks, starts, b);
    if 0 < a.off {
      var p := Addr(a.blk, mem[a].tag.prevOffset);
      assert mem'[p].tag.size == mem[p].tag.size;
    }
  }

  /** Merging keeps the tiling, with one chunk less. */
  lemma MergeTiled(mem: Mem, mem': Mem, id: nat, blocks: set<nat>, starts: set<Addr>, a: Addr, b: Addr)
    requires Tiled(mem, id, blocks, starts)
    requires MergeTags(mem, mem', starts, a, b) && !mem[a].tag.last
    ensures Tiled(mem', id, blocks, starts - {b})
  {
    var S := starts - {b};
    forall x | x in S ensures x in mem' && Chunk(mem', id, blocks, S, x) {
      if x == a {
        MergeSelf(mem, mem', id, blocks, starts, a, b);
      } else {
        MergeOther(mem, mem', id, blocks, starts, a, b, x);
      }
    }
  }
}
