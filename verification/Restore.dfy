/**
 A free list whose memory comes back from a snapshot image.
 */
module Restores {
  import opened HeapLayout
  import opened BucketLists
  import opened FreeListShape
  import opened AllocSteps
  import opened FreeSteps
  import opened ReallocSteps
  import opened PageBitmaps
  import opened HeapBits
  import opened PageImages
  import opened CopyOnWrites
  import opened FreeSites
  import opened ReleaseSteps
  import opened FreeLists

  /** In the blocks of the list `r` agrees with `m` on all saved lines of used blocks. */
  ghost predicate Recovers(m: Mem, r: Mem, cells: seq<Cell>, blocks: set<nat>) {
    && r.Keys == m.Keys
    && forall a: Addr ::
         a in m && a.blk in blocks && a.off < LINES_PER_BLOCK && BlockUsed(cells, a.blk)
             && SavedLine(cells, a.blk, a.off) ==>
         r[a] == m[a]
  }

  /** A chunk that does not start a page shares its page with the chunk before it, and one of the two
      is in use. */
  lemma HeaderPageMarked(m: Mem, id: nat, blocks: set<nat>, starts: set<Addr>, heads: seq<Ptr>, lists: seq<seq<Addr>>,
                         cells: seq<Cell>, a: Addr)
    requires Shape(m, id, blocks, starts, heads, lists) && ExactBits(cells, blocks, Live(m, starts)) && a in starts
    ensures SavedLine(cells, a.blk, a.off)
  {
    assert Chunk(m, id, blocks, starts, a);
    if a.off % LINES_PER_PAGE != 0 {
      var u := UsedNeighbour(m, id, blocks, starts, heads, lists, a);
      TouchesMarked(m, id, blocks, starts, cells, u, a.off / LINES_PER_PAGE);
    }
  }

  /** A chunk that does not start a page, or the chunk before it, is in use and meets its page. */
  lemma UsedNeighbour(m: Mem, id: nat, blocks: set<nat>, starts: set<Addr>, heads: seq<Ptr>, lists: seq<seq<Addr>>,
                      a: Addr) returns (u: Addr)
    requires Shape(m, id, blocks, starts, heads, lists) && a in starts && a.off % LINES_PER_PAGE != 0
    ensures u in starts && m[u].tag.used && u.blk == a.blk && Touches(u, m[u].tag.size, a.off / LINES_PER_PAGE)
  {
    assert Chunk(m, id, blocks, starts, a);
    PrevChunk(m, id, blocks, starts, a);
    var prev := Addr(a.blk, m[a].tag.prevOffset);
    assert Chunk(m, id, blocks, starts, prev);
    u := if m[a].tag.used then a else prev;
    assert Free(m, starts, prev) || m[prev].tag.used;
    PageOf(a.off, prev.off, m[prev].tag.size);
  }

  lemma PageOf(off: nat, before: nat, size: nat)
    requires off % LINES_PER_PAGE != 0 && before + size == off && 0 < size
    ensures var p := off / LINES_PER_PAGE;
      p * LINES_PER_PAGE < off < (p + 1) * LINES_PER_PAGE && before < (p + 1) * LINES_PER_PAGE
  {
  }

  lemma TouchesMarked(m: Mem, id: nat, blocks: set<nat>, starts: set<Addr>, cells: seq<Cell>, u: Addr, p: nat)
    requires Tiled(m, id, blocks, starts) && ExactBits(cells, blocks, Live(m, starts)) && u in starts && m[u].tag.used
    requires Touches(u, m[u].tag.size, p)
    ensures PageBit(cells, u.blk, p)
  {
    assert Chunk(m, id, blocks, starts, u);
    assert u in Live(m, starts) && Touches(u, Live(m, starts)[u], p);
    assert SomeTouches(Live(m, starts), u.blk, p);
  }

  /** Every line of a chunk in use is in a marked page. */
  lemma PayloadMarked(m: Mem, id: nat, blocks: set<nat>, starts: set<Addr>, cells: seq<Cell>, a: Addr, i: nat)
    requires Tiled(m, id, blocks, starts) && ExactBits(cells, blocks, Live(m, starts))
    requires a in Live(m, starts) && i < Live(m, starts)[a]
    ensures a.blk in blocks && Plus(a, i) in m && Plus(a, i).off < LINES_PER_BLOCK
    ensures BlockUsed(cells, a.blk) && SavedLine(cells, a.blk, Plus(a, i).off)
  {
    assert Chunk(m, id, blocks, starts, a);
    var p := (a.off + i) / LINES_PER_PAGE;
    assert Touches(a, Live(m, starts)[a], p);
    assert SomeTouches(Live(m, starts), a.blk, p);
  }

  /** All headers and free-list links come back when every block has a marked page. */
  lemma HeadersRecovered(m: Mem, r: Mem, id: nat, blocks: set<nat>, starts: set<Addr>, heads: seq<Ptr>,
                         lists: seq<seq<Addr>>, cells: seq<Cell>)
    requires Shape(m, id, blocks, starts, heads, lists) && ExactBits(cells, blocks, Live(m, starts))
    requires Recovers(m, r, cells, blocks)
    requires forall b :: b in blocks ==> BlockUsed(cells, b)
    ensures forall a :: a in starts ==> a in r && r[a] == m[a]
  {
    forall a | a in starts ensures a in r && r[a] == m[a] {
      assert Chunk(m, id, blocks, starts, a);
      HeaderPageMarked(m, id, blocks, starts, heads, lists, cells, a);
    }
  }

  /** A line of newly mapped memory. */
  const ZERO := Line(Tag(0, 0, false, false, false, 0), Null, Null, 0)

  /** A block without marked page comes back zero. */
  ghost predicate ZeroElsewhere(r: Mem, cells: seq<Cell>, blocks: set<nat>) {
    forall a: Addr :: a in r && a.blk in blocks && !BlockUsed(cells, a.blk) ==> r[a] == ZERO
  }

  /** The restored list is well shaped, with the saved bucket heads, exactly when no block of it was wholly free;
      otherwise no choice of blocks, chunks and lists gives it a shape. Its chunks in use have their contents in any
      case. */
  lemma RestoredHeap(m: Mem, r: Mem, id: nat, blocks: set<nat>, starts: set<Addr>, heads: seq<Ptr>,
                     lists: seq<seq<Addr>>, cells: seq<Cell>)
    requires Shape(m, id, blocks, starts, heads, lists) && ExactBits(cells, blocks, Live(m, starts))
    requires Recovers(m, r, cells, blocks) && ZeroElsewhere(r, cells, blocks)
    ensures Shape(r, id, blocks, starts, heads, lists) <==> forall b :: b in blocks ==> BlockUsed(cells, b)
    ensures NoShape(r, id, heads) <==> !forall b :: b in blocks ==> BlockUsed(cells, b)
    ensures PayloadsKept(m, r, Live(m, starts))
    ensures (forall b :: b in blocks ==> BlockUsed(cells, b)) ==> Live(r, starts) == Live(m, starts)
  {
    if forall b :: b in blocks ==> BlockUsed(cells, b) {
      HeadersRecovered(m, r, id, blocks, starts, heads, lists, cells);
      PayloadShape(m, r, id, blocks, starts, heads, lists);
      assert Live(r, starts) == Live(m, starts);
    } else {
      var b :| b in blocks && !BlockUsed(cells, b);
      LostHeader(m, r, id, blocks, starts, heads, lists, cells, b);
    }
    PayloadsRecovered(m, r, id, blocks, starts, cells);
  }

  /** Contents of chunks in use come back in any case. */
  lemma PayloadsRecovered(m: Mem, r: Mem, id: nat, blocks: set<nat>, starts: set<Addr>, cells: seq<Cell>)
    requires Tiled(m, id, blocks, starts) && ExactBits(cells, blocks, Live(m, starts)) && Recovers(m, r, cells, blocks)
    ensures PayloadsKept(m, r, Live(m, starts))
  {
    forall a | a in Live(m, starts) ensures SamePayload(m, r, a, Live(m, starts)[a]) {
      assert Chunk(m, id, blocks, starts, a);
      PayloadMarked(m, id, blocks, starts, cells, a, 0);
      forall i | 0 < i < Live(m, starts)[a]
        ensures Plus(a, i) in m && Plus(a, i) in r && r[Plus(a, i)] == m[Plus(a, i)] {
        PayloadMarked(m, id, blocks, starts, cells, a, i);
      }
    }
  }

  /** The header of a free block is lost, and the links still lead to it or to another lost one. */
  lemma LostHeader(m: Mem, r: Mem, id: nat, blocks: set<nat>, starts: set<Addr>, heads: seq<Ptr>,
                   lists: seq<seq<Addr>>, cells: seq<Cell>, b: nat)
    requires Shape(m, id, blocks, starts, heads, lists) && ExactBits(cells, blocks, Live(m, starts))
    requires Recovers(m, r, cells, blocks) && ZeroElsewhere(r, cells, blocks) && b in blocks && !BlockUsed(cells, b)
    ensures NoShape(r, id, heads)
  {
    var a := Addr(b, 0);
    assert Chunk(m, id, blocks, starts, a);
    UsedBlock(m, id, blocks, starts, cells, b);
    assert a in Live(m, starts) ==> a.blk == b;
    assert Free(m, starts, a) && Listed(lists, a);
    var d :| 0 <= d < |lists| && a in lists[d];
    var i :| 0 <= i < |lists[d]| && lists[d][i] == a;
    var k := FirstLost(m, id, blocks, starts, heads, lists, cells, d, i);
    ListRecovered(m, r, id, blocks, starts, heads, lists, cells, d, k);
    LostChunk(m, r, id, blocks, starts, heads, lists, cells, d, k);
    forall B: set<nat>, S: set<Addr>, L: seq<seq<Addr>> ensures !Shape(r, id, B, S, heads, L) {
      LeadsThere(m, r, heads, lists, L, d, k);
      assert !Chunk(r, id, B, S, lists[d][k]);
    }
  }

  /** Chunk `i` of list `d` lies in a wholly free block. */
  ghost predicate Lost(lists: seq<seq<Addr>>, cells: seq<Cell>, d: nat, i: nat) {
    d < |lists| && i < |lists[d]| && !BlockUsed(cells, lists[d][i].blk)
  }

  /** The first chunk of the list whose header is lost. */
  lemma {:induction false} FirstLost(m: Mem, id: nat, blocks: set<nat>, starts: set<Addr>, heads: seq<Ptr>,
                                     lists: seq<seq<Addr>>, cells: seq<Cell>, d: nat, i: nat) returns (k: nat)
    requires Lost(lists, cells, d, i)
    ensures Lost(lists, cells, d, k) && k <= i && forall j: nat :: j < k ==> !Lost(lists, cells, d, j)
    decreases i
  {
    if j: nat :| j < i && Lost(lists, cells, d, j) {
      k := FirstLost(m, id, blocks, starts, heads, lists, cells, d, j);
    } else {
      k := i;
    }
  }

  /** Chunks of a list before the first lost one have their headers and links. */
  lemma ListRecovered(m: Mem, r: Mem, id: nat, blocks: set<nat>, starts: set<Addr>, heads: seq<Ptr>,
                      lists: seq<seq<Addr>>, cells: seq<Cell>, d: nat, k: nat)
    requires Shape(m, id, blocks, starts, heads, lists) && ExactBits(cells, blocks, Live(m, starts))
    requires Recovers(m, r, cells, blocks)
    requires d < |lists| && k <= |lists[d]| && forall j: nat :: j < k ==> !Lost(lists, cells, d, j)
    ensures forall j :: 0 <= j < k ==> lists[d][j] in m && lists[d][j] in r && r[lists[d][j]] == m[lists[d][j]]
  {
    forall j | 0 <= j < k ensures lists[d][j] in m && lists[d][j] in r && r[lists[d][j]] == m[lists[d][j]] {
      var a := lists[d][j];
      assert a in lists[d] && Listed(lists, a) && !Lost(lists, cells, d, j);
      assert Chunk(m, id, blocks, starts, a);
      HeaderPageMarked(m, id, blocks, starts, heads, lists, cells, a);
    }
  }

  lemma LostChunk(m: Mem, r: Mem, id: nat, blocks: set<nat>, starts: set<Addr>, heads: seq<Ptr>, lists: seq<seq<Addr>>,
                  cells: seq<Cell>, d: nat, k: nat)
    requires Shape(m, id, blocks, starts, heads, lists) && Recovers(m, r, cells, blocks)
    requires ZeroElsewhere(r, cells, blocks) && Lost(lists, cells, d, k)
    ensures lists[d][k] in r && r[lists[d][k]] == ZERO
  {
    var a := lists[d][k];
    assert a in lists[d] && Listed(lists, a);
    assert Chunk(m, id, blocks, starts, a);
  }

  /** Lists that start at the saved heads lead to the first lost chunk too. */
  lemma LeadsThere(m: Mem, r: Mem, heads: seq<Ptr>, lists: seq<seq<Addr>>, L: seq<seq<Addr>>, d: nat, k: nat)
    requires Threaded(m, heads, lists) && d < |lists| && k < |lists[d]|
    requires forall j :: 0 <= j < k ==> lists[d][j] in m && lists[d][j] in r && r[lists[d][j]] == m[lists[d][j]]
    ensures Threaded(r, heads, L) ==> Listed(L, lists[d][k])
  {
    if Threaded(r, heads, L) {
      assert Linked(m, heads[d], lists[d]) && Linked(r, heads[d], L[d]);
      SameWay(m, r, lists[d], L[d], k);
      assert lists[d][k] in L[d];
    }
  }

  lemma {:induction false} SameWay(m: Mem, r: Mem, l: seq<Addr>, l': seq<Addr>, k: nat)
    requires k < |l| && PtrAt(l, 0) == PtrAt(l', 0) && Forth(m, l) && Forth(r, l')
    requires forall j :: 0 <= j < k ==> l[j] in m && l[j] in r && r[l[j]] == m[l[j]]
    ensures k < |l'| && l'[k] == l[k]
  {
    if 0 < k {
      SameWay(m, r, l, l', k - 1);
      assert m[l[k - 1]].next == PtrAt(l, k) && r[l'[k - 1]].next == PtrAt(l', k);
    }
  }

  // ---------------------------------------------------------------- the release of free blocks

  /** Where the links of the last bucket lead in the restored memory: to its end, or to the first lost header, which has
      no successor. No chunk on the way is a whole block. */
  lemma RestoredWalk(m: Mem, r: Mem, id: nat, blocks: set<nat>, starts: set<Addr>, heads: seq<Ptr>,
                     lists: seq<seq<Addr>>, cells: seq<Cell>)
    returns (path: seq<Addr>)
    requires Shape(m, id, blocks, starts, heads, lists) && ExactBits(cells, blocks, Live(m, starts))
    requires Recovers(m, r, cells, blocks) && ZeroElsewhere(r, cells, blocks)
    ensures |heads| == TOTAL_BUCKETS && Walk(r, heads[LAST_BUCKET], path) && NoneWhole(r, path)
  {
    var l := lists[LAST_BUCKET];
    assert Linked(m, heads[LAST_BUCKET], l);
    if i: nat :| Lost(lists, cells, LAST_BUCKET, i) {
      var k := FirstLost(m, id, blocks, starts, heads, lists, cells, LAST_BUCKET, i);
      path := l[..k + 1];
      ListRecovered(m, r, id, blocks, starts, heads, lists, cells, LAST_BUCKET, k);
      LostChunk(m, r, id, blocks, starts, heads, lists, cells, LAST_BUCKET, k);
      CutWalk(m, r, heads[LAST_BUCKET], l, k);
      NotWhole(m, r, id, blocks, starts, heads, lists, cells, k, path);
    } else {
      path := l;
      ListRecovered(m, r, id, blocks, starts, heads, lists, cells, LAST_BUCKET, |l|);
      WholeWalk(m, r, heads[LAST_BUCKET], l);
      NotWhole(m, r, id, blocks, starts, heads, lists, cells, |l|, path);
    }
  }

  lemma CutWalk(m: Mem, r: Mem, head: Ptr, l: seq<Addr>, k: nat)
    requires Linked(m, head, l) && k < |l| && l[k] in r && r[l[k]] == ZERO
    requires forall j :: 0 <= j < k ==> l[j] in m && l[j] in r && r[l[j]] == m[l[j]]
    ensures Walk(r, head, l[..k + 1])
  {
    var path := l[..k + 1];
    forall i | 0 <= i < |path| ensures path[i] in r && r[path[i]].next == PtrAt(path, i + 1) {
      if i < k { assert m[l[i]].next == PtrAt(l, i + 1); }
    }
  }

  lemma WholeWalk(m: Mem, r: Mem, head: Ptr, l: seq<Addr>)
    requires Linked(m, head, l) && forall j :: 0 <= j < |l| ==> l[j] in m && l[j] in r && r[l[j]] == m[l[j]]
    ensures Walk(r, head, l)
  {
    forall i | 0 <= i < |l| ensures l[i] in r && r[l[i]].next == PtrAt(l, i + 1) {
      assert m[l[i]].next == PtrAt(l, i + 1);
    }
  }

  /** A free chunk in a block with a chunk in use is no whole block. */
  lemma NotWhole(m: Mem, r: Mem, id: nat, blocks: set<nat>, starts: set<Addr>, heads: seq<Ptr>, lists: seq<seq<Addr>>,
                 cells: seq<Cell>, k: nat, path: seq<Addr>)
    requires Shape(m, id, blocks, starts, heads, lists) && ExactBits(cells, blocks, Live(m, starts))
    requires k <= |lists[LAST_BUCKET]| && (forall j: nat :: j < k ==> !Lost(lists, cells, LAST_BUCKET, j))
    requires forall j :: 0 <= j < k ==> var a := lists[LAST_BUCKET][j]; a in m && a in r && r[a] == m[a]
    requires forall a :: a in path ==> a in lists[LAST_BUCKET][..k] || (a in r && r[a] == ZERO)
    ensures NoneWhole(r, path)
  {
    forall a | a in path && a in r ensures r[a].tag.size != LINES_PER_BLOCK {
      if a in lists[LAST_BUCKET][..k] {
        var j :| 0 <= j < k && lists[LAST_BUCKET][j] == a;
        assert a in lists[LAST_BUCKET] && Listed(lists, a) && !Lost(lists, cells, LAST_BUCKET, j);
        UsedBlock(m, id, blocks, starts, cells, a.blk);
        var u :| u in Live(m, starts) && u.blk == a.blk;
        if m[a].tag.size == LINES_PER_BLOCK { OnlyChunk(m, id, blocks, starts, a, u); }
      }
    }
  }

  /** A block has a marked page exactly when it holds a chunk in use. */
  lemma UsedBlock(m: Mem, id: nat, blocks: set<nat>, starts: set<Addr>, cells: seq<Cell>, b: nat)
    requires Tiled(m, id, blocks, starts) && ExactBits(cells, blocks, Live(m, starts)) && b in blocks
    ensures BlockUsed(cells, b) <==> exists a :: a in Live(m, starts) && a.blk == b
  {
    if BlockUsed(cells, b) {
      var p :| 0 <= p < PAGES_PER_BLOCK && PageBit(cells, b, p);
      assert SomeTouches(Live(m, starts), b, p);
    }
    if a :| a in Live(m, starts) && a.blk == b {
      assert Chunk(m, id, blocks, starts, a);
      PayloadMarked(m, id, blocks, starts, cells, a, 0);
    }
  }

  /** The restore threads bring back what the image holds of the frozen memory. */
  lemma RestoredRecovers(m: Mem, zero: Mem, image: Mem, r: Mem, cells: seq<Cell>, blocks: set<nat>, extent: nat)
    requires zero.Keys == m.Keys && (forall a :: a in zero ==> zero[a] == ZERO)
    requires BlocksRestored(zero, image, r, cells, 0, extent) && forall b :: b in blocks ==> b < extent
    requires forall a: Addr ::
      a in m && a.blk in blocks && a.off < LINES_PER_BLOCK && BlockUsed(cells, a.blk)
          && SavedLine(cells, a.blk, a.off) ==>
      a in image && image[a] == m[a]
    ensures Recovers(m, r, cells, blocks) && ZeroElsewhere(r, cells, blocks)
  {
  }

  /** A heap frozen with exact page bits, a run of workers, fault handlers and writers that completes the snapshot, and
      the memory that the restore threads build from its image in newly mapped memory. */
  ghost predicate FrozenToRestored(cells: seq<Cell>, frozen: Mem, run: seq<State>, steps: seq<Step>, zero: Mem, r: Mem,
                                   id: nat, blocks: set<nat>, starts: set<Addr>, heads: seq<Ptr>, lists: seq<seq<Addr>>)
  {
    && IsRun(cells, run, steps) && Init(run[0], cells, frozen) && run[|run| - 1].scan == |run[|run| - 1].ctx|
    && Shape(frozen, id, blocks, starts, heads, lists) && ExactBits(cells, blocks, Live(frozen, starts))
    && (forall b :: b in blocks ==> b < |run[|run| - 1].ctx|)
    && zero.Keys == frozen.Keys && (forall a :: a in zero ==> zero[a] == ZERO)
    && BlocksRestored(zero, run[|run| - 1].image, r, cells, 0, |run[|run| - 1].ctx|)
  }

  lemma RunRecovers(cells: seq<Cell>, frozen: Mem, run: seq<State>, steps: seq<Step>, zero: Mem, r: Mem,
                    id: nat, blocks: set<nat>, starts: set<Addr>, heads: seq<Ptr>, lists: seq<seq<Addr>>)
    requires FrozenToRestored(cells, frozen, run, steps, zero, r, id, blocks, starts, heads, lists)
    ensures Recovers(frozen, r, cells, blocks) && ZeroElsewhere(r, cells, blocks)
  {
    SnapshotIsFrozenMemory(cells, frozen, run, steps);
    var s := run[|run| - 1];
    forall a: Addr | a in frozen && a.blk in blocks && a.off < LINES_PER_BLOCK && BlockUsed(cells, a.blk)
        && SavedLine(cells, a.blk, a.off)
      ensures a in s.image && s.image[a] == frozen[a]
    {
      ImageServesRestore(s, cells, frozen, blocks, a);
    }
    RestoredRecovers(frozen, zero, s.image, r, cells, blocks, |s.ctx|);
  }

  /** From freeze to restart: take the heap of a list at the freeze, any interleaving of workers, fault
      handlers and writers until the snapshot is complete, and the memory the restore threads build from
      its image. The list then has its shape, its chunks in use and their contents as they were at the
      freeze, exactly when each of its blocks held a chunk in use; and no shape at all otherwise. */
  lemma SnapshotRestoresHeap(cells: seq<Cell>, frozen: Mem, run: seq<State>, steps: seq<Step>, zero: Mem, r: Mem,
                             id: nat, blocks: set<nat>, starts: set<Addr>, heads: seq<Ptr>, lists: seq<seq<Addr>>)
    requires FrozenToRestored(cells, frozen, run, steps, zero, r, id, blocks, starts, heads, lists)
    ensures Shape(r, id, blocks, starts, heads, lists) <==> forall b :: b in blocks ==> HoldsLive(frozen, starts, b)
    ensures NoShape(r, id, heads) <==> !forall b :: b in blocks ==> HoldsLive(frozen, starts, b)
    ensures PayloadsKept(frozen, r, Live(frozen, starts))
    ensures (forall b :: b in blocks ==> HoldsLive(frozen, starts, b)) ==> Live(r, starts) == Live(frozen, starts)
  {
    RunRecovers(cells, frozen, run, steps, zero, r, id, blocks, starts, heads, lists);
    RestoredHeap(frozen, r, id, blocks, starts, heads, lists, cells);
    forall b | b in blocks ensures BlockUsed(cells, b) <==> HoldsLive(frozen, starts, b) {
      UsedBlock(frozen, id, blocks, starts, cells, b);
    }
  }

  /** Some chunk of the block is in use. */
  ghost predicate HoldsLive(m: Mem, starts: set<Addr>, b: nat) {
    exists a :: a in Live(m, starts) && a.blk == b
  }

  /** The end of the restart: the list has the restored memory and the saved bucket heads, and releases its free blocks.
      It finds none, so that the list keeps its shape, or has none, just as the restore has left it. */
  method Restart(list: FreeList, ghost cells: seq<Cell>, ghost frozen: Mem, ghost run: seq<State>,
                 ghost steps: seq<Step>, ghost zero: Mem, ghost blocks: set<nat>, ghost starts: set<Addr>,
                 ghost lists: seq<seq<Addr>>) returns (released: seq<nat>)
    requires FrozenToRestored(cells, frozen, run, steps, zero, list.space.mem, list.id, blocks, starts, list.buckets,
                              lists)
    requires |list.lists| == TOTAL_BUCKETS
    modifies list`buckets, list`lists, list`starts, list`blocks, list.space
    ensures released == [] && list.buckets == old(list.buckets) && list.space.mem == old(list.space.mem)
    ensures Shape(list.space.mem, list.id, blocks, starts, list.buckets, lists) <==> forall b :: b in blocks ==>
      HoldsLive(frozen, starts, b)
    ensures NoShape(list.space.mem, list.id, list.buckets) <==> !forall b :: b in blocks ==>
      HoldsLive(frozen, starts, b)
    ensures PayloadsKept(frozen, list.space.mem, Live(frozen, starts))
  {
    ghost var r, heads := list.space.mem, list.buckets;
    SnapshotRestoresHeap(cells, frozen, run, steps, zero, r, list.id, blocks, starts, heads, lists);
    RunRecovers(cells, frozen, run, steps, zero, r, list.id, blocks, starts, heads, lists);
    ghost var path := RestoredWalk(frozen, r, list.id, blocks, starts, heads, lists, cells);
    released := list.ReleaseFreeBlocks(path);
  }
}
