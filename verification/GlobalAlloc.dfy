/**
 The global allocator: contiguous mapped regions, a first-fit list of free regions, and the page
 bitmap that snapshots read. Region addresses and sizes are counted in 2 MB blocks from the base
 address; the size field of a free region has 29 bits of bytes, that is 8 bits of blocks.
 */
module GlobalAllocator {

  const MIN_POOL_BLOCKS := 128
  const SIZE_LIMIT := 256
  const MAX_BLOCKS := 0x80000

  datatype Region = Region(ptr: nat, size: nat) {
    function End(): nat { ptr + size }
    predicate Has(b: int) { ptr <= b < ptr + size }
  }

  /** What the 29-bit `size` field keeps of a size. */
  function Stored(size: nat): nat {
    size % SIZE_LIMIT
  }

  ghost predicate InFree(free: seq<Region>, b: int) {
    exists i :: 0 <= i < |free| && free[i].Has(b)
  }

  ghost predicate Apart(r: Region, s: Region) {
    r.End() <= s.ptr || s.End() <= r.ptr
  }

  ghost predicate AllApart(free: seq<Region>) {
    forall i, j :: 0 <= i < j < |free| ==> Apart(free[i], free[j])
  }

  /** Free regions do not overlap and, with the handed-out blocks, partition the first `extent` blocks. */
  ghost predicate Partition(free: seq<Region>, out: set<nat>, extent: nat) {
    && AllApart(free)
    && (forall i :: 0 <= i < |free| ==> 0 < free[i].size)
    && (forall b: nat :: InFree(free, b) <==> b < extent && b !in out)
    && (forall b :: b in out ==> b < extent)
  }

  ghost predicate Contiguous(mapped: seq<Region>) {
    && 0 < |mapped| && mapped[0].ptr == 0
    && (forall i :: 0 <= i < |mapped| - 1 ==> mapped[i].End() == mapped[i + 1].ptr)
  }

  function Extent(mapped: seq<Region>): nat
    requires 0 < |mapped|
  {
    mapped[|mapped| - 1].End()
  }

  // ---------------------------------------------------------------- free runs

  /** Lowest block of the free run that ends just below `b`. */
  ghost function RunLow(free: seq<Region>, b: nat): (r: nat)
    ensures r <= b
  {
    if 0 < b && InFree(free, b - 1) then RunLow(free, b - 1) else b
  }

  /** First block above `b` that ends the free run starting at `b`. */
  ghost function RunHigh(free: seq<Region>, b: nat, extent: nat): (r: nat)
    ensures b <= r
    decreases extent - b
  {
    if b < extent && InFree(free, b) then RunHigh(free, b + 1, extent) else b
  }

  // ---------------------------------------------------------------- list edits

  ghost function Blocks(ptr: nat, size: nat): set<nat> {
    set b: nat | ptr <= b < ptr + size && Region(ptr, size).Has(b)
  }

  function Drop(free: seq<Region>, k: nat): (r: seq<Region>)
    requires k < |free|
    ensures |r| == |free| - 1
    ensures forall i :: 0 <= i < k ==> r[i] == free[i]
    ensures forall i :: k <= i < |r| ==> r[i] == free[i + 1]
  {
    free[..k] + free[k + 1..]
  }

  ghost predicate InOther(free: seq<Region>, k: nat, b: int) {
    exists i :: 0 <= i < |free| && i != k && free[i].Has(b)
  }

  lemma DropMembers(free: seq<Region>, k: nat)
    requires k < |free|
    ensures forall b :: InFree(Drop(free, k), b) <==> InOther(free, k, b)
  {
    var d := Drop(free, k);
    forall b | InOther(free, k, b) ensures InFree(d, b) {
      var i :| 0 <= i < |free| && i != k && free[i].Has(b);
      assert d[if i < k then i else i - 1].Has(b);
    }
    forall b | InFree(d, b) ensures InOther(free, k, b) {
      var i :| 0 <= i < |d| && d[i].Has(b);
      assert free[if i < k then i else i + 1].Has(b);
    }
  }

  lemma DropApart(free: seq<Region>, k: nat)
    requires k < |free| && AllApart(free)
    ensures AllApart(Drop(free, k))
  {
    var d := Drop(free, k);
    forall i, j | 0 <= i < j < |d| ensures Apart(d[i], d[j]) {
      assert Apart(free[if i < k then i else i + 1], free[if j < k then j else j + 1]);
    }
  }

  lemma UpdateMembers(free: seq<Region>, k: nat, r: Region)
    requires k < |free|
    ensures forall b :: InFree(free[k := r], b) <==> r.Has(b) || InOther(free, k, b)
  {
    var d := free[k := r];
    forall b | r.Has(b) ensures InFree(d, b) { assert d[k].Has(b); }
    forall b | InOther(free, k, b) ensures InFree(d, b) {
      var i :| 0 <= i < |free| && i != k && free[i].Has(b);
      assert d[i].Has(b);
    }
    forall b | InFree(d, b) && !r.Has(b) ensures InOther(free, k, b) {
      var i :| 0 <= i < |d| && d[i].Has(b);
      assert free[i].Has(b);
    }
  }

  lemma SplitMembers(free: seq<Region>, k: nat)
    requires k < |free|
    ensures forall b :: InFree(free, b) <==> free[k].Has(b) || InOther(free, k, b)
  {
    assert free == free[k := free[k]];
    UpdateMembers(free, k, free[k]);
  }

  lemma PushMembers(free: seq<Region>, r: Region)
    ensures forall b :: InFree([r] + free, b) <==> r.Has(b) || InFree(free, b)
  {
    var d := [r] + free;
    forall b | r.Has(b) ensures InFree(d, b) { assert d[0].Has(b); }
    forall b | InFree(free, b) ensures InFree(d, b) {
      var i :| 0 <= i < |free| && free[i].Has(b);
      assert d[i + 1].Has(b);
    }
    forall b | InFree(d, b) && !r.Has(b) ensures InFree(free, b) {
      var i :| 0 <= i < |d| && d[i].Has(b);
      assert free[i - 1].Has(b);
    }
  }

  lemma OthersApart(free: seq<Region>, k: nat, b: int)
    requires k < |free| && AllApart(free) && free[k].Has(b)
    ensures !InOther(free, k, b)
  {
    forall i | 0 <= i < |free| && i != k ensures !free[i].Has(b) {
      assert if i < k then Apart(free[i], free[k]) else Apart(free[k], free[i]);
    }
  }

  /** The list after the last `n` blocks of region `k` are taken. */
  function Cut(free: seq<Region>, k: nat, n: nat): seq<Region>
    requires k < |free| && n <= free[k].size
  {
    if free[k].size == n then Drop(free, k) else free[k := Region(free[k].ptr, free[k].size - n)]
  }

  /** Cutting `n` blocks off the end of a free region hands out exactly those blocks. */
  lemma TakePartition(free: seq<Region>, out: set<nat>, extent: nat, k: nat, n: nat)
    requires Partition(free, out, extent) && k < |free| && 0 < n <= free[k].size
    ensures Partition(Cut(free, k, n), out + Blocks(free[k].ptr + free[k].size - n, n), extent)
    ensures Blocks(free[k].ptr + free[k].size - n, n) !! out
    ensures free[k].End() <= extent
  {
    assert InFree(free, free[k].End() - 1) by { assert free[k].Has(free[k].End() - 1); }
    CutApart(free, k, n);
    CutMembers(free, out, extent, k, n);
  }

  lemma CutApart(free: seq<Region>, k: nat, n: nat)
    requires AllApart(free) && k < |free| && 0 < n <= free[k].size && forall i :: 0 <= i < |free| ==> 0 < free[i].size
    ensures AllApart(Cut(free, k, n)) && forall i :: 0 <= i < |Cut(free, k, n)| ==> 0 < Cut(free, k, n)[i].size
  {
    var d := Cut(free, k, n);
    if free[k].size == n {
      DropApart(free, k);
    } else {
      forall i, j | 0 <= i < j < |d| ensures Apart(d[i], d[j]) {
        assert Apart(free[i], free[j]);
      }
    }
  }

  lemma CutMembers(free: seq<Region>, out: set<nat>, extent: nat, k: nat, n: nat)
    requires Partition(free, out, extent) && k < |free| && 0 < n <= free[k].size
    ensures
      var taken := Blocks(free[k].ptr + free[k].size - n, n);
      && taken !! out && (forall b :: b in taken ==> b < extent)
      && forall b: nat :: InFree(Cut(free, k, n), b) <==> b < extent && b !in out + taken
  {
    var cut := Region(free[k].ptr, free[k].size - n);
    TakeMembers(free, k, n, cut, Cut(free, k, n));
  }

  lemma TakeMembers(free: seq<Region>, k: nat, n: nat, cut: Region, d: seq<Region>)
    requires AllApart(free) && k < |free| && 0 < n <= free[k].size
    requires cut == Region(free[k].ptr, free[k].size - n)
    requires d == if cut.size == 0 then Drop(free, k) else free[k := cut]
    ensures forall b: nat :: InFree(d, b) <==> InFree(free, b) && b !in Blocks(cut.End(), n)
    ensures forall b: nat :: b in Blocks(cut.End(), n) ==> InFree(free, b)
  {
    SplitMembers(free, k);
    DropMembers(free, k);
    UpdateMembers(free, k, cut);
    forall b: nat | free[k].Has(b) ensures !InOther(free, k, b) { OthersApart(free, k, b); }
  }

  /** Mapping `rem + n` more blocks, with the first `rem` free and the last `n` handed out. */
  lemma GrowPartition(free: seq<Region>, out: set<nat>, extent: nat, rem: nat, n: nat)
    requires Partition(free, out, extent)
    ensures Partition(if rem == 0 then free else [Region(extent, rem)] + free, out + Blocks(extent + rem, n),
                      extent + rem + n)
    ensures Blocks(extent + rem, n) !! out
  {
    if 0 < rem {
      PushApart(free, out, extent, Region(extent, rem));
      PushMembers(free, Region(extent, rem));
    }
  }

  /** A remainder that does not fit the size field is lost. */
  lemma GrowLeak(free: seq<Region>, out: set<nat>, extent: nat, rem: nat, n: nat)
    requires Partition(free, out, extent)
    ensures rem < SIZE_LIMIT ==> Stored(rem) == rem
    ensures SIZE_LIMIT <= rem ==>
      Leaked([Region(extent, Stored(rem))] + free, out + Blocks(extent + rem, n), extent + rem + n)
  {
    if SIZE_LIMIT <= rem {
      PushMembers(free, Region(extent, Stored(rem)));
      var b: nat := extent + rem - 1;
      assert !InFree([Region(extent, Stored(rem))] + free, b);
    }
  }

  lemma PushApart(free: seq<Region>, out: set<nat>, extent: nat, r: Region)
    requires Partition(free, out, extent) && 0 < r.size
    requires forall b: nat :: r.Has(b) ==> !InFree(free, b)
    ensures AllApart([r] + free)
  {
    var d := [r] + free;
    forall i, j | 0 <= i < j < |d| ensures Apart(d[i], d[j]) {
      if i == 0 {
        var s := free[j - 1];
        if r.ptr < s.End() && s.ptr < r.End() {
          var b := if r.ptr < s.ptr then s.ptr else r.ptr;
          assert s.Has(b) && r.Has(b);
          assert InFree(free, b);
        }
      } else {
        assert Apart(free[i - 1], free[j - 1]);
      }
    }
  }

  /** Returning handed-out blocks as a new free region. */
  lemma ReturnPartition(free: seq<Region>, out: set<nat>, extent: nat, r: Region)
    requires Partition(free, out, extent) && 0 < r.size && Blocks(r.ptr, r.size) <= out
    ensures Partition([r] + free, out - Blocks(r.ptr, r.size), extent)
  {
    forall b: nat | r.Has(b) ensures b in out && !InFree(free, b) {
      assert b in Blocks(r.ptr, r.size);
    }
    PushApart(free, out, extent, r);
    PushMembers(free, r);
  }

  /** The list after region `lo` absorbs its upper neighbour `hi`. */
  function Merged(free: seq<Region>, lo: nat, hi: nat): (r: seq<Region>)
    requires lo < |free| && hi < |free| && lo != hi
  {
    Drop(free[lo := Region(free[lo].ptr, Stored(free[lo].size + free[hi].size))], hi)
  }

  /** Absorbing a neighbour keeps the free blocks when the sum fits the size field. */
  lemma MergePartition(free: seq<Region>, out: set<nat>, extent: nat, lo: nat, hi: nat)
    requires Partition(free, out, extent)
    requires lo < |free| && hi < |free| && lo != hi && free[lo].End() == free[hi].ptr
    requires free[lo].size + free[hi].size < SIZE_LIMIT
    ensures Partition(Merged(free, lo, hi), out, extent)
  {
    MergeMembers(free, lo, hi);
    var sum := Region(free[lo].ptr, free[lo].size + free[hi].size);
    var d := Merged(free, lo, hi);
    assert d == Drop(free[lo := sum], hi);
    assert AllApart(d) by {
      forall i, j | 0 <= i < j < |d| ensures Apart(d[i], d[j]) {
        MergeApart(free, lo, hi, if i < hi then i else i + 1, if j < hi then j else j + 1);
      }
    }
    forall i | 0 <= i < |d| ensures 0 < d[i].size {
      assert d[i] == free[lo := sum][if i < hi then i else i + 1];
    }
  }

  lemma MergeApart(free: seq<Region>, lo: nat, hi: nat, i: nat, j: nat)
    requires AllApart(free) && lo < |free| && hi < |free| && lo != hi && free[lo].End() == free[hi].ptr
    requires i < j < |free| && i != hi && j != hi && 0 < free[i].size && 0 < free[j].size
    ensures
      var u := free[lo := Region(free[lo].ptr, free[lo].size + free[hi].size)];
      Apart(u[i], u[j])
  {
    assert Apart(free[i], free[j]);
    if i == lo || j == lo {
      var k := if i == lo then j else i;
      assert if k < hi then Apart(free[k], free[hi]) else Apart(free[hi], free[k]);
    }
  }

  /** Whatever the sum, merging never frees a block that was not free. */
  lemma MergeMembers(free: seq<Region>, lo: nat, hi: nat)
    requires lo < |free| && hi < |free| && lo != hi
    requires free[lo].End() == free[hi].ptr || free[hi].size == 0
    ensures forall b :: InFree(Merged(free, lo, hi), b) ==> InFree(free, b)
    ensures free[lo].size + free[hi].size < SIZE_LIMIT ==> forall b :: InFree(free, b) ==>
      InFree(Merged(free, lo, hi), b)
  {
    MergeAdds(free, lo, hi);
    if free[lo].size + free[hi].size < SIZE_LIMIT { MergeLoses(free, lo, hi); }
  }

  lemma MergeAdds(free: seq<Region>, lo: nat, hi: nat)
    requires lo < |free| && hi < |free| && lo != hi
    requires free[lo].End() == free[hi].ptr || free[hi].size == 0
    ensures forall b :: InFree(Merged(free, lo, hi), b) ==> InFree(free, b)
  {
    var m := Merged(free, lo, hi);
    var u := free[lo := Region(free[lo].ptr, Stored(free[lo].size + free[hi].size))];
    DropMembers(u, hi);
    forall b | InFree(m, b) ensures InFree(free, b) {
      var i :| 0 <= i < |u| && i != hi && u[i].Has(b);
      if i == lo {
        assert free[lo].Has(b) || free[hi].Has(b);
      } else {
        assert free[i].Has(b);
      }
    }
  }

  lemma MergeLoses(free: seq<Region>, lo: nat, hi: nat)
    requires lo < |free| && hi < |free| && lo != hi && free[lo].size + free[hi].size < SIZE_LIMIT
    requires free[lo].End() == free[hi].ptr || free[hi].size == 0
    ensures forall b :: InFree(free, b) ==> InFree(Merged(free, lo, hi), b)
  {
    var m := Merged(free, lo, hi);
    var u := free[lo := Region(free[lo].ptr, Stored(free[lo].size + free[hi].size))];
    DropMembers(u, hi);
    forall b | InFree(free, b) ensures InFree(m, b) {
      var i :| 0 <= i < |free| && free[i].Has(b);
      assert u[if i == hi then lo else i].Has(b);
    }
  }

  // ---------------------------------------------------------------- the allocator object

  /** The source doubles the pool size until the request fits. */
  function Grown(pool: nat, size: nat): (r: nat)
    requires 0 < pool
    ensures size <= r && pool <= r
    decreases size - pool
  {
    if pool < size then Grown(pool * 2, size) else pool
  }

  function Doubled(pool: nat, k: nat): nat {
    if k == 0 then pool else 2 * Doubled(pool, k - 1)
  }

  /** It is the first of the doublings that is large enough. */
  lemma {:induction false} GrownLeast(pool: nat, size: nat) returns (k: nat)
    requires 0 < pool
    ensures Grown(pool, size) == Doubled(pool, k) && size <= Doubled(pool, k)
    ensures forall j: nat :: j < k ==> Doubled(pool, j) < size
    decreases size - pool
  {
    if pool < size {
      k := GrownLeast(pool * 2, size);
      forall j: nat ensures Doubled(pool, j + 1) == Doubled(pool * 2, j) { DoubledTwice(pool, j); }
      forall j: nat | j < k + 1 ensures Doubled(pool, j) < size {
        if 0 < j { assert Doubled(pool, j - 1 + 1) == Doubled(pool * 2, j - 1); }
      }
      k := k + 1;
    } else {
      k := 0;
    }
  }

  lemma {:induction false} DoubledTwice(pool: nat, j: nat)
    ensures Doubled(pool, j + 1) == Doubled(pool * 2, j)
  {
    if 0 < j { DoubledTwice(pool, j - 1); }
  }

  /** Region `i` is the first that is large enough. */
  ghost predicate FirstLarge(free: seq<Region>, size: nat, i: nat) {
    i < |free| && size <= free[i].size && forall j :: 0 <= j < i ==> free[j].size < size
  }

  /** A number of whole pools. */
  ghost predicate Whole(blocks: nat) {
    blocks % MIN_POOL_BLOCKS == 0
  }

  lemma {:induction false} GrownWhole(pool: nat, size: nat)
    requires 0 < pool && Whole(pool)
    ensures Whole(Grown(pool, size))
    decreases size - pool
  {
    if pool < size { GrownWhole(pool * 2, size); }
  }

  lemma MappedOn(mapped: seq<Region>, allocSize: nat, size: nat)
    requires Contiguous(mapped) && Whole(Extent(mapped)) && allocSize == Grown(MIN_POOL_BLOCKS, size)
    ensures var all := mapped + [Region(Extent(mapped), allocSize)];
      Contiguous(all) && Extent(all) == Extent(mapped) + allocSize && Whole(Extent(all))
  {
    GrownWhole(MIN_POOL_BLOCKS, size);
  }

  ghost predicate Fits(free: seq<Region>, size: nat) {
    exists i :: 0 <= i < |free| && size <= free[i].size
  }

  /** Blocks that no free region and no caller holds any more. */
  ghost predicate Leaked(free: seq<Region>, out: set<nat>, extent: nat) {
    exists b: nat :: b < extent && b !in out && !InFree(free, b)
  }

  /** Blocks `lo` to `hi` are a maximal free run. */
  ghost predicate Run(free: seq<Region>, lo: nat, hi: nat) {
    && (forall b :: lo <= b < hi ==> InFree(free, b))
    && (lo == 0 || !InFree(free, lo - 1)) && !InFree(free, hi)
  }

  lemma MergeInsideRun(free: seq<Region>, out: set<nat>, extent: nat, low: nat, high: nat, r: nat, lo: nat, hi: nat)
    requires low < |free| && high < |free| && low != high && (r == low || r == high)
    requires free[low].End() == free[high].ptr
    requires Partition(free, out, extent) && Run(free, lo, hi) && lo <= free[r].ptr && free[r].End() <= hi
    ensures lo <= free[low].ptr && free[high].End() <= hi
  {
    assert !free[high].Has(hi);
    assert lo == 0 || !free[low].Has(lo - 1);
  }

  /** A sum that does not fit the size field loses the last block of the upper region. */
  lemma MergeOverflow(free: seq<Region>, out: set<nat>, extent: nat, low: nat, high: nat)
    requires low < |free| && high < |free| && low != high && free[low].End() == free[high].ptr
    requires Partition(free, out, extent) && SIZE_LIMIT <= free[low].size + free[high].size
    ensures Leaked(Merged(free, low, high), out, extent)
  {
    var b := free[high].End() - 1;
    assert free[high].Has(b);
    assert InFree(free, b);
    OthersApart(free, high, b);
    var u := free[low := Region(free[low].ptr, Stored(free[low].size + free[high].size))];
    DropMembers(u, high);
    forall i | 0 <= i < |u| && i != high ensures !u[i].Has(b) {
      if i != low { assert !free[i].Has(b); }
    }
    assert !InFree(Merged(free, low, high), b);
  }

  /** One merge either extends the entry inside its run or overflows and loses a block. */
  lemma MergeStep(free: seq<Region>, out: set<nat>, extent: nat, low: nat, high: nat, r: nat, lo: nat, hi: nat)
    requires low < |free| && high < |free| && low != high && (r == low || r == high)
    requires free[low].End() == free[high].ptr || free[high].size == 0
    requires OnTrack(free, out, extent, r, lo, hi)
    ensures OnTrack(Merged(free, low, high), out, extent, if high < low then low - 1 else low, lo, hi)
  {
    MergeMembers(free, low, high);
    var m := Merged(free, low, high);
    var k := if high < low then low - 1 else low;
    if Leaked(free, out, extent) {
      var b: nat :| b < extent && b !in out && !InFree(free, b);
      assert !InFree(m, b);
    } else {
      MergeInsideRun(free, out, extent, low, high, r, lo, hi);
      if free[low].size + free[high].size < SIZE_LIMIT {
        MergePartition(free, out, extent, low, high);
        assert m[k] == Region(free[low].ptr, free[low].size + free[high].size);
      } else {
        MergeOverflow(free, out, extent, low, high);
      }
    }
  }

  /** What merging keeps: the entry lies in its run and nothing is lost, or the run is too long
      and something already is. */
  ghost predicate OnTrack(free: seq<Region>, out: set<nat>, extent: nat, r: nat, lo: nat, hi: nat) {
    && r < |free|
    && if Leaked(free, out, extent) then SIZE_LIMIT <= hi - lo
       else Partition(free, out, extent) && Run(free, lo, hi) && lo <= free[r].ptr && free[r].End() <= hi
            && free[r].size < SIZE_LIMIT
  }

  /** An entry that is not yet its whole run has a neighbour. */
  lemma NeighbourInRun(free: seq<Region>, out: set<nat>, extent: nat, r: nat, lo: nat, hi: nat)
    requires OnTrack(free, out, extent, r, lo, hi) && !Leaked(free, out, extent)
    requires free[r] != Region(lo, hi - lo)
    ensures exists i :: 0 <= i < |free| && i != r && GlobalAlloc.Adjacent(free[i], free[r])
  {
    var b := if lo < free[r].ptr then free[r].ptr - 1 else free[r].End();
    assert InFree(free, b);
    var i :| 0 <= i < |free| && free[i].Has(b);
    assert i != r;
    assert if i < r then Apart(free[i], free[r]) else Apart(free[r], free[i]);
    assert GlobalAlloc.Adjacent(free[i], free[r]);
  }

  /** An entry without neighbours is its whole run. */
  lemma WholeRun(free: seq<Region>, out: set<nat>, extent: nat, r: nat, lo: nat, hi: nat)
    requires OnTrack(free, out, extent, r, lo, hi) && !Leaked(free, out, extent)
    requires forall i :: 0 <= i < |free| && i != r ==> !GlobalAlloc.Adjacent(free[i], free[r])
    ensures free[r] == Region(lo, hi - lo)
  {
    if free[r] != Region(lo, hi - lo) {
      NeighbourInRun(free, out, extent, r, lo, hi);
    }
  }

  lemma PartitionKeepsAll(free: seq<Region>, out: set<nat>, extent: nat)
    requires Partition(free, out, extent)
    ensures !Leaked(free, out, extent)
  {
  }

  lemma {:induction false} RunLowRun(free: seq<Region>, b: nat)
    ensures var lo := RunLow(free, b);
      (forall x :: lo <= x < b ==> InFree(free, x)) && (lo == 0 || !InFree(free, lo - 1))
  {
    if 0 < b && InFree(free, b - 1) { RunLowRun(free, b - 1); }
  }

  lemma {:induction false} RunHighRun(free: seq<Region>, b: nat, extent: nat)
    requires b <= extent && forall x: nat :: InFree(free, x) ==> x < extent
    ensures var hi := RunHigh(free, b, extent);
      (forall x :: b <= x < hi ==> InFree(free, x)) && !InFree(free, hi)
    decreases extent - b
  {
    if b < extent && InFree(free, b) { RunHighRun(free, b + 1, extent); }
  }

  /** Pushing the returned blocks starts the merge on track. */
  lemma Settled(free: seq<Region>, out: set<nat>, extent: nat, r: nat, lo: nat, hi: nat)
    requires OnTrack(free, out, extent, r, lo, hi)
    requires forall i :: 0 <= i < |free| && i != r ==> !GlobalAlloc.Adjacent(free[i], free[r])
    ensures hi - lo < SIZE_LIMIT ==> Partition(free, out, extent) && Region(lo, hi - lo) in free
    ensures SIZE_LIMIT <= hi - lo ==> Leaked(free, out, extent)
  {
    if !Leaked(free, out, extent) {
      WholeRun(free, out, extent, r, lo, hi);
      assert free[r] in free;
    }
  }

  lemma ReleaseStart(free: seq<Region>, out: set<nat>, extent: nat, ptr: nat, size: nat)
    requires Partition(free, out, extent) && 0 < size && Blocks(ptr, size) <= out
    ensures OnTrack([Region(ptr, Stored(size))] + free, out - Blocks(ptr, size), extent, 0,
                    RunLow(free, ptr), RunHigh(free, ptr + size, extent))
  {
    RunLowRun(free, ptr);
    assert ptr + size <= extent by { assert ptr + size - 1 in Blocks(ptr, size); }
    RunHighRun(free, ptr + size, extent);
    if size < SIZE_LIMIT {
      ReleaseFits(free, out, extent, Region(ptr, size), RunLow(free, ptr), RunHigh(free, ptr + size, extent));
    } else {
      ReleaseLeak(free, out, extent, ptr, size);
    }
  }

  lemma ReleaseFits(free: seq<Region>, out: set<nat>, extent: nat, r: Region, lo: nat, hi: nat)
    requires Partition(free, out, extent) && 0 < r.size < SIZE_LIMIT && Blocks(r.ptr, r.size) <= out
    requires lo <= r.ptr && r.End() <= hi
    requires (forall x :: lo <= x < r.ptr ==> InFree(free, x)) && (lo == 0 || !InFree(free, lo - 1))
    requires (forall x :: r.End() <= x < hi ==> InFree(free, x)) && !InFree(free, hi)
    ensures Stored(r.size) == r.size && OnTrack([r] + free, out - Blocks(r.ptr, r.size), extent, 0, lo, hi)
  {
    ReturnPartition(free, out, extent, r);
    PartitionKeepsAll([r] + free, out - Blocks(r.ptr, r.size), extent);
    ReleaseRun(free, out, extent, r, lo, hi);
  }

  lemma ReleaseLeak(free: seq<Region>, out: set<nat>, extent: nat, ptr: nat, size: nat)
    requires Partition(free, out, extent) && SIZE_LIMIT <= size && Blocks(ptr, size) <= out
    ensures Leaked([Region(ptr, Stored(size))] + free, out - Blocks(ptr, size), extent)
  {
    PushMembers(free, Region(ptr, Stored(size)));
    var e: nat := ptr + size - 1;
    assert e in Blocks(ptr, size);
    assert !InFree(free, e);
    assert !InFree([Region(ptr, Stored(size))] + free, e);
  }

  lemma ReleaseRun(free: seq<Region>, out: set<nat>, extent: nat, r: Region, lo: nat, hi: nat)
    requires Partition(free, out, extent) && 0 < r.size && Blocks(r.ptr, r.size) <= out
    requires lo <= r.ptr && r.End() <= hi
    requires (forall x :: lo <= x < r.ptr ==> InFree(free, x)) && (lo == 0 || !InFree(free, lo - 1))
    requires (forall x :: r.End() <= x < hi ==> InFree(free, x)) && !InFree(free, hi)
    ensures Run([r] + free, lo, hi)
  {
    PushMembers(free, r);
    forall b | lo <= b < hi ensures InFree([r] + free, b) {
      if b < r.ptr { assert InFree(free, b); }
      else if r.End() <= b { assert InFree(free, b); }
      else { assert r.Has(b); }
    }
  }

  // ---------------------------------------------------------------- the saved image

  /** Words the snapshot header reserves for the global allocator: two counts and 16 entries. */
  const SAVED_WORDS := 34

  /** What `save` writes: the mapped extent, the length of the free list, its entries. */
  function Words(total: nat, free: seq<Region>): (w: seq<nat>)
    ensures |w| == 2 + 2 * |free|
  {
    [total, |free|] + seq(2 * |free|,
                          i requires 0 <= i < 2 * |free| => if i % 2 == 0 then free[i / 2].ptr else free[i / 2].size)
  }

  /** The image after the allocator words and then the object tables have been written: the
      tables start right after the reserved words, whatever the allocator needed. */
  function Image(words: seq<nat>, objects: seq<nat>): seq<nat> {
    if |words| <= SAVED_WORDS then words + seq(SAVED_WORDS - |words|, i => 0) + objects
    else words[..SAVED_WORDS] + objects + if SAVED_WORDS + |objects| < |words| then words[SAVED_WORDS + |objects|..]
        else []
  }

  /** The object tables, written last, are always whole and where they are looked for. */
  lemma TablesWhole(words: seq<nat>, objects: seq<nat>)
    ensures SAVED_WORDS + |objects| <= |Image(words, objects)|
    ensures Image(words, objects)[SAVED_WORDS..SAVED_WORDS + |objects|] == objects
  {
  }

  /** No allocator word was overwritten by an object table, or only by an equal word. */
  ghost predicate Unharmed(total: nat, free: seq<Region>, objects: seq<nat>) {
    forall i :: 0 <= i < |objects| && SAVED_WORDS + i < 2 + 2 * |free| ==>
        objects[i] == Words(total, free)[SAVED_WORDS + i]
  }

  /** Rebuilds the free list, entry by entry. */
  method Load(image: seq<nat>) returns (total: nat, free: seq<Region>)
    requires 2 <= |image| && 2 + 2 * image[1] <= |image|
    ensures total == image[0] && |free| == image[1]
    ensures forall i :: 0 <= i < |free| ==> free[i] == Region(image[2 + 2 * i], image[3 + 2 * i])
  {
    total := image[0];
    free := [];
    for i := 0 to image[1]
      invariant |free| == i
      invariant forall j :: 0 <= j < i ==> free[j] == Region(image[2 + 2 * j], image[3 + 2 * j])
    {
      free := free + [Region(image[2 + 2 * i], image[3 + 2 * i])];
    }
  }

  /** Word `k` of the saved table. */
  function SavedWord(total: nat, free: seq<Region>, k: nat): nat
    requires k < 2 + 2 * |free|
  {
    Words(total, free)[k]
  }

  lemma EntryWords(total: nat, free: seq<Region>, i: nat)
    requires i < |free|
    ensures SavedWord(total, free, 2 + 2 * i) == free[i].ptr && SavedWord(total, free, 3 + 2 * i) == free[i].size
  {
  }

  /** The loaded entries are the saved ones exactly when none of their words was overwritten. */
  lemma LoadedSame(total: nat, free: seq<Region>, objects: seq<nat>, got: seq<Region>)
    requires
      var image := Image(Words(total, free), objects);
      && 2 + 2 * |free| <= |image| && |got| == |free|
      && forall i :: 0 <= i < |got| ==> got[i] == Region(image[2 + 2 * i], image[3 + 2 * i])
    ensures got == free <==> Unharmed(total, free, objects)
  {
    var words := Words(total, free);
    var image := Image(words, objects);
    ImageWords(words, objects);
    forall i | 0 <= i < |free|
      ensures got[i] == free[i] <==> image[2 + 2 * i] == words[2 + 2 * i] && image[3 + 2 * i] == words[3 + 2 * i] {
      EntryWords(total, free, i);
    }
    if Unharmed(total, free, objects) {
      forall i | 0 <= i < |free| ensures got[i] == free[i] {
        WordKept(total, free, objects, 2 + 2 * i);
        WordKept(total, free, objects, 3 + 2 * i);
      }
    }
    if got == free {
      forall i | 0 <= i < |objects| && SAVED_WORDS + i < |words| ensures objects[i] == words[SAVED_WORDS + i] {
        var e := (SAVED_WORDS + i - 2) / 2;
        assert got[e] == free[e];
        assert SAVED_WORDS + i == 2 + 2 * e || SAVED_WORDS + i == 3 + 2 * e;
      }
    }
  }

  lemma WordKept(total: nat, free: seq<Region>, objects: seq<nat>, k: nat)
    requires Unharmed(total, free, objects) && k < 2 + 2 * |free|
    ensures |Image(Words(total, free), objects)| > k && Image(Words(total, free), objects)[k] == Words(total, free)[k]
  {
    ImageWords(Words(total, free), objects);
    if SAVED_WORDS <= k < SAVED_WORDS + |objects| {
      var i := k - SAVED_WORDS;
      assert objects[i] == Words(total, free)[SAVED_WORDS + i];
    }
  }

  /** Only the object tables overwrite words. */
  lemma ImageWords(words: seq<nat>, objects: seq<nat>)
    ensures |words| <= |Image(words, objects)|
    ensures forall k :: 0 <= k < |words| ==>
      Image(words, objects)[k] == if SAVED_WORDS <= k < SAVED_WORDS + |objects| then objects[k - SAVED_WORDS]
          else words[k]
  {
  }

  class GlobalAlloc {
    var mapped: seq<Region>
    var freeList: seq<Region>
    ghost var out: set<nat>

    ghost predicate Mapped()
      reads this
    {
      Contiguous(mapped) && Extent(mapped) <= MAX_BLOCKS && Whole(Extent(mapped))
    }

    ghost predicate Valid()
      reads this
    {
      Mapped() && Partition(freeList, out, Extent(mapped))
    }

    constructor ()
      ensures Valid() && out == {} && Extent(mapped) == MIN_POOL_BLOCKS
    {
      mapped := [Region(0, MIN_POOL_BLOCKS)];
      freeList := [Region(0, MIN_POOL_BLOCKS)];
      out := {};
      new;
      forall b: nat | b < MIN_POOL_BLOCKS ensures InFree(freeList, b) { assert freeList[0].Has(b); }
    }

    /** First fit from the end of a free region, or from the end of a newly mapped one. The free
        blocks and the handed-out blocks still partition the mapped blocks exactly when the
        remainder of a newly mapped region fits the 29-bit size field. */
    method Alloc(size: nat) returns (ptr: nat)
      requires Valid() && 0 < size
      requires Extent(mapped) + Grown(MIN_POOL_BLOCKS, size) <= MAX_BLOCKS
      modifies this
      ensures Mapped()
      ensures Fits(old(freeList), size) || Grown(MIN_POOL_BLOCKS, size) - size < SIZE_LIMIT ==> Valid()
      ensures !Fits(old(freeList), size) && SIZE_LIMIT <= Grown(MIN_POOL_BLOCKS, size) - size ==>
        Leaked(freeList, out, Extent(mapped))
      ensures Valid() <==> Fits(old(freeList), size) || Grown(MIN_POOL_BLOCKS, size) - size < SIZE_LIMIT
      ensures Blocks(ptr, size) !! old(out) && out == old(out) + Blocks(ptr, size)
      ensures ptr + size <= Extent(mapped)
      ensures Fits(old(freeList), size) ==> mapped == old(mapped)
      ensures !Fits(old(freeList), size) ==> Extent(mapped) == old(Extent(mapped)) + Grown(MIN_POOL_BLOCKS, size)
      ensures !Fits(old(freeList), size) ==> ptr + size == Extent(mapped)
      ensures Fits(old(freeList), size) ==>
        exists i: nat :: FirstLarge(old(freeList), size, i) && ptr + size == old(freeList)[i].End()
    {
      var i := FirstFit(size);
      if i < |freeList| {
        assert FirstLarge(freeList, size, i);
        ptr := Take(i, size);
      } else {
        ptr := MapNew(size);
      }
    }

    /** Index of the first free region that is large enough. */
    method FirstFit(size: nat) returns (i: nat)
      ensures i <= |freeList|
      ensures i < |freeList| ==> size <= freeList[i].size
      ensures forall j :: 0 <= j < i ==> freeList[j].size < size
    {
      i := 0;
      while i < |freeList| && freeList[i].size < size
        invariant i <= |freeList|
        invariant forall j :: 0 <= j < i ==> freeList[j].size < size
      {
        i := i + 1;
      }
    }

    /** Cuts the end off free region `i`. */
    method Take(i: nat, size: nat) returns (ptr: nat)
      requires Valid() && i < |freeList| && 0 < size <= freeList[i].size
      modifies this
      ensures Valid() && mapped == old(mapped)
      ensures Blocks(ptr, size) !! old(out) && out == old(out) + Blocks(ptr, size)
      ensures ptr + size <= Extent(mapped) && ptr + size == old(freeList)[i].End()
    {
      TakePartition(freeList, out, Extent(mapped), i, size);
      ptr := freeList[i].ptr + freeList[i].size - size;
      freeList := Cut(freeList, i, size);
      out := out + Blocks(ptr, size);
    }

    /** Maps a region and hands out its end. */
    method MapNew(size: nat) returns (ptr: nat)
      requires Valid() && 0 < size
      requires Extent(mapped) + Grown(MIN_POOL_BLOCKS, size) <= MAX_BLOCKS
      modifies this
      ensures Mapped()
      ensures Grown(MIN_POOL_BLOCKS, size) - size < SIZE_LIMIT ==> Valid()
      ensures SIZE_LIMIT <= Grown(MIN_POOL_BLOCKS, size) - size ==> Leaked(freeList, out, Extent(mapped))
      ensures Blocks(ptr, size) !! old(out) && out == old(out) + Blocks(ptr, size)
      ensures ptr + size == Extent(mapped) == old(Extent(mapped)) + Grown(MIN_POOL_BLOCKS, size)
    {
      var va := mapped[|mapped| - 1].End();
      var allocSize := Grown(MIN_POOL_BLOCKS, size);
      MappedOn(mapped, allocSize, size);
      var rem := allocSize - size;
      ptr := va + rem;
      GrowPartition(freeList, out, va, rem, size);
      if 0 < rem {
        GrowLeak(freeList, out, va, rem, size);
        freeList := [Region(va, Stored(rem))] + freeList;
      }
      out := out + Blocks(ptr, size);
      mapped := mapped + [Region(va, allocSize)];
      assert Extent(mapped) == va + rem + size;
    }

    /** Two list entries are neighbours as the source tests it. */
    static predicate Adjacent(c: Region, r: Region) {
      c.ptr == r.ptr + r.size || r.ptr == c.ptr + c.size
    }

    /** Index of some entry next to entry `k`, or -1. */
    method FindNeighbour(k: nat) returns (c: int)
      requires k < |freeList|
      ensures -1 <= c < |freeList| && c != k
      ensures 0 <= c ==> Adjacent(freeList[c], freeList[k])
      ensures c < 0 ==> forall i :: 0 <= i < |freeList| && i != k ==> !Adjacent(freeList[i], freeList[k])
    {
      c := 0;
      while c < |freeList| && (c == k || !Adjacent(freeList[c], freeList[k]))
        invariant 0 <= c <= |freeList|
        invariant forall i :: 0 <= i < c && i != k ==> !Adjacent(freeList[i], freeList[k])
      {
        c := c + 1;
      }
      if c == |freeList| { c := -1; }
    }

    /** Merges entry `start` with its neighbours until it has none. */
    method TryMergingRegions(start: nat, ghost lo: nat, ghost hi: nat) returns (ghost k: nat)
      requires 0 < |mapped| && OnTrack(freeList, out, Extent(mapped), start, lo, hi)
      modifies this`freeList
      ensures OnTrack(freeList, out, Extent(mapped), k, lo, hi)
      ensures forall i :: 0 <= i < |freeList| && i != k ==> !Adjacent(freeList[i], freeList[k])
    {
      var r: nat := start;
      var c := FindNeighbour(r);
      while 0 <= c
        invariant -1 <= c < |freeList| && c != r
        invariant OnTrack(freeList, out, Extent(mapped), r, lo, hi)
        invariant 0 <= c ==> Adjacent(freeList[c], freeList[r])
        invariant c < 0 ==> forall i :: 0 <= i < |freeList| && i != r ==> !Adjacent(freeList[i], freeList[r])
        decreases |freeList|, c
      {
        var low: nat, high: nat := c, r;
        if freeList[r].ptr < freeList[c].ptr { low, high := r, c; }
        MergeStep(freeList, out, Extent(mapped), low, high, r, lo, hi);
        freeList := Merged(freeList, low, high);
        r := if high < low then low - 1 else low;
        c := FindNeighbour(r);
      }
      k := r;
    }

    /** Returns blocks to the pool. The free and handed-out blocks still partition the mapped
        blocks, with the maximal free run around the returned ones as a single entry, exactly when
        that run fits the 29-bit size field; otherwise blocks are lost. */
    method Release(ptr: nat, size: nat)
      requires Valid() && 0 < size && Blocks(ptr, size) <= out
      modifies this`freeList, this`out
      ensures out == old(out) - Blocks(ptr, size)
      ensures
        var lo, hi := RunLow(old(freeList), ptr), RunHigh(old(freeList), ptr + size, Extent(mapped));
        && (hi - lo < SIZE_LIMIT ==> Valid() && Region(lo, hi - lo) in freeList)
        && (SIZE_LIMIT <= hi - lo ==> Leaked(freeList, out, Extent(mapped)))
        && (Valid() <==> hi - lo < SIZE_LIMIT)
    {
      ghost var extent, lo, hi := Extent(mapped), RunLow(freeList, ptr), RunHigh(freeList, ptr + size, Extent(mapped));
      ReleaseStart(freeList, out, extent, ptr, size);
      freeList := [Region(ptr, Stored(size))] + freeList;
      out := out - Blocks(ptr, size);
      ghost var k := TryMergingRegions(0, lo, hi);
      Settled(freeList, out, extent, k, lo, hi);
    }

    /** Writes the allocator words; the extent is added up over the mapped regions. */
    method Save() returns (words: seq<nat>)
      requires Mapped()
      ensures words == Words(Extent(mapped), freeList)
    {
      var total := 0;
      for i := 0 to |mapped|
        invariant i == 0 ==> total == 0
        invariant 0 < i ==> total == mapped[i - 1].End()
      {
        total := total + mapped[i].size;
      }
      var entries := [];
      for i := 0 to |freeList|
        invariant |entries| == 2 * i
        invariant forall j :: 0 <= j < 2 * i ==> entries[j] == if j % 2 == 0 then freeList[j / 2].ptr
          else freeList[j / 2].size
      {
        entries := entries + [freeList[i].ptr, freeList[i].size];
      }
      words := [total, |freeList|] + entries;
    }

    /** Loading what was saved gives the same extent and the same free list, in the same order,
        exactly when the object tables do not overwrite an entry beyond the sixteenth. */
    method SaveAndLoad(objects: seq<nat>) returns (total: nat, free: seq<Region>)
      requires Mapped()
      ensures total == Extent(mapped) && Whole(total)
      ensures free == freeList <==> Unharmed(Extent(mapped), freeList, objects)
      ensures |freeList| <= 16 ==> free == freeList
    {
      var words := Save();
      var image := Image(words, objects);
      total, free := Load(image);
      LoadedSame(total, freeList, objects, free);
    }
  }
}
