/**
 The doubly linked bucket lists that thread the free chunks of one free list through memory.
 `lists[b]` is the sequence of chunks on the list of bucket `b`.
 */
module BucketLists {
  import opened HeapLayout

  function PtrAt(l: seq<Addr>, i: int): Ptr {
    if 0 <= i < |l| then To(l[i]) else Null
  }

  ghost predicate Distinct(l: seq<Addr>) {
    forall i, j :: 0 <= i < j < |l| ==> l[i] != l[j]
  }

  ghost predicate Back(mem: Mem, l: seq<Addr>) {
    forall i {:trigger mem[l[i]].prev} :: 0 <= i < |l| ==> l[i] in mem && mem[l[i]].prev == PtrAt(l, i - 1)
  }

  ghost predicate Forth(mem: Mem, l: seq<Addr>) {
    forall i {:trigger mem[l[i]].next} :: 0 <= i < |l| ==> l[i] in mem && mem[l[i]].next == PtrAt(l, i + 1)
  }

  /** `l` is the list that starts at `head`: links in both directions, no repetition. */
  ghost predicate Linked(mem: Mem, head: Ptr, l: seq<Addr>) {
    && head == PtrAt(l, 0)
    && (forall a :: a in l ==> a in mem)
    && Back(mem, l) && Forth(mem, l) && Distinct(l)
  }

  /** Every bucket list is well formed and holds chunks of its own size class. */
  ghost predicate Threaded(mem: Mem, heads: seq<Ptr>, lists: seq<seq<Addr>>) {
    && |heads| == |lists| == TOTAL_BUCKETS
    && (forall b {:trigger Linked(mem, heads[b], lists[b])} :: 0 <= b < TOTAL_BUCKETS ==>
        Linked(mem, heads[b], lists[b]))
    && (forall b, a :: 0 <= b < TOTAL_BUCKETS && a in lists[b] ==> a in mem && Bucket(mem[a].tag.size) == b)
  }

  ghost predicate Listed(lists: seq<seq<Addr>>, a: Addr) {
    exists b :: 0 <= b < |lists| && a in lists[b]
  }

  /** Tags, payload words and unlisted lines are the same in both memories. */
  ghost predicate LinksOnly(mem: Mem, mem': Mem, lists: seq<seq<Addr>>) {
    && mem'.Keys == mem.Keys
    && (forall a :: a in mem ==> mem'[a].tag == mem[a].tag && mem'[a].rest == mem[a].rest)
    && (forall a :: a in mem && !Listed(lists, a) ==> mem'[a] == mem[a])
  }

  function Without(l: seq<Addr>, k: nat): (r: seq<Addr>)
    requires k < |l|
  {
    l[..k] + l[k + 1..]
  }

  ghost predicate Skips(l: seq<Addr>, k: nat, w: seq<Addr>) {
    && k < |l| && |w| == |l| - 1
    && (forall i :: 0 <= i < k ==> w[i] == l[i])
    && (forall i :: k <= i < |w| ==> w[i] == l[i + 1])
  }

  lemma WithoutSkips(l: seq<Addr>, k: nat)
    requires k < |l| && Distinct(l)
    ensures Skips(l, k, Without(l, k)) && Distinct(Without(l, k))
    ensures forall x :: x in Without(l, k) <==> x in l && x != l[k]
  {
    var w := Without(l, k);
    forall x | x in l && x != l[k] ensures x in w {
      var i :| 0 <= i < |l| && l[i] == x;
      assert w[if i < k then i else i - 1] == x;
    }
  }

  // ---------------------------------------------------------------- unlinking

  /** The two stores of `removeChunkFromBuckets` that touch chunks. */
  function UnlinkMem(mem: Mem, c: Addr): (r: Mem)
    requires c in mem
    requires mem[c].prev.To? ==> mem[c].prev.addr in mem
    requires mem[c].next.To? ==> mem[c].next.addr in mem
  {
    var m := if mem[c].prev.To? then mem[mem[c].prev.addr := mem[mem[c].prev.addr].(next := mem[c].next)] else mem;
    if m[c].next.To? && m[c].next.addr in m then m[m[c].next.addr := m[m[c].next.addr].(prev := m[c].prev)] else m
  }

  /** The store of `removeChunkFromBuckets` to the bucket head. */
  function UnlinkHeads(mem: Mem, heads: seq<Ptr>, b: nat, c: Addr): (r: seq<Ptr>)
    requires c in mem && b < |heads|
  {
    if mem[c].prev.Null? then heads[b := mem[c].next] else heads
  }

  ghost function IndexOf(l: seq<Addr>, c: Addr): (k: nat)
    requires c in l
    ensures k < |l| && l[k] == c
  {
    if l[0] == c then 0 else 1 + IndexOf(l[1..], c)
  }

  /** The lists without chunk `c` of bucket `b`. */
  ghost function UnlinkLists(lists: seq<seq<Addr>>, b: nat, c: Addr): seq<seq<Addr>>
    requires b < |lists| && c in lists[b]
  {
    lists[b := Without(lists[b], IndexOf(lists[b], c))]
  }

  /** What the two stores change: the successor field of the left neighbour and the predecessor
      field of the right one. */
  ghost predicate Unlinked(mem: Mem, mem': Mem, l: seq<Addr>, k: nat) {
    && k < |l| && mem'.Keys == mem.Keys
    && forall a :: a in mem ==>
         mem'[a] == if 0 < k && a == l[k - 1] then mem[a].(next := PtrAt(l, k + 1))
                    else if k + 1 < |l| && a == l[k + 1] then mem[a].(prev := PtrAt(l, k - 1))
                    else mem[a]
  }

  lemma UnlinkFrame(mem: Mem, head: Ptr, l: seq<Addr>, k: nat)
    requires Linked(mem, head, l) && k < |l|
    ensures (mem[l[k]].prev.To? ==> mem[l[k]].prev.addr in mem) && (mem[l[k]].next.To? ==> mem[l[k]].next.addr in mem)
    ensures mem[l[k]].prev == PtrAt(l, k - 1) && mem[l[k]].next == PtrAt(l, k + 1)
    ensures Unlinked(mem, UnlinkMem(mem, l[k]), l, k)
  {
    assert mem[l[k]].prev == PtrAt(l, k - 1) && mem[l[k]].next == PtrAt(l, k + 1);
    if 0 < k { assert l[k - 1] in mem && l[k - 1] != l[k]; }
    if k + 1 < |l| { assert l[k + 1] in mem && l[k + 1] != l[k]; }
    if 0 < k && k + 1 < |l| { assert l[k - 1] != l[k + 1]; }
  }

  lemma UnlinkBack(mem: Mem, mem': Mem, l: seq<Addr>, k: nat, w: seq<Addr>)
    requires Back(mem, l) && Distinct(l) && Skips(l, k, w) && Unlinked(mem, mem', l, k)
    requires forall a :: a in l ==> a in mem
    ensures Back(mem', w)
  {
    forall i | 0 <= i < |w| ensures w[i] in mem' && mem'[w[i]].prev == PtrAt(w, i - 1) {
      var j := if i < k then i else i + 1;
      assert w[i] == l[j];
      assert mem[l[j]].prev == PtrAt(l, j - 1);
      if j != k + 1 { assert mem'[l[j]].prev == mem[l[j]].prev; }
    }
  }

  lemma UnlinkForth(mem: Mem, mem': Mem, l: seq<Addr>, k: nat, w: seq<Addr>)
    requires Forth(mem, l) && Distinct(l) && Skips(l, k, w) && Unlinked(mem, mem', l, k)
    requires forall a :: a in l ==> a in mem
    ensures Forth(mem', w)
  {
    forall i | 0 <= i < |w| ensures w[i] in mem' && mem'[w[i]].next == PtrAt(w, i + 1) {
      var j := if i < k then i else i + 1;
      assert w[i] == l[j];
      assert mem[l[j]].next == PtrAt(l, j + 1);
      if j + 1 != k { assert mem'[l[j]].next == mem[l[j]].next; }
    }
  }

  /** Unlinking the chunk at position `k` of a list gives the list without it. */
  lemma UnlinkLinked(mem: Mem, mem': Mem, head: Ptr, l: seq<Addr>, k: nat)
    requires Linked(mem, head, l) && k < |l| && Unlinked(mem, mem', l, k)
    ensures Linked(mem', if k == 0 then PtrAt(l, 1) else head, Without(l, k))
  {
    WithoutSkips(l, k);
    UnlinkBack(mem, mem', l, k, Without(l, k));
    UnlinkForth(mem, mem', l, k, Without(l, k));
  }

  /** Replacing the list of one bucket, when the rest of memory is the same. */
  lemma ReplaceBucket(mem: Mem, mem': Mem, heads: seq<Ptr>, lists: seq<seq<Addr>>, b: nat, head: Ptr, l: seq<Addr>)
    requires Threaded(mem, heads, lists) && b < TOTAL_BUCKETS
    requires mem'.Keys == mem.Keys
    requires forall a :: a in mem ==> mem'[a].tag == mem[a].tag
    requires forall a, d :: 0 <= d < TOTAL_BUCKETS && d != b && a in lists[d] ==> mem'[a] == mem[a]
    requires Linked(mem', head, l)
    requires forall a :: a in l ==> Bucket(mem'[a].tag.size) == b
    ensures Threaded(mem', heads[b := head], lists[b := l])
  {
    var heads', lists' := heads[b := head], lists[b := l];
    forall d | 0 <= d < TOTAL_BUCKETS ensures Linked(mem', heads'[d], lists'[d]) {
      if d != b {
        LinkedFrame(mem, mem', heads[d], lists[d]);
      }
    }
  }

  lemma LinkedFrame(mem: Mem, mem': Mem, head: Ptr, l: seq<Addr>)
    requires Linked(mem, head, l) && mem.Keys <= mem'.Keys
    requires forall a :: a in l ==> mem'[a].prev == mem[a].prev && mem'[a].next == mem[a].next
    ensures Linked(mem', head, l)
  {
    forall i | 0 <= i < |l| ensures l[i] in mem' && mem'[l[i]].prev == PtrAt(l, i - 1) {
      assert mem[l[i]].prev == PtrAt(l, i - 1);
    }
    forall i | 0 <= i < |l| ensures l[i] in mem' && mem'[l[i]].next == PtrAt(l, i + 1) {
      assert mem[l[i]].next == PtrAt(l, i + 1);
    }
  }

  /** Unlinking one chunk keeps all lists well formed and touches links only. */
  lemma UnlinkThreaded(mem: Mem, heads: seq<Ptr>, lists: seq<seq<Addr>>, b: nat, k: nat)
    requires Threaded(mem, heads, lists) && b < TOTAL_BUCKETS && k < |lists[b]|
    ensures
      var c := lists[b][k];
      && c in mem && (mem[c].prev.To? ==> mem[c].prev.addr in mem) && (mem[c].next.To? ==> mem[c].next.addr in mem)
      && Threaded(UnlinkMem(mem, c), UnlinkHeads(mem, heads, b, c), lists[b := Without(lists[b], k)])
      && LinksOnly(mem, UnlinkMem(mem, c), lists)
  {
    var l := lists[b];
    assert Linked(mem, heads[b], l);
    UnlinkFrame(mem, heads[b], l, k);
    var m' := UnlinkMem(mem, l[k]);
    UnlinkLinked(mem, m', heads[b], l, k);
    WithoutSkips(l, k);
    var head := if k == 0 then PtrAt(l, 1) else heads[b];
    UnlinkTouches(mem, m', heads, lists, b, k);
    ReplaceBucket(mem, m', heads, lists, b, head, Without(l, k));
    assert k != 0 ==> heads[b := head] == heads;
  }

  lemma UnlinkTouches(mem: Mem, mem': Mem, heads: seq<Ptr>, lists: seq<seq<Addr>>, b: nat, k: nat)
    requires Threaded(mem, heads, lists) && b < TOTAL_BUCKETS && k < |lists[b]|
    requires Unlinked(mem, mem', lists[b], k)
    ensures forall a :: a in mem && a !in lists[b] ==> mem'[a] == mem[a]
    ensures forall a, d :: 0 <= d < TOTAL_BUCKETS && d != b && a in lists[d] ==> mem'[a] == mem[a]
    ensures LinksOnly(mem, mem', lists)
  {
    var l := lists[b];
    assert 0 < k ==> l[k - 1] in l;
    assert k + 1 < |l| ==> l[k + 1] in l;
    forall a, d | 0 <= d < TOTAL_BUCKETS && d != b && a in lists[d] ensures mem'[a] == mem[a] {
      assert a in mem && Bucket(mem[a].tag.size) == d;
    }
    forall a | a in mem && !Listed(lists, a) ensures mem'[a] == mem[a] {
      assert a !in lists[b];
    }
  }

  // ---------------------------------------------------------------- pushing

  /** The stores of `addFreeChunk`. */
  function PushMem(mem: Mem, head: Ptr, c: Addr): (r: Mem)
    requires c in mem && (head.To? ==> head.addr in mem)
  {
    var m := mem[c := mem[c].(prev := Null, next := head)];
    if head.To? then m[head.addr := m[head.addr].(prev := To(c))] else m
  }

  lemma PushLinked(mem: Mem, head: Ptr, l: seq<Addr>, c: Addr)
    requires Linked(mem, head, l) && c in mem && c !in l
    ensures head.To? ==> head.addr in mem
    ensures var m' := PushMem(mem, head, c);
      && Linked(m', To(c), [c] + l)
      && m'.Keys == mem.Keys
      && (forall a :: a in mem && a !in l && a != c ==> m'[a] == mem[a])
      && (forall a :: a in mem ==> m'[a].tag == mem[a].tag && m'[a].rest == mem[a].rest)
  {
    if head.To? { assert head.addr == l[0] && l[0] in l; }
    var m', w := PushMem(mem, head, c), [c] + l;
    forall i | 0 <= i < |w| ensures w[i] in m' && m'[w[i]].prev == PtrAt(w, i - 1) {
      if 0 < i {
        assert w[i] == l[i - 1] && mem[l[i - 1]].prev == PtrAt(l, i - 2);
      }
    }
    forall i | 0 <= i < |w| ensures w[i] in m' && m'[w[i]].next == PtrAt(w, i + 1) {
      if 0 < i {
        assert w[i] == l[i - 1] && mem[l[i - 1]].next == PtrAt(l, i);
      }
    }
  }

  /** Pushing an unlisted chunk on the list of its size class. */
  lemma PushThreaded(mem: Mem, heads: seq<Ptr>, lists: seq<seq<Addr>>, c: Addr)
    requires Threaded(mem, heads, lists) && c in mem && !Listed(lists, c)
    ensures
      var b := Bucket(mem[c].tag.size);
      && (heads[b].To? ==> heads[b].addr in mem)
      && var m' := PushMem(mem, heads[b], c);
      && Threaded(m', heads[b := To(c)], lists[b := [c] + lists[b]])
      && LinksOnly(mem, m', lists[b := [c] + lists[b]])
  {
    var b := Bucket(mem[c].tag.size);
    assert Linked(mem, heads[b], lists[b]);
    assert c !in lists[b];
    PushLinked(mem, heads[b], lists[b], c);
    var m' := PushMem(mem, heads[b], c);
    forall a, d | 0 <= d < TOTAL_BUCKETS && d != b && a in lists[d] ensures m'[a] == mem[a] {
      assert a !in lists[b];
    }
    ReplaceBucket(mem, m', heads, lists, b, To(c), [c] + lists[b]);
    forall a | a in mem && !Listed(lists[b := [c] + lists[b]], a) ensures m'[a] == mem[a] {
      assert a !in lists[b := [c] + lists[b]][b];
    }
  }

  /** Stores that keep the links and size classes of listed chunks do not disturb the lists. */
  lemma ThreadedByLinks(mem: Mem, mem': Mem, heads: seq<Ptr>, lists: seq<seq<Addr>>)
    requires Threaded(mem, heads, lists)
    requires mem.Keys <= mem'.Keys
    requires forall b, a :: 0 <= b < TOTAL_BUCKETS && a in lists[b] ==>
      mem'[a].prev == mem[a].prev && mem'[a].next == mem[a].next
      && Bucket(mem'[a].tag.size) == Bucket(mem[a].tag.size)
    ensures Threaded(mem', heads, lists)
  {
    forall d | 0 <= d < TOTAL_BUCKETS ensures Linked(mem', heads[d], lists[d]) {
      LinkedFrame(mem, mem', heads[d], lists[d]);
    }
  }

  /** The same, for stores that keep the listed lines up to their header words and their sizes. */
  lemma ThreadedByListed(mem: Mem, mem': Mem, heads: seq<Ptr>, lists: seq<seq<Addr>>)
    requires Threaded(mem, heads, lists) && mem.Keys <= mem'.Keys
    requires forall a :: Listed(lists, a) && a in mem ==>
      mem'[a] == mem[a].(tag := mem'[a].tag) && mem'[a].tag.size == mem[a].tag.size
    ensures Threaded(mem', heads, lists)
  {
    forall d, a | 0 <= d < TOTAL_BUCKETS && a in lists[d]
      ensures mem'[a].prev == mem[a].prev && mem'[a].next == mem[a].next
      ensures Bucket(mem'[a].tag.size) == Bucket(mem[a].tag.size)
    {
      assert Listed(lists, a);
    }
    ThreadedByLinks(mem, mem', heads, lists);
  }

  // ---------------------------------------------------------------- membership

  lemma ListedPushed(lists: seq<seq<Addr>>, b: nat, c: Addr, a: Addr)
    requires b < |lists|
    ensures Listed(lists[b := [c] + lists[b]], a) <==> Listed(lists, a) || a == c
  {
    var lists' := lists[b := [c] + lists[b]];
    if Listed(lists', a) && a != c {
      var d :| 0 <= d < |lists'| && a in lists'[d];
      assert a in lists[d];
    }
    if Listed(lists, a) {
      var d :| 0 <= d < |lists| && a in lists[d];
      assert a in lists'[d];
    }
    assert c in lists'[b];
  }

  lemma ListedUnlinked(mem: Mem, heads: seq<Ptr>, lists: seq<seq<Addr>>, b: nat, k: nat, a: Addr)
    requires Threaded(mem, heads, lists) && b < TOTAL_BUCKETS && k < |lists[b]|
    ensures Listed(lists[b := Without(lists[b], k)], a) <==> Listed(lists, a) && a != lists[b][k]
  {
    var c, lists' := lists[b][k], lists[b := Without(lists[b], k)];
    assert Linked(mem, heads[b], lists[b]);
    WithoutSkips(lists[b], k);
    if Listed(lists', a) {
      var d :| 0 <= d < |lists'| && a in lists'[d];
      assert a in lists[d];
      assert c in lists[b];
    }
    if Listed(lists, a) && a != c {
      var d :| 0 <= d < |lists| && a in lists[d];
      assert a in lists'[d];
    }
  }
}
