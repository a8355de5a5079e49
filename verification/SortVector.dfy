/**
 The sorting vector as a logged object: in-place partitioning and quick sort by logged swaps, in disjoint
 slices.
 */
module SortVectors {
  import CommitOrders

  /** One element: a fixed number of words, compared word by word. */
  type Elem = seq<nat>

  predicate LessEq(a: Elem, b: Elem) {
    |a| == |b| && forall i :: 0 <= i < |a| ==> a[i] <= b[i]
  }

  datatype Swap = Swap(a: nat, b: nat)

  function Swapped(v: seq<Elem>, s: Swap): (r: seq<Elem>)
    ensures |r| == |v|
  {
    if s.a < |v| && s.b < |v| then v[s.a := v[s.b]][s.b := v[s.a]] else v
  }

  /** The vector after a number of swaps. */
  function Replay(v: seq<Elem>, swaps: seq<Swap>): (r: seq<Elem>)
    ensures |r| == |v|
  {
    if swaps == [] then v else Swapped(Replay(v, swaps[..|swaps| - 1]), swaps[|swaps| - 1])
  }

  /** The swaps logged from number `n` on lead from `v` to `v'`. */
  ghost predicate Logged(v: seq<Elem>, v': seq<Elem>, swaps: seq<Swap>, n: nat) {
    n <= |swaps| && v' == Replay(v, swaps[n..])
  }

  lemma LoggedOne(v0: seq<Elem>, v: seq<Elem>, swaps: seq<Swap>, n: nat, s: Swap)
    requires Logged(v0, v, swaps, n)
    ensures Logged(v0, Swapped(v, s), swaps + [s], n)
  {
    var t := (swaps + [s])[n..];
    assert t[..|t| - 1] == swaps[n..];
  }

  lemma {:induction false} ReplayConcat(v: seq<Elem>, a: seq<Swap>, b: seq<Swap>)
    ensures Replay(v, a + b) == Replay(Replay(v, a), b)
  {
    if b == [] {
      assert a + b == a;
    } else {
      var n := |b| - 1;
      ReplayConcat(v, a, b[..n]);
      assert (a + b)[..|a| + n] == a + b[..n];
    }
  }

  lemma LoggedTwice(v0: seq<Elem>, v1: seq<Elem>, v2: seq<Elem>, swaps1: seq<Swap>, swaps2: seq<Swap>, n: nat)
    requires Logged(v0, v1, swaps1, n) && swaps1 <= swaps2 && Logged(v1, v2, swaps2, |swaps1|)
    ensures Logged(v0, v2, swaps2, n)
  {
    ReplayConcat(v0, swaps1[n..], swaps2[|swaps1|..]);
    assert swaps2[n..] == swaps1[n..] + swaps2[|swaps1|..];
  }

  /** The swaps from number `n` on stay between `lo` and `hi`. */
  ghost predicate Within(swaps: seq<Swap>, n: nat, lo: nat, hi: nat) {
    n <= |swaps| && forall i :: n <= i < |swaps| ==> lo <= swaps[i].a < hi && lo <= swaps[i].b < hi
  }

  /** Only positions from `lo` to `hi` have changed, and there only their order. */
  ghost predicate Reordered(v: seq<Elem>, v': seq<Elem>, lo: nat, hi: nat) {
    && lo <= hi <= |v| == |v'|
    && multiset(v'[lo..hi]) == multiset(v[lo..hi])
    && (forall i :: 0 <= i < |v| && !(lo <= i < hi) ==> v'[i] == v[i])
  }

  lemma ReorderedTwice(v0: seq<Elem>, v1: seq<Elem>, v2: seq<Elem>, lo: nat, hi: nat)
    requires Reordered(v0, v1, lo, hi) && Reordered(v1, v2, lo, hi)
    ensures Reordered(v0, v2, lo, hi)
  {
  }

  lemma SwapReorders(v: seq<Elem>, s: Swap, lo: nat, hi: nat)
    requires lo <= s.a < hi <= |v| && lo <= s.b < hi
    ensures Reordered(v, Swapped(v, s), lo, hi)
  {
    var p, q := v[lo..hi], Swapped(v, s)[lo..hi];
    assert q == p[s.a - lo := p[s.b - lo]][s.b - lo := p[s.a - lo]];
  }

  /** The swaps logged since `swaps0` stay in the range, and lead from `v0` to `v`. */
  ghost predicate SwapsMade(v0: seq<Elem>, v: seq<Elem>, swaps0: seq<Swap>, swaps: seq<Swap>, lo: nat, hi: nat) {
    && lo <= hi <= |v0| && swaps0 <= swaps && Within(swaps, |swaps0|, lo, hi) && Logged(v0, v, swaps, |swaps0|)
  }

  /** So they reorder it. */
  lemma {:induction false} ReplayReorders(v: seq<Elem>, swaps: seq<Swap>, lo: nat, hi: nat)
    requires lo <= hi <= |v| && Within(swaps, 0, lo, hi)
    ensures Reordered(v, Replay(v, swaps), lo, hi)
  {
    if swaps != [] {
      var n := |swaps| - 1;
      ReplayReorders(v, swaps[..n], lo, hi);
      SwapReorders(Replay(v, swaps[..n]), swaps[n], lo, hi);
      ReorderedTwice(v, Replay(v, swaps[..n]), Replay(v, swaps), lo, hi);
    }
  }

  lemma MadeReorders(v0: seq<Elem>, v: seq<Elem>, swaps0: seq<Swap>, swaps: seq<Swap>, lo: nat, hi: nat)
    requires SwapsMade(v0, v, swaps0, swaps, lo, hi)
    ensures Reordered(v0, v, lo, hi)
  {
    ReplayReorders(v0, swaps[|swaps0|..], lo, hi);
  }

  lemma NoSwaps(v: seq<Elem>, swaps: seq<Swap>, lo: nat, hi: nat)
    requires lo <= hi <= |v|
    ensures SwapsMade(v, v, swaps, swaps, lo, hi)
  {
    assert swaps[|swaps|..] == [];
  }

  lemma OneMore(v0: seq<Elem>, v: seq<Elem>, swaps0: seq<Swap>, swaps: seq<Swap>, lo: nat, hi: nat, s: Swap)
    requires SwapsMade(v0, v, swaps0, swaps, lo, hi) && lo <= s.a < hi && lo <= s.b < hi
    ensures SwapsMade(v0, Swapped(v, s), swaps0, swaps + [s], lo, hi)
  {
    LoggedOne(v0, v, swaps, |swaps0|, s);
  }

  /** Swaps in a part of the range after swaps in the range. */
  lemma MoreMade(v0: seq<Elem>, v1: seq<Elem>, v2: seq<Elem>, swaps0: seq<Swap>, swaps1: seq<Swap>, swaps2: seq<Swap>,
                 lo: nat, hi: nat, lb: nat, ub: nat)
    requires SwapsMade(v0, v1, swaps0, swaps1, lo, hi) && SwapsMade(v1, v2, swaps1, swaps2, lb, ub)
    requires lo <= lb && ub <= hi
    ensures SwapsMade(v0, v2, swaps0, swaps2, lo, hi)
  {
    LoggedTwice(v0, v1, v2, swaps1, swaps2, |swaps0|);
  }

  /** An element found in a reordered range was there before. */
  lemma Came(v: seq<Elem>, v': seq<Elem>, lo: nat, hi: nat, i: nat) returns (j: nat)
    requires Reordered(v, v', lo, hi) && lo <= i < hi
    ensures lo <= j < hi && v[j] == v'[i]
  {
    assert v'[i] in v'[lo..hi];
    assert v'[i] in multiset(v'[lo..hi]);
    assert v'[i] in v[lo..hi];
    j :| lo <= j < hi && v[j] == v'[i];
  }

  class PersistentVector {
    var v: seq<Elem>
    ghost var swaps: seq<Swap>

    method Exchange(a: nat, b: nat)
      requires a < |v| && b < |v|
      modifies this
      ensures v == Swapped(old(v), Swap(a, b)) && swaps == old(swaps) + [Swap(a, b)]
    {
      var t := v[a];
      v := v[a := v[b]];
      v := v[b := t];
      swaps := swaps + [Swap(a, b)];
    }

    /** Moves the elements that are at most the last one to the front, and the last one behind them. */
    method Partition(lb: nat, ub: nat) returns (pi: nat)
      requires lb < ub < |v|
      modifies this
      ensures lb <= pi <= ub && |v| == |old(v)| && SwapsMade(old(v), v, old(swaps), swaps, lb, ub + 1)
      ensures v[pi] == old(v)[ub]
      ensures forall k :: lb <= k < pi ==> LessEq(v[k], v[pi])
      ensures forall k :: pi < k <= ub ==> !LessEq(v[k], v[pi])
    {
      var pivot := v[ub];
      var i := lb;
      NoSwaps(v, swaps, lb, ub + 1);
      for j := lb to ub
        invariant lb <= i <= j && |v| == |old(v)| && v[ub] == pivot
        invariant SwapsMade(old(v), v, old(swaps), swaps, lb, ub + 1)
        invariant forall k :: lb <= k < i ==> LessEq(v[k], pivot)
        invariant forall k :: i <= k < j ==> !LessEq(v[k], pivot)
      {
        if LessEq(v[j], pivot) {
          Move(i, j, lb, ub + 1, old(v), old(swaps));
          i := i + 1;
        }
      }
      Move(i, ub, lb, ub + 1, old(v), old(swaps));
      pi := i;
    }

    /** A swap inside a range. */
    method Move(a: nat, b: nat, lo: nat, hi: nat, ghost v0: seq<Elem>, ghost swaps0: seq<Swap>)
      requires lo <= a < hi <= |v| && lo <= b < hi && SwapsMade(v0, v, swaps0, swaps, lo, hi)
      modifies this
      ensures |v| == |old(v)| && v[a] == old(v)[b] && v[b] == old(v)[a]
      ensures forall k :: 0 <= k < |v| && k != a && k != b ==> v[k] == old(v)[k]
      ensures SwapsMade(v0, v, swaps0, swaps, lo, hi)
    {
      OneMore(v0, v, swaps0, swaps, lo, hi, Swap(a, b));
      Exchange(a, b);
    }

    /** The loop of quick sort with its explicit stack. All swaps stay in the slice, which is reordered; replaying
        them does the same; and it ends up sorted exactly if its elements are pairwise comparable. */
    method QuickSort(lo: nat, hi: nat)
      requires lo <= hi <= |v|
      modifies this
      ensures Reordered(old(v), v, lo, hi)
      ensures old(swaps) <= swaps && Within(swaps, |old(swaps)|, lo, hi)
      ensures v == Replay(old(v), swaps[|old(swaps)|..])
      ensures Sorted(v, lo, hi) <==> Total(old(v), lo, hi)
    {
      var stack: seq<(int, int)> := [(lo as int, hi as int - 1)];
      NoSwaps(v, swaps, lo, hi);
      while stack != []
        invariant Pending(old(v), v, old(swaps), swaps, stack, lo, hi)
        decreases Work(stack), |stack|
      {
        stack := SortTop(stack, lo, hi, old(v), old(swaps));
      }
      MadeReorders(old(v), v, old(swaps), swaps, lo, hi);
      if Sorted(v, lo, hi) { SortedTotal(old(v), v, lo, hi); }
    }

    /** Takes a range from the stack and, if it has two elements, splits it. */
    method SortTop(stack0: seq<(int, int)>, lo: nat, hi: nat, ghost v0: seq<Elem>, ghost swaps0: seq<Swap>)
      returns (stack: seq<(int, int)>)
      requires stack0 != [] && Pending(v0, v, swaps0, swaps, stack0, lo, hi)
      modifies this
      ensures Pending(v0, v, swaps0, swaps, stack, lo, hi)
      ensures Work(stack) < Work(stack0) || (Work(stack) == Work(stack0) && |stack| < |stack0|)
    {
      var (lb, ub) := stack0[|stack0| - 1];
      stack := stack0[..|stack0| - 1];
      if lb < ub {
        var pi: int := Partition(lb, ub);
        stack := stack + [(lb, pi - 1), (pi + 1, ub)];
        WorkPush(stack0, stack, lb, ub, pi);
        ApartPush(stack0, stack, lb, ub, pi);
        MoreMade(v0, old(v), v, swaps0, old(swaps), swaps, lo, hi, lb, ub + 1);
        SplitOrdered(v0, old(v), v, swaps0, old(swaps), swaps, stack0, stack, lo, hi, lb, ub, pi);
      } else if Total(v0, lo, hi) {
        OrderedPop(v, stack0, lo, hi);
      }
    }
  }

  // ---------------------------------------------------------------- why the loop sorts

  ghost predicate Total(v: seq<Elem>, lo: nat, hi: nat) {
    hi <= |v| && forall i, j :: lo <= i < hi && lo <= j < hi ==> LessEq(v[i], v[j]) || LessEq(v[j], v[i])
  }

  ghost predicate Sorted(v: seq<Elem>, lo: nat, hi: nat) {
    hi <= |v| && forall i, j :: lo <= i < j < hi ==> LessEq(v[i], v[j])
  }

  ghost predicate Ranges(stack: seq<(int, int)>, lo: nat, hi: nat) {
    forall k :: 0 <= k < |stack| ==> lo <= stack[k].0 && stack[k].1 < hi
  }

  /** Both positions lie in a range that is still on the stack. */
  ghost predicate Together(stack: seq<(int, int)>, i: int, j: int) {
    exists k :: 0 <= k < |stack| && Inside(stack[k], i) && Inside(stack[k], j)
  }

  /** Any two positions are in order unless they are together in a pending range. */
  ghost predicate Ordered(v: seq<Elem>, stack: seq<(int, int)>, lo: nat, hi: nat) {
    hi <= |v| && forall i, j :: lo <= i < j < hi && !Together(stack, i, j) ==> LessEq(v[i], v[j])
  }

  /** The ranges on the stack are all that is left to do. */
  ghost predicate Pending(v0: seq<Elem>, v: seq<Elem>, swaps0: seq<Swap>, swaps: seq<Swap>, stack: seq<(int, int)>,
                          lo: nat, hi: nat) {
    && SwapsMade(v0, v, swaps0, swaps, lo, hi) && Ranges(stack, lo, hi) && Apart(stack)
    && (Total(v0, lo, hi) ==> Ordered(v, stack, lo, hi))
  }

  lemma TotalKept(v: seq<Elem>, v': seq<Elem>, lo: nat, hi: nat)
    requires Total(v, lo, hi) && Reordered(v, v', lo, hi)
    ensures Total(v', lo, hi)
  {
    forall i, j | lo <= i < hi && lo <= j < hi ensures LessEq(v'[i], v'[j]) || LessEq(v'[j], v'[i]) {
      var p := Came(v, v', lo, hi, i);
      var q := Came(v, v', lo, hi, j);
    }
  }

  /** For elements of one word this is the usual order: any two compare, and sorted is ascending. */
  lemma OneWordSorted(v: seq<Elem>, lo: nat, hi: nat)
    requires hi <= |v| && forall i :: lo <= i < hi ==> |v[i]| == 1
    ensures Total(v, lo, hi)
    ensures Sorted(v, lo, hi) <==> forall i, j :: lo <= i < j < hi ==> v[i][0] <= v[j][0]
  {
    forall i, j | lo <= i < hi && lo <= j < hi ensures LessEq(v[i], v[j]) <==> v[i][0] <= v[j][0] { }
  }

  /** What can be sorted is pairwise comparable. */
  lemma SortedTotal(v: seq<Elem>, v': seq<Elem>, lo: nat, hi: nat)
    requires Sorted(v', lo, hi) && Reordered(v, v', lo, hi)
    ensures Total(v, lo, hi)
  {
    forall i, j | lo <= i < hi && lo <= j < hi ensures LessEq(v'[i], v'[j]) || LessEq(v'[j], v'[i]) {
      if j < i { assert LessEq(v'[j], v'[i]); }
    }
    TotalKept(v', v, lo, hi);
  }

  lemma Transitive(a: Elem, b: Elem, c: Elem)
    requires LessEq(a, b) && LessEq(b, c)
    ensures LessEq(a, c)
  {
  }

  function Size(r: (int, int)): nat {
    if r.0 <= r.1 then r.1 - r.0 + 1 else 0
  }

  /** Positions still in pending ranges. */
  function Work(stack: seq<(int, int)>): nat {
    if stack == [] then 0 else Work(stack[..|stack| - 1]) + Size(stack[|stack| - 1])
  }

  lemma WorkPush(stack0: seq<(int, int)>, stack: seq<(int, int)>, lb: int, ub: int, pi: int)
    requires stack0 != [] && stack0[|stack0| - 1] == (lb, ub) && lb <= pi <= ub
    requires stack == stack0[..|stack0| - 1] + [(lb, pi - 1), (pi + 1, ub)]
    ensures Work(stack) < Work(stack0)
  {
    var rest := stack0[..|stack0| - 1];
    assert stack[..|stack| - 1] == rest + [(lb, pi - 1)];
    assert (rest + [(lb, pi - 1)])[..|rest|] == rest;
  }

  predicate Inside(r: (int, int), i: int) {
    r.0 <= i <= r.1
  }

  /** No position is in two pending ranges. */
  ghost predicate Apart(stack: seq<(int, int)>) {
    forall k, l, i :: 0 <= k < l < |stack| && Inside(stack[k], i) ==> !Inside(stack[l], i)
  }

  lemma ApartPush(stack0: seq<(int, int)>, stack: seq<(int, int)>, lb: int, ub: int, pi: int)
    requires Apart(stack0) && stack0 != [] && stack0[|stack0| - 1] == (lb, ub) && lb <= pi <= ub
    requires stack == stack0[..|stack0| - 1] + [(lb, pi - 1), (pi + 1, ub)]
    ensures Apart(stack)
  {
    var n := |stack0| - 1;
    forall k, l, i | 0 <= k < l < |stack| && Inside(stack[k], i) ensures !Inside(stack[l], i) {
      if k < n && n <= l {
        assert Inside(stack0[k], i) ==> !Inside(stack0[n], i);
      }
    }
  }

  lemma OrderedPop(v: seq<Elem>, stack0: seq<(int, int)>, lo: nat, hi: nat)
    requires stack0 != [] && stack0[|stack0| - 1].1 <= stack0[|stack0| - 1].0 && Ordered(v, stack0, lo, hi)
    ensures Ordered(v, stack0[..|stack0| - 1], lo, hi)
  {
    var stack := stack0[..|stack0| - 1];
    forall i, j | lo <= i < j < hi && !Together(stack, i, j) ensures LessEq(v[i], v[j]) {
      NotTogether(stack0, stack, i, j);
    }
  }

  /** Positions that are not together in the rest of the stack, nor in its last range. */
  lemma NotTogether(stack0: seq<(int, int)>, stack: seq<(int, int)>, i: int, j: int)
    requires stack0 != [] && stack0[..|stack0| - 1] <= stack && !Together(stack, i, j)
    requires !(Inside(stack0[|stack0| - 1], i) && Inside(stack0[|stack0| - 1], j))
    ensures !Together(stack0, i, j)
  {
    forall k | 0 <= k < |stack0| ensures !(Inside(stack0[k], i) && Inside(stack0[k], j)) {
      if k < |stack0| - 1 { assert stack0[k] == stack[k]; }
    }
  }

  /** A position outside the popped range is in order with all of it. */
  lemma AcrossRange(v: seq<Elem>, stack: seq<(int, int)>, lo: nat, hi: nat, i: nat, j: nat)
    requires Ordered(v, stack, lo, hi) && Apart(stack) && stack != [] && lo <= i < hi && lo <= j < hi
    requires !Inside(stack[|stack| - 1], i) && Inside(stack[|stack| - 1], j)
    ensures if i < j then LessEq(v[i], v[j]) else LessEq(v[j], v[i])
  {
    var n := |stack| - 1;
    forall k | 0 <= k < |stack| ensures !(Inside(stack[k], i) && Inside(stack[k], j)) {
      assert k < n ==> !Inside(stack[k], j);
    }
    assert !Together(stack, i, j) && !Together(stack, j, i);
  }

  /** After a partition the two parts are pending in place of the whole. */
  lemma OrderedStep(v0: seq<Elem>, v: seq<Elem>, stack0: seq<(int, int)>, stack: seq<(int, int)>, lo: nat, hi: nat,
                    lb: nat, ub: nat, pi: nat)
    requires Ordered(v0, stack0, lo, hi) && Apart(stack0) && Total(v0, lo, hi)
    requires stack0 != [] && stack0[|stack0| - 1] == (lb as int, ub as int) && lo <= lb <= pi <= ub < hi
    requires stack == stack0[..|stack0| - 1] + [(lb as int, pi as int - 1), (pi as int + 1, ub as int)]
    requires Reordered(v0, v, lb, ub + 1)
    requires (forall k :: lb <= k < pi ==> LessEq(v[k], v[pi])) && forall k :: pi < k <= ub ==> !LessEq(v[k], v[pi])
    ensures Ordered(v, stack, lo, hi)
  {
    forall i, j | lo <= i < j < hi && !Together(stack, i, j) ensures LessEq(v[i], v[j]) {
      if lb <= i <= ub && lb <= j <= ub {
        PartsOrdered(v0, v, stack, lo, hi, lb, ub, pi, i, j, |stack0| - 1);
      } else if lb <= j <= ub {
        var q := Came(v0, v, lb, ub + 1, j);
        AcrossRange(v0, stack0, lo, hi, i, q);
      } else if lb <= i <= ub {
        var p := Came(v0, v, lb, ub + 1, i);
        AcrossRange(v0, stack0, lo, hi, j, p);
      } else {
        NotTogether(stack0, stack, i, j);
      }
    }
  }

  lemma PartsOrdered(v0: seq<Elem>, v: seq<Elem>, stack: seq<(int, int)>, lo: nat, hi: nat, lb: nat, ub: nat, pi: nat,
                     i: nat, j: nat, n: nat)
    requires Total(v0, lo, hi) && Reordered(v0, v, lb, ub + 1) && lo <= lb <= pi <= ub < hi
    requires n + 1 < |stack| && stack[n] == (lb as int, pi as int - 1) && stack[n + 1] == (pi as int + 1, ub as int)
    requires (forall k :: lb <= k < pi ==> LessEq(v[k], v[pi])) && forall k :: pi < k <= ub ==> !LessEq(v[k], v[pi])
    requires lb <= i < j <= ub && !Together(stack, i, j)
    ensures LessEq(v[i], v[j])
  {
    assert !Inside(stack[n], i) || !Inside(stack[n], j);
    assert !Inside(stack[n + 1], i) || !Inside(stack[n + 1], j);
    if pi < j {
      PivotBelow(v0, v, lo, hi, lb, ub, pi, j);
      if i < pi { Transitive(v[i], v[pi], v[j]); }
    }
  }

  lemma PivotBelow(v0: seq<Elem>, v: seq<Elem>, lo: nat, hi: nat, lb: nat, ub: nat, pi: nat, j: nat)
    requires Total(v0, lo, hi) && Reordered(v0, v, lb, ub + 1) && lo <= lb <= pi < j <= ub < hi && !LessEq(v[j], v[pi])
    ensures LessEq(v[pi], v[j])
  {
    var p := Came(v0, v, lb, ub + 1, pi);
    var q := Came(v0, v, lb, ub + 1, j);
  }

  lemma SplitOrdered(v0: seq<Elem>, v1: seq<Elem>, v2: seq<Elem>, swaps0: seq<Swap>, swaps1: seq<Swap>,
                     swaps2: seq<Swap>, stack0: seq<(int, int)>, stack: seq<(int, int)>, lo: nat, hi: nat, lb: nat,
                     ub: nat, pi: nat)
    requires Pending(v0, v1, swaps0, swaps1, stack0, lo, hi) && SwapsMade(v1, v2, swaps1, swaps2, lb, ub + 1)
    requires stack0 != [] && stack0[|stack0| - 1] == (lb as int, ub as int) && lo <= lb <= pi <= ub < hi
    requires stack == stack0[..|stack0| - 1] + [(lb as int, pi as int - 1), (pi as int + 1, ub as int)]
    requires |v2| == |v1| && ub < |v2|
    requires (forall k :: lb <= k < pi ==> LessEq(v2[k], v2[pi])) && forall k :: pi < k <= ub ==> !LessEq(v2[k], v2[pi])
    ensures Total(v0, lo, hi) ==> Ordered(v2, stack, lo, hi)
  {
    if Total(v0, lo, hi) {
      MadeReorders(v0, v1, swaps0, swaps1, lo, hi);
      MadeReorders(v1, v2, swaps1, swaps2, lb, ub + 1);
      TotalKept(v0, v1, lo, hi);
      OrderedStep(v1, v2, stack0, stack, lo, hi, lb, ub, pi);
    }
  }

  // ---------------------------------------------------------------- slices

  /** The slice of a position when the vector is cut into slices of `width`. */
  function SliceOf(width: nat, s: Swap): nat
    requires 0 < width
  {
    s.a / width
  }

  /** Both positions are in the same slice. */
  predicate Local(width: nat, s: Swap)
    requires 0 < width
  {
    s.a / width == s.b / width
  }

  /** Swaps of a thread that sorts slice `k` are local to that slice. */
  lemma SliceSwaps(width: nat, k: nat, swaps: seq<Swap>)
    requires 0 < width && Within(swaps, 0, k * width, (k + 1) * width)
    ensures forall i :: 0 <= i < |swaps| ==> Local(width, swaps[i]) && SliceOf(width, swaps[i]) == k
  {
    forall i | 0 <= i < |swaps| ensures Local(width, swaps[i]) && SliceOf(width, swaps[i]) == k {
      InSlice(width, k, swaps[i].a);
      InSlice(width, k, swaps[i].b);
    }
  }

  lemma InSlice(width: nat, k: nat, x: nat)
    requires 0 < width && k * width <= x < (k + 1) * width
    ensures x / width == k
  {
    var q, r := x / width, x % width;
    assert x == q * width + r;
    Cancel(q, k + 1, width);
    Cancel(k, q + 1, width);
  }

  lemma Cancel(a: nat, b: nat, w: nat)
    requires 0 < w && a * w < b * w
    ensures a < b
  {
    assert 0 < (b - a) * w;
  }

  /** A swap; one that is not local, which no sorting thread makes, is taken to do nothing. */
  function Apply(width: nat, v: seq<Elem>, s: Swap): seq<Elem>
    requires 0 < width
  {
    if Local(width, s) then Swapped(v, s) else v
  }

  /** Swaps in different slices commute. */
  lemma SwapsCommute(width: nat)
    requires 0 < width
    ensures CommitOrders.Commutes((v: seq<Elem>, s: Swap) => if 0 < width then Apply(width, v, s) else v,
                                  (s: Swap) => if 0 < width then SliceOf(width, s) else 0)
  {
    forall v: seq<Elem>, x: Swap, y: Swap | SliceOf(width, x) != SliceOf(width, y)
      ensures Apply(width, Apply(width, v, x), y) == Apply(width, Apply(width, v, y), x)
    {
      if Local(width, x) && Local(width, y) { DisjointSwaps(v, x, y); }
    }
  }

  lemma DisjointSwaps(v: seq<Elem>, x: Swap, y: Swap)
    requires x.a != y.a && x.a != y.b && x.b != y.a && x.b != y.b
    ensures Swapped(Swapped(v, x), y) == Swapped(Swapped(v, y), x)
  {
  }

  /** The swaps in slice `k`. */
  function InSliceOnly(width: nat, k: nat, swaps: seq<Swap>): seq<Swap>
    requires 0 < width
  {
    if swaps == [] then []
    else
      var last := swaps[|swaps| - 1];
      InSliceOnly(width, k, swaps[..|swaps| - 1]) + if SliceOf(width, last) == k then [last] else []
  }

  /** What becomes of a slice depends on the swaps in it alone. */
  lemma {:induction false} SliceAlone(width: nat, k: nat, v: seq<Elem>, swaps: seq<Swap>, i: nat)
    requires 0 < width && (forall n :: 0 <= n < |swaps| ==> Local(width, swaps[n])) && i < |v| && i / width == k
    ensures Replay(v, swaps)[i] == Replay(v, InSliceOnly(width, k, swaps))[i]
  {
    if swaps != [] {
      var n := |swaps| - 1;
      var last, mine := swaps[n], InSliceOnly(width, k, swaps[..n]);
      SliceAlone(width, k, v, swaps[..n], i);
      if SliceOf(width, last) == k {
        assert (mine + [last])[..|mine|] == mine;
        if last.a < |v| { SliceAlone(width, k, v, swaps[..n], last.a); }
        if last.b < |v| { SliceAlone(width, k, v, swaps[..n], last.b); }
      } else {
        assert mine + [] == mine;
      }
    }
  }

  /** Playing local swaps is swapping. */
  lemma {:induction false} FoldIsReplay(width: nat, v: seq<Elem>, swaps: seq<Swap>)
    requires 0 < width && forall n :: 0 <= n < |swaps| ==> Local(width, swaps[n])
    ensures CommitOrders.Fold(v, swaps, (v: seq<Elem>, s: Swap) => if 0 < width then Apply(width, v, s) else v) ==
      Replay(v, swaps)
  {
    if swaps != [] {
      var n := |swaps| - 1;
      FoldIsReplay(width, v, swaps[..n]);
      CommitOrders.FoldConcat(v, swaps[..n], [swaps[n]],
                              (v: seq<Elem>, s: Swap) => if 0 < width then Apply(width, v, s) else v);
      assert swaps == swaps[..n] + [swaps[n]];
    }
  }

  /** And each slice is then as if its thread had been alone: what its own swaps make of it, in commit order. */
  lemma SlicesApart(width: nat, run: seq<CommitOrders.World<seq<Elem>, Swap>>, steps: seq<CommitOrders.Step<Swap>>,
                    i: nat, init: seq<Elem>, p: nat)
    requires 0 < width
    requires CommitOrders.IsRun(run, steps, init,
                                (v: seq<Elem>, s: Swap) => if 0 < width then Apply(width, v, s) else v,
                                (s: Swap) => if 0 < width then SliceOf(width, s) else 0)
    requires i < |run| && forall t: nat :: !CommitOrders.AtPhase(run[i].threads, t, CommitOrders.Applied)
    requires forall k :: 0 <= k < |run[i].order| ==> Local(width, run[i].order[k].op)
    requires p < |init|
    ensures |run[i].live| == |init|
    ensures run[i].live[p] == Replay(init, InSliceOnly(width, p / width, CommitOrders.Ops(run[i].order)))[p]
  {
    VectorReplay(width, run, steps, i, init);
    FoldIsReplay(width, init, CommitOrders.Ops(run[i].order));
    SliceAlone(width, p / width, init, CommitOrders.Ops(run[i].order), p);
  }

  /** For every interleaving of threads that swap within their own slices: whenever no applied swap waits
      for its commit id, the live vector is the replay of the swaps in commit order. */
  lemma VectorReplay(width: nat, run: seq<CommitOrders.World<seq<Elem>, Swap>>, steps: seq<CommitOrders.Step<Swap>>,
                     i: nat, init: seq<Elem>)
    requires 0 < width
    requires CommitOrders.IsRun(run, steps, init,
                                (v: seq<Elem>, s: Swap) => if 0 < width then Apply(width, v, s) else v,
                                (s: Swap) => if 0 < width then SliceOf(width, s) else 0)
    requires i < |run| && forall t: nat :: !CommitOrders.AtPhase(run[i].threads, t, CommitOrders.Applied)
    ensures run[i].live ==
      CommitOrders.Fold(init, CommitOrders.Ops(run[i].order),
                        (v: seq<Elem>, s: Swap) => if 0 < width then Apply(width, v, s) else v)
  {
    SwapsCommute(width);
    CommitOrders.LiveIsReplay(run, steps, i, init,
                              (v: seq<Elem>, s: Swap) => if 0 < width then Apply(width, v, s) else v,
                              (s: Swap) => if 0 < width then SliceOf(width, s) else 0);
  }
}
