/**
 Maximum bipartite matching by augmenting paths, each left node being searched once.
 */
module Matchings {

  const UNUSED := -1

  /** `g[l][r]` tells whether left node `l` and right node `r` are joined. */
  ghost predicate Rectangular(g: seq<seq<bool>>, m: nat) {
    forall l :: 0 <= l < |g| ==> |g[l]| == m
  }

  predicate Edge(g: seq<seq<bool>>, l: int, r: int) {
    0 <= l < |g| && 0 <= r < |g[l]| && g[l][r]
  }

  /** Pairs that are edges and share no node. */
  ghost predicate IsMatching(g: seq<seq<bool>>, P: set<(int, int)>) {
    && (forall p :: p in P ==> Edge(g, p.0, p.1))
    && (forall p, q :: p in P && q in P && p != q ==> p.0 != q.0 && p.1 != q.1)
  }

  /** `left` and `right` refer to each other along edges, except that right node `but` may refer to a
      left node that has moved on. */
  ghost predicate Mutual(g: seq<seq<bool>>, m: nat, left: seq<int>, right: seq<int>, but: int) {
    && |left| == |g| && |right| == m
    && (forall l :: 0 <= l < |left| && left[l] != UNUSED ==>
          0 <= left[l] < m && left[l] != but && right[left[l]] == l && Edge(g, l, left[l]))
    && (forall r :: 0 <= r < m && right[r] != UNUSED ==> 0 <= right[r] < |left|)
    && (forall r :: 0 <= r < m && right[r] != UNUSED && r != but ==> left[right[r]] == r)
  }

  ghost predicate Neighbours(g: seq<seq<bool>>, l: int, S: set<int>) {
    forall r :: Edge(g, l, r) ==> r in S
  }

  /** Right nodes from which no free right node can be reached. */
  ghost predicate Dead(g: seq<seq<bool>>, m: nat, right: seq<int>, D: set<int>) {
    && |right| == m
    && forall r :: r in D ==> 0 <= r < m && right[r] != UNUSED && Neighbours(g, right[r], D)
  }

  ghost function SeenSet(seen: seq<bool>): set<int> {
    set r | 0 <= r < |seen| && seen[r]
  }

  ghost function Unseen(seen: seq<bool>): set<int> {
    set r | 0 <= r < |seen| && !seen[r]
  }

  /** The failed search from `l` has seen all it can reach: the neighbours of `l`, and those of the
      partner of every right node seen since `before`. */
  ghost predicate Exhausted(g: seq<seq<bool>>, right: seq<int>, before: seq<bool>, seen: seq<bool>, l: int) {
    && |right| == |before| == |seen|
    && Neighbours(g, l, SeenSet(seen))
    && SeenSince(g, right, before, seen)
  }

  ghost predicate SeenSince(g: seq<seq<bool>>, right: seq<int>, before: seq<bool>, seen: seq<bool>) {
    && |right| == |before| == |seen|
    && (forall r :: 0 <= r < |seen| && before[r] ==> seen[r])
    && (forall r :: 0 <= r < |seen| && seen[r] && !before[r] ==>
        right[r] != UNUSED && Neighbours(g, right[r], SeenSet(seen)))
  }

  /** What a successful search from `l` changes. */
  ghost predicate Augmented(left: seq<int>, right: seq<int>, left': seq<int>, right': seq<int>, before: seq<bool>,
                            D: set<int>, l: int) {
    && |left'| == |left| && |right'| == |right| == |before|
    && 0 <= l < |left| && left'[l] != UNUSED
    && (forall k :: 0 <= k < |left| && k != l ==> (left'[k] == UNUSED <==> left[k] == UNUSED))
    && (forall k :: 0 <= k < |left| && k != l && 0 <= left[k] < |before| && before[left[k]] ==> left'[k] == left[k])
    && (forall r :: 0 <= r < |right| && (before[r] || r in D) ==> right'[r] == right[r])
  }

  /** Linking `l` to `r` after the search from the old partner of `r` has succeeded. */
  lemma LinkAfter(g: seq<seq<bool>>, m: nat, left: seq<int>, right: seq<int>, left1: seq<int>, right1: seq<int>,
                  before: seq<bool>, D: set<int>, l: int, r: int, k: int)
    requires Mutual(g, m, left, right, UNUSED) && |before| == m
    requires 0 <= r < m && !before[r] && r !in D && Edge(g, l, r) && right[r] == k && k != UNUSED
    requires left[l] != UNUSED ==> before[left[l]]
    requires Mutual(g, m, left1, right1, r) && Augmented(left, right, left1, right1, before[r := true], D, k)
    ensures Mutual(g, m, left1[l := r], right1[r := l], left[l])
    ensures Augmented(left, right, left1[l := r], right1[r := l], before, D, l)
  {
    var b := before[r := true];
    assert k != l;
    assert left1[l] == left[l];
    assert right1[r] == k;
    var left2, right2, o := left1[l := r], right1[r := l], left[l];
    forall j | 0 <= j < |left2| && left2[j] != UNUSED
      ensures 0 <= left2[j] < m && left2[j] != o && right2[left2[j]] == j && Edge(g, j, left2[j])
    {
      if j != l {
        assert left2[j] == left1[j] != r;
        if o != UNUSED { assert b[o] && right1[o] == right[o] == l; }
      }
    }
  }

  /** Linking `l` to the free right node `r`. */
  lemma LinkFree(g: seq<seq<bool>>, m: nat, left: seq<int>, right: seq<int>, before: seq<bool>, D: set<int>, l: int,
                 r: int)
    requires Mutual(g, m, left, right, UNUSED) && |before| == m
    requires 0 <= r < m && !before[r] && r !in D && Edge(g, l, r) && right[r] == UNUSED
    requires left[l] != UNUSED ==> before[left[l]]
    ensures Mutual(g, m, left[l := r], right[r := l], left[l])
    ensures Augmented(left, right, left[l := r], right[r := l], before, D, l)
  {
  }

  lemma SeenTwice(g: seq<seq<bool>>, right: seq<int>, before: seq<bool>, mid: seq<bool>, seen: seq<bool>, r: int)
    requires SeenSince(g, right, before, mid) && 0 <= r < |mid| && right[r] != UNUSED
    requires Exhausted(g, right, mid[r := true], seen, right[r])
    ensures SeenSince(g, right, before, seen)
  {
    forall q | 0 <= q < |seen| && seen[q] && !before[q]
      ensures right[q] != UNUSED && Neighbours(g, right[q], SeenSet(seen)) {
      if q != r && mid[q] {
        assert Neighbours(g, right[q], SeenSet(mid));
        assert SeenSet(mid) <= SeenSet(seen);
      }
    }
  }

  class MaxBipartiteMatchState {
    const g: seq<seq<bool>>
    const m: nat
    var left: seq<int>
    var right: seq<int>

    constructor (g: seq<seq<bool>>, m: nat)
      requires Rectangular(g, m)
      ensures this.g == g && this.m == m && left == seq(|g|, i => UNUSED) && right == seq(m, i => UNUSED)
    {
      this.g, this.m := g, m;
      left, right := seq(|g|, i => UNUSED), seq(m, i => UNUSED);
    }

    /** Depth-first search from left node `l`. A failure changes nothing and has exhausted what it
        could reach; a success moves no node of a dead set, and cannot happen from inside one. */
    method TryAugment(l: int, seen0: seq<bool>, ghost D: set<int>) returns (found: bool, seen: seq<bool>)
      requires 0 <= l < |g| && Rectangular(g, m) && |seen0| == m
      requires Mutual(g, m, left, right, UNUSED) && Dead(g, m, right, D)
      requires left[l] != UNUSED ==> seen0[left[l]]
      modifies this
      ensures |seen| == m
      ensures !found ==> left == old(left) && right == old(right) && Exhausted(g, right, seen0, seen, l)
      ensures found ==>
        Mutual(g, m, left, right, old(left)[l]) && Augmented(old(left), old(right), left, right, seen0, D, l)
      ensures found ==> !Neighbours(g, l, D)
      decreases Unseen(seen0)
    {
      seen := seen0;
      for r := 0 to m
        invariant |seen| == m && left == old(left) && right == old(right)
        invariant SeenSince(g, right, seen0, seen)
        invariant forall q :: 0 <= q < r && Edge(g, l, q) ==> seen[q]
      {
        if seen[r] || !g[l][r] { continue; }
        ghost var mid := seen;
        assert Edge(g, l, r);
        if right[r] == UNUSED {
          seen := seen[r := true];
          LinkFree(g, m, left, right, seen0, D, l, r);
          left, right := left[l := r], right[r := l];
          return true, seen;
        }
        assert r in Unseen(seen0) && r !in Unseen(seen[r := true]) && Unseen(seen[r := true]) <= Unseen(seen0);
        var k := right[r];
        var ok;
        ok, seen := TryAugment(k, seen[r := true], D);
        if ok {
          AugmentedEarlier(old(left), old(right), left, right, seen0, mid, D, k, r);
          LinkAfter(g, m, old(left), old(right), left, right, seen0, D, l, r, k);
          left, right := left[l := r], right[r := l];
          return true, seen;
        }
        SeenTwice(g, right, seen0, mid, seen, r);
      }
      return false, seen;
    }

    /** One search per left node gives a matching that no other matching exceeds. */
    method Compute() returns (pairs: seq<(int, int)>)
      requires Rectangular(g, m) && left == seq(|g|, i => UNUSED) && right == seq(m, i => UNUSED)
      modifies this
      ensures IsMatching(g, set p | p in pairs)
      ensures forall i, j :: 0 <= i < j < |pairs| ==> pairs[i].0 < pairs[j].0
      ensures forall P :: IsMatching(g, P) ==> |P| <= |pairs|
    {
      ghost var D: set<int> := {};
      for l := 0 to |g|
        invariant Mutual(g, m, left, right, UNUSED) && Dead(g, m, right, D)
        invariant forall k :: l <= k < |g| ==> left[k] == UNUSED
        invariant forall k :: 0 <= k < l && left[k] == UNUSED ==> Neighbours(g, k, D)
      {
        ghost var left0, right0 := left, right;
        var found, seen := TryAugment(l, seq(m, i => false), D);
        if found {
          DeadKept(g, m, right0, right, D);
        } else {
          DeadGrows(g, m, right, seq(m, i => false), seen, D, l);
          D := D + SeenSet(seen);
        }
      }
      pairs := CollectPairs();
      forall P | IsMatching(g, P) ensures |P| <= |pairs| {
        NoneLarger(g, m, left, right, D, P);
      }
    }

    method CollectPairs() returns (pairs: seq<(int, int)>)
      requires Mutual(g, m, left, right, UNUSED)
      ensures IsMatching(g, set p | p in pairs)
      ensures forall i, j :: 0 <= i < j < |pairs| ==> pairs[i].0 < pairs[j].0
      ensures |pairs| == |Matched(left, |left|)|
    {
      pairs := [];
      for l := 0 to |left|
        invariant forall i :: 0 <= i < |pairs| ==> 0 <= pairs[i].0 < l && pairs[i].1 == left[pairs[i].0] != UNUSED
        invariant forall i, j :: 0 <= i < j < |pairs| ==> pairs[i].0 < pairs[j].0
        invariant |pairs| == |Matched(left, l)|
      {
        MatchedNext(left, l);
        if left[l] != UNUSED { pairs := pairs + [(l, left[l])]; }
      }
    }
  }

  /** Success from a larger seen set is success from a smaller one. */
  lemma AugmentedEarlier(left: seq<int>, right: seq<int>, left': seq<int>, right': seq<int>, seen0: seq<bool>,
                         mid: seq<bool>, D: set<int>, k: int, r: int)
    requires 0 <= r < |mid| == |seen0| && Augmented(left, right, left', right', mid[r := true], D, k)
    requires forall q :: 0 <= q < |seen0| && seen0[q] ==> mid[q]
    ensures Augmented(left, right, left', right', seen0[r := true], D, k)
  {
  }

  lemma DeadKept(g: seq<seq<bool>>, m: nat, right: seq<int>, right': seq<int>, D: set<int>)
    requires Dead(g, m, right, D) && |right'| == m && forall r :: 0 <= r < m && r in D ==> right'[r] == right[r]
    ensures Dead(g, m, right', D)
  {
  }

  /** All that a failed search has seen is dead. */
  lemma DeadGrows(g: seq<seq<bool>>, m: nat, right: seq<int>, none: seq<bool>, seen: seq<bool>, D: set<int>, l: int)
    requires Dead(g, m, right, D) && Exhausted(g, right, none, seen, l) && forall r :: 0 <= r < |none| ==> !none[r]
    ensures Dead(g, m, right, D + SeenSet(seen)) && Neighbours(g, l, D + SeenSet(seen))
  {
  }

  ghost function Matched(left: seq<int>, n: nat): set<int>
    requires n <= |left|
  {
    set l | 0 <= l < n && left[l] != UNUSED
  }

  lemma MatchedNext(left: seq<int>, n: nat)
    requires n < |left|
    ensures |Matched(left, n + 1)| == |Matched(left, n)| + if left[n] != UNUSED then 1 else 0
  {
    assert Matched(left, n + 1) == Matched(left, n) + if left[n] != UNUSED then {n} else {};
  }

  /** A pair of any matching stands for a matched left node: the partner of its right node when that is
      dead, and its own left node otherwise. */
  ghost function Witness(right: seq<int>, D: set<int>, p: (int, int)): int {
    if p.1 in D && 0 <= p.1 < |right| then right[p.1] else p.0
  }

  lemma {:induction false} Counted(right: seq<int>, D: set<int>, P: set<(int, int)>, X: set<int>)
    requires forall p :: p in P ==> Witness(right, D, p) in X
    requires forall p, q :: p in P && q in P && p != q ==> Witness(right, D, p) != Witness(right, D, q)
    ensures |P| <= |X|
    decreases |P|
  {
    if P != {} {
      var p :| p in P;
      Counted(right, D, P - {p}, X - {Witness(right, D, p)});
    }
  }

  lemma WitnessMatched(g: seq<seq<bool>>, m: nat, left: seq<int>, right: seq<int>, D: set<int>, p: (int, int))
    requires Mutual(g, m, left, right, UNUSED) && Dead(g, m, right, D) && Edge(g, p.0, p.1)
    requires forall l :: 0 <= l < |g| && left[l] == UNUSED ==> Neighbours(g, l, D)
    ensures var w := Witness(right, D, p);
      0 <= w < |left| && left[w] != UNUSED && (left[w] in D <==> p.1 in D) && (p.1 in D ==> left[w] == p.1)
  {
    if left[p.0] in D {
      assert Neighbours(g, right[left[p.0]], D);
    }
  }

  /** No matching has more pairs than there are matched left nodes. */
  lemma NoneLarger(g: seq<seq<bool>>, m: nat, left: seq<int>, right: seq<int>, D: set<int>, P: set<(int, int)>)
    requires Mutual(g, m, left, right, UNUSED) && Dead(g, m, right, D) && IsMatching(g, P)
    requires forall l :: 0 <= l < |g| && left[l] == UNUSED ==> Neighbours(g, l, D)
    ensures |P| <= |Matched(left, |left|)|
  {
    forall p | p in P ensures Witness(right, D, p) in Matched(left, |left|) {
      WitnessMatched(g, m, left, right, D, p);
    }
    forall p, q | p in P && q in P && p != q ensures Witness(right, D, p) != Witness(right, D, q) {
      WitnessMatched(g, m, left, right, D, p);
      WitnessMatched(g, m, left, right, D, q);
    }
    Counted(right, D, P, Matched(left, |left|));
  }

  /** Every right node is in some pair. */
  ghost predicate CoversRight(m: nat, P: set<(int, int)>) {
    forall r :: 0 <= r < m ==> Covered(P, r)
  }

  ghost predicate Covered(P: set<(int, int)>, r: int) {
    exists p :: p in P && p.1 == r
  }

  /** The decision of a pairing: all matchers can be covered at once, each by its own element. */
  method FindPairing(g: seq<seq<bool>>, m: nat) returns (result: bool)
    requires Rectangular(g, m)
    ensures result <==> exists P :: IsMatching(g, P) && CoversRight(m, P)
  {
    var s := new MaxBipartiteMatchState(g, m);
    var pairs := s.Compute();
    result := |pairs| == m;
    ghost var M := set p | p in pairs;
    PairsDistinct(pairs);
    if result {
      FullCovers(g, m, M);
    }
    if P :| IsMatching(g, P) && CoversRight(m, P) {
      CoverSize(g, m, P);
      RightBound(g, m, M);
    }
  }

  lemma {:induction false} PairsDistinct(pairs: seq<(int, int)>)
    requires forall i, j :: 0 <= i < j < |pairs| ==> pairs[i].0 < pairs[j].0
    ensures |set p | p in pairs| == |pairs|
  {
    if pairs != [] {
      var n := |pairs| - 1;
      PairsDistinct(pairs[..n]);
      assert (set p | p in pairs) == (set p | p in pairs[..n]) + {pairs[n]};
    }
  }

  ghost function Rights(P: set<(int, int)>): set<int> {
    set p | p in P :: p.1
  }

  ghost function Below(m: nat): (s: set<int>)
    ensures forall r :: r in s <==> 0 <= r < m
    ensures |s| == m
  {
    if m == 0 then {} else Below(m - 1) + {m - 1}
  }

  lemma {:induction false} RightsSize(g: seq<seq<bool>>, P: set<(int, int)>)
    requires IsMatching(g, P)
    ensures |Rights(P)| == |P|
    decreases |P|
  {
    if P != {} {
      var p :| p in P;
      RightsSize(g, P - {p});
      assert Rights(P) == Rights(P - {p}) + {p.1};
    }
  }

  lemma SubsetSize(A: set<int>, B: set<int>)
    requires A <= B
    ensures |A| <= |B| && (|A| == |B| ==> A == B)
  {
    assert B == A + (B - A);
    if |A| == |B| { assert B - A == {}; }
  }

  lemma RightBound(g: seq<seq<bool>>, m: nat, P: set<(int, int)>)
    requires Rectangular(g, m) && IsMatching(g, P)
    ensures |P| <= m
  {
    RightsSize(g, P);
    SubsetSize(Rights(P), Below(m));
  }

  lemma FullCovers(g: seq<seq<bool>>, m: nat, P: set<(int, int)>)
    requires Rectangular(g, m) && IsMatching(g, P) && |P| == m
    ensures CoversRight(m, P)
  {
    RightsSize(g, P);
    SubsetSize(Rights(P), Below(m));
    forall r | 0 <= r < m ensures Covered(P, r) {
      assert r in Rights(P);
    }
  }

  lemma CoverSize(g: seq<seq<bool>>, m: nat, P: set<(int, int)>)
    requires IsMatching(g, P) && CoversRight(m, P)
    ensures m <= |P|
  {
    RightsSize(g, P);
    forall r | 0 <= r < m ensures r in Rights(P) { assert Covered(P, r); }
    SubsetSize(Below(m), Rights(P));
  }
}
