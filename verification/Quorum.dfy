/** Quorum arithmetic of the cluster and the counting lemmas every safety argument rests on. */
module Quorum {

  datatype Sizes = Sizes(q: nat, f: nat)

  /** The quorum size and the number of tolerated faults for a cluster of n nodes.
      Go's (int(n) - 1) / 3 truncates toward zero, so an empty cluster has f = 0;
      the rounded-up half of n + f + 1 is exact below 2^53 nodes. */
  function ComputeQuorum(n: nat): (s: Sizes)
    ensures n > 0 ==> 3 * s.f + 1 <= n < 3 * (s.f + 1) + 1
    ensures n + s.f + 1 <= 2 * s.q <= n + s.f + 2
    ensures n > 0 ==> s.f < s.q <= n - s.f  // the correct nodes alone form a quorum
    ensures n > 0 ==> (s.q == n - s.f <==> n != 3 * s.f + 3)
  {
    var f := if n == 0 then 0 else (n - 1) / 3;
    Sizes((n + f + 2) / 2, f)
  }

  lemma {:induction false} SubsetSize<T>(a: set<T>, b: set<T>)
    requires a <= b
    ensures |a| <= |b|
  {
    assert b == a + (b - a);
  }

  /** Two subsets of a universe share at least the excess of their sizes. */
  lemma {:induction false} Overlap<T>(a: set<T>, b: set<T>, universe: set<T>)
    requires a <= universe && b <= universe
    ensures |a * b| >= |a| + |b| - |universe|
  {
    assert |a + b| + |a * b| == |a| + |b|;
    SubsetSize(a + b, universe);
  }

  /** The promise of computeQuorum: any two quorums share at least f + 1 nodes. */
  lemma {:induction false} QuorumsIntersect<T>(a: set<T>, b: set<T>, nodes: set<T>)
    requires a <= nodes && b <= nodes
    requires var q := ComputeQuorum(|nodes|).q; |a| >= q && |b| >= q
    ensures |a * b| >= ComputeQuorum(|nodes|).f + 1
  {
    Overlap(a, b, nodes);
  }

  /** Hence they share a node outside any set of at most f nodes. */
  lemma {:induction false} QuorumsShareHonest<T>(a: set<T>, b: set<T>, faulty: set<T>, nodes: set<T>) returns (h: T)
    requires a <= nodes && b <= nodes
    requires var s := ComputeQuorum(|nodes|); |a| >= s.q && |b| >= s.q && |faulty| <= s.f
    ensures h in a && h in b && h !in faulty
  {
    QuorumsIntersect(a, b, nodes);
    if a * b <= faulty {
      SubsetSize(a * b, faulty);
    }
    h :| h in a * b && h !in faulty;
  }

  /** The nodes lo .. hi - 1. */
  function Segment(lo: nat, hi: nat): (s: set<nat>)
    requires lo <= hi
    ensures |s| == hi - lo
    ensures forall i :: i in s <==> lo <= i < hi
    decreases hi - lo
  {
    if lo == hi then {} else {lo} + Segment(lo + 1, hi)
  }

  /** Q is the least size with that property: one node fewer and there are two sets of that size,
      in any cluster, that share at most f nodes. */
  lemma {:induction false} QuorumIsLeast(n: nat) returns (a: set<nat>, b: set<nat>)
    requires n > 0
    ensures var s := ComputeQuorum(n);
            && a <= Segment(0, n) && b <= Segment(0, n)
            && |a| == |b| == s.q - 1
            && |a * b| <= s.f
  {
    var s := ComputeQuorum(n);
    a := Segment(0, s.q - 1);
    b := Segment(n - (s.q - 1), n);
    if 2 * (s.q - 1) <= n {
      assert a * b == {};
    } else {
      assert a * b == Segment(n - (s.q - 1), s.q - 1);
    }
  }
}
