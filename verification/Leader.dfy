/** Who leads: the first node that is not blacklisted, in cyclic order from the view number and the rotation count. */
module Leader {
  import opened Messages
  import opened Quorum

  /** Node list and rotation parameters; DecisionsPerLeader is positive exactly when rotation is on. */
  datatype Setup = Setup(nodes: seq<NodeId>, decisionsPerLeader: nat)
  {
    ghost predicate Valid() {
      nodes != [] && forall j, k :: 0 <= j < k < |nodes| ==> nodes[j] != nodes[k]
    }
    predicate Rotation() { decisionsPerLeader > 0 }
    function N(): nat { |nodes| }
    function F(): nat { ComputeQuorum(|nodes|).f }
  }

  /** Where the search for a leader starts. */
  function Offset(s: Setup, view: nat, decisionsInView: nat): nat
    requires s.Rotation()
  {
    view + decisionsInView / s.decisionsPerLeader
  }

  function NodeAt(s: Setup, index: nat): NodeId
    requires s.nodes != []
  {
    s.nodes[index % |s.nodes|]
  }

  /** The first node from the given index on that is not blacklisted, trying the next `left` positions. */
  function FirstFree(s: Setup, index: nat, left: nat, blacklist: seq<NodeId>): Option<NodeId>
    requires s.nodes != []
    decreases left
  {
    if left == 0 then None
    else if NodeAt(s, index) !in blacklist then Some(NodeAt(s, index))
    else FirstFree(s, index + 1, left - 1, blacklist)
  }

  /** None is the panic of a fully blacklisted cluster. */
  function LeaderID(s: Setup, view: nat, decisionsInView: nat, blacklist: seq<NodeId>): Option<NodeId>
    requires s.nodes != []
  {
    if !s.Rotation() then Some(NodeAt(s, view))
    else FirstFree(s, Offset(s, view, decisionsInView), s.N(), blacklist)
  }

  method GetLeaderID(view: nat, n: nat, nodes: seq<NodeId>, leaderRotation: bool, decisionsInView: nat,
      decisionsPerLeader: nat, blacklist: seq<NodeId>)
    returns (leader: Option<NodeId>)
    requires nodes != [] && n == |nodes| && (leaderRotation <==> decisionsPerLeader > 0)
    ensures leader == LeaderID(Setup(nodes, decisionsPerLeader), view, decisionsInView, blacklist)
  {
    var blackListed: set<NodeId> := {};
    for i := 0 to |blacklist|
      invariant forall x :: x in blackListed <==> x in blacklist[..i]
    {
      blackListed := blackListed + {blacklist[i]};
    }
    assert blacklist[..|blacklist|] == blacklist;
    if !leaderRotation {
      return Some(nodes[view % n]);
    }
    ghost var s := Setup(nodes, decisionsPerLeader);
    ghost var start := Offset(s, view, decisionsInView);
    for i := 0 to |nodes|
      invariant FirstFree(s, start, n, blacklist) == FirstFree(s, start + i, n - i, blacklist)
    {
      var index := (view + decisionsInView / decisionsPerLeader) + i;
      var node := nodes[index % n];
      if node !in blackListed {
        return Some(node);
      }
    }
    return None;
  }

  // ---- what the search finds ----

  ghost predicate AllListed(s: Setup, from: nat, to: nat, blacklist: seq<NodeId>)
    requires s.nodes != []
  {
    forall k :: from <= k < to ==> NodeAt(s, k) in blacklist
  }

  lemma {:induction false} FirstFreeIsFirst(s: Setup, index: nat, left: nat, blacklist: seq<NodeId>) returns (at: nat)
    requires s.nodes != []
    ensures index <= at && AllListed(s, index, at, blacklist)
    ensures var r := FirstFree(s, index, left, blacklist);
            && (r.None? ==> at == index + left)
            && (r.Some? ==> at < index + left && r.value == NodeAt(s, at) && r.value !in blacklist)
    decreases left
  {
    if left == 0 || NodeAt(s, index) !in blacklist {
      at := index;
    } else {
      at := FirstFreeIsFirst(s, index + 1, left - 1, blacklist);
    }
  }

  lemma {:induction false} MultipleIsZero(n: int, d: int)
    requires -n < n * d < n
    ensures d == 0
  {
  }

  lemma {:induction false} RemainderIsUnique(q: nat, r: nat, n: nat)
    requires r < n
    ensures (q * n + r) % n == r
  {
    var x := q * n + r;
    assert x == (x / n) * n + x % n;
    assert n * (x / n - q) == r - x % n;
    MultipleIsZero(n, x / n - q);
  }

  /** n consecutive indexes visit every position. */
  lemma {:induction false} EveryPositionVisited(index: nat, k: nat, n: nat) returns (at: nat)
    requires k < n
    ensures index <= at < index + n && at % n == k
  {
    var s, q := index % n, index / n;
    assert index == q * n + s;
    if k >= s {
      at := q * n + k;
      RemainderIsUnique(q, k, n);
    } else {
      at := q * n + n + k;
      assert at == (q + 1) * n + k;
      RemainderIsUnique(q + 1, k, n);
    }
  }

  /** The node at position `at` is the first from `start` on, within one turn, that is not blacklisted. */
  ghost predicate FirstFreeAt(s: Setup, start: nat, at: nat, blacklist: seq<NodeId>)
    requires s.nodes != []
  {
    start <= at < start + s.N() && NodeAt(s, at) !in blacklist && AllListed(s, start, at, blacklist)
  }

  /** So many leaders have had all their decisions in this view. */
  ghost predicate FullTurns(s: Setup, decisionsInView: nat, turns: nat) {
    turns * s.decisionsPerLeader <= decisionsInView < (turns + 1) * s.decisionsPerLeader
  }

  /** The leader is found from the position the view number and the full turns of the rotation add up to. */
  ghost predicate FoundFrom(s: Setup, view: nat, decisionsInView: nat, blacklist: seq<NodeId>, leader: NodeId)
    requires s.nodes != []
  {
    exists turns: nat, start: nat, at: nat ::
      && FullTurns(s, decisionsInView, turns) && start == view + turns
      && FirstFreeAt(s, start, at, blacklist) && leader == s.nodes[at % |s.nodes|]
  }

  /** Without rotation the leader follows from the view number alone. With rotation on, the choice panics exactly when
      every node is blacklisted; otherwise it is the first node that is not, all passed over on the way being listed. */
  lemma {:induction false} LeaderIsFirstFree(s: Setup, view: nat, decisionsInView: nat, blacklist: seq<NodeId>)
    requires s.Valid()
    ensures var r := LeaderID(s, view, decisionsInView, blacklist);
            if s.decisionsPerLeader == 0 then r == Some(s.nodes[view % |s.nodes|])
            else
              && (r.None? <==> IdSet(s.nodes) <= IdSet(blacklist))
              && (r.Some? ==> FoundFrom(s, view, decisionsInView, blacklist, r.value))
  {
    if s.Rotation() {
      RotatingLeader(s, view, decisionsInView, blacklist);
    }
  }

  lemma {:induction false} RotatingLeader(s: Setup, view: nat, decisionsInView: nat, blacklist: seq<NodeId>)
    requires s.Valid() && s.Rotation()
    ensures var r := LeaderID(s, view, decisionsInView, blacklist);
            && (r.None? <==> IdSet(s.nodes) <= IdSet(blacklist))
            && (r.Some? ==> FoundFrom(s, view, decisionsInView, blacklist, r.value))
  {
    var start := Offset(s, view, decisionsInView);
    var at := FirstFreeIsFirst(s, start, s.N(), blacklist);
    if LeaderID(s, view, decisionsInView, blacklist).None? {
      forall x | x in IdSet(s.nodes) ensures x in blacklist {
        var k :| 0 <= k < |s.nodes| && s.nodes[k] == x;
        var visited := EveryPositionVisited(start, k, s.N());
        assert NodeAt(s, visited) in blacklist;
      }
    } else {
      assert FullTurns(s, decisionsInView, decisionsInView / s.decisionsPerLeader);
      assert FirstFreeAt(s, view + decisionsInView / s.decisionsPerLeader, at, blacklist);
      assert NodeAt(s, at) in IdSet(s.nodes);
    }
  }

  /** A blacklist of at most f entries never makes the choice panic. */
  lemma {:induction false} ShortBlacklistLeavesALeader(s: Setup, view: nat, decisionsInView: nat,
      blacklist: seq<NodeId>)
    requires s.Valid() && |blacklist| <= s.F()
    ensures var r := LeaderID(s, view, decisionsInView, blacklist); r.Some? && r.value in s.nodes
  {
    if s.Rotation() {
      IdSetSize(s.nodes);
      IdSetSize(blacklist);
      if IdSet(s.nodes) <= IdSet(blacklist) {
        SubsetSize(IdSet(s.nodes), IdSet(blacklist));
      }
      LeaderIsFirstFree(s, view, decisionsInView, blacklist);
      var at := FirstFreeIsFirst(s, Offset(s, view, decisionsInView), s.N(), blacklist);
    }
  }
}
