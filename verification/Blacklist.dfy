/** Maintenance of the leader blacklist: skipped leaders are added after a view change, nodes seen sending prepares are
    removed inside a view, and only the last f entries are kept. */
module Blacklist {
  import opened Messages
  import opened Leader

  /** What an update is computed from, besides the cluster setup. */
  datatype Context = Context(
    currentLeader: NodeId,
    prevMD: ViewMetadata,
    currView: nat,
    preparesFrom: map<NodeId, seq<NodeId>>)

  // ---- the update as a function ----

  function Occurrences(ids: seq<NodeId>, x: NodeId): nat {
    multiset(ids)[x]
  }

  /** How often the given witnesses name x. */
  ghost function Acks(preparesFrom: map<NodeId, seq<NodeId>>, witnesses: set<NodeId>, x: NodeId): nat
    requires witnesses <= preparesFrom.Keys
    decreases |witnesses|
  {
    if witnesses == {} then 0
    else
      var w :| w in witnesses;
      Occurrences(preparesFrom[w], x) + Acks(preparesFrom, witnesses - {w}, x)
  }

  /** A blacklisted node stays if it is still a node of the cluster and was named at most f times. */
  ghost predicate Stays(preparesFrom: map<NodeId, seq<NodeId>>, f: nat, nodes: seq<NodeId>, x: NodeId) {
    x in nodes && Acks(preparesFrom, preparesFrom.Keys, x) <= f
  }

  ghost function Prune(prev: seq<NodeId>, preparesFrom: map<NodeId, seq<NodeId>>, f: nat,
      nodes: seq<NodeId>): seq<NodeId> {
    if prev == [] then []
    else
      var last := prev[|prev| - 1];
      Prune(prev[..|prev| - 1], preparesFrom, f, nodes) + (if Stays(preparesFrom, f, nodes, last) then [last] else [])
  }

  /** Leader of an abandoned view: the rotation count continues from the last decision, except before the first one. */
  function AbandonedLeader(s: Setup, c: Context, view: nat): Option<NodeId>
    requires s.nodes != []
  {
    var offset := if c.prevMD.latestSequence == 0 then 0 else 1;
    LeaderID(s, view, c.prevMD.decisionsInView + offset, c.prevMD.blackList)
  }

  /** The leaders of the views from `from` on that were abandoned before the current one, without the current leader. */
  function SkippedLeaders(s: Setup, c: Context, from: nat): Option<seq<NodeId>>
    requires s.nodes != []
    decreases c.currView - from
  {
    if from >= c.currView then Some([])
    else
      var leader, rest := AbandonedLeader(s, c, from), SkippedLeaders(s, c, from + 1);
      if leader.None? || rest.None? then None
      else if leader.value == c.currentLeader then rest
      else Some([leader.value] + rest.value)
  }

  function KeepLast(list: seq<NodeId>, f: nat): seq<NodeId> {
    if |list| > f then list[|list| - f..] else list
  }

  /** None is the panic of a fully blacklisted cluster. */
  ghost function Update(s: Setup, c: Context): Option<seq<NodeId>>
    requires s.nodes != []
  {
    if c.prevMD.viewId != c.currView then
      match SkippedLeaders(s, c, c.prevMD.viewId)
      case None => None
      case Some(skipped) => Some(KeepLast(c.prevMD.blackList + skipped, s.F()))
    else Some(KeepLast(Prune(c.prevMD.blackList, c.preparesFrom, s.F(), s.nodes), s.F()))
  }

  // ---- the loops of the source ----

  lemma {:induction false} AcksPick(preparesFrom: map<NodeId, seq<NodeId>>, witnesses: set<NodeId>, w: NodeId,
      x: NodeId)
    requires witnesses <= preparesFrom.Keys && w in witnesses
    ensures Acks(preparesFrom, witnesses, x) == Occurrences(preparesFrom[w], x) + Acks(preparesFrom, witnesses - {w}, x)
    decreases |witnesses|
  {
    var v :| v in witnesses && Acks(preparesFrom, witnesses, x)
        == Occurrences(preparesFrom[v], x) + Acks(preparesFrom, witnesses - {v}, x);
    if v != w {
      AcksPick(preparesFrom, witnesses - {v}, w, x);
      AcksPick(preparesFrom, witnesses - {w}, v, x);
      assert witnesses - {v} - {w} == witnesses - {w} - {v};
    }
  }

  function Get(acks: map<NodeId, nat>, x: NodeId): nat {
    if x in acks then acks[x] else 0
  }

  /** Counts one witness's list into the counters. */
  method AddAcks(acks: map<NodeId, nat>, ids: seq<NodeId>) returns (sum: map<NodeId, nat>)
    ensures forall x :: Get(sum, x) == Get(acks, x) + Occurrences(ids, x)
  {
    sum := acks;
    for i := 0 to |ids|
      invariant forall x :: Get(sum, x) == Get(acks, x) + Occurrences(ids[..i], x)
    {
      assert ids[..i + 1] == ids[..i] + [ids[i]];
      sum := sum[ids[i] := Get(sum, ids[i]) + 1];
    }
    assert ids[..|ids|] == ids;
  }

  /** The counters, built in whatever order the map yields its entries. */
  method CountAcks(preparesFrom: map<NodeId, seq<NodeId>>) returns (acks: map<NodeId, nat>)
    ensures forall x :: Get(acks, x) == Acks(preparesFrom, preparesFrom.Keys, x)
  {
    acks := map[];
    var todo := preparesFrom.Keys;
    while todo != {}
      invariant todo <= preparesFrom.Keys
      invariant forall x :: Get(acks, x) + Acks(preparesFrom, todo, x) == Acks(preparesFrom, preparesFrom.Keys, x)
    {
      var from :| from in todo;
      forall x ensures Acks(preparesFrom, todo, x)
        == Occurrences(preparesFrom[from], x) + Acks(preparesFrom, todo - {from}, x) {
        AcksPick(preparesFrom, todo, from, x);
      }
      acks := AddAcks(acks, preparesFrom[from]);
      todo := todo - {from};
    }
  }

  method PruneBlacklist(prevBlacklist: seq<NodeId>, preparesFrom: map<NodeId, seq<NodeId>>, f: nat, nodes: seq<NodeId>)
    returns (newBlackList: seq<NodeId>)
    ensures newBlackList == Prune(prevBlacklist, preparesFrom, f, nodes)
  {
    if |prevBlacklist| == 0 {
      return prevBlacklist;
    }
    var currentNodeIDs := set x | x in nodes;
    var nodeID2Acks := CountAcks(preparesFrom);
    newBlackList := [];
    for i := 0 to |prevBlacklist|
      invariant newBlackList == Prune(prevBlacklist[..i], preparesFrom, f, nodes)
    {
      var blackListedNode := prevBlacklist[i];
      assert prevBlacklist[..i + 1][..i] == prevBlacklist[..i];
      if blackListedNode !in currentNodeIDs {
        continue;
      }
      var observers := Get(nodeID2Acks, blackListedNode);
      if observers > f {
        continue;
      }
      newBlackList := newBlackList + [blackListedNode];
    }
    assert prevBlacklist[..|prevBlacklist|] == prevBlacklist;
  }

  method AddSkippedLeaders(s: Setup, c: Context) returns (list: Option<seq<NodeId>>)
    requires s.nodes != []
    ensures var skipped := SkippedLeaders(s, c, c.prevMD.viewId);
            list == if skipped.None? then None else Some(c.prevMD.blackList + skipped.value)
  {
    var newBlacklist := c.prevMD.blackList;
    var offset := if c.prevMD.latestSequence == 0 then 0 else 1;
    var view := c.prevMD.viewId;
    while view < c.currView
      invariant var all, rest := SkippedLeaders(s, c, c.prevMD.viewId), SkippedLeaders(s, c, view);
                && (all.None? <==> rest.None?)
                && (all.Some? ==> c.prevMD.blackList + all.value == newBlacklist + rest.value)
    {
      var leaderID := GetLeaderID(view, |s.nodes|, s.nodes, s.decisionsPerLeader > 0, c.prevMD.decisionsInView + offset,
                                  s.decisionsPerLeader, c.prevMD.blackList);
      if leaderID.None? {
        return None;
      }
      view := view + 1;
      if leaderID.value == c.currentLeader {
        continue;
      }
      newBlacklist := newBlacklist + [leaderID.value];
    }
    assert newBlacklist + [] == newBlacklist;
    return Some(newBlacklist);
  }

  method DropOldest(list: seq<NodeId>, f: nat) returns (short: seq<NodeId>)
    ensures short == KeepLast(list, f)
  {
    short := list;
    while |short| > f
      invariant |short| <= |list| && short == list[|list| - |short|..]
      invariant |list| <= f ==> short == list
      invariant |short| >= f || short == list
    {
      OneLess(list, |list| - |short|);
      short := short[1..];
    }
  }

  lemma {:induction false} OneLess(list: seq<NodeId>, n: nat)
    requires n < |list|
    ensures list[n..][1..] == list[n + 1..]
  {
  }

  method ComputeUpdate(s: Setup, c: Context) returns (list: Option<seq<NodeId>>)
    requires s.nodes != []
    ensures list == Update(s, c)
  {
    var newBlacklist := c.prevMD.blackList;
    if c.prevMD.viewId != c.currView {
      var extended := AddSkippedLeaders(s, c);
      if extended.None? {
        return None;
      }
      newBlacklist := extended.value;
    } else {
      newBlacklist := PruneBlacklist(newBlacklist, c.preparesFrom, s.F(), s.nodes);
    }
    newBlacklist := DropOldest(newBlacklist, s.F());
    return Some(newBlacklist);
  }

  // ---- what every update keeps ----

  lemma {:induction false} SkippedAreAbandonedLeaders(s: Setup, c: Context, from: nat)
    requires s.Valid() && |c.prevMD.blackList| <= s.F()
    ensures var r := SkippedLeaders(s, c, from);
            && r.Some?
            && forall x :: x in r.value ==>
                 && x != c.currentLeader && x in s.nodes
                 && exists v :: from <= v < c.currView && AbandonedLeader(s, c, v) == Some(x)
    decreases c.currView - from
  {
    if from < c.currView {
      SkippedAreAbandonedLeaders(s, c, from + 1);
      var offset := if c.prevMD.latestSequence == 0 then 0 else 1;
      ShortBlacklistLeavesALeader(s, from, c.prevMD.decisionsInView + offset, c.prevMD.blackList);
    }
  }

  lemma {:induction false} PruneKeepsStaying(prev: seq<NodeId>, preparesFrom: map<NodeId, seq<NodeId>>, f: nat,
      nodes: seq<NodeId>)
    ensures var r := Prune(prev, preparesFrom, f, nodes);
            |r| <= |prev| && forall x :: x in r <==> x in prev && Stays(preparesFrom, f, nodes, x)
  {
    if prev != [] {
      PruneKeepsStaying(prev[..|prev| - 1], preparesFrom, f, nodes);
      assert prev == prev[..|prev| - 1] + [prev[|prev| - 1]];
    }
  }

  /** From a list of at most f entries an update never panics and gives such a list again. It only gains leaders of
      views that were abandoned since the last decision, never the current leader; inside a view it only shrinks,
      losing exactly the nodes that left the cluster or were named more than f times. */
  lemma {:induction false} UpdateIsSound(s: Setup, c: Context)
    requires s.Valid() && |c.prevMD.blackList| <= s.F()
    ensures var r := Update(s, c);
            && r.Some? && |r.value| <= s.F()
            && (forall x :: x in r.value && x !in c.prevMD.blackList ==>
                  && x != c.currentLeader && x in s.nodes
                  && exists v :: c.prevMD.viewId <= v < c.currView && AbandonedLeader(s, c, v) == Some(x))
            && (c.prevMD.viewId == c.currView ==>
                  forall x :: x in r.value <==> x in c.prevMD.blackList && Stays(c.preparesFrom, s.F(), s.nodes, x))
  {
    SkippedAreAbandonedLeaders(s, c, c.prevMD.viewId);
    PruneKeepsStaying(c.prevMD.blackList, c.preparesFrom, s.F(), s.nodes);
  }

  /** A run of updates: each is computed from the list the previous one left. */
  ghost predicate Chain(s: Setup, contexts: seq<Context>, lists: seq<seq<NodeId>>)
    requires s.nodes != []
  {
    && |lists| == |contexts| + 1
    && forall k :: 0 <= k < |contexts| ==>
         contexts[k].prevMD.blackList == lists[k] && Update(s, contexts[k]) == Some(lists[k + 1])
  }

  /** Along every run that starts from an empty list, the list has at most f entries, so a leader can always be
      chosen. */
  lemma {:induction false} BlacklistStaysShort(s: Setup, contexts: seq<Context>, lists: seq<seq<NodeId>>, k: nat,
      view: nat, decisionsInView: nat)
    requires s.Valid() && Chain(s, contexts, lists) && lists[0] == [] && k < |lists|
    ensures |lists[k]| <= s.F()
    ensures LeaderID(s, view, decisionsInView, lists[k]).Some?
  {
    if k > 0 {
      BlacklistStaysShort(s, contexts, lists, k - 1, view, decisionsInView);
      UpdateIsSound(s, contexts[k - 1]);
      assert Update(s, contexts[k - 1]) == Some(lists[k]);
    }
    ShortBlacklistLeavesALeader(s, view, decisionsInView, lists[k]);
  }

  /** And such a run can always be continued. */
  lemma {:induction false} ChainExtends(s: Setup, contexts: seq<Context>, lists: seq<seq<NodeId>>,
      next: Context) returns (list: seq<NodeId>)
    requires s.Valid() && Chain(s, contexts, lists) && lists[0] == [] && next.prevMD.blackList == lists[|lists| - 1]
    ensures Chain(s, contexts + [next], lists + [list])
  {
    BlacklistStaysShort(s, contexts, lists, |lists| - 1, 0, 0);
    UpdateIsSound(s, next);
    list := Update(s, next).value;
  }

  // ---- counting witnesses ----

  /** The witnesses whose list names x. */
  ghost function Observers(preparesFrom: map<NodeId, seq<NodeId>>, witnesses: set<NodeId>, x: NodeId): set<NodeId>
    requires witnesses <= preparesFrom.Keys
  {
    set w | w in witnesses && x in preparesFrom[w]
  }

  ghost predicate NamedOnce(preparesFrom: map<NodeId, seq<NodeId>>, witnesses: set<NodeId>, x: NodeId)
    requires witnesses <= preparesFrom.Keys
  {
    forall w :: w in witnesses ==> Occurrences(preparesFrom[w], x) <= 1
  }

  /** A node is meant to be removed once more than f witnesses saw its prepares. The counters count mentions instead:
      they equal the number of witnesses exactly when no witness repeats the node, and exceed it otherwise. */
  lemma {:induction false} AcksCountObservers(preparesFrom: map<NodeId, seq<NodeId>>, witnesses: set<NodeId>, x: NodeId)
    requires witnesses <= preparesFrom.Keys
    ensures Acks(preparesFrom, witnesses, x) >= |Observers(preparesFrom, witnesses, x)|
    ensures Acks(preparesFrom, witnesses, x) == |Observers(preparesFrom, witnesses, x)|
            <==> NamedOnce(preparesFrom, witnesses, x)
    decreases |witnesses|
  {
    if witnesses == {} {
      assert Observers(preparesFrom, witnesses, x) == {};
    } else {
      var w :| w in witnesses;
      AcksPick(preparesFrom, witnesses, w, x);
      AcksCountObservers(preparesFrom, witnesses - {w}, x);
      ObserversPick(preparesFrom, witnesses, w, x);
    }
  }

  /** What that means for the list: whatever f is, a node of the configuration stays exactly when at most f witnesses
      saw its prepares, if and only if no witness repeats it. */
  lemma {:induction false} StaysByObservers(preparesFrom: map<NodeId, seq<NodeId>>, nodes: seq<NodeId>, x: NodeId)
    requires x in nodes
    ensures (forall f: nat :: Stays(preparesFrom, f, nodes, x)
               <==> |Observers(preparesFrom, preparesFrom.Keys, x)| <= f)
            <==> NamedOnce(preparesFrom, preparesFrom.Keys, x)
  {
    var observers := |Observers(preparesFrom, preparesFrom.Keys, x)|;
    AcksCountObservers(preparesFrom, preparesFrom.Keys, x);
    assert Stays(preparesFrom, observers, nodes, x) <==> Acks(preparesFrom, preparesFrom.Keys, x) <= observers;
  }

  lemma {:induction false} ObserversPick(preparesFrom: map<NodeId, seq<NodeId>>, witnesses: set<NodeId>, w: NodeId,
      x: NodeId)
    requires witnesses <= preparesFrom.Keys && w in witnesses
    ensures |Observers(preparesFrom, witnesses, x)|
            == |Observers(preparesFrom, witnesses - {w}, x)| + (if Occurrences(preparesFrom[w], x) > 0 then 1 else 0)
    ensures NamedOnce(preparesFrom, witnesses, x)
            <==> NamedOnce(preparesFrom, witnesses - {w}, x) && Occurrences(preparesFrom[w], x) <= 1
  {
    var all, rest := Observers(preparesFrom, witnesses, x), Observers(preparesFrom, witnesses - {w}, x);
    if x in preparesFrom[w] {
      assert all == rest + {w};
    } else {
      assert all == rest;
    }
    if NamedOnce(preparesFrom, witnesses - {w}, x) && Occurrences(preparesFrom[w], x) <= 1 {
      forall v | v in witnesses ensures Occurrences(preparesFrom[v], x) <= 1 {
        assert v == w || v in witnesses - {w};
      }
    }
  }

  /** They do differ: with f = 1, one witness that lists a node twice removes it. */
  lemma {:induction false} MentionsAreNotWitnesses()
    ensures Prune([3], map[1 := [3, 3]], 1, [1, 2, 3, 4]) == []
    ensures |Observers(map[1 := [3, 3]], {1}, 3)| == 1
  {
    var m := map[1 := [3, 3]];
    AcksPick(m, {1}, 1, 3);
    assert multiset([3, 3])[3] == 2;
    assert m.Keys == {1};
    assert [3][..0] == [];
    assert Observers(m, {1}, 3) == {1};
  }
}
