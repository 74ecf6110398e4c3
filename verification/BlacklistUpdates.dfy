/** What the next blacklist is, entry by entry and in order, and that the update computes nothing else. */
module BlacklistUpdates {
  import opened Messages
  import opened Leader
  import opened Blacklist

  // ---- what is left of a list ----

  ghost predicate Increasing(places: seq<nat>) {
    forall i, j :: 0 <= i < j < |places| ==> places[i] < places[j]
  }

  /** Every wanted place is there. */
  ghost predicate Covers(wanted: seq<bool>, places: seq<nat>) {
    forall k: nat :: k < |wanted| && wanted[k] ==> k in places
  }

  /** Each place is wanted and holds what is kept. */
  ghost predicate Holds(list: seq<NodeId>, wanted: seq<bool>, kept: seq<NodeId>, places: seq<nat>)
    requires |wanted| == |list|
  {
    && |places| == |kept|
    && forall j :: 0 <= j < |places| ==> places[j] < |list| && wanted[places[j]] && kept[j] == list[places[j]]
  }

  /** What is kept is what the wanted places of a list hold, in order. */
  ghost predicate LeftOf(list: seq<NodeId>, wanted: seq<bool>, kept: seq<NodeId>)
    requires |wanted| == |list|
  {
    exists places: seq<nat> :: Holds(list, wanted, kept, places) && Covers(wanted, places) && Increasing(places)
  }

  lemma {:induction false} OneMorePlace(list: seq<NodeId>, wanted: seq<bool>, kept: seq<NodeId>, x: NodeId, want: bool)
    requires |wanted| == |list| && LeftOf(list, wanted, kept)
    ensures LeftOf(list + [x], wanted + [want], if want then kept + [x] else kept)
  {
    var places: seq<nat> :| Holds(list, wanted, kept, places) && Covers(wanted, places) && Increasing(places);
    var kept' := if want then kept + [x] else kept;
    var places' := if want then places + [|list|] else places;
    HoldsMore(list, wanted, kept, places, x, want);
    CoversMore(wanted, places, want);
    assert Holds(list + [x], wanted + [want], kept', places') && Covers(wanted + [want], places')
           && Increasing(places');
  }

  lemma {:induction false} HoldsMore(list: seq<NodeId>, wanted: seq<bool>, kept: seq<NodeId>, places: seq<nat>,
      x: NodeId, want: bool)
    requires |wanted| == |list| && Holds(list, wanted, kept, places) && Increasing(places)
    ensures var places' := if want then places + [|list|] else places;
            Increasing(places') && Holds(list + [x], wanted + [want], if want then kept + [x] else kept, places')
  {
  }

  lemma {:induction false} CoversMore(wanted: seq<bool>, places: seq<nat>, want: bool)
    requires Covers(wanted, places)
    ensures Covers(wanted + [want], if want then places + [|wanted|] else places)
  {
    var places' := if want then places + [|wanted|] else places;
    forall k: nat | k < |wanted| + 1 && (wanted + [want])[k] ensures k in places' {
      if k == |wanted| {
        assert places'[|places|] == k;
      } else {
        var j :| 0 <= j < |places| && places[j] == k;
        assert places'[j] == k;
      }
    }
  }

  lemma {:induction false} EmptyTogether(a: seq<nat>, b: seq<nat>)
    requires forall k: nat :: k in a ==> k in b
    ensures a != [] ==> b != []
  {
    if a != [] {
      assert a[0] in b;
    }
  }

  /** Increasing places with the same elements are the same. */
  lemma {:induction false} SamePlaces(a: seq<nat>, b: seq<nat>)
    requires Increasing(a) && Increasing(b) && forall k: nat :: k in a <==> k in b
    ensures a == b
  {
    EmptyTogether(a, b);
    EmptyTogether(b, a);
    if a != [] {
      var a', b' := a[..|a| - 1], b[..|b| - 1];
      SameLast(a, b);
      forall k: nat ensures k in a' <==> k in b' {
        InInit(a, k);
        InInit(b, k);
      }
      SamePlaces(a', b');
      assert a == a' + [a[|a| - 1]] && b == b' + [b[|b| - 1]];
    }
  }

  lemma {:induction false} SameLast(a: seq<nat>, b: seq<nat>)
    requires Increasing(a) && Increasing(b) && a != [] && b != [] && forall k: nat :: k in a <==> k in b
    ensures a[|a| - 1] == b[|b| - 1]
  {
    assert a[|a| - 1] in b && b[|b| - 1] in a;
  }

  lemma {:induction false} InInit(a: seq<nat>, k: nat)
    requires a != [] && Increasing(a)
    ensures k in a[..|a| - 1] <==> k in a && k != a[|a| - 1]
  {
    if k in a && k != a[|a| - 1] {
      var i :| 0 <= i < |a| && a[i] == k;
      assert a[..|a| - 1][i] == k;
    }
  }

  lemma {:induction false} LeftOfIsUnique(list: seq<NodeId>, wanted: seq<bool>, a: seq<NodeId>, b: seq<NodeId>)
    requires |wanted| == |list| && LeftOf(list, wanted, a) && LeftOf(list, wanted, b)
    ensures a == b
  {
    var p: seq<nat> :| Holds(list, wanted, a, p) && Covers(wanted, p) && Increasing(p);
    var q: seq<nat> :| Holds(list, wanted, b, q) && Covers(wanted, q) && Increasing(q);
    SamePlaces(p, q);
  }

  lemma {:induction false} NothingLeft(wanted: seq<bool>)
    requires |wanted| == 0
    ensures LeftOf([], wanted, [])
  {
    assert Holds([], wanted, [], []) && Covers(wanted, []) && Increasing([]);
  }

  // ---- inside a view ----

  /** Which entries stay: those of nodes still in the configuration that were named at most f times. */
  ghost function Staying(s: Setup, c: Context, list: seq<NodeId>): seq<bool> {
    seq(|list|, k requires 0 <= k < |list| => Stays(c.preparesFrom, s.F(), s.nodes, list[k]))
  }

  lemma {:induction false} StayingSnoc(s: Setup, c: Context, list: seq<NodeId>, x: NodeId)
    ensures Staying(s, c, list + [x]) == Staying(s, c, list) + [Stays(c.preparesFrom, s.F(), s.nodes, x)]
  {
  }

  lemma {:induction false} OneMoreLeft(s: Setup, c: Context, list: seq<NodeId>, kept: seq<NodeId>, x: NodeId)
    requires LeftOf(list, Staying(s, c, list), kept)
    ensures LeftOf(list + [x], Staying(s, c, list + [x]),
                   if Stays(c.preparesFrom, s.F(), s.nodes, x) then kept + [x] else kept)
  {
    StayingSnoc(s, c, list, x);
    OneMorePlace(list, Staying(s, c, list), kept, x, Stays(c.preparesFrom, s.F(), s.nodes, x));
  }

  lemma {:induction false} PruneSnoc(prev: seq<NodeId>, preparesFrom: map<NodeId, seq<NodeId>>, f: nat,
      nodes: seq<NodeId>, x: NodeId)
    ensures var kept := Prune(prev, preparesFrom, f, nodes);
            Prune(prev + [x], preparesFrom, f, nodes) == if Stays(preparesFrom, f, nodes, x) then kept + [x] else kept
  {
    assert (prev + [x])[..|prev|] == prev;
  }

  lemma {:induction false} OneMorePruned(s: Setup, c: Context, list: seq<NodeId>, x: NodeId)
    requires LeftOf(list, Staying(s, c, list), Prune(list, c.preparesFrom, s.F(), s.nodes))
    ensures LeftOf(list + [x], Staying(s, c, list + [x]), Prune(list + [x], c.preparesFrom, s.F(), s.nodes))
  {
    OneMoreLeft(s, c, list, Prune(list, c.preparesFrom, s.F(), s.nodes), x);
    PruneSnoc(list, c.preparesFrom, s.F(), s.nodes, x);
  }

  lemma {:induction false} PruneLeaves(s: Setup, c: Context, list: seq<NodeId>)
    ensures LeftOf(list, Staying(s, c, list), Prune(list, c.preparesFrom, s.F(), s.nodes))
  {
    if list == [] {
      NothingLeft(Staying(s, c, list));
    } else {
      var init, x := list[..|list| - 1], list[|list| - 1];
      assert list == init + [x];
      PruneLeaves(s, c, init);
      OneMorePruned(s, c, init, x);
    }
  }

  // ---- after a view change ----

  /** The leader a view had if the decision after the last one was to be its next, or if none was made yet its first. */
  ghost predicate LedBy(s: Setup, c: Context, view: nat, leader: NodeId)
    requires s.nodes != []
  {
    var decisions := if c.prevMD.latestSequence == 0 then c.prevMD.decisionsInView else c.prevMD.decisionsInView + 1;
    LeaderID(s, view, decisions, c.prevMD.blackList) == Some(leader)
  }

  /** The leaders of the views given up since the last decision, in order. */
  ghost predicate GivenUp(s: Setup, c: Context, leaders: seq<NodeId>)
    requires s.nodes != []
  {
    && |leaders| == (if c.currView > c.prevMD.viewId then c.currView - c.prevMD.viewId else 0)
    && forall k: nat :: k < |leaders| ==> LedBy(s, c, c.prevMD.viewId + k, leaders[k])
  }

  ghost function NotLeading(c: Context, leaders: seq<NodeId>): seq<bool> {
    seq(|leaders|, k requires 0 <= k < |leaders| => leaders[k] != c.currentLeader)
  }

  /** The skipped leaders: those of the given-up views, without the current one. */
  ghost predicate Skips(s: Setup, c: Context, skipped: seq<NodeId>)
    requires s.nodes != []
  {
    exists leaders :: GivenUp(s, c, leaders) && LeftOf(leaders, NotLeading(c, leaders), skipped)
  }

  function Before(leader: Option<NodeId>, current: NodeId, rest: Option<seq<NodeId>>): Option<seq<NodeId>> {
    if leader.None? || rest.None? then None
    else Some(if leader.value == current then rest.value else [leader.value] + rest.value)
  }

  function After(skipped: Option<seq<NodeId>>, current: NodeId, leader: Option<NodeId>): Option<seq<NodeId>> {
    if leader.None? || skipped.None? then None
    else Some(if leader.value == current then skipped.value else skipped.value + [leader.value])
  }

  lemma {:induction false} FirstOrLast(first: Option<NodeId>, current: NodeId, between: Option<seq<NodeId>>,
      last: Option<NodeId>)
    ensures Before(first, current, After(between, current, last))
            == After(Before(first, current, between), current, last)
  {
    if first.Some? && between.Some? && last.Some? {
      assert [first.value] + (between.value + [last.value]) == [first.value] + between.value + [last.value];
    }
  }

  lemma {:induction false} OnlyOne(current: NodeId, leader: Option<NodeId>)
    ensures Before(leader, current, Some([])) == After(Some([]), current, leader)
  {
    if leader.Some? {
      assert [leader.value] + [] == [] + [leader.value];
    }
  }

  lemma {:induction false} SkippedFirst(s: Setup, c: Context, from: nat)
    requires s.nodes != [] && from < c.currView
    ensures SkippedLeaders(s, c, from)
            == Before(AbandonedLeader(s, c, from), c.currentLeader, SkippedLeaders(s, c, from + 1))
  {
  }

  lemma {:induction false} SameAbandoned(s: Setup, c: Context, view: nat)
    requires s.nodes != []
    ensures AbandonedLeader(s, c.(currView := c.currView + 1), view) == AbandonedLeader(s, c, view)
  {
  }

  lemma {:induction false} SkippedSnoc(s: Setup, c: Context, from: nat)
    requires s.nodes != [] && from <= c.currView
    ensures SkippedLeaders(s, c.(currView := c.currView + 1), from)
            == After(SkippedLeaders(s, c, from), c.currentLeader, AbandonedLeader(s, c, c.currView))
    decreases c.currView - from
  {
    var c' := c.(currView := c.currView + 1);
    SkippedFirst(s, c', from);
    SameAbandoned(s, c, from);
    if from < c.currView {
      SkippedSnoc(s, c, from + 1);
      SkippedFirst(s, c, from);
      FirstOrLast(AbandonedLeader(s, c, from), c.currentLeader, SkippedLeaders(s, c, from + 1),
                  AbandonedLeader(s, c, c.currView));
    } else {
      OnlyOne(c.currentLeader, AbandonedLeader(s, c, from));
    }
  }

  lemma {:induction false} GivenUpSnoc(s: Setup, c: Context, leaders: seq<NodeId>, leader: NodeId)
    requires s.nodes != [] && c.currView >= c.prevMD.viewId
    requires GivenUp(s, c, leaders) && AbandonedLeader(s, c, c.currView) == Some(leader)
    ensures GivenUp(s, c.(currView := c.currView + 1), leaders + [leader])
    ensures NotLeading(c.(currView := c.currView + 1), leaders + [leader])
            == NotLeading(c, leaders) + [leader != c.currentLeader]
  {
  }

  lemma {:induction false} SkippedAreSkips(s: Setup, c: Context)
    requires s.nodes != [] && SkippedLeaders(s, c, c.prevMD.viewId).Some?
    ensures Skips(s, c, SkippedLeaders(s, c, c.prevMD.viewId).value)
    decreases c.currView
  {
    if c.currView <= c.prevMD.viewId {
      NothingLeft(NotLeading(c, []));
      assert GivenUp(s, c, []);
    } else {
      var before := c.(currView := c.currView - 1);
      assert c == before.(currView := before.currView + 1);
      SkippedSnoc(s, before, c.prevMD.viewId);
      SkippedAreSkips(s, before);
      OneMoreSkip(s, before, SkippedLeaders(s, before, c.prevMD.viewId).value);
    }
  }

  lemma {:induction false} OneMoreSkip(s: Setup, c: Context, skipped: seq<NodeId>)
    requires s.nodes != [] && c.currView >= c.prevMD.viewId && Skips(s, c, skipped)
    requires AbandonedLeader(s, c, c.currView).Some?
    ensures var leader := AbandonedLeader(s, c, c.currView).value;
            Skips(s, c.(currView := c.currView + 1), if leader != c.currentLeader then skipped + [leader] else skipped)
  {
    var leader := AbandonedLeader(s, c, c.currView).value;
    var leaders :| GivenUp(s, c, leaders) && LeftOf(leaders, NotLeading(c, leaders), skipped);
    GivenUpSnoc(s, c, leaders, leader);
    OneMorePlace(leaders, NotLeading(c, leaders), skipped, leader, leader != c.currentLeader);
  }

  lemma {:induction false} SkippedIfAllLed(s: Setup, c: Context, from: nat, leaders: seq<NodeId>)
    requires s.nodes != [] && GivenUp(s, c, leaders) && from >= c.prevMD.viewId
    ensures SkippedLeaders(s, c, from).Some?
    decreases c.currView - from
  {
    if from < c.currView {
      SkippedIfAllLed(s, c, from + 1, leaders);
      assert LedBy(s, c, c.prevMD.viewId + (from - c.prevMD.viewId), leaders[from - c.prevMD.viewId]);
    }
  }

  lemma {:induction false} SkippedExactly(s: Setup, c: Context, skipped: seq<NodeId>)
    requires s.nodes != []
    ensures SkippedLeaders(s, c, c.prevMD.viewId) == Some(skipped) <==> Skips(s, c, skipped)
  {
    if Skips(s, c, skipped) {
      var leaders :| GivenUp(s, c, leaders) && LeftOf(leaders, NotLeading(c, leaders), skipped);
      SkippedIfAllLed(s, c, c.prevMD.viewId, leaders);
      SkippedAreSkips(s, c);
      var r := SkippedLeaders(s, c, c.prevMD.viewId).value;
      var leaders' :| GivenUp(s, c, leaders') && LeftOf(leaders', NotLeading(c, leaders'), r);
      GivenUpIsUnique(s, c, leaders, leaders');
      LeftOfIsUnique(leaders, NotLeading(c, leaders), skipped, r);
    } else if SkippedLeaders(s, c, c.prevMD.viewId).Some? {
      SkippedAreSkips(s, c);
    }
  }

  lemma {:induction false} GivenUpIsUnique(s: Setup, c: Context, a: seq<NodeId>, b: seq<NodeId>)
    requires s.nodes != [] && GivenUp(s, c, a) && GivenUp(s, c, b)
    ensures a == b
  {
    forall k: nat | k < |a| ensures a[k] == b[k] {
      assert LedBy(s, c, c.prevMD.viewId + k, a[k]) && LedBy(s, c, c.prevMD.viewId + k, b[k]);
    }
  }

  // ---- the update ----

  /** The last f entries of a list, or all of it. */
  ghost predicate LastOf(list: seq<NodeId>, f: nat, last: seq<NodeId>) {
    |last| == (if |list| < f then |list| else f) && list[|list| - |last|..] == last
  }

  /** What the next blacklist is: inside a view the previous entries that stay; after a view change the previous ones
      and the skipped leaders behind them; of either the last f, in order. */
  ghost predicate Follows(s: Setup, c: Context, list: seq<NodeId>)
    requires s.nodes != []
  {
    if c.prevMD.viewId == c.currView
    then exists kept :: LeftOf(c.prevMD.blackList, Staying(s, c, c.prevMD.blackList), kept) && LastOf(kept, s.F(), list)
    else exists skipped :: Skips(s, c, skipped) && LastOf(c.prevMD.blackList + skipped, s.F(), list)
  }

  lemma {:induction false} KeepsLast(list: seq<NodeId>, f: nat, last: seq<NodeId>)
    ensures KeepLast(list, f) == last <==> LastOf(list, f, last)
  {
    if |list| <= f {
      assert list[|list| - |list|..] == list;
    }
  }

  /** The update gives a list exactly if that list follows; otherwise there is none, for want of a leader. */
  lemma {:induction false} UpdateExactly(s: Setup, c: Context, list: seq<NodeId>)
    requires s.nodes != []
    ensures Update(s, c) == Some(list) <==> Follows(s, c, list)
  {
    if c.prevMD.viewId == c.currView {
      InsideExactly(s, c, list);
    } else {
      AfterExactly(s, c, list);
    }
  }

  lemma {:induction false} InsideExactly(s: Setup, c: Context, list: seq<NodeId>)
    requires s.nodes != [] && c.prevMD.viewId == c.currView
    ensures Update(s, c) == Some(list) <==> Follows(s, c, list)
  {
    var prev := c.prevMD.blackList;
    var kept := Prune(prev, c.preparesFrom, s.F(), s.nodes);
    PruneLeaves(s, c, prev);
    KeepsLast(kept, s.F(), list);
    if Follows(s, c, list) {
      var other :| LeftOf(prev, Staying(s, c, prev), other) && LastOf(other, s.F(), list);
      LeftOfIsUnique(prev, Staying(s, c, prev), kept, other);
    }
  }

  lemma {:induction false} AfterExactly(s: Setup, c: Context, list: seq<NodeId>)
    requires s.nodes != [] && c.prevMD.viewId != c.currView
    ensures Update(s, c) == Some(list) <==> Follows(s, c, list)
  {
    if Follows(s, c, list) {
      var skipped :| Skips(s, c, skipped) && LastOf(c.prevMD.blackList + skipped, s.F(), list);
      SkippedExactly(s, c, skipped);
      KeepsLast(c.prevMD.blackList + skipped, s.F(), list);
    } else if SkippedLeaders(s, c, c.prevMD.viewId).Some? {
      var skipped := SkippedLeaders(s, c, c.prevMD.viewId).value;
      SkippedExactly(s, c, skipped);
      KeepsLast(c.prevMD.blackList + skipped, s.F(), list);
    }
  }

  // ---- what such a list holds ----

  lemma {:induction false} PlacesFit(places: seq<nat>, n: nat)
    requires Increasing(places) && forall j :: 0 <= j < |places| ==> places[j] < n
    ensures |places| <= n
  {
    if places != [] {
      PlacesFit(places[..|places| - 1], places[|places| - 1]);
    }
  }

  ghost predicate Wanted(list: seq<NodeId>, wanted: seq<bool>, x: NodeId)
    requires |wanted| == |list|
  {
    exists k: nat :: k < |list| && list[k] == x && wanted[k]
  }

  /** What is left holds exactly the wanted entries. */
  lemma {:induction false} LeftIsWanted(list: seq<NodeId>, wanted: seq<bool>, kept: seq<NodeId>, x: NodeId)
    requires |wanted| == |list| && LeftOf(list, wanted, kept)
    ensures x in kept <==> Wanted(list, wanted, x)
    ensures |kept| <= |list|
  {
    var places: seq<nat> :| Holds(list, wanted, kept, places) && Covers(wanted, places) && Increasing(places);
    HeldIsWanted(list, wanted, kept, places, x);
    if Wanted(list, wanted, x) {
      var k: nat :| k < |list| && list[k] == x && wanted[k];
      var j := PlaceOf(wanted, places, k);
      HeldAt(list, wanted, kept, places, j);
    }
  }

  lemma {:induction false} HeldIsWanted(list: seq<NodeId>, wanted: seq<bool>, kept: seq<NodeId>, places: seq<nat>,
      x: NodeId)
    requires |wanted| == |list| && Holds(list, wanted, kept, places) && Increasing(places)
    ensures x in kept ==> Wanted(list, wanted, x)
    ensures |kept| <= |list|
  {
    PlacesFit(places, |list|);
    if x in kept {
      var j :| 0 <= j < |kept| && kept[j] == x;
      assert list[places[j]] == x && wanted[places[j]];
    }
  }

  lemma {:induction false} PlaceOf(wanted: seq<bool>, places: seq<nat>, k: nat) returns (j: nat)
    requires Covers(wanted, places) && k < |wanted| && wanted[k]
    ensures j < |places| && places[j] == k
  {
    j :| j < |places| && places[j] == k;
  }

  lemma {:induction false} HeldAt(list: seq<NodeId>, wanted: seq<bool>, kept: seq<NodeId>, places: seq<nat>, j: nat)
    requires |wanted| == |list| && Holds(list, wanted, kept, places) && j < |places|
    ensures j < |kept| && places[j] < |list| && kept[j] == list[places[j]]
  {
  }

  /** The node led a view given up since the last decision. */
  ghost predicate LedGivenUp(s: Setup, c: Context, x: NodeId)
    requires s.nodes != []
  {
    exists view: nat :: c.prevMD.viewId <= view < c.currView && LedBy(s, c, view, x)
  }

  lemma {:induction false} SkippedLedBefore(s: Setup, c: Context, skipped: seq<NodeId>, x: NodeId)
    requires s.nodes != [] && Skips(s, c, skipped) && x in skipped
    ensures x != c.currentLeader && LedGivenUp(s, c, x)
  {
    var leaders := SkippedIsWanted(s, c, skipped, x);
    var k := WantedIsNotLeading(c, leaders, x);
    assert LedBy(s, c, c.prevMD.viewId + k, leaders[k]);
  }

  lemma {:induction false} SkippedIsWanted(s: Setup, c: Context, skipped: seq<NodeId>, x: NodeId)
    returns (leaders: seq<NodeId>)
    requires s.nodes != [] && Skips(s, c, skipped) && x in skipped
    ensures GivenUp(s, c, leaders) && Wanted(leaders, NotLeading(c, leaders), x)
  {
    leaders :| GivenUp(s, c, leaders) && LeftOf(leaders, NotLeading(c, leaders), skipped);
    LeftIsWanted(leaders, NotLeading(c, leaders), skipped, x);
  }

  lemma {:induction false} WantedIsNotLeading(c: Context, leaders: seq<NodeId>, x: NodeId) returns (k: nat)
    requires Wanted(leaders, NotLeading(c, leaders), x)
    ensures k < |leaders| && leaders[k] == x && x != c.currentLeader
  {
    k :| k < |leaders| && leaders[k] == x && NotLeading(c, leaders)[k];
  }

  /** A list that follows gains only leaders of given-up views, never the current leader. */
  lemma {:induction false} GainedLedBefore(s: Setup, c: Context, list: seq<NodeId>, x: NodeId)
    requires s.nodes != [] && Follows(s, c, list)
    ensures |list| <= s.F()
    ensures x in list && x !in c.prevMD.blackList ==> x != c.currentLeader && LedGivenUp(s, c, x)
  {
    var prev := c.prevMD.blackList;
    if c.prevMD.viewId == c.currView {
      var kept :| LeftOf(prev, Staying(s, c, prev), kept) && LastOf(kept, s.F(), list);
      LeftIsWanted(prev, Staying(s, c, prev), kept, x);
      assert x in list ==> x in kept;
    } else {
      var skipped :| Skips(s, c, skipped) && LastOf(prev + skipped, s.F(), list);
      assert x in list ==> x in prev + skipped;
      if x in skipped {
        SkippedLedBefore(s, c, skipped, x);
      }
    }
  }

  /** Inside a view a list of at most f entries keeps exactly those of nodes still in the configuration that were
      named at most f times. */
  lemma {:induction false} KeptExactly(s: Setup, c: Context, list: seq<NodeId>, x: NodeId)
    requires s.nodes != [] && Follows(s, c, list) && c.prevMD.viewId == c.currView
    requires |c.prevMD.blackList| <= s.F()
    ensures x in list <==> && x in c.prevMD.blackList && x in s.nodes
                           && Acks(c.preparesFrom, c.preparesFrom.Keys, x) <= s.F()
  {
    var prev := c.prevMD.blackList;
    var kept :| LeftOf(prev, Staying(s, c, prev), kept) && LastOf(kept, s.F(), list);
    LeftIsWanted(prev, Staying(s, c, prev), kept, x);
    assert kept[|kept| - |kept|..] == kept;
    StayingIsWanted(s, c, prev, x);
  }

  lemma {:induction false} StayingIsWanted(s: Setup, c: Context, list: seq<NodeId>, x: NodeId)
    ensures Wanted(list, Staying(s, c, list), x) <==> x in list && Stays(c.preparesFrom, s.F(), s.nodes, x)
  {
    if x in list && Stays(c.preparesFrom, s.F(), s.nodes, x) {
      var k: nat :| k < |list| && list[k] == x;
      assert Staying(s, c, list)[k];
    }
  }
}
