/** Every run of the view changer, in terms of its inputs: who has voted and reported since the node joined its view
    decides when it moves on, when it announces a new view, and when that view becomes the real one. */
module ViewChangeRuns {
  import opened Messages
  import opened ViewChange

  /** The state after some inputs. */
  function At(c: Config, start: nat, inputs: seq<Input>): State {
    Run(c, Start(start), inputs)
  }

  lemma {:induction false} AtSnoc(c: Config, start: nat, inputs: seq<Input>, i: Input)
    ensures At(c, start, inputs + [i]) == Step(c, At(c, start, inputs), i)
  {
    assert (inputs + [i])[..|inputs|] == inputs;
  }

  // ---- what a step does to the outside ----

  function NewEffects(s: State, s': State): seq<Effect>
    requires s.effects <= s'.effects
  {
    s'.effects[|s.effects|..]
  }

  /** The step broadcasts a new-view message. */
  predicate Announces(s: State, s': State) {
    s.effects <= s'.effects && BroadcastNewView in NewEffects(s, s')
  }

  /** News of a view that is not older than the current one. */
  predicate News(v: Views, i: Input) {
    i.Inform? && i.view >= v.curr
  }

  /** The step makes the current view the real one. */
  predicate Installs(i: Input, announced: bool) {
    || (i.NewViewMsg? && i.fromLeader && i.installed)
    || (i.ViewDataMsg? && i.installed && announced)
  }

  // ---- votes and reports, from the inputs ----

  /** A vote for the view after the current one. */
  predicate Votes(v: Views, i: Input) {
    i.ViewChangeMsg? && i.next == v.curr + 1
  }

  /** A report that reaches the leader of the current view, for that view and in order. */
  predicate Reports(v: Views, i: Input) {
    i.ViewDataMsg? && i.leads && i.passes && i.next == v.curr
  }

  function VotersAfter(v: Views, i: Input, v': Views, before: set<NodeId>): set<NodeId> {
    if v'.curr != v.curr || News(v, i) then {} else if Votes(v, i) then before + {i.sender} else before
  }

  function ReportersAfter(c: Config, v: Views, i: Input, v': Views, announced: bool, before: set<NodeId>): set<NodeId> {
    if News(v, i) || announced then {}
    else if v'.curr != v.curr then if (i.ViewChangeMsg? || i.Restore?) && i.leads then {c.selfId} else {}
    else if Reports(v, i) then before + {i.sender}
    else before
  }

  function AskedAfter(v: Views, i: Input, announced: bool, x: NodeId, before: nat): nat {
    if News(v, i) || Installs(i, announced) then 0
    else if i.ViewChangeMsg? && i.sender == x && i.next > before then i.next
    else before
  }

  /** Those who asked for the view after the current one since the node came to it. */
  function Voters(c: Config, start: nat, inputs: seq<Input>): set<NodeId> {
    if inputs == [] then {}
    else
      var init, i := inputs[..|inputs| - 1], inputs[|inputs| - 1];
      VotersAfter(At(c, start, init).views, i, At(c, start, inputs).views, Voters(c, start, init))
  }

  /** Those who reported for the current view, to its leader and in order, since the node came to it or last announced a
      new view; a leader counts its own report from the moment it joins. */
  function Reporters(c: Config, start: nat, inputs: seq<Input>): set<NodeId> {
    if inputs == [] then {}
    else
      var init, i := inputs[..|inputs| - 1], inputs[|inputs| - 1];
      var s, s' := At(c, start, init), At(c, start, inputs);
      ReportersAfter(c, s.views, i, s'.views, Announces(s, s'), Reporters(c, start, init))
  }

  /** The latest view x asked for since the last installation or news. */
  function Asked(c: Config, start: nat, inputs: seq<Input>, x: NodeId): nat {
    if inputs == [] then 0
    else
      var init, i := inputs[..|inputs| - 1], inputs[|inputs| - 1];
      var s, s' := At(c, start, init), At(c, start, inputs);
      AskedAfter(s.views, i, Announces(s, s'), x, Asked(c, start, init, x))
  }

  // ---- one step ----

  /** What starting a view change does to the outside, unless it was started before. */
  function Starting(v: Views, stopView: bool): seq<Effect> {
    if v.next == v.curr + 1 then []
    else [StopTimers, BroadcastViewChange(v.curr + 1)] + if stopView then [AbortView(v.curr)] else []
  }

  /** What moving to the next view does: the old view is ended before the node reports. */
  function Moving(v: Views, restore: bool, leads: bool): seq<Effect> {
    (if restore then [] else [SaveViewChange(v.curr)]) + [AbortView(v.curr)]
    + if leads then [] else [SendViewData(v.curr + 1)]
  }

  /** What installing the current view does: it is saved before anyone hears of it. */
  function Installing(v: Views): seq<Effect> {
    [SaveNewView(v.curr), ViewChanged(v.curr), RestartTimers]
  }

  /** An old view-change message is passed on to a node that lags. */
  predicate Helps(v: Views, latest: nat, next: nat) {
    v.next == v.curr + 1 && v.done < next <= v.curr && latest <= next
  }

  /** The state after moving to the next view. */
  ghost predicate Moved(c: Config, s: State, restore: bool, leads: bool, s': State) {
    && s'.views == Views(s.views.done, s.views.curr + 1, s.views.curr + 1)
    && s'.changes == map[] && s'.datas == (if leads then map[c.selfId := s.views.curr + 1] else map[])
    && s'.effects == s.effects + Starting(s.views, true) + Moving(s.views, restore, leads)
  }

  lemma {:induction false} StartIs(s: State, view: nat, stopView: bool)
    requires Ordered(s.views, s.changes, s.datas) && view >= s.views.curr
    ensures var s' := StartViewChange(s, view, stopView);
            s' == s.(views := s.views.(next := s.views.curr + 1), checkTimeout := true,
                     effects := s.effects + Starting(s.views, stopView))
  {
    assert s.effects + [] == s.effects;
  }

  lemma {:induction false} JoinIs(c: Config, s: State, restore: bool, leads: bool)
    requires s.views.next == s.views.curr + 1
    ensures var s' := Join(c.selfId, s, restore, leads);
            && s'.views == Views(s.views.done, s.views.curr + 1, s.views.curr + 1)
            && s'.changes == map[] && s'.datas == (if leads then map[c.selfId := s.views.curr + 1] else map[])
            && s'.effects == s.effects + Moving(s.views, restore, leads) && s'.seen == s.seen
  {
  }

  lemma {:induction false} RestoreMoves(c: Config, s: State, leads: bool)
    requires c.n > 0 && Sound(c, s)
    ensures Moved(c, s, true, leads, ProcessViewChange(c, s, true, leads))
            && ProcessViewChange(c, s, true, leads).seen == s.seen
  {
    StartIs(s, s.views.curr, true);
    var s1 := StartViewChange(s, s.views.curr, true);
    StartIs(s1, s.views.curr, true);
    assert s1.effects + [] == s1.effects;
    JoinIs(c, if c.speedUp then s1 else StartViewChange(s1, s.views.curr, true), true, leads);
  }

  /** What so many votes for the next view lead to. */
  ghost predicate AfterVotes(c: Config, s: State, votes: nat, leads: bool, s': State) {
    if votes + 1 >= c.Q() then Moved(c, s, false, leads, s')
    else
      var starts := c.speedUp && votes >= c.F() + 1;
      && s'.datas == s.datas && s'.views == (if starts then s.views.(next := s.views.curr + 1) else s.views)
      && s'.effects == s.effects + if starts then Starting(s.views, true) else []
  }

  /** Votes from f + 1 nodes start a view change if that speeds it up, and votes from a quorum, counting the node's own,
      complete it. */
  lemma {:induction false} VotesMove(c: Config, s: State, leads: bool)
    requires c.n > 0 && Ordered(s.views, s.changes, s.datas) && s.changes != map[]
    requires c.speedUp && |s.changes| > c.F() + 1 ==> s.views.next == s.views.curr + 1
    ensures AfterVotes(c, s, |s.changes|, leads, ProcessViewChange(c, s, false, leads))
    ensures ProcessViewChange(c, s, false, leads).seen == s.seen
    ensures |s.changes| + 1 < c.Q() ==> ProcessViewChange(c, s, false, leads).changes == s.changes
  {
    StartIs(s, s.views.curr, true);
    SmallIsNotEmpty(s.changes);
    assert s.effects + [] == s.effects;
    var s1 := Speed(c, s, false);
    if |s.changes| + 1 >= c.Q() {
      StartIs(s1, s.views.curr, true);
      var s2 := if c.speedUp then s1 else StartViewChange(s1, s.views.curr, true);
      assert s2.views.next == s.views.curr + 1 && s2.effects == s.effects + Starting(s.views, true);
      JoinIs(c, s2, false, leads);
    }
  }

  lemma {:induction false} SmallIsNotEmpty(votes: map<NodeId, nat>)
    requires votes != map[]
    ensures |votes| > 0
  {
  }

  lemma {:induction false} VoteKeys(votes: map<NodeId, nat>, sender: NodeId, view: nat)
    ensures Vote(votes, sender, view).Keys == votes.Keys + {sender}
            && |Vote(votes, sender, view)| == |votes.Keys + {sender}|
  {
  }

  function Get(seen: map<NodeId, nat>, x: NodeId): nat {
    if x in seen then seen[x] else 0
  }

  /** A vote for the next view. */
  lemma {:induction false} VoteStep(c: Config, s: State, sender: NodeId, leads: bool)
    requires c.n > 0 && Sound(c, s)
    ensures var s', votes := HandleViewChange(c, s, sender, s.views.curr + 1, leads), s.changes.Keys + {sender};
            && s'.seen == RegisterNext(s.seen, s.views.curr + 1, sender)
            && AfterVotes(c, s, |votes|, leads, s')
            && s'.changes.Keys == if |votes| + 1 >= c.Q() then {} else votes
  {
    var next := s.views.curr + 1;
    var s1 := s.(seen := RegisterNext(s.seen, next, sender), changes := Vote(s.changes, sender, next));
    VoteKeys(s.changes, sender, next);
    VotingIsOrdered(c, s, sender);
    VotesMove(c, s1, leads);
    AfterSameVotes(c, s, s1, |s1.changes|, leads, ProcessViewChange(c, s1, false, leads));
  }

  lemma {:induction false} VotingIsOrdered(c: Config, s: State, sender: NodeId)
    requires Sound(c, s)
    ensures var votes := Vote(s.changes, sender, s.views.curr + 1);
            && Ordered(s.views, votes, s.datas) && votes != map[]
            && (c.speedUp && |votes| > c.F() + 1 ==> s.views.next == s.views.curr + 1)
  {
    VoteGrowsByOne(s.changes, sender, s.views.curr + 1);
  }

  lemma {:induction false} AfterSameVotes(c: Config, s: State, s1: State, votes: nat, leads: bool, s': State)
    requires AfterVotes(c, s1, votes, leads, s') && s1.views == s.views && s1.effects == s.effects
             && s1.datas == s.datas
    ensures AfterVotes(c, s, votes, leads, s')
  {
  }

  lemma {:induction false} OtherVoteStep(c: Config, s: State, sender: NodeId, next: nat, leads: bool)
    requires next != s.views.curr + 1
    ensures var s' := HandleViewChange(c, s, sender, next, leads);
            s' == s.(seen := RegisterNext(s.seen, next, sender),
                     effects := s.effects
                                + if Helps(s.views, Get(s.seen, sender), next) then [BroadcastViewChange(next)] else [])
  {
    assert s.effects + [] == s.effects;
  }

  lemma {:induction false} AppendedAnnounces(s: State, s': State, more: seq<Effect>)
    requires s'.effects == s.effects + more
    ensures Announces(s, s') <==> BroadcastNewView in more
  {
    assert NewEffects(s, s') == more;
  }

  /** View data that does not complete a quorum, or on which no agreement is possible. */
  lemma {:induction false} QuietData(c: Config, s: State, i: Input)
    requires i.ViewDataMsg?
    requires var heard := i.leads && i.passes && i.next == s.views.curr;
             !heard || !i.agreed || |s.datas.Keys + {i.sender}| < c.Q()
    ensures var s', heard := Step(c, s, i), i.leads && i.passes && i.next == s.views.curr;
            s' == s.(datas := s'.datas) && s'.datas.Keys == s.datas.Keys + if heard then {i.sender} else {}
  {
    VoteKeys(s.datas, i.sender, i.next);
  }

  lemma {:induction false} LoudData(c: Config, s: State, i: Input)
    requires i.ViewDataMsg? && i.leads && i.passes && i.next == s.views.curr
    requires i.agreed && |s.datas.Keys + {i.sender}| >= c.Q()
    ensures var s' := Step(c, s, i);
            && s'.datas == map[] && s'.changes == s.changes
            && s'.views == (if i.installed then s.views.(done := s.views.curr) else s.views)
            && s'.seen == (if i.installed then map[] else s.seen)
            && s'.effects == s.effects + ([BroadcastNewView] + if i.installed then Installing(s.views) else [])
  {
    VoteKeys(s.datas, i.sender, i.next);
    assert s.effects + [BroadcastNewView] + Installing(s.views)
           == s.effects + ([BroadcastNewView] + Installing(s.views));
  }

  /** Everything else: new-view messages, complaints, news and timeouts. */
  lemma {:induction false} RestStep(c: Config, s: State, i: Input)
    requires Sound(c, s) && (i.NewViewMsg? || i.Complain? || i.Inform? || i.TimedOut?)
    ensures var s' := Step(c, s, i); var installs := i.NewViewMsg? && i.fromLeader && i.installed;
            var complains := i.Complain? && i.view >= s.views.curr;
            && s'.views == (if News(s.views, i) then Views(i.view, i.view, i.view)
                            else if installs then s.views.(done := s.views.curr)
                            else if complains then s.views.(next := s.views.curr + 1) else s.views)
            && s'.changes == (if News(s.views, i) then map[] else s.changes)
            && s'.datas == (if News(s.views, i) then map[] else s.datas)
            && s'.seen == (if News(s.views, i) || installs then map[] else s.seen)
            && s'.effects == s.effects + (if News(s.views, i) then [RestartTimers]
                                          else if installs then Installing(s.views)
                                          else if complains then Starting(s.views, i.stopView) else [])
  {
    assert s.effects + [] == s.effects;
    if i.Complain? && i.view >= s.views.curr {
      StartIs(s, i.view, i.stopView);
    }
  }

  // ---- all steps at once ----

  /** The part of the state that decides what happens, with vote sets as sets. */
  datatype Summary = Summary(views: Views, changes: set<NodeId>, datas: set<NodeId>, seen: map<NodeId, nat>)

  function Summarize(s: State): Summary {
    Summary(s.views, s.changes.Keys, s.datas.Keys, s.seen)
  }

  /** A report that completes a quorum on which the in-flight check succeeds. */
  predicate Concludes(q: nat, v: Views, i: Input, reporters: set<NodeId>) {
    Reports(v, i) && i.agreed && |reporters + {i.sender}| >= q
  }

  function VoteSummary(c: Config, q: nat, f: nat, m: Summary, sender: NodeId, next: nat, leads: bool): Summary {
    var m1, votes := m.(seen := RegisterNext(m.seen, next, sender)), m.changes + {sender};
    if next != m.views.curr + 1 then m1
    else if |votes| + 1 >= q then
      m1.(views := Views(m.views.done, next, next), changes := {}, datas := if leads then {c.selfId} else {})
    else m1.(views := if c.speedUp && |votes| >= f + 1 then m.views.(next := next) else m.views, changes := votes)
  }

  function DataSummary(q: nat, m: Summary, i: Input): Summary
    requires i.ViewDataMsg?
  {
    if !Reports(m.views, i) then m
    else if !Concludes(q, m.views, i, m.datas) then m.(datas := m.datas + {i.sender})
    else if i.installed then m.(views := m.views.(done := m.views.curr), datas := {}, seen := map[])
    else m.(datas := {})
  }

  function SummaryAfter(c: Config, q: nat, f: nat, m: Summary, i: Input): Summary {
    match i
    case ViewChangeMsg(sender, next, leads) => VoteSummary(c, q, f, m, sender, next, leads)
    case ViewDataMsg(_, _, _, _, _, _) => DataSummary(q, m, i)
    case Restore(leads) =>
      m.(views := Views(m.views.done, m.views.curr + 1, m.views.curr + 1), changes := {},
         datas := if leads then {c.selfId} else {})
    case NewViewMsg(fromLeader, installed) =>
      if fromLeader && installed then m.(views := m.views.(done := m.views.curr), seen := map[]) else m
    case Complain(view, _) => if view >= m.views.curr then m.(views := m.views.(next := m.views.curr + 1)) else m
    case Inform(view) => if view >= m.views.curr then Summary(Views(view, view, view), {}, {}, map[]) else m
    case TimedOut => m
  }

  lemma {:induction false} DataSummarized(c: Config, s: State, i: Input)
    requires i.ViewDataMsg?
    ensures Summarize(Step(c, s, i)) == DataSummary(c.Q(), Summarize(s), i)
  {
    if Concludes(c.Q(), s.views, i, s.datas.Keys) {
      LoudData(c, s, i);
    } else {
      QuietData(c, s, i);
    }
  }

  lemma {:induction false} CountedVote(c: Config, s: State, sender: NodeId, leads: bool, s': State)
    requires var votes := s.changes.Keys + {sender};
             && s'.seen == RegisterNext(s.seen, s.views.curr + 1, sender)
             && AfterVotes(c, s, |votes|, leads, s')
             && s'.changes.Keys == if |votes| + 1 >= c.Q() then {} else votes
    ensures Summarize(s') == VoteSummary(c, c.Q(), c.F(), Summarize(s), sender, s.views.curr + 1, leads)
  {
  }

  lemma {:induction false} VoteSummarized(c: Config, s: State, i: Input)
    requires c.n > 0 && Sound(c, s) && i.ViewChangeMsg?
    ensures Summarize(Step(c, s, i)) == VoteSummary(c, c.Q(), c.F(), Summarize(s), i.sender, i.next, i.leads)
  {
    if i.next == s.views.curr + 1 {
      VoteStep(c, s, i.sender, i.leads);
      CountedVote(c, s, i.sender, i.leads, Step(c, s, i));
    } else {
      OtherVoteStep(c, s, i.sender, i.next, i.leads);
    }
  }

  lemma {:induction false} RestSummarized(c: Config, s: State, i: Input)
    requires c.n > 0 && Sound(c, s) && !i.ViewChangeMsg? && !i.ViewDataMsg?
    ensures Summarize(Step(c, s, i)) == SummaryAfter(c, c.Q(), c.F(), Summarize(s), i)
  {
    if i.Restore? {
      RestoreMoves(c, s, i.leads);
    } else {
      RestStep(c, s, i);
    }
  }

  lemma {:induction false} StepSummarized(c: Config, s: State, i: Input)
    requires c.n > 0 && Sound(c, s)
    ensures Summarize(Step(c, s, i)) == SummaryAfter(c, c.Q(), c.F(), Summarize(s), i)
  {
    if i.ViewChangeMsg? {
      VoteSummarized(c, s, i);
    } else if i.ViewDataMsg? {
      DataSummarized(c, s, i);
    } else {
      RestSummarized(c, s, i);
    }
  }

  // ---- what a step does to the outside ----

  /** What a step does to the outside, given who voted and reported before it and the latest view the sender asked
      for. */
  function Doing(c: Config, v: Views, i: Input, voters: set<NodeId>, reporters: set<NodeId>, latest: nat): seq<Effect> {
    match i
    case ViewChangeMsg(sender, next, leads) =>
      if next == v.curr + 1 then Voting(c, v, |voters + {sender}|, leads)
      else if Helps(v, latest, next) then [BroadcastViewChange(next)]
      else []
    case ViewDataMsg(_, _, _, _, _, installed) =>
      if Concludes(c.Q(), v, i, reporters) then [BroadcastNewView] + if installed then Installing(v) else [] else []
    case NewViewMsg(fromLeader, installed) => if fromLeader && installed then Installing(v) else []
    case Complain(view, stopView) => if view >= v.curr then Starting(v, stopView) else []
    case Restore(leads) => Starting(v, true) + Moving(v, true, leads)
    case Inform(_) => if News(v, i) then [RestartTimers] else []
    case TimedOut => []
  }

  /** What so many votes for the next view lead to. */
  function Voting(c: Config, v: Views, votes: nat, leads: bool): seq<Effect> {
    if votes + 1 >= c.Q() then Starting(v, true) + Moving(v, false, leads)
    else if c.speedUp && votes >= c.F() + 1 then Starting(v, true)
    else []
  }

  function Latest(seen: map<NodeId, nat>, i: Input): nat {
    if i.ViewChangeMsg? then Get(seen, i.sender) else 0
  }

  ghost predicate Does(c: Config, s: State, i: Input) {
    Step(c, s, i).effects == s.effects + Doing(c, s.views, i, s.changes.Keys, s.datas.Keys, Latest(s.seen, i))
  }

  lemma {:induction false} VoteDoes(c: Config, s: State, i: Input)
    requires c.n > 0 && Sound(c, s) && i.ViewChangeMsg? && i.next == s.views.curr + 1
    ensures Does(c, s, i)
  {
    VoteStep(c, s, i.sender, i.leads);
    assert s.effects + Starting(s.views, true) + Moving(s.views, false, i.leads)
        == s.effects + (Starting(s.views, true) + Moving(s.views, false, i.leads));
  }

  lemma {:induction false} DataDoes(c: Config, s: State, i: Input)
    requires i.ViewDataMsg?
    ensures Does(c, s, i)
  {
    if Concludes(c.Q(), s.views, i, s.datas.Keys) {
      LoudData(c, s, i);
    } else {
      QuietData(c, s, i);
      assert s.effects + [] == s.effects;
    }
  }

  lemma {:induction false} RestoreDoes(c: Config, s: State, i: Input)
    requires c.n > 0 && Sound(c, s) && i.Restore?
    ensures Does(c, s, i)
  {
    RestoreMoves(c, s, i.leads);
    assert s.effects + Starting(s.views, true) + Moving(s.views, true, i.leads)
        == s.effects + (Starting(s.views, true) + Moving(s.views, true, i.leads));
  }

  lemma {:induction false} StepDoes(c: Config, s: State, i: Input)
    requires c.n > 0 && Sound(c, s)
    ensures Does(c, s, i)
  {
    match i {
      case ViewChangeMsg(sender, next, leads) =>
        if next == s.views.curr + 1 {
          VoteDoes(c, s, i);
        } else {
          OtherVoteStep(c, s, sender, next, leads);
        }
      case ViewDataMsg(_, _, _, _, _, _) => DataDoes(c, s, i);
      case Restore(_) => RestoreDoes(c, s, i);
      case _ => RestStep(c, s, i);
    }
  }

  lemma {:induction false} VotingIsQuiet(c: Config, v: Views, votes: nat, leads: bool)
    ensures BroadcastNewView !in Voting(c, v, votes, leads)
  {
  }

  lemma {:induction false} OnlyReportsAnnounce(c: Config, v: Views, i: Input, voters: set<NodeId>,
      reporters: set<NodeId>, latest: nat)
    ensures BroadcastNewView in Doing(c, v, i, voters, reporters, latest) <==> Concludes(c.Q(), v, i, reporters)
  {
    if i.ViewChangeMsg? {
      VotingIsQuiet(c, v, |voters + {i.sender}|, i.leads);
    } else if Concludes(c.Q(), v, i, reporters) {
      assert ([BroadcastNewView] + if i.installed then Installing(v) else [])[0] == BroadcastNewView;
    }
  }

  lemma {:induction false} AnnouncingConcludes(c: Config, s: State, i: Input)
    requires c.n > 0 && Sound(c, s)
    ensures Announces(s, Step(c, s, i)) <==> Concludes(c.Q(), s.views, i, s.datas.Keys)
  {
    StepDoes(c, s, i);
    var did := Doing(c, s.views, i, s.changes.Keys, s.datas.Keys, Latest(s.seen, i));
    AppendedAnnounces(s, Step(c, s, i), did);
    OnlyReportsAnnounce(c, s.views, i, s.changes.Keys, s.datas.Keys, Latest(s.seen, i));
  }

  // ---- the vote sets are what the inputs say ----

  /** A summary keeps the three records up to date. */
  lemma {:induction false} VotersSummarized(c: Config, q: nat, f: nat, m: Summary, i: Input)
    ensures var m' := SummaryAfter(c, q, f, m, i); m'.changes == VotersAfter(m.views, i, m'.views, m.changes)
  {
  }

  lemma {:induction false} ReportersSummarized(c: Config, q: nat, f: nat, m: Summary, i: Input)
    ensures var m' := SummaryAfter(c, q, f, m, i);
            m'.datas == ReportersAfter(c, m.views, i, m'.views, Concludes(q, m.views, i, m.datas), m.datas)
  {
  }

  lemma {:induction false} AskedSummarized(c: Config, q: nat, f: nat, m: Summary, i: Input, x: NodeId)
    ensures var m' := SummaryAfter(c, q, f, m, i);
            Get(m'.seen, x) == AskedAfter(m.views, i, Concludes(q, m.views, i, m.datas), x, Get(m.seen, x))
  {
  }

  /** The records of a state are those of the inputs. */
  ghost predicate Recorded(c: Config, start: nat, inputs: seq<Input>, m: Summary) {
    && m.changes == Voters(c, start, inputs) && m.datas == Reporters(c, start, inputs)
    && forall x :: Get(m.seen, x) == Asked(c, start, inputs, x)
  }

  lemma {:induction false} StepOfRun(c: Config, start: nat, inputs: seq<Input>, i: Input)
    requires c.n > 0
    ensures var s, s' := At(c, start, inputs), At(c, start, inputs + [i]);
            && Summarize(s') == SummaryAfter(c, c.Q(), c.F(), Summarize(s), i)
            && (Announces(s, s') <==> Concludes(c.Q(), s.views, i, s.datas.Keys))
            && Does(c, s, i) && s' == Step(c, s, i)
  {
    RunIsSound(c, start, inputs);
    AtSnoc(c, start, inputs, i);
    var s := At(c, start, inputs);
    StepSummarized(c, s, i);
    StepDoes(c, s, i);
    AnnouncingConcludes(c, s, i);
  }

  lemma {:induction false} RecordsGrow(c: Config, start: nat, inputs: seq<Input>, i: Input, m: Summary)
    requires c.n > 0 && Recorded(c, start, inputs, m)
    requires var s, s' := At(c, start, inputs), At(c, start, inputs + [i]);
             m.views == s.views && Summarize(s') == SummaryAfter(c, c.Q(), c.F(), m, i)
             && (Announces(s, s') <==> Concludes(c.Q(), m.views, i, m.datas))
    ensures Recorded(c, start, inputs + [i], Summarize(At(c, start, inputs + [i])))
  {
    assert (inputs + [i])[..|inputs|] == inputs;
    VotersSummarized(c, c.Q(), c.F(), m, i);
    ReportersSummarized(c, c.Q(), c.F(), m, i);
    forall x ensures Get(At(c, start, inputs + [i]).seen, x) == Asked(c, start, inputs + [i], x) {
      AskedSummarized(c, c.Q(), c.F(), m, i, x);
    }
  }

  lemma {:induction false} OneMoreRecorded(c: Config, start: nat, inputs: seq<Input>, i: Input)
    requires c.n > 0 && Recorded(c, start, inputs, Summarize(At(c, start, inputs)))
    ensures Recorded(c, start, inputs + [i], Summarize(At(c, start, inputs + [i])))
  {
    StepOfRun(c, start, inputs, i);
    RecordsGrow(c, start, inputs, i, Summarize(At(c, start, inputs)));
  }

  lemma {:induction false} NothingRecorded(c: Config, start: nat)
    ensures Recorded(c, start, [], Summarize(At(c, start, [])))
  {
  }

  /** In every run the vote sets hold exactly those who voted and reported, and the record of announced views the
      latest of each node. */
  lemma {:induction false} RecordsAreInputs(c: Config, start: nat, inputs: seq<Input>)
    requires c.n > 0
    ensures Recorded(c, start, inputs, Summarize(At(c, start, inputs)))
  {
    if inputs == [] {
      NothingRecorded(c, start);
    } else {
      var init, i := inputs[..|inputs| - 1], inputs[|inputs| - 1];
      assert inputs == init + [i];
      RecordsAreInputs(c, start, init);
      OneMoreRecorded(c, start, init, i);
    }
  }

  // ---- what every step of every run does ----

  /** The current view moves exactly on the vote that completes a quorum, counting the node itself, on recovery, or on
      news; by one, except on news. */
  lemma {:induction false} MovesExactly(c: Config, start: nat, inputs: seq<Input>, i: Input)
    requires c.n > 0
    ensures var s, s' := At(c, start, inputs), At(c, start, inputs + [i]);
            var completes := Votes(s.views, i) && |Voters(c, start, inputs) + {i.sender}| + 1 >= c.Q();
            s'.views.curr == if News(s.views, i) then i.view
                             else if completes || i.Restore? then s.views.curr + 1
                             else s.views.curr
  {
    RecordsAreInputs(c, start, inputs);
    StepOfRun(c, start, inputs, i);
  }

  /** While the node stays in its view, a view change is under way exactly if it was before, or if the step is a
      complaint about a view that is not older, or the vote that makes f + 1 voters when that is to speed it up. */
  lemma {:induction false} StartsExactly(c: Config, start: nat, inputs: seq<Input>, i: Input)
    requires c.n > 0
    ensures var s, s' := At(c, start, inputs), At(c, start, inputs + [i]);
            s'.views.curr == s.views.curr && !News(s.views, i) ==>
              (s'.views.next == s.views.curr + 1
               <==> || s.views.next == s.views.curr + 1 || (i.Complain? && i.view >= s.views.curr)
                    || (Votes(s.views, i) && c.speedUp && |Voters(c, start, inputs) + {i.sender}| >= c.F() + 1))
  {
    RecordsAreInputs(c, start, inputs);
    StepOfRun(c, start, inputs, i);
  }

  /** A new-view message is broadcast exactly when view data reaches the leader of the current view that checks out,
      makes the in-flight check succeed, and completes a quorum of distinct reporters since the node joined that view
      or last broadcast one. */
  lemma {:induction false} AnnouncesExactly(c: Config, start: nat, inputs: seq<Input>, i: Input)
    requires c.n > 0
    ensures var s, s' := At(c, start, inputs), At(c, start, inputs + [i]);
            Announces(s, s') <==> Reports(s.views, i) && i.agreed && |Reporters(c, start, inputs) + {i.sender}| >= c.Q()
  {
    RecordsAreInputs(c, start, inputs);
    StepOfRun(c, start, inputs, i);
  }

  /** The real view changes exactly with such a broadcast that installs the view, with an installed new-view message
      from the leader, or with news; and then it is the current view. */
  lemma {:induction false} RealViewExactly(c: Config, start: nat, inputs: seq<Input>, i: Input)
    requires c.n > 0
    ensures var s, s' := At(c, start, inputs), At(c, start, inputs + [i]);
            s'.views.done == if News(s.views, i) || Installs(i, Announces(s, s')) then s'.views.curr else s.views.done
  {
    StepOfRun(c, start, inputs, i);
  }

  /** Every step does to the outside exactly what the votes and reports so far ask for, in order: a view change that
      is started is broadcast once, the old view ends before the node reports to the next leader, a new view is saved
      before anyone hears of it. */
  lemma {:induction false} DoneExactly(c: Config, start: nat, inputs: seq<Input>, i: Input)
    requires c.n > 0
    ensures var s, s' := At(c, start, inputs), At(c, start, inputs + [i]);
            var latest := if i.ViewChangeMsg? then Asked(c, start, inputs, i.sender) else 0;
            s'.effects
            == s.effects + Doing(c, s.views, i, Voters(c, start, inputs), Reporters(c, start, inputs), latest)
  {
    RecordsAreInputs(c, start, inputs);
    StepOfRun(c, start, inputs, i);
  }
}
