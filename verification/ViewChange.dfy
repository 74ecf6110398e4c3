/** The view changer: three view counters and two vote sets, moved by messages, complaints, recovery and
    synchronization. */
module ViewChange {
  import opened Messages
  import opened Quorum

  datatype Config = Config(selfId: NodeId, n: nat, speedUp: bool)
  {
    function Q(): nat { ComputeQuorum(n).q }
    function F(): nat { ComputeQuorum(n).f }
  }

  /** What the view changer does to the outside. */
  datatype Effect =
    | StopTimers | RestartTimers
    | BroadcastViewChange(view: nat)
    | AbortView(view: nat)
    | SaveViewChange(view: nat)
    | SendViewData(nextView: nat)
    | BroadcastNewView
    | SaveNewView(view: nat)
    | ViewChanged(view: nat)

  datatype Views = Views(done: nat, curr: nat, next: nat)

  datatype State = State(
    views: Views,
    changes: map<NodeId, nat>,       // view-change votes: who, for which next view
    datas: map<NodeId, nat>,         // view-data votes: who, for which next view
    seen: map<NodeId, nat>,          // the latest next view each node asked for
    checkTimeout: bool,
    effects: seq<Effect>)            // everything done so far, in order
  {
    function Do(more: seq<Effect>): State { this.(effects := effects + more) }
  }

  function Start(view: nat): State {
    State(Views(view, view, view), map[], map[], map[], false, [])
  }

  /** A vote set keeps the first vote of each sender. */
  function Vote(votes: map<NodeId, nat>, sender: NodeId, view: nat): map<NodeId, nat> {
    if sender in votes then votes else votes[sender := view]
  }

  function RegisterNext(seen: map<NodeId, nat>, next: nat, sender: NodeId): map<NodeId, nat> {
    if next <= (if sender in seen then seen[sender] else 0) then seen else seen[sender := next]
  }

  function StartViewChange(s: State, view: nat, stopView: bool): State {
    if view < s.views.curr then s
    else if s.views.next == s.views.curr + 1 then s.(checkTimeout := true)
    else
      s.(views := s.views.(next := s.views.curr + 1), checkTimeout := true)
      .Do([StopTimers, BroadcastViewChange(s.views.curr + 1)] + if stopView then [AbortView(s.views.curr)] else [])
  }

  /** The last part of processViewChangeMsg: move to the next view and report to its leader. */
  function Join(self: NodeId, s: State, restore: bool, leads: bool): State {
    s.(views := s.views.(curr := s.views.next), changes := map[],
       datas := if leads then map[self := s.views.next] else map[])
    .Do((if restore then [] else [SaveViewChange(s.views.curr)]) + [AbortView(s.views.curr)]
        + if leads then [] else [SendViewData(s.views.next)])
  }

  /** The first part of processViewChangeMsg: f+1 votes, or recovery, start a view change. */
  function Speed(c: Config, s: State, restore: bool): State {
    if (|s.changes| == c.F() + 1 && c.speedUp) || restore then StartViewChange(s, s.views.curr, true) else s
  }

  function Advance(c: Config, s: State, restore: bool, leads: bool): State {
    if |s.changes| + 1 < c.Q() && !restore then s
    else Join(c.selfId, if c.speedUp then s else StartViewChange(s, s.views.curr, true), restore, leads)
  }

  /** processViewChangeMsg; leads tells whether the node leads the view it would move to. */
  function ProcessViewChange(c: Config, s: State, restore: bool, leads: bool): State {
    Advance(c, Speed(c, s, restore), restore, leads)
  }

  function HandleViewChange(c: Config, s: State, sender: NodeId, next: nat, leads: bool): State {
    var s1 := s.(seen := RegisterNext(s.seen, next, sender));
    if next == s.views.curr + 1 then ProcessViewChange(c, s1.(changes := Vote(s.changes, sender, next)), false, leads)
    else if s.views.next == s.views.curr + 1 && s.views.done < next < s.views.curr + 1 && s1.seen[sender] == next
    then s1.Do([BroadcastViewChange(next)])
    else s1
  }

  /** processNewViewMsg as far as the counters go; installed tells whether the message was validated and its in-flight
      proposal settled. */
  function HandleNewView(s: State, fromLeader: bool, installed: bool): State {
    if fromLeader && installed
    then s.(views := s.views.(done := s.views.curr), seen := map[], checkTimeout := false)
         .Do([SaveNewView(s.views.curr), ViewChanged(s.views.curr), RestartTimers])
    else s
  }

  /** A view-data message; leads and passes: this node leads, and the reported decisions check out; agreed: the
      in-flight check over the collected messages succeeds; installed: as above, for the resulting new-view
      message. */
  function HandleViewData(c: Config, s: State, sender: NodeId, next: nat, leads: bool, passes: bool, agreed: bool,
      installed: bool): State {
    if !leads || next != s.views.curr || !passes then s
    else
      var s1 := s.(datas := Vote(s.datas, sender, next));
      if |s1.datas| < c.Q() || !agreed then s1
      else HandleNewView(s1.Do([BroadcastNewView]), true, installed).(datas := map[])
  }

  function InformNewView(s: State, view: nat): State {
    if view < s.views.curr then s
    else State(Views(view, view, view), map[], map[], map[], false, s.effects + [RestartTimers])
  }

  datatype Input =
    | ViewChangeMsg(sender: NodeId, next: nat, leads: bool)
    | ViewDataMsg(sender: NodeId, next: nat, leads: bool, passes: bool, agreed: bool, installed: bool)
    | NewViewMsg(fromLeader: bool, installed: bool)
    | Complain(view: nat, stopView: bool)
    | Restore(leads: bool)
    | Inform(view: nat)
    | TimedOut

  function Step(c: Config, s: State, i: Input): State {
    match i
    case ViewChangeMsg(sender, next, leads) => HandleViewChange(c, s, sender, next, leads)
    case ViewDataMsg(sender, next, leads, passes, agreed, installed) =>
      HandleViewData(c, s, sender, next, leads, passes, agreed, installed)
    case NewViewMsg(fromLeader, installed) => HandleNewView(s, fromLeader, installed)
    case Complain(view, stopView) => StartViewChange(s, view, stopView)
    case Restore(leads) => ProcessViewChange(c, s, true, leads)
    case Inform(view) => InformNewView(s, view)
    case TimedOut => s.(checkTimeout := false)
  }

  function Run(c: Config, s: State, inputs: seq<Input>): State {
    if inputs == [] then s else Step(c, Run(c, s, inputs[..|inputs| - 1]), inputs[|inputs| - 1])
  }

  // ---- what every run keeps ----

  ghost predicate VotesFor(votes: map<NodeId, nat>, view: nat) {
    forall x :: x in votes ==> votes[x] == view
  }

  ghost predicate Ordered(v: Views, changes: map<NodeId, nat>, datas: map<NodeId, nat>) {
    && v.done <= v.curr <= v.next <= v.curr + 1
    && VotesFor(changes, v.curr + 1)
    && VotesFor(datas, v.curr)
  }

  ghost predicate Sound(c: Config, s: State) {
    && Ordered(s.views, s.changes, s.datas)
    && (c.speedUp && |s.changes| >= c.F() + 1 ==> s.views.next == s.views.curr + 1)
  }

  /** The current view moved by exactly one, on a quorum of votes for the next view counting the node's own, or on
      recovery. */
  ghost predicate Justified(c: Config, s: State, i: Input, s': State) {
    || (i.Inform? && s.views.curr <= s'.views.curr)
    || s'.views.curr == s.views.curr
    || (&& s'.views.curr == s.views.curr + 1
        && (i.Restore? || (i.ViewChangeMsg? && i.next == s.views.curr + 1
                           && |Vote(s.changes, i.sender, i.next)| + 1 >= c.Q()
                           && VotesFor(Vote(s.changes, i.sender, i.next), s.views.curr + 1))))
  }

  lemma {:induction false} SpeedStarts(c: Config, s: State, restore: bool)
    requires Ordered(s.views, s.changes, s.datas)
    requires c.speedUp && |s.changes| > c.F() + 1 ==> s.views.next == s.views.curr + 1
    ensures var s1 := Speed(c, s, restore);
            && Sound(c, s1) && s1.changes == s.changes && s1.datas == s.datas && s1.views.curr == s.views.curr
            && (restore ==> s1.views.next == s.views.curr + 1)
  {
  }

  lemma {:induction false} AdvanceMoves(c: Config, s: State, restore: bool, leads: bool)
    requires c.n > 0 && Sound(c, s)
    requires restore || |s.changes| > 0
    requires restore ==> s.views.next == s.views.curr + 1
    ensures var s1 := Advance(c, s, restore, leads);
            && Sound(c, s1)
            && (s1.views.curr != s.views.curr
                ==> s1.views.curr == s.views.curr + 1 && (restore || |s.changes| + 1 >= c.Q()))
  {
  }

  lemma {:induction false} VoteGrowsByOne(votes: map<NodeId, nat>, sender: NodeId, view: nat)
    ensures |votes| <= |Vote(votes, sender, view)| <= |votes| + 1 && |Vote(votes, sender, view)| > 0
  {
  }

  lemma {:induction false} ViewChangeKeepsSound(c: Config, s: State, sender: NodeId, next: nat, leads: bool)
    requires c.n > 0 && Sound(c, s)
    ensures var s' := HandleViewChange(c, s, sender, next, leads);
            Sound(c, s') && Justified(c, s, ViewChangeMsg(sender, next, leads), s')
  {
    if next == s.views.curr + 1 {
      VoteGrowsByOne(s.changes, sender, next);
      var s1 := s.(seen := RegisterNext(s.seen, next, sender), changes := Vote(s.changes, sender, next));
      SpeedStarts(c, s1, false);
      AdvanceMoves(c, Speed(c, s1, false), false, leads);
    }
  }

  lemma {:induction false} RestoreKeepsSound(c: Config, s: State, leads: bool)
    requires c.n > 0 && Sound(c, s)
    ensures var s' := ProcessViewChange(c, s, true, leads); Sound(c, s') && Justified(c, s, Restore(leads), s')
  {
  }

  lemma {:induction false} ViewDataKeepsSound(c: Config, s: State, sender: NodeId, next: nat, leads: bool,
      passes: bool, agreed: bool, installed: bool)
    requires Sound(c, s)
    ensures var s' := HandleViewData(c, s, sender, next, leads, passes, agreed, installed);
            Sound(c, s') && s'.views.curr == s.views.curr
  {
  }

  lemma {:induction false} StepKeepsSound(c: Config, s: State, i: Input)
    requires c.n > 0 && Sound(c, s)
    ensures Sound(c, Step(c, s, i)) && Justified(c, s, i, Step(c, s, i))
  {
    match i {
      case ViewChangeMsg(sender, next, leads) => ViewChangeKeepsSound(c, s, sender, next, leads);
      case ViewDataMsg(sender, next, leads, passes, agreed, installed) =>
        ViewDataKeepsSound(c, s, sender, next, leads, passes, agreed, installed);
      case Restore(leads) => RestoreKeepsSound(c, s, leads);
      case NewViewMsg(_, _) =>
      case Complain(_, _) =>
      case Inform(_) =>
      case TimedOut =>
    }
  }

  /** Every run keeps realView <= currView <= nextView <= currView + 1, with each vote set holding votes for one view
      only; with and without SpeedUpViewChange. */
  lemma {:induction false} RunIsSound(c: Config, start: nat, inputs: seq<Input>)
    requires c.n > 0
    ensures Sound(c, Run(c, Start(start), inputs))
  {
    if inputs != [] {
      RunIsSound(c, start, inputs[..|inputs| - 1]);
      StepKeepsSound(c, Run(c, Start(start), inputs[..|inputs| - 1]), inputs[|inputs| - 1]);
    }
  }

  /** ... and every step of every run moves currView only as Justified says. */
  lemma {:induction false} EveryMoveIsJustified(c: Config, start: nat, inputs: seq<Input>, i: Input)
    requires c.n > 0
    ensures Justified(c, Run(c, Start(start), inputs), i, Run(c, Start(start), inputs + [i]))
  {
    assert (inputs + [i])[..|inputs|] == inputs;
    RunIsSound(c, start, inputs);
    StepKeepsSound(c, Run(c, Start(start), inputs), i);
  }

  // ---- the object ----

  class ViewChanger {
    const cfg: Config
    var realView: nat
    var currView: nat
    var nextView: nat
    var viewChangeMsgs: map<NodeId, nat>
    var viewDataMsgs: map<NodeId, nat>
    var nvs: map<NodeId, nat>
    var checkTimeout: bool
    var effects: seq<Effect>

    ghost function Value(): State
      reads this
    {
      State(Views(realView, currView, nextView), viewChangeMsgs, viewDataMsgs, nvs, checkTimeout, effects)
    }

    /** Some cluster, and what every run keeps. */
    ghost predicate Valid()
      reads this
    {
      cfg.n > 0 && Sound(cfg, Value())
    }

    constructor (cfg: Config, startViewNumber: nat)
      requires cfg.n > 0
      ensures Value() == Start(startViewNumber) && this.cfg == cfg && Valid()
    {
      this.cfg := cfg;
      realView, currView, nextView := startViewNumber, startViewNumber, startViewNumber;
      viewChangeMsgs, viewDataMsgs, nvs, checkTimeout, effects := map[], map[], map[], false, [];
    }

    method Begin(view: nat, stopView: bool)
      modifies this
      ensures Value() == StartViewChange(old(Value()), view, stopView)
    {
      if view < currView {
        return;
      }
      if nextView == currView + 1 {
        checkTimeout := true;
        return;
      }
      nextView := currView + 1;
      effects := effects + [StopTimers, BroadcastViewChange(nextView)];
      if stopView {
        effects := effects + [AbortView(currView)];
      }
      checkTimeout := true;
    }

    method SendData(restore: bool, leads: bool)
      modifies this
      ensures Value() == Join(cfg.selfId, old(Value()), restore, leads)
    {
      if !restore {
        effects := effects + [SaveViewChange(currView)];
      }
      effects := effects + [AbortView(currView)];
      currView := nextView;
      viewChangeMsgs := map[];
      viewDataMsgs := map[];
      if leads {
        viewDataMsgs := viewDataMsgs[cfg.selfId := currView];
      } else {
        effects := effects + [SendViewData(currView)];
      }
    }

    method TryAdvance(restore: bool, leads: bool)
      modifies this
      ensures Value() == Advance(cfg, old(Value()), restore, leads)
    {
      if |viewChangeMsgs| + 1 < cfg.Q() && !restore {
        return;
      }
      if !cfg.speedUp {
        Begin(currView, true);
      }
      SendData(restore, leads);
    }

    method ProcessViewChangeMsg(restore: bool, leads: bool)
      modifies this
      ensures Value() == ProcessViewChange(cfg, old(Value()), restore, leads)
    {
      if (|viewChangeMsgs| == cfg.F() + 1 && cfg.speedUp) || restore {
        Begin(currView, true);
      }
      TryAdvance(restore, leads);
    }

    method OnViewChange(sender: NodeId, next: nat, leads: bool)
      requires Valid()
      modifies this
      ensures Value() == HandleViewChange(cfg, old(Value()), sender, next, leads)
      ensures Valid() && Justified(cfg, old(Value()), ViewChangeMsg(sender, next, leads), Value())
    {
      ViewChangeKeepsSound(cfg, Value(), sender, next, leads);
      TakeViewChange(sender, next, leads);
    }

    method TakeViewChange(sender: NodeId, next: nat, leads: bool)
      modifies this
      ensures Value() == HandleViewChange(cfg, old(Value()), sender, next, leads)
    {
      if next > (if sender in nvs then nvs[sender] else 0) {
        nvs := nvs[sender := next];
      }
      if next == currView + 1 {
        if sender !in viewChangeMsgs {
          viewChangeMsgs := viewChangeMsgs[sender := next];
        }
        ProcessViewChangeMsg(false, leads);
        return;
      }
      if nextView == currView + 1 && next > realView && next < currView + 1 && nvs[sender] == next {
        effects := effects + [BroadcastViewChange(next)];
      }
    }

    method OnNewView(fromLeader: bool, installed: bool)
      requires Valid()
      modifies this
      ensures Value() == HandleNewView(old(Value()), fromLeader, installed) && Valid()
    {
      TakeNewView(fromLeader, installed);
    }

    method TakeNewView(fromLeader: bool, installed: bool)
      modifies this
      ensures Value() == HandleNewView(old(Value()), fromLeader, installed)
    {
      if !fromLeader || !installed {
        return;
      }
      effects := effects + [SaveNewView(currView)];
      realView := currView;
      nvs := map[];
      effects := effects + [ViewChanged(currView), RestartTimers];
      checkTimeout := false;
    }

    method OnViewData(sender: NodeId, next: nat, leads: bool, passes: bool, agreed: bool, installed: bool)
      requires Valid()
      modifies this
      ensures Value() == HandleViewData(cfg, old(Value()), sender, next, leads, passes, agreed, installed) && Valid()
    {
      ViewDataKeepsSound(cfg, Value(), sender, next, leads, passes, agreed, installed);
      TakeViewData(sender, next, leads, passes, agreed, installed);
    }

    method TakeViewData(sender: NodeId, next: nat, leads: bool, passes: bool, agreed: bool, installed: bool)
      modifies this
      ensures Value() == HandleViewData(cfg, old(Value()), sender, next, leads, passes, agreed, installed)
    {
      if !leads || next != currView || !passes {
        return;
      }
      if sender !in viewDataMsgs {
        viewDataMsgs := viewDataMsgs[sender := next];
      }
      if |viewDataMsgs| < cfg.Q() {
        return;
      }
      if !agreed {
        return;
      }
      effects := effects + [BroadcastNewView];
      TakeNewView(true, installed);
      viewDataMsgs := map[];
    }

    method OnInform(view: nat)
      requires Valid()
      modifies this
      ensures Value() == InformNewView(old(Value()), view) && Valid()
    {
      if view < currView {
        return;
      }
      currView := view;
      realView := currView;
      nextView := currView;
      nvs, viewChangeMsgs, viewDataMsgs := map[], map[], map[];
      checkTimeout := false;
      effects := effects + [RestartTimers];
    }

    /** One turn of the event loop: whatever arrives, the object stays valid and moves only as it may. */
    method Process(i: Input)
      requires Valid()
      modifies this
      ensures Value() == Step(cfg, old(Value()), i)
      ensures Valid() && Justified(cfg, old(Value()), i, Value())
    {
      StepKeepsSound(cfg, Value(), i);
      match i {
        case ViewChangeMsg(sender, next, leads) => OnViewChange(sender, next, leads);
        case ViewDataMsg(sender, next, leads, passes, agreed, installed) =>
          OnViewData(sender, next, leads, passes, agreed, installed);
        case NewViewMsg(fromLeader, installed) => OnNewView(fromLeader, installed);
        case Complain(view, stopView) => Begin(view, stopView);
        case Restore(leads) => ProcessViewChangeMsg(true, leads);
        case Inform(view) => OnInform(view);
        case TimedOut => checkTimeout := false;
      }
    }
  }
}
