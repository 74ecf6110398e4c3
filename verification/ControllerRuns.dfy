/** Every run of the controller in terms of its inputs: which decisions reach the application, which decision is the
    checkpoint, which view is run, and when the count of decisions in the view is right. */
module ControllerRuns {
  import opened Messages
  import opened Controller

  function Max(a: nat, b: nat): nat {
    if a > b then a else b
  }

  // ---- decisions ----

  predicate Delivery(e: Event) {
    e.Decided? || e.DeliveredInViewChange?
  }

  /** The decision is newer than all the node knows, or it knows none. */
  predicate Fresh(known: nat, p: Proposal)
    requires Decodes(p)
  {
    known == 0 || SequenceOf(p) > known
  }

  predicate Readable(e: Event) {
    match e
    case Decided(p, synced, _, _) => Decodes(p) && Decodes(synced)
    case DeliveredInViewChange(p, synced) => Decodes(p) && Decodes(synced)
    case ViewChanged(_, _, _) => true
    case Synced(latest, _, _, _) => Decodes(latest)
  }

  ghost predicate AllReadable(events: seq<Event>) {
    forall k :: 0 <= k < |events| ==> Readable(events[k])
  }

  /** The newest decision the node has heard of. */
  ghost function Newest(start: Proposal, events: seq<Event>): (p: Proposal)
    requires Decodes(start) && AllReadable(events)
    ensures Decodes(p)
  {
    if events == [] then start
    else
      var before, e := Newest(start, events[..|events| - 1]), events[|events| - 1];
      match e
      case Decided(p, synced, _, _) => if Fresh(SequenceOf(before), p) then p else synced
      case DeliveredInViewChange(p, synced) => if Fresh(SequenceOf(before), p) then p else synced
      case ViewChanged(_, _, _) => before
      case Synced(latest, _, _, _) => if SequenceOf(latest) > SequenceOf(before) then latest else before
  }

  /** The decisions that were news when they came, in order. */
  ghost function News(start: Proposal, events: seq<Event>): seq<nat>
    requires Decodes(start) && AllReadable(events)
  {
    if events == [] then []
    else
      var before, e := events[..|events| - 1], events[|events| - 1];
      News(start, before)
      + if Delivery(e) && Fresh(SequenceOf(Newest(start, before)), e.p) then [SequenceOf(e.p)] else []
  }

  lemma {:induction false} HandleKeepsDecisions(s: State, e: Event)
    requires Admissible(s, e)
    ensures Readable(e) && Valid(Handle(s, e))
    ensures Handle(s, e).checkpoint
            == match e
               case Decided(p, synced, _, _) => if Fresh(Latest(s), p) then p else synced
               case DeliveredInViewChange(p, synced) => if Fresh(Latest(s), p) then p else synced
               case ViewChanged(_, _, _) => s.checkpoint
               case Synced(latest, _, _, _) => if SequenceOf(latest) > Latest(s) then latest else s.checkpoint
    ensures Handle(s, e).delivered
            == s.delivered + if Delivery(e) && Fresh(Latest(s), e.p) then [SequenceOf(e.p)] else []
  {
  }

  /** In every run the checkpoint is the newest decision the node has heard of, and the application got exactly the
      decisions that were news when they came. */
  lemma {:induction false} DeliversTheNews(states: seq<State>, events: seq<Event>)
    requires Run(states, events) && Valid(states[0])
    ensures AllReadable(events) && Valid(states[|events|])
    ensures states[|events|].checkpoint == Newest(states[0].checkpoint, events)
    ensures states[|events|].delivered == states[0].delivered + News(states[0].checkpoint, events)
  {
    if events != [] {
      var n := |events| - 1;
      assert Run(states[..|events|], events[..n]);
      DeliversTheNews(states[..|events|], events[..n]);
      HandleKeepsDecisions(states[n], events[n]);
      forall k | 0 <= k < |events| ensures Readable(events[k]) {
        assert k < n ==> events[k] == events[..n][k];
      }
    }
  }

  // ---- views ----

  /** The highest view an event tells of; an answer of other nodes counts if it continues from the decision that came
      with it. */
  function Heard(e: Event): nat
    requires Readable(e)
  {
    match e
    case ViewChanged(view, _, _) => view
    case Synced(latest, response, _, _) =>
      if response.Some? && response.value.sequence == SequenceOf(latest) + 1
      then Max(Metadata(latest).viewId, response.value.view)
      else Metadata(latest).viewId
    case _ => 0
  }

  ghost function HighestHeard(start: nat, events: seq<Event>): nat
    requires AllReadable(events)
  {
    if events == [] then start
    else Max(HighestHeard(start, events[..|events| - 1]), Heard(events[|events| - 1]))
  }

  lemma {:induction false} HandleTakesHigherView(s: State, e: Event)
    requires Admissible(s, e)
    ensures Readable(e) && Handle(s, e).view == Max(s.view, Heard(e))
  {
  }

  /** In every run the view is the highest the node has heard of. */
  lemma {:induction false} ViewIsHighestHeard(states: seq<State>, events: seq<Event>)
    requires Run(states, events) && Valid(states[0])
    ensures AllReadable(events) && states[|events|].view == HighestHeard(states[0].view, events)
  {
    DeliversTheNews(states, events);
    if events != [] {
      var n := |events| - 1;
      assert Run(states[..|events|], events[..n]);
      ViewIsHighestHeard(states[..|events|], events[..n]);
      HandleTakesHigherView(states[n], events[n]);
    }
  }

  // ---- the count of decisions in the view ----

  /** How many decisions the current view has made, going by the checkpoint. */
  function Made(s: State): nat
    requires Valid(s)
  {
    if !Empty(s.checkpoint) && Metadata(s.checkpoint).viewId == s.view
    then Metadata(s.checkpoint).decisionsInView + 1 else 0
  }

  /** The count is right, and the last decision was made in no later view. */
  ghost predicate Counted(s: State)
    requires Valid(s)
  {
    s.decisions == Made(s) && Metadata(s.checkpoint).viewId <= s.view
  }

  /** A later decision was made in no earlier view. */
  ghost predicate InOrder(s: State, latest: Proposal)
    requires Valid(s) && Decodes(latest)
  {
    SequenceOf(latest) > Latest(s) ==> !Empty(latest) && Metadata(latest).viewId >= Metadata(s.checkpoint).viewId
  }

  /** The decision extends the view: it is the next one, and made in it. */
  ghost predicate Extends(s: State, p: Proposal)
    requires Valid(s) && Decodes(p)
  {
    Fresh(Latest(s), p) && !Empty(p) && Metadata(p).viewId == s.view && Metadata(p).decisionsInView == s.decisions
  }

  lemma {:induction false} DecidingKeepsCount(s: State, p: Proposal, synced: Proposal, rotate: bool, running: bool)
    requires Valid(s) && Delivers(s, p, synced) && Counted(s) && Extends(s, p)
    ensures Valid(Handle(s, Decided(p, synced, rotate, running)))
            && Counted(Handle(s, Decided(p, synced, rotate, running)))
  {
  }

  /** A later view starts to count anew, whatever the count was; asking for the current one again loses it. */
  lemma {:induction false} ChangingKeepsCount(s: State, view: nat, sequence: nat, running: bool)
    requires Valid(s) && Metadata(s.checkpoint).viewId <= s.view
    ensures var s' := Handle(s, ViewChanged(view, sequence, running));
            && Valid(s')
            && (view > s.view ==> Counted(s'))
            && (Counted(s) ==> (Counted(s') <==> view != s.view || Made(s) == 0))
  {
  }

  /** A synchronization that goes on in the current view although it brings no later decision. */
  predicate Repeats(s: State, latest: Proposal, response: Option<ViewAndSeq>)
    requires Valid(s) && Decodes(latest)
  {
    && SequenceOf(latest) <= Latest(s) && Metadata(latest).viewId <= s.view && Made(s) > 0
    && if response.None? then !Empty(latest) && Metadata(latest).viewId == s.view
       else if response.value.view <= s.view then Metadata(latest).viewId == s.view
       else response.value.sequence != SequenceOf(latest) + 1
  }

  /** A later decision of an earlier view, with an answer that tells of a later view but does not continue from it. */
  predicate Mixes(s: State, latest: Proposal, response: Option<ViewAndSeq>)
    requires Valid(s) && Decodes(latest)
  {
    && SequenceOf(latest) > Latest(s) && Metadata(latest).viewId < s.view
    && response.Some? && response.value.view > s.view && response.value.sequence != SequenceOf(latest) + 1
  }

  /** A synchronization keeps the count right exactly if it neither repeats nor mixes: in the one case the count
      starts over from zero in the middle of the view, in the other it is taken from a view that is over. */
  lemma {:induction false} SyncingKeepsCount(s: State, latest: Proposal, response: Option<ViewAndSeq>, current: nat,
      running: bool)
    requires Valid(s) && Decodes(latest) && Counted(s) && InOrder(s, latest)
    ensures var s' := Handle(s, Synced(latest, response, current, running));
            Valid(s') && (Counted(s') <==> !Repeats(s, latest, response) && !Mixes(s, latest, response))
  {
  }

  /** It does happen: in view 3, after two decisions, a synchronization that brings back the last of them. */
  lemma {:induction false} CountStartsOver(p: Proposal)
    requires p.metadata == Encoded(ViewMetadata(3, 9, 1, [], []))
    ensures var s := State(p, 3, 2, None, [], []);
            && Valid(s) && Counted(s) && InOrder(s, p)
            && Handle(s, Synced(p, None, 10, true)).decisions == 0
            && Handle(s, Synced(p, None, 10, true)).effects == [Started(3, 10)]
  {
    assert [] + [Started(3, 10)] == [Started(3, 10)];
  }

  // ---- what a synchronization leads to ----

  /** Nothing new: the decision is of an earlier view, and so is the answer of other nodes, if there is one. */
  predicate Quiet(s: State, latest: Proposal, response: Option<ViewAndSeq>)
    requires Decodes(latest)
  {
    if response.None? then Empty(latest) || Metadata(latest).viewId < s.view
    else response.value.view <= s.view && Metadata(latest).viewId < s.view
  }

  /** The answer of other nodes tells of a view later than any other, and continues from the decision. */
  predicate Later(s: State, latest: Proposal, response: Option<ViewAndSeq>)
    requires Decodes(latest)
  {
    && response.Some? && response.value.view > Max(s.view, Metadata(latest).viewId)
    && response.value.sequence == SequenceOf(latest) + 1
  }

  /** The count of decisions after a synchronization. */
  function CountAfter(s: State, latest: Proposal, response: Option<ViewAndSeq>): nat
    requires Valid(s) && Decodes(latest)
  {
    if Quiet(s, latest, response) then s.decisions
    else if Later(s, latest, response) || SequenceOf(latest) <= Latest(s) then 0
    else Metadata(latest).decisionsInView + 1
  }

  /** After a synchronization the node runs the highest view it heard of, from the sequence after the newest decision
      if there was something new; a view that only other nodes know of is saved first, then the view changer hears of
      the new view, then it starts, unless it runs already. An in-flight proposal that is decided by now is dropped. */
  lemma {:induction false} SyncingExactly(s: State, latest: Proposal, response: Option<ViewAndSeq>, current: nat,
      running: bool)
    requires Valid(s) && Decodes(latest)
    ensures var e := Synced(latest, response, current, running);
            var s', quiet, later := Handle(s, e), Quiet(s, latest, response), Later(s, latest, response);
            && s'.decisions == CountAfter(s, latest, response)
            && (later ==> !quiet)
            && s'.inFlight == (if !quiet && !Empty(latest) && s.inFlight.Some?
                                  && SequenceOf(latest) >= SequenceOf(s.inFlight.value) then None else s.inFlight)
            && s'.effects == s.effects
                 + (if later then [SavedNewView(response.value.view, SequenceOf(latest))] else [])
                 + (if s'.view > s.view then [Informed(s'.view)] else [])
                 + (if running && s'.view == s.view && s'.decisions == s.decisions then []
                    else [Started(s'.view, if quiet then current else Max(Latest(s), SequenceOf(latest)) + 1)])
  {
    assert s.effects + [] == s.effects;
  }

  /** A decision counts once, and restarts the view only to rotate the leader; a view change starts the view it asks
      for, with a new count, unless it is older or already runs that way. */
  lemma {:induction false} MovingExactly(s: State, e: Event)
    requires Admissible(s, e) && !e.Synced?
    ensures var s' := Handle(s, e);
            && s'.inFlight == s.inFlight
            && s'.decisions == (if e.Decided? then s.decisions + 1
                                else if e.ViewChanged? && e.view >= s.view then 0 else s.decisions)
            && s'.effects == s.effects
                 + (if e.Decided? && e.rotate && !e.running then [Started(s.view, SequenceOf(e.p) + 1)] else [])
                 + (if e.ViewChanged? && e.view >= s.view && !(e.running && e.view == s.view && s.decisions == 0)
                    then [Started(e.view, e.sequence)] else [])
  {
    assert s.effects + [] == s.effects;
  }
}
