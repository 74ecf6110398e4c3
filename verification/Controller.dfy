/** The controller: what it hands to the application, the checkpoint, and the view it runs, under decisions, view
    changes and synchronizations in any order. The synchronizer and the state collection are the environment: their
    answers are inputs. */
module Controller {
  import opened Messages

  const NO_METADATA := ViewMetadata(0, 0, 0, [], [])

  /** The metadata bytes decode; the code panics on others. */
  predicate Decodes(p: Proposal) {
    p.metadata.Decode().Some?
  }

  function Metadata(p: Proposal): ViewMetadata
    requires Decodes(p)
  {
    p.metadata.Decode().value
  }

  function SequenceOf(p: Proposal): nat
    requires Decodes(p)
  {
    Metadata(p).latestSequence
  }

  /** A proposal without metadata bytes; an all-zero message encodes to none. */
  predicate Empty(p: Proposal)
    requires Decodes(p)
  {
    Metadata(p) == NO_METADATA
  }

  datatype ViewAndSeq = ViewAndSeq(view: nat, sequence: nat)

  datatype Effect = Informed(view: nat) | SavedNewView(view: nat, sequence: nat) | Started(view: nat, sequence: nat)

  datatype State = State(
    checkpoint: Proposal,
    view: nat,
    decisions: nat,
    inFlight: Option<Proposal>,
    delivered: seq<nat>,             // the sequences handed to Application.Deliver
    effects: seq<Effect>)

  predicate Valid(s: State) {
    Decodes(s.checkpoint) && (s.inFlight.Some? ==> Decodes(s.inFlight.value))
  }

  function Latest(s: State): nat
    requires Valid(s)
  {
    SequenceOf(s.checkpoint)
  }

  // ---- the delivery gate ----

  function Deliver(s: State, p: Proposal, synced: Proposal): State
    requires Valid(s) && Decodes(p) && Decodes(synced)
  {
    if Latest(s) != 0 && Latest(s) >= SequenceOf(p) then s.(checkpoint := synced)
    else s.(checkpoint := p, delivered := s.delivered + [SequenceOf(p)])
  }

  // ---- synchronization ----

  datatype Target = Target(view: nat, sequence: nat, decisions: nat)

  const NOTHING := Target(0, 0, 0)

  /** The view, sequence and decisions that the synchronizer alone leads to. */
  function FromDecision(s: State, latest: Proposal): Target
    requires Valid(s) && Decodes(latest)
  {
    var md := Metadata(latest);
    Target(if md.viewId > s.view then md.viewId else s.view,
           if md.latestSequence > Latest(s) then md.latestSequence + 1 else Latest(s) + 1,
           if md.latestSequence > Latest(s) then md.decisionsInView + 1 else 0)
  }

  /** There is no new view to report. */
  predicate NoNews(s: State, latest: Proposal, response: Option<ViewAndSeq>)
    requires Decodes(latest)
  {
    if response.None? then Empty(latest) || Metadata(latest).viewId < s.view
    else response.value.view <= s.view && Metadata(latest).viewId < s.view
  }

  predicate TakesResponse(t: Target, latest: Proposal, response: Option<ViewAndSeq>)
    requires Decodes(latest)
  {
    response.Some? && response.value.view > t.view && response.value.sequence == SequenceOf(latest) + 1
  }

  predicate Prunes(s: State, latest: Proposal)
    requires Valid(s) && Decodes(latest)
  {
    !Empty(latest) && s.inFlight.Some? && SequenceOf(latest) >= SequenceOf(s.inFlight.value)
  }

  function SyncTarget(s: State, latest: Proposal, response: Option<ViewAndSeq>): Target
    requires Valid(s) && Decodes(latest)
  {
    var t := FromDecision(s, latest);
    if NoNews(s, latest, response) then NOTHING
    else if TakesResponse(t, latest, response) then Target(response.value.view, t.sequence, 0)
    else t
  }

  function AfterSync(s: State, latest: Proposal, response: Option<ViewAndSeq>): State
    requires Valid(s) && Decodes(latest)
  {
    var s1 := if SequenceOf(latest) > Latest(s) then s.(checkpoint := latest) else s;
    if NoNews(s, latest, response) then s1
    else
      var t := SyncTarget(s, latest, response);
      s1.(inFlight := if Prunes(s, latest) then None else s.inFlight,
          effects := s.effects
                     + (if TakesResponse(FromDecision(s, latest), latest, response)
                        then [SavedNewView(response.value.view, SequenceOf(latest))] else [])
                     + if t.view > s.view then [Informed(t.view)] else [])
  }

  // ---- changing views ----

  /** running: the current view has not stopped and its leader is still the leader. */
  function ChangeView(s: State, t: Target, running: bool): State {
    if s.view > t.view then s
    else if running && s.view == t.view && s.decisions == t.decisions then s
    else s.(view := t.view, decisions := t.decisions, effects := s.effects + [Started(t.view, t.sequence)])
  }

  // ---- the event loop ----

  datatype Event =
    | Decided(p: Proposal, synced: Proposal, rotate: bool, running: bool)
    | DeliveredInViewChange(p: Proposal, synced: Proposal)
    | ViewChanged(view: nat, sequence: nat, running: bool)
    | Synced(latest: Proposal, response: Option<ViewAndSeq>, current: nat, running: bool)

  /** What the environment promises: decided sequences start at 1, and the synchronizer does not return a decision
      older than the checkpoint where its answer is taken without looking. */
  ghost predicate Admissible(s: State, e: Event) {
    && Valid(s)
    && match e
       case Decided(p, synced, _, _) => Delivers(s, p, synced)
       case DeliveredInViewChange(p, synced) => Delivers(s, p, synced)
       case ViewChanged(_, _, _) => true
       case Synced(latest, _, _, _) => Decodes(latest)
  }

  ghost predicate Delivers(s: State, p: Proposal, synced: Proposal)
    requires Valid(s)
  {
    Decodes(p) && Decodes(synced) && SequenceOf(p) >= 1 && SequenceOf(synced) >= Latest(s)
  }

  function Handle(s: State, e: Event): State
    requires Admissible(s, e)
  {
    match e
    case Decided(p, synced, rotate, running) =>
      var s1 := Deliver(s, p, synced);
      var s2 := s1.(decisions := s1.decisions + 1);
      if rotate then ChangeView(s2, Target(s2.view, SequenceOf(p) + 1, s2.decisions), running) else s2
    case DeliveredInViewChange(p, synced) => Deliver(s, p, synced)
    case ViewChanged(view, sequence, running) => ChangeView(s, Target(view, sequence, 0), running)
    case Synced(latest, response, current, running) =>
      var t, s1 := SyncTarget(s, latest, response), AfterSync(s, latest, response);
      if t.view > 0 || t.sequence > 0 then ChangeView(s1, t, running)
      else ChangeView(s1, Target(s1.view, current, s1.decisions), running)
  }

  // ---- what every run keeps ----

  ghost predicate Increasing(ns: seq<nat>) {
    forall i, j :: 0 <= i < j < |ns| ==> ns[i] < ns[j]
  }

  /** Nothing delivered is past the checkpoint. */
  ghost predicate Sound(s: State) {
    && Valid(s) && Increasing(s.delivered)
    && forall i :: 0 <= i < |s.delivered| ==> 1 <= s.delivered[i] <= Latest(s)
  }

  /** Neither the view nor the checkpoint went back, and what was delivered stays delivered. */
  ghost predicate Forward(s: State, s': State)
    requires Valid(s) && Valid(s')
  {
    s'.view >= s.view && Latest(s') >= Latest(s) && s.delivered <= s'.delivered
  }

  lemma {:induction false} DeliverKeepsSound(s: State, p: Proposal, synced: Proposal)
    requires Sound(s) && Delivers(s, p, synced)
    ensures Sound(Deliver(s, p, synced)) && Latest(Deliver(s, p, synced)) >= Latest(s)
  {
  }

  /** A synchronization that reports something reports the sequence right after the (new) checkpoint and no older
      view. */
  lemma {:induction false} SyncAnswerFollowsCheckpoint(s: State, latest: Proposal, response: Option<ViewAndSeq>)
    requires Valid(s) && Decodes(latest)
    ensures var t, s1 := SyncTarget(s, latest, response), AfterSync(s, latest, response);
            && Valid(s1) && Latest(s1) >= Latest(s)
            && (t != NOTHING ==> t.sequence == Latest(s1) + 1 && t.view >= s.view)
            && (t == NOTHING <==> NoNews(s, latest, response))
  {
  }

  lemma {:induction false} HandleKeepsSound(s: State, e: Event)
    requires Sound(s) && Admissible(s, e)
    ensures Sound(Handle(s, e)) && Forward(s, Handle(s, e))
  {
    match e {
      case Decided(p, synced, _, _) => DeliverKeepsSound(s, p, synced);
      case DeliveredInViewChange(p, synced) => DeliverKeepsSound(s, p, synced);
      case ViewChanged(_, _, _) =>
      case Synced(latest, response, _, _) => SyncAnswerFollowsCheckpoint(s, latest, response);
    }
  }

  ghost predicate Run(states: seq<State>, events: seq<Event>) {
    && |states| == |events| + 1
    && forall k :: 0 <= k < |events| ==>
         Admissible(states[k], events[k]) && states[k + 1] == Handle(states[k], events[k])
  }

  /** Through any interleaving, the sequences handed to the application strictly increase, and view and checkpoint
      never go back. */
  lemma {:induction false} RunDeliversInOrder(states: seq<State>, events: seq<Event>)
    requires Run(states, events) && Sound(states[0])
    ensures Sound(states[|events|]) && Forward(states[0], states[|events|])
  {
    if events != [] {
      var n := |events| - 1;
      assert Run(states[..|events|], events[..n]);
      RunDeliversInOrder(states[..|events|], events[..n]);
      HandleKeepsSound(states[n], events[n]);
    }
  }

  /** The gate relies on the synchronizer: an answer older than the checkpoint lets a sequence through twice. */
  lemma {:induction false} OlderAnswerRedelivers(s: State, p: Proposal, older: Proposal)
    requires Sound(s) && Decodes(p) && Decodes(older) && 1 <= SequenceOf(p) <= Latest(s)
             && SequenceOf(older) < SequenceOf(p)
    requires SequenceOf(p) in s.delivered
    ensures !Increasing(Deliver(Deliver(s, p, older), p, older).delivered)
  {
    var again := Deliver(Deliver(s, p, older), p, older);
    var i :| 0 <= i < |s.delivered| && s.delivered[i] == SequenceOf(p);
    assert again.delivered[i] == again.delivered[|s.delivered|];
  }

  /** What the gate needs exactly: when it refuses a proposal, the synchronizer's answer is not older than what was
      delivered. */
  lemma {:induction false} GateCondition(s: State, p: Proposal, synced: Proposal)
    requires Sound(s) && Decodes(p) && Decodes(synced) && SequenceOf(p) >= 1
    ensures Sound(Deliver(s, p, synced))
       <==> (Latest(s) >= SequenceOf(p) && s.delivered != [] ==> SequenceOf(synced) >= s.delivered[|s.delivered| - 1])
  {
  }

  /** syncOnStart: where to start, given the answer of a synchronization. */
  function StartAt(start: Target, synced: Target): (t: Target)
    ensures t.view in {start.view, synced.view} && t.view >= start.view && t.view >= synced.view
    ensures t.sequence in {start.sequence, synced.sequence} && t.sequence >= start.sequence
            && t.sequence >= synced.sequence
    ensures if t.view == start.view && t.sequence == start.sequence then t == start else t.decisions == synced.decisions
  {
    Target(if synced.view > start.view then synced.view else start.view,
           if synced.sequence > start.sequence then synced.sequence else start.sequence,
           if synced.view > start.view || synced.sequence > start.sequence then synced.decisions else start.decisions)
  }

  // ---- the object ----

  class ControllerState {
    var checkpoint: Proposal
    var currViewNumber: nat
    var currDecisionsInView: nat
    var inFlight: Option<Proposal>
    var delivered: seq<nat>
    var effects: seq<Effect>

    ghost function Value(): State
      reads this
    {
      State(checkpoint, currViewNumber, currDecisionsInView, inFlight, delivered, effects)
    }

    constructor (checkpoint: Proposal, start: Target)
      requires Decodes(checkpoint)
      ensures Sound(Value())
      ensures Value() == State(checkpoint, start.view, start.decisions, None, [], [])
    {
      this.checkpoint, currViewNumber, currDecisionsInView, inFlight := checkpoint, start.view, start.decisions, None;
      delivered, effects := [], [];
    }

    method DeliverProposal(p: Proposal, synced: Proposal)
      requires Valid(Value()) && Decodes(p) && Decodes(synced)
      modifies this
      ensures Value() == Deliver(old(Value()), p, synced)
    {
      var latest := SequenceOf(checkpoint);
      if latest != 0 && latest >= SequenceOf(p) {
        checkpoint := synced;
        return;
      }
      delivered := delivered + [SequenceOf(p)];
      checkpoint := p;
    }

    method MaybePruneInFlight(md: ViewMetadata)
      requires Valid(Value())
      modifies this`inFlight
      ensures inFlight ==
              if old(inFlight).Some? && md.latestSequence >= SequenceOf(old(inFlight).value) then None
                  else old(inFlight)
    {
      if inFlight.None? {
        return;
      }
      if md.latestSequence < SequenceOf(inFlight.value) {
        return;
      }
      inFlight := None;
    }

    /** The part of sync after the state was fetched. */
    method TakeState(latest: Proposal, response: Option<ViewAndSeq>, t: Target) returns (r: Target)
      requires Valid(Value()) && Decodes(latest)
      modifies this`inFlight, this`effects
      ensures r == if TakesResponse(t, latest, response) then Target(response.value.view, t.sequence, 0) else t
      ensures inFlight == if Prunes(old(Value()), latest) then None else old(inFlight)
      ensures effects == old(effects)
                         + (if TakesResponse(t, latest, response)
                            then [SavedNewView(response.value.view, SequenceOf(latest))] else [])
                         + (if r.view > currViewNumber then [Informed(r.view)] else [])
    {
      r := t;
      if response.Some? && response.value.view > t.view && response.value.sequence == SequenceOf(latest) + 1 {
        effects := effects + [SavedNewView(response.value.view, SequenceOf(latest))];
        r := Target(response.value.view, t.sequence, 0);
      }
      if !Empty(latest) {
        MaybePruneInFlight(Metadata(latest));
      }
      if r.view > currViewNumber {
        effects := effects + [Informed(r.view)];
      }
    }

    method SyncState(latest: Proposal, response: Option<ViewAndSeq>) returns (r: Target)
      requires Valid(Value()) && Decodes(latest)
      modifies this
      ensures r == SyncTarget(old(Value()), latest, response) && Value() == AfterSync(old(Value()), latest, response)
    {
      var md := Metadata(latest);
      var controllerSequence := SequenceOf(checkpoint);
      r := Target(currViewNumber, controllerSequence + 1, 0);
      if md.latestSequence > controllerSequence {
        checkpoint := latest;
        r := r.(sequence := md.latestSequence + 1, decisions := md.decisionsInView + 1);
      }
      if md.viewId > currViewNumber {
        r := r.(view := md.viewId);
      }
      if response.None? {
        if Empty(latest) || md.viewId < currViewNumber {
          return NOTHING;
        }
      } else if response.value.view <= currViewNumber && md.viewId < currViewNumber {
        return NOTHING;
      }
      r := TakeState(latest, response, r);
    }

    method MoveToView(t: Target, running: bool)
      modifies this
      ensures Value() == ChangeView(old(Value()), t, running)
    {
      if currViewNumber > t.view {
        return;
      }
      if running && currViewNumber == t.view && currDecisionsInView == t.decisions {
        return;
      }
      currViewNumber := t.view;
      currDecisionsInView := t.decisions;
      effects := effects + [Started(t.view, t.sequence)];
    }

    method OnDecision(p: Proposal, synced: Proposal, rotate: bool, running: bool)
      requires Sound(Value()) && Delivers(Value(), p, synced)
      modifies this
      ensures Value() == Handle(old(Value()), Decided(p, synced, rotate, running))
      ensures Sound(Value()) && Forward(old(Value()), Value())
    {
      HandleKeepsSound(Value(), Decided(p, synced, rotate, running));
      DeliverProposal(p, synced);
      currDecisionsInView := currDecisionsInView + 1;
      if rotate {
        MoveToView(Target(currViewNumber, SequenceOf(p) + 1, currDecisionsInView), running);
      }
    }

    method OnSync(latest: Proposal, response: Option<ViewAndSeq>, current: nat, running: bool)
      requires Sound(Value()) && Decodes(latest)
      modifies this
      ensures Value() == Handle(old(Value()), Synced(latest, response, current, running))
      ensures Sound(Value()) && Forward(old(Value()), Value())
    {
      HandleKeepsSound(Value(), Synced(latest, response, current, running));
      var t := SyncState(latest, response);
      if t.view > 0 || t.sequence > 0 {
        MoveToView(t, running);
      } else {
        MoveToView(Target(currViewNumber, current, currDecisionsInView), running);
      }
    }

    /** One turn of the event loop, and the delivery inside a view change. */
    method Process(e: Event)
      requires Sound(Value()) && Admissible(Value(), e)
      modifies this
      ensures Value() == Handle(old(Value()), e)
      ensures Sound(Value()) && Forward(old(Value()), Value())
    {
      HandleKeepsSound(Value(), e);
      match e {
        case Decided(p, synced, rotate, running) => OnDecision(p, synced, rotate, running);
        case DeliveredInViewChange(p, synced) => DeliverProposal(p, synced);
        case ViewChanged(view, sequence, running) => MoveToView(Target(view, sequence, 0), running);
        case Synced(latest, response, current, running) => OnSync(latest, response, current, running);
      }
    }
  }
}
