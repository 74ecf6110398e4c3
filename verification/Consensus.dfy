/** A cluster running one view: the correct replicas take the steps of Replica in any order, the faulty ones send
    anything they like, and the network delays, reorders, duplicates and loses messages at will.

    Assumptions, each visible below: channels and signatures are authentic (Deliverable, Messages.Signature); a
    replica that restarts inside the view does so at a sequence it has not voted at (MayRestart); a replica builds
    view data only after its view has ended, and does not rejoin the view afterwards (phase ABORT, MayRestart); a
    replica overtaken by a synchronization has somebody to synchronize from (StepEnabled). */
module Consensus {
  import opened Messages
  import opened Quorum
  import opened Replica

  datatype Cluster = Cluster(nodes: set<NodeId>, faulty: set<NodeId>, view: nat)
  {
    ghost predicate Valid() {
      nodes != {} && faulty <= nodes && |faulty| <= F()
    }
    function Q(): nat { ComputeQuorum(|nodes|).q }
    function F(): nat { ComputeQuorum(|nodes|).f }
    predicate Correct(i: NodeId) { i in nodes && i !in faulty }
  }

  /** InFlightData: the last proposal saved, and whether a commit for it was saved too. */
  datatype InFlightData = InFlightData(proposal: Proposal, prepared: bool)

  datatype Decision = Decision(sequence: nat, proposal: Proposal, signatures: seq<Signature>)

  datatype Node = Node(
    view: View,
    inFlight: Option<InFlightData>,
    logged: Option<InFlightData>,        // what the log ends with, if that is a proposal of this view
    checkpoint: Proposal,
    checkpointSignatures: seq<Signature>,
    committedDuringViewChange: Option<ViewMetadata>,
    decisions: set<Decision>,
    viewData: set<ViewData>)

  datatype Sending = Sending(from: NodeId, msg: Message)

  datatype System = System(nodes: map<NodeId, Node>, sent: set<Sending>)

  // ---- one node ----

  predicate AcceptsNow(v: View, e: Event)
    requires WellFormed(v) && Enabled(v, e)
  {
    e.TakePrePrepare? && MetadataMatches(v, Offered(v)) && e.restValid
  }

  /** PersistedState.Save, as far as the in-flight data and the end of the log go. */
  function SavedAfter(was: Option<InFlightData>, v: View, e: Event): Option<InFlightData>
    requires WellFormed(v) && Enabled(v, e)
  {
    if AcceptsNow(v, e) then Some(InFlightData(Offered(v), false))
    else if e.BecomePrepared? && was.Some? then Some(InFlightData(was.value.proposal, true))
    else was
  }

  /** A view event together with its effect on the in-flight data and the checkpoint. */
  function NodeStep(n: Node, e: Event): Node
    requires WellFormed(n.view) && Enabled(n.view, e)
  {
    var n' := n.(view := Apply(n.view, e), inFlight := SavedAfter(n.inFlight, n.view, e),
        logged := SavedAfter(n.logged, n.view, e));
    if e.Decide? then
      var p, sigs := n.view.inFlight.value, DecisionSignatures(n.view);
      n'.(checkpoint := p, checkpointSignatures := sigs,
          decisions := n.decisions + {Decision(n.view.sequence, p, sigs)})
    else n'
  }

  /** A view rebuilt from the log after a crash: phase, proposal and vote survive, collected votes do not. */
  function Recovered(v: View): View {
    match v.phase
    case PROPOSED => NewView(v.cfg, v.sequence, v.decisionsInView).(phase := PROPOSED, inFlight := v.inFlight,
        lastBroadcast := v.lastBroadcast)
    case PREPARED => NewView(v.cfg, v.sequence, v.decisionsInView).(phase := PREPARED, inFlight := v.inFlight,
        lastBroadcast := v.lastBroadcast, mySignature := v.mySignature)
    case _ => NewView(v.cfg, v.sequence, v.decisionsInView)
  }

  /** The log ends with a proposal that was never prepared here, and the checkpoint has passed it. */
  predicate Overtaken(logged: Option<InFlightData>, checkpoint: nat) {
    logged.Some? && !logged.value.prepared && logged.value.proposal.Sequence() <= checkpoint
  }

  /** What a view becomes in a crash. Restoring a proposal compares no sequences, so one that was overtaken comes back
      as the proposal at hand, in a view that is already past it. */
  function Crashed(v: View, logged: Option<InFlightData>, checkpoint: nat): View {
    if Overtaken(logged, checkpoint) then
      var p := logged.value.proposal;
      NewView(v.cfg, checkpoint + 1, v.decisionsInView).(phase := PROPOSED, inFlight := Some(p),
        lastBroadcast := Some(Prepare(v.cfg.number, p.Sequence(), DigestOf(p), false)))
    else Recovered(v)
  }

  /** A view that came back that way. */
  predicate Behind(v: View) {
    v.phase == PROPOSED && v.inFlight.Some? && v.inFlight.value.Sequence() < v.sequence
  }

  function CrashedInFlight(phase: Phase, inFlight: Option<InFlightData>, logged: Option<InFlightData>,
      checkpoint: nat): Option<InFlightData> {
    if Overtaken(logged, checkpoint) then logged else if phase == COMMITTED then None else inFlight
  }

  function CrashNode(n: Node): Node {
    n.(view := Crashed(n.view, n.logged, n.checkpoint.Sequence()),
       inFlight := CrashedInFlight(n.view.phase, n.inFlight, n.logged, n.checkpoint.Sequence()))
  }

  /** The in-flight proposal belongs to an earlier view or to a sequence the checkpoint has reached. */
  predicate Stale(inFlight: Option<InFlightData>, view: nat, checkpoint: nat) {
    inFlight.Some? ==>
      var p := inFlight.value.proposal;
      p.metadata.Encoded? && (p.Sequence() <= checkpoint || p.metadata.md.viewId < view)
  }

  /** A new View instance after a leader rotation or a synchronization to a checkpoint that is not older. */
  predicate MayRestart(n: Node, checkpoint: Proposal) {
    && n.viewData == {}
    && !checkpoint.metadata.Malformed?
    && checkpoint.Sequence() >= n.checkpoint.Sequence()
    && Stale(n.inFlight, n.view.cfg.number, checkpoint.Sequence())
  }

  function RestartNode(n: Node, leader: NodeId, checkpoint: Proposal, sigs: seq<Signature>, decisionsInView: nat,
      prune: bool): Node {
    n.(view := NewView(n.view.cfg.(leaderId := leader), checkpoint.Sequence() + 1, decisionsInView),
       inFlight := if prune then None else n.inFlight,
       checkpoint := checkpoint, checkpointSignatures := sigs)
  }

  /** getInFlight: the proposal to report, given the last decision. */
  function GetInFlight(inFlight: Option<InFlightData>, lastDecision: Proposal,
      committed: Option<ViewMetadata>): Option<Proposal> {
    if inFlight.None? then None
    else
      var p := inFlight.value.proposal;
      var last := lastDecision.Sequence();
      if lastDecision.metadata.Absent? then Some(p)
      else if p.Sequence() == last then None
      else if p.Sequence() + 1 == last && committed.Some? && committed.value.latestSequence == last then None
      else Some(p)
  }

  /** prepareViewDataMsg. */
  function PrepareViewData(n: Node, nextView: nat): ViewData {
    ViewData(nextView, Some(n.checkpoint), n.checkpointSignatures,
             GetInFlight(n.inFlight, n.checkpoint, n.committedDuringViewChange),
             n.inFlight.Some? && n.inFlight.value.prepared)
  }

  // ---- the cluster ----

  datatype Step =
    | Local(i: NodeId, e: Event)
    | Propose(i: NodeId, m: Message)
    | Restart(i: NodeId, leader: NodeId, checkpoint: Proposal, sigs: seq<Signature>, decisionsInView: nat, prune: bool)
    | Crash(i: NodeId)
    | DeliverInViewChange(i: NodeId, checkpoint: Proposal, sigs: seq<Signature>)
    | BuildViewData(i: NodeId)

  /** A message is delivered from a correct node only if that node sent it. */
  predicate Deliverable(c: Cluster, sent: set<Sending>, sender: NodeId, m: Message) {
    sender in c.nodes && (c.Correct(sender) ==> Sending(sender, m) in sent)
  }

  predicate StepEnabled(c: Cluster, s: System, step: Step) {
    && c.Correct(step.i) && step.i in s.nodes
    && var n := s.nodes[step.i];
       match step
       case Local(_, e) =>
         WellFormed(n.view) && Enabled(n.view, e) && (e.Receive? ==> Deliverable(c, s.sent, e.sender, e.msg))
       case Propose(_, m) => m.PrePrepare? && n.view.phase != ABORT
       case Restart(_, _, checkpoint, _, _, _) => MayRestart(n, checkpoint)
       case Crash(_) => n.view.phase != ABORT && (Overtaken(n.logged, n.checkpoint.Sequence()) ==> |c.nodes| > 1)
       case DeliverInViewChange(_, checkpoint, _) =>
         n.view.phase == ABORT && checkpoint.metadata.Encoded? && checkpoint.Sequence() > n.checkpoint.Sequence()
       case BuildViewData(_) => n.view.phase == ABORT
  }

  function NodeAfter(c: Cluster, s: System, step: Step): Node
    requires StepEnabled(c, s, step)
  {
    var n := s.nodes[step.i];
    match step
    case Local(_, e) => NodeStep(n, e)
    case Propose(_, _) => n
    case Restart(_, leader, checkpoint, sigs, dec, prune) => RestartNode(n, leader, checkpoint, sigs, dec, prune)
    case Crash(_) => CrashNode(n)
    case DeliverInViewChange(_, checkpoint, sigs) =>
      n.(checkpoint := checkpoint, checkpointSignatures := sigs,
         committedDuringViewChange := Some(checkpoint.metadata.md))
    case BuildViewData(_) => n.(viewData := n.viewData + {PrepareViewData(n, c.view + 1)})
  }

  function SentBy(c: Cluster, s: System, step: Step): set<Message>
    requires StepEnabled(c, s, step)
  {
    match step
    case Local(i, e) => Sent(s.nodes[i].view, e)
    case Propose(_, m) => {m}
    case _ => {}
  }

  function Next(c: Cluster, s: System, step: Step): System
    requires StepEnabled(c, s, step)
  {
    System(s.nodes[step.i := NodeAfter(c, s, step)],
           s.sent + set m | m in SentBy(c, s, step) :: Sending(step.i, m))
  }

  /** Every correct node starts the view right after its checkpoint, with nothing saved in this view yet. */
  ghost predicate Init(c: Cluster, s: System) {
    && s.sent == {}
    && s.nodes.Keys == c.nodes - c.faulty
    && forall i :: i in s.nodes ==> InitNode(c, i, s.nodes[i])
  }

  ghost predicate InitNode(c: Cluster, i: NodeId, n: Node) {
    && n.view == NewView(n.view.cfg, n.checkpoint.Sequence() + 1, n.view.decisionsInView)
    && n.view.cfg == Config(i, n.view.cfg.leaderId, c.Q(), c.view)
    && !n.checkpoint.metadata.Malformed?
    && Stale(n.inFlight, c.view, n.checkpoint.Sequence()) && n.logged == None
    && n.decisions == {} && n.viewData == {}
  }

  /** A finite run of the cluster: any steps, in any order. */
  ghost predicate Execution(c: Cluster, run: seq<System>, steps: seq<Step>) {
    && c.Valid()
    && |run| == |steps| + 1
    && Init(c, run[0])
    && forall k :: 0 <= k < |steps| ==> StepEnabled(c, run[k], steps[k]) && run[k + 1] == Next(c, run[k], steps[k])
  }
}
