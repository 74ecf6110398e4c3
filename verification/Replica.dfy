/** One replica's three-phase view as a state machine: each event is one iteration of the view's
    select loops, so every interleaving of arriving messages with the phase logic is a sequence of events. */
module Replica {
  import opened Messages
  import opened Votes

  datatype Phase = COMMITTED | PROPOSED | PREPARED | ABORT

  datatype Config = Config(selfId: NodeId, leaderId: NodeId, quorum: nat, number: nat)

  /** What arrived for the current and the next sequence; a pre-prepare channel holds one message. */
  datatype Mailbox = Mailbox(
    prePrepare: Option<Message>,
    nextPrePrepare: Option<Message>,
    prepares: Ballot,
    nextPrepares: Ballot,
    commits: Ballot,
    nextCommits: Ballot)

  /** The votes sent at this sequence and, to help lagging replicas, at the previous one. */
  datatype Outbox = Outbox(
    currPrepare: Option<Message>,
    currCommit: Option<Message>,
    prevPrepare: Option<Message>,
    prevCommit: Option<Message>)

  datatype View = View(
    cfg: Config,
    sequence: nat,
    decisionsInView: nat,
    phase: Phase,
    stopped: bool,                       // abortChan is closed
    waiting: bool,                       // inside the receive loop of processProposal
    box: Mailbox,
    inFlight: Option<Proposal>,
    voters: seq<NodeId>,                 // prepares counted so far
    verifying: set<Vote>,                // commit votes handed to a verifier goroutine
    signatures: seq<Signature>,          // commit signatures counted so far
    mySignature: Option<Signature>,
    lastBroadcast: Option<Message>,
    out: Outbox)

  const EMPTY_MAILBOX := Mailbox(None, None, EMPTY_BALLOT, EMPTY_BALLOT, EMPTY_BALLOT, EMPTY_BALLOT)
  const EMPTY_OUTBOX := Outbox(None, None, None, None)

  /** A view as NewProposer builds it and Start sets it up. */
  function NewView(cfg: Config, sequence: nat, decisionsInView: nat): View {
    View(cfg, sequence, decisionsInView, COMMITTED, false, false, EMPTY_MAILBOX,
         None, [], {}, [], None, None, EMPTY_OUTBOX)
  }

  datatype Event =
    | Receive(sender: NodeId, msg: Message)
    | BeginProposal
    | TakePrePrepare(restValid: bool)    // the verdict of the checks that are not on view, sequence and decisions
    | TakePrepare
    | BecomePrepared
    | TakeCommit
    | VerifyVote(vote: Vote)
    | Decide
    | Stop
    | NoticeAbort

  // ---- processMsg and its helpers ----

  /** handlePrevSeqMessage: help a replica that lags one sequence behind, unless it was itself helping. */
  function AssistReply(out: Outbox, m: Message): Option<Message> {
    match m
    case Prepare(_, _, _, assist) => if assist then None else out.prevPrepare
    case Commit(_, _, _, _, assist) => if assist then None else out.prevCommit
    case _ => None
  }

  /** A pre-prepare is kept if it carries a proposal, comes from the leader and its channel is free. */
  function StorePrePrepare(box: Mailbox, fromLeader: bool, m: Message, next: bool): Mailbox
    requires m.PrePrepare?
  {
    if m.proposal.None? || !fromLeader then box
    else if next then
      if box.nextPrePrepare.None? then box.(nextPrePrepare := Some(m)) else box
    else
      if box.prePrepare.None? then box.(prePrepare := Some(m)) else box
  }

  function StoreVote(box: Mailbox, sender: NodeId, m: Message, next: bool): Mailbox {
    match m
    case Prepare(_, _, _, _) =>
      if next then box.(nextPrepares := box.nextPrepares.Register(Prepares, sender, m))
      else box.(prepares := box.prepares.Register(Prepares, sender, m))
    case Commit(_, _, _, _, _) =>
      if next then box.(nextCommits := box.nextCommits.Register(Commits, sender, m))
      else box.(commits := box.commits.Register(Commits, sender, m))
    case _ => box
  }

  function Store(v: View, sender: NodeId, m: Message): Mailbox {
    var next := ProposalSequence(m) == v.sequence + 1;
    if m.PrePrepare? then StorePrePrepare(v.box, sender == v.cfg.leaderId, m, next)
    else if sender == v.cfg.selfId then v.box
    else StoreVote(v.box, sender, m, next)
  }

  function ProcessMsg(v: View, sender: NodeId, m: Message): View {
    if v.stopped then v
    else if ViewNumber(m) != v.cfg.number then
      if sender != v.cfg.leaderId then v else v.(stopped := true)
    else if v.sequence > 0 && ProposalSequence(m) == v.sequence - 1 then v
    else if ProposalSequence(m) != v.sequence && ProposalSequence(m) != v.sequence + 1 then v
    else v.(box := Store(v, sender, m))
  }

  /** What ProcessMsg sends back. */
  function ReplyTo(v: View, m: Message): Option<Message> {
    if !v.stopped && ViewNumber(m) == v.cfg.number && v.sequence > 0 && ProposalSequence(m) == v.sequence - 1
    then AssistReply(v.out, m) else None
  }

  // ---- the phases ----

  predicate MetadataMatches(v: View, p: Proposal) {
    var md := p.metadata.Decode();
    && md.Some?
    && md.value.viewId == v.cfg.number
    && md.value.latestSequence == v.sequence
    && md.value.decisionsInView == v.decisionsInView
  }

  function Begin(v: View): View {
    v.(out := Outbox(None, None, v.out.currPrepare, v.out.currCommit),
       inFlight := None, lastBroadcast := None, waiting := true)
  }

  function PrepareMessage(v: View, p: Proposal, assist: bool): Message {
    Prepare(v.cfg.number, v.sequence, DigestOf(p), assist)
  }

  function AcceptProposal(v: View, p: Proposal): View {
    v.(box := v.box.(prePrepare := None), waiting := false, phase := PROPOSED, inFlight := Some(p), voters := [],
       lastBroadcast := Some(PrepareMessage(v, p, false)),
       out := v.out.(currPrepare := Some(PrepareMessage(v, p, true))))
  }

  function RejectProposal(v: View): View {
    v.(box := v.box.(prePrepare := None), waiting := false, stopped := true, phase := ABORT)
  }

  function CountPrepare(v: View): View
    requires v.box.prepares.votes != [] && v.inFlight.Some?
  {
    var vote := v.box.prepares.votes[0];
    var v' := v.(box := v.box.(prepares := v.box.prepares.Pop()));
    if vote.msg.Prepare? && vote.msg.digest == DigestOf(v.inFlight.value) then v'.(voters := v.voters + [vote.sender])
    else v'
  }

  /** The ids a commit signature attests to; an empty list encodes to no bytes at all. */
  function AuxiliaryOf(voters: seq<NodeId>): Auxiliary {
    if voters == [] then NoAuxiliary else PreparesFrom(voters)
  }

  function Sign(v: View): Signature
    requires v.inFlight.Some?
  {
    Signature(v.cfg.selfId, v.inFlight.value, AuxiliaryOf(v.voters))
  }

  function CommitMessage(v: View, assist: bool): Message
    requires v.inFlight.Some?
  {
    Commit(v.cfg.number, v.sequence, DigestOf(v.inFlight.value), Some(Sign(v)), assist)
  }

  function Prepared(v: View): View
    requires v.inFlight.Some?
  {
    v.(phase := PREPARED, mySignature := Some(Sign(v)), lastBroadcast := Some(CommitMessage(v, false)),
       out := v.out.(currCommit := Some(CommitMessage(v, true))), verifying := {}, signatures := [])
  }

  /** verifyVote: the digest matches and the signature is on the proposal at hand. */
  predicate CommitCounts(v: View, vote: Vote) {
    && v.inFlight.Some?
    && vote.msg.Commit? && vote.msg.signature.Some?
    && vote.msg.digest == DigestOf(v.inFlight.value)
    && vote.msg.signature.value.subject == v.inFlight.value
  }

  function DispatchCommit(v: View): View
    requires v.box.commits.votes != []
  {
    v.(box := v.box.(commits := v.box.commits.Pop()), verifying := v.verifying + {v.box.commits.votes[0]})
  }

  function CountCommit(v: View, vote: Vote): View {
    var v' := v.(verifying := v.verifying - {vote});
    if CommitCounts(v, vote) then v'.(signatures := v.signatures + [vote.msg.signature.value]) else v'
  }

  function Swap(box: Mailbox): Mailbox {
    Mailbox(box.nextPrePrepare, None, box.nextPrepares, EMPTY_BALLOT, box.nextCommits, EMPTY_BALLOT)
  }

  function StartNextSeq(v: View): View {
    v.(sequence := v.sequence + 1, decisionsInView := v.decisionsInView + 1, box := Swap(v.box))
  }

  function Decided(v: View): View {
    StartNextSeq(v).(phase := COMMITTED, waiting := false, verifying := {}, signatures := [])
  }

  /** The signatures a decision is delivered with: the counted ones and the node's own. */
  function DecisionSignatures(v: View): seq<Signature>
    requires v.mySignature.Some?
  {
    v.signatures + [v.mySignature.value]
  }

  // ---- the machine ----

  predicate Enabled(v: View, e: Event) {
    && v.phase != ABORT
    && match e
       case Receive(_, _) => true
       case BeginProposal => v.phase == COMMITTED && !v.waiting
       case TakePrePrepare(_) => v.phase == COMMITTED && v.waiting && v.box.prePrepare.Some?
       case TakePrepare => v.phase == PROPOSED && |v.voters| + 1 < v.cfg.quorum && v.box.prepares.votes != []
       case BecomePrepared => v.phase == PROPOSED && |v.voters| + 1 >= v.cfg.quorum
       case TakeCommit => v.phase == PREPARED && |v.signatures| + 1 < v.cfg.quorum && v.box.commits.votes != []
       case VerifyVote(vote) => v.phase == PREPARED && |v.signatures| + 1 < v.cfg.quorum && vote in v.verifying
       case Decide => v.phase == PREPARED && |v.signatures| + 1 >= v.cfg.quorum
       case Stop => true
       case NoticeAbort => v.stopped
  }

  predicate CarriesProposal(m: Option<Message>) {
    m.Some? ==> m.value.PrePrepare? && m.value.proposal.Some?
  }

  /** What the phases rely on without checking. */
  predicate WellFormed(v: View) {
    && CarriesProposal(v.box.prePrepare)
    && CarriesProposal(v.box.nextPrePrepare)
    && (v.phase == PROPOSED || v.phase == PREPARED ==> v.inFlight.Some?)
    && (v.phase == PREPARED ==> v.mySignature.Some?)
  }

  function Offered(v: View): Proposal
    requires v.box.prePrepare.Some? && CarriesProposal(v.box.prePrepare)
  {
    v.box.prePrepare.value.proposal.value
  }

  function Apply(v: View, e: Event): (v': View)
    requires WellFormed(v) && Enabled(v, e)
    ensures WellFormed(v') && v'.cfg == v.cfg
  {
    match e
    case Receive(sender, m) => ProcessMsg(v, sender, m)
    case BeginProposal => Begin(v)
    case TakePrePrepare(restValid) =>
      if MetadataMatches(v, Offered(v)) && restValid then AcceptProposal(v, Offered(v)) else RejectProposal(v)
    case TakePrepare => CountPrepare(v)
    case BecomePrepared => Prepared(v)
    case TakeCommit => DispatchCommit(v)
    case VerifyVote(vote) => CountCommit(v, vote)
    case Decide => Decided(v)
    case Stop => v.(stopped := true)
    case NoticeAbort => v.(phase := ABORT)
  }

  /** What an event puts on the wire. The vote of a phase is offered to the network once the phase is entered;
      the rebroadcasts of doPhase repeat it. */
  function Sent(v: View, e: Event): set<Message>
    requires WellFormed(v) && Enabled(v, e)
  {
    match e
    case Receive(_, m) => var r := ReplyTo(v, m); if r.Some? then {r.value} else {}
    case TakePrePrepare(restValid) =>
      if MetadataMatches(v, Offered(v)) && restValid then
        {PrepareMessage(v, Offered(v), false)}
        + (if v.cfg.selfId == v.cfg.leaderId then {v.box.prePrepare.value} else {})
      else {}
    case BecomePrepared => {CommitMessage(v, false)}
    case _ => {}
  }

  // ---- double buffering: one tally per sequence ----

  /** A message the view looked at, with its sender. */
  datatype Heard = Heard(sender: NodeId, msg: Message)

  /** Whether a message counts as a vote of another node for this view and sequence. */
  predicate VoteFor(cfg: Config, sequence: nat, h: Heard) {
    !h.msg.Unrelated? && h.msg.view == cfg.number && h.msg.sequence == sequence && h.sender != cfg.selfId
  }

  /** Reference definition: the votes of one kind for one sequence, as a single vote set that lived
      from the start would hold them, no matter when the view reached that sequence. */
  function Tally(log: seq<Heard>, kind: Kind, cfg: Config, sequence: nat): Ballot {
    if log == [] then EMPTY_BALLOT
    else
      var before := Tally(log[..|log| - 1], kind, cfg, sequence);
      var h := log[|log| - 1];
      if VoteFor(cfg, sequence, h) then before.Register(kind, h.sender, h.msg) else before
  }

  /** Whether a message is for the current or the next sequence of a running view; all others are dropped. */
  predicate Relevant(v: View, m: Message) {
    !v.stopped && !m.Unrelated? && m.view == v.cfg.number && (m.sequence == v.sequence || m.sequence == v.sequence + 1)
  }

  /** A view, the relevant messages it heard so far, and how many of them when it last took a pre-prepare at its current
      sequence. */
  datatype History = History(view: View, log: seq<Heard>, taken: nat)

  function Begun(cfg: Config, sequence: nat, decisionsInView: nat): History {
    History(NewView(cfg, sequence, decisionsInView), [], 0)
  }

  function Extend(h: History, e: Event): History
    requires WellFormed(h.view) && Enabled(h.view, e)
  {
    History(Apply(h.view, e),
            if e.Receive? && Relevant(h.view, e.msg) then h.log + [Heard(e.sender, e.msg)] else h.log,
            if e.TakePrePrepare? then |h.log| else if e.Decide? then 0 else h.taken)
  }

  /** Runs a view through a list of events; None if one of them cannot happen. */
  function Run(h: History, events: seq<Event>): Option<History>
    requires WellFormed(h.view)
    decreases |events|
  {
    if events == [] then Some(h)
    else if !Enabled(h.view, events[0]) then None
    else Run(Extend(h, events[0]), events[1..])
  }

  ghost predicate SuffixOf(part: seq<Vote>, whole: seq<Vote>) {
    |part| <= |whole| && part == whole[|whole| - |part|..]
  }

  /** current: whatever is left of the tally of this sequence; next: the whole tally of the next one. */
  ghost predicate Buffers(v: View, log: seq<Heard>, kind: Kind, current: Ballot, next: Ballot) {
    var tally := Tally(log, kind, v.cfg, v.sequence);
    && current.voted == tally.voted
    && SuffixOf(current.votes, tally.votes)
    && next == Tally(log, kind, v.cfg, v.sequence + 1)
  }

  ghost predicate NothingAhead(log: seq<Heard>, sequence: nat) {
    forall k :: 0 <= k < |log| ==> !log[k].msg.Unrelated? && log[k].msg.sequence <= sequence
  }

  ghost predicate Buffered(h: History) {
    && NothingAhead(h.log, h.view.sequence + 1)
    && Buffers(h.view, h.log, Prepares, h.view.box.prepares, h.view.box.nextPrepares)
    && Buffers(h.view, h.log, Commits, h.view.box.commits, h.view.box.nextCommits)
  }

  lemma {:induction false} TallyOfNothing(log: seq<Heard>, kind: Kind, cfg: Config, sequence: nat)
    requires sequence > 0 && NothingAhead(log, sequence - 1)
    ensures Tally(log, kind, cfg, sequence) == EMPTY_BALLOT
  {
    if log != [] {
      TallyOfNothing(log[..|log| - 1], kind, cfg, sequence);
    }
  }

  lemma {:induction false} TallyStep(log: seq<Heard>, h: Heard, kind: Kind, cfg: Config, sequence: nat)
    ensures Tally(log + [h], kind, cfg, sequence)
            == if VoteFor(cfg, sequence, h) then Tally(log, kind, cfg, sequence).Register(kind, h.sender, h.msg)
               else Tally(log, kind, cfg, sequence)
  {
  }

  /** A tally holds votes of its kind for its view and sequence only, one per other node, each of them heard. */
  lemma {:induction false} TallyIsPure(log: seq<Heard>, kind: Kind, cfg: Config, sequence: nat)
    ensures var t := Tally(log, kind, cfg, sequence);
            && OnePerSender(t) && cfg.selfId !in t.voted
            && forall k :: 0 <= k < |t.votes| ==>
                 && ValidVote(kind, t.votes[k].sender, t.votes[k].msg)
                 && t.votes[k].msg.view == cfg.number && t.votes[k].msg.sequence == sequence
                 && Heard(t.votes[k].sender, t.votes[k].msg) in log
  {
    if log != [] {
      TallyIsPure(log[..|log| - 1], kind, cfg, sequence);
    }
  }

  lemma {:induction false} SuffixGrows(part: seq<Vote>, whole: seq<Vote>, x: Vote)
    requires SuffixOf(part, whole)
    ensures SuffixOf(part + [x], whole + [x])
  {
  }

  lemma {:induction false} RegisterKeepsBuffers(v: View, log: seq<Heard>, kind: Kind, current: Ballot, next: Ballot,
      h: Heard)
    requires Buffers(v, log, kind, current, next) && !h.msg.Unrelated? && h.msg.view == v.cfg.number
    requires h.msg.sequence == v.sequence || h.msg.sequence == v.sequence + 1
    ensures var mine := h.sender == v.cfg.selfId;
            var ahead := h.msg.sequence == v.sequence + 1;
            Buffers(v, log + [h], kind,
                    if mine || ahead then current else current.Register(kind, h.sender, h.msg),
                    if mine || !ahead then next else next.Register(kind, h.sender, h.msg))
  {
    TallyStep(log, h, kind, v.cfg, v.sequence);
    TallyStep(log, h, kind, v.cfg, v.sequence + 1);
    SuffixGrows(current.votes, Tally(log, kind, v.cfg, v.sequence).votes, Vote(h.sender, h.msg));
  }

  lemma {:induction false} ReceiveKeepsBuffers(h: History, sender: NodeId, m: Message)
    requires WellFormed(h.view) && Buffered(h) && h.view.phase != ABORT
    ensures Buffered(Extend(h, Receive(sender, m)))
  {
    var v := h.view;
    if Relevant(v, m) {
      var heard := Heard(sender, m);
      RegisterKeepsBuffers(v, h.log, Prepares, v.box.prepares, v.box.nextPrepares, heard);
      RegisterKeepsBuffers(v, h.log, Commits, v.box.commits, v.box.nextCommits, heard);
      assert m.Prepare? || !ValidVote(Prepares, sender, m);
      assert m.Commit? || !ValidVote(Commits, sender, m);
    }
  }

  lemma {:induction false} DecideKeepsBuffers(h: History)
    requires WellFormed(h.view) && Enabled(h.view, Decide) && Buffered(h)
    ensures Buffered(Extend(h, Decide))
  {
    TallyOfNothing(h.log, Prepares, h.view.cfg, h.view.sequence + 2);
    TallyOfNothing(h.log, Commits, h.view.cfg, h.view.sequence + 2);
  }

  lemma {:induction false} PopKeepsBuffers(v: View, v': View, log: seq<Heard>, kind: Kind, current: Ballot,
      next: Ballot)
    requires Buffers(v, log, kind, current, next) && current.votes != []
    requires v'.cfg == v.cfg && v'.sequence == v.sequence
    ensures Buffers(v', log, kind, current.Pop(), next)
  {
  }

  lemma {:induction false} EventKeepsBuffers(h: History, e: Event)
    requires WellFormed(h.view) && Enabled(h.view, e) && Buffered(h)
    ensures Buffered(Extend(h, e))
  {
    if e.Receive? {
      ReceiveKeepsBuffers(h, e.sender, e.msg);
    } else if e.Decide? {
      DecideKeepsBuffers(h);
    } else if e.TakePrepare? {
      PopKeepsBuffers(h.view, CountPrepare(h.view), h.log, Prepares, h.view.box.prepares, h.view.box.nextPrepares);
    } else if e.TakeCommit? {
      PopKeepsBuffers(h.view, DispatchCommit(h.view), h.log, Commits, h.view.box.commits, h.view.box.nextCommits);
    } else {
      var v, v' := h.view, Apply(h.view, e);
      assert v'.sequence == v.sequence;
      assert v'.box == v.box.(prePrepare := v'.box.prePrepare);
    }
  }

  lemma {:induction false} RunKeepsBuffers(h: History, events: seq<Event>)
    requires WellFormed(h.view) && Buffered(h)
    ensures var r := Run(h, events); r.Some? ==> WellFormed(r.value.view) && Buffered(r.value)
    decreases |events|
  {
    if events != [] && Enabled(h.view, events[0]) {
      EventKeepsBuffers(h, events[0]);
      RunKeepsBuffers(Extend(h, events[0]), events[1..]);
    }
  }

  /** Only votes of their kind for this view and the given sequence, at most one per node, none of one's own. */
  ghost predicate PureVotes(cfg: Config, b: Ballot, kind: Kind, sequence: nat) {
    && OnePerSender(b) && cfg.selfId !in b.voted
    && forall k :: 0 <= k < |b.votes| ==>
         && ValidVote(kind, b.votes[k].sender, b.votes[k].msg)
         && b.votes[k].msg.view == cfg.number && b.votes[k].msg.sequence == sequence
  }

  lemma {:induction false} BuffersArePure(v: View, log: seq<Heard>, kind: Kind, current: Ballot, next: Ballot)
    requires Buffers(v, log, kind, current, next)
    ensures PureVotes(v.cfg, current, kind, v.sequence) && PureVotes(v.cfg, next, kind, v.sequence + 1)
  {
    TallyIsPure(log, kind, v.cfg, v.sequence);
    TallyIsPure(log, kind, v.cfg, v.sequence + 1);
    var whole := Tally(log, kind, v.cfg, v.sequence).votes;
    forall k | 0 <= k < |current.votes|
      ensures current.votes[k] == whole[|whole| - |current.votes| + k]
    {
    }
  }

  /** In every run of a view, across any number of decisions, the current and next vote sets are exactly the two
      per-sequence tallies: the swap between sequences loses no vote and lets none through. */
  lemma {:induction false} VoteSetsAreTallies(cfg: Config, sequence: nat, decisionsInView: nat, events: seq<Event>)
    ensures var r := Run(Begun(cfg, sequence, decisionsInView), events);
            r.Some? ==>
              var v := r.value.view;
              && Buffered(r.value)
              && PureVotes(v.cfg, v.box.prepares, Prepares, v.sequence)
              && PureVotes(v.cfg, v.box.nextPrepares, Prepares, v.sequence + 1)
              && PureVotes(v.cfg, v.box.commits, Commits, v.sequence)
              && PureVotes(v.cfg, v.box.nextCommits, Commits, v.sequence + 1)
  {
    var start := Begun(cfg, sequence, decisionsInView);
    RunKeepsBuffers(start, events);
    var r := Run(start, events);
    if r.Some? {
      var v, log := r.value.view, r.value.log;
      BuffersArePure(v, log, Prepares, v.box.prepares, v.box.nextPrepares);
      BuffersArePure(v, log, Commits, v.box.commits, v.box.nextCommits);
    }
  }
}
