/** Where the proposals come from that correct nodes vote for: their leaders. */
module Proposals {
  import opened Messages
  import opened Replica
  import opened Consensus

  /** A pre-prepare of the view for a proposal with this digest at this sequence. */
  predicate Carries(c: Cluster, m: Message, sequence: nat, d: Digest) {
    && m.PrePrepare? && m.view == c.view && m.sequence == sequence
    && m.proposal.Some? && DigestOf(m.proposal.value) == d
  }

  /** One of the leaders may have offered it: a correct one only if it sent it. */
  ghost predicate Offered(c: Cluster, sent: set<Sending>, leaders: set<NodeId>, sequence: nat, d: Digest) {
    exists l, m :: l in leaders && Deliverable(c, sent, l, m) && Carries(c, m, sequence, d)
  }

  ghost predicate SlotFilled(c: Cluster, sent: set<Sending>, leader: NodeId, slot: Option<Message>, sequence: nat) {
    slot.Some? ==>
      && slot.value.PrePrepare? && slot.value.proposal.Some?
      && Carries(c, slot.value, sequence, DigestOf(slot.value.proposal.value))
      && Deliverable(c, sent, leader, slot.value)
  }

  ghost predicate VoteOffered(c: Cluster, sent: set<Sending>, leaders: set<NodeId>, m: Option<Message>) {
    m.Some? && m.value.Prepare? ==> Offered(c, sent, leaders, m.value.sequence, m.value.digest)
  }

  /** What a node has buffered came from its leader, and the prepares it keeps are for what leaders offered. */
  ghost predicate FedBy(c: Cluster, sent: set<Sending>, leaders: set<NodeId>, v: View) {
    && v.cfg.leaderId in leaders && v.cfg.number == c.view
    && SlotFilled(c, sent, v.cfg.leaderId, v.box.prePrepare, v.sequence)
    && SlotFilled(c, sent, v.cfg.leaderId, v.box.nextPrePrepare, v.sequence + 1)
    && VoteOffered(c, sent, leaders, v.out.currPrepare) && VoteOffered(c, sent, leaders, v.out.currCommit)
    && VoteOffered(c, sent, leaders, v.out.prevPrepare) && VoteOffered(c, sent, leaders, v.out.prevCommit)
  }

  ghost predicate VotesOffered(c: Cluster, sent: set<Sending>, leaders: set<NodeId>) {
    forall x :: x in sent && x.msg.Prepare? ==> Offered(c, sent, leaders, x.msg.sequence, x.msg.digest)
  }

  ghost predicate AllFed(c: Cluster, nodes: map<NodeId, Node>, sent: set<Sending>, leaders: set<NodeId>) {
    forall i :: i in nodes ==> FedBy(c, sent, leaders, nodes[i].view)
  }

  ghost predicate Led(c: Cluster, s: System, leaders: set<NodeId>) {
    AllFed(c, s.nodes, s.sent, leaders) && VotesOffered(c, s.sent, leaders)
  }

  lemma {:induction false} OfferedGrows(c: Cluster, sent: set<Sending>, sent': set<Sending>, leaders: set<NodeId>,
      sequence: nat, d: Digest)
    requires sent <= sent' && Offered(c, sent, leaders, sequence, d)
    ensures Offered(c, sent', leaders, sequence, d)
  {
    var l, m :| l in leaders && Deliverable(c, sent, l, m) && Carries(c, m, sequence, d);
    assert Deliverable(c, sent', l, m);
  }

  lemma {:induction false} EventKeepsFed(c: Cluster, sent: set<Sending>, leaders: set<NodeId>, v: View, e: Event)
    requires WellFormed(v) && Enabled(v, e) && FedBy(c, sent, leaders, v)
    requires e.Receive? ==> Deliverable(c, sent, e.sender, e.msg)
    ensures FedBy(c, sent, leaders, Apply(v, e))
  {
    match e {
      case Receive(sender, m) => ReceiveKeepsFed(c, sent, leaders, v, sender, m);
      case TakePrePrepare(restValid) => TakeKeepsFed(c, sent, leaders, v, restValid);
      case Decide =>
      case _ =>
    }
  }

  lemma {:induction false} ReceiveKeepsFed(c: Cluster, sent: set<Sending>, leaders: set<NodeId>, v: View,
      sender: NodeId, m: Message)
    requires WellFormed(v) && Enabled(v, Receive(sender, m)) && FedBy(c, sent, leaders, v)
    requires Deliverable(c, sent, sender, m)
    ensures FedBy(c, sent, leaders, Apply(v, Receive(sender, m)))
  {
  }

  lemma {:induction false} TakeKeepsFed(c: Cluster, sent: set<Sending>, leaders: set<NodeId>, v: View, restValid: bool)
    requires WellFormed(v) && Enabled(v, TakePrePrepare(restValid)) && FedBy(c, sent, leaders, v)
    ensures FedBy(c, sent, leaders, Apply(v, TakePrePrepare(restValid)))
  {
    OfferIsOffered(c, sent, leaders, v);
  }

  lemma {:induction false} OfferIsOffered(c: Cluster, sent: set<Sending>, leaders: set<NodeId>, v: View)
    requires FedBy(c, sent, leaders, v) && v.box.prePrepare.Some?
    ensures Offered(c, sent, leaders, v.sequence, DigestOf(v.box.prePrepare.value.proposal.value))
  {
    assert Carries(c, v.box.prePrepare.value, v.sequence, DigestOf(v.box.prePrepare.value.proposal.value));
  }

  /** A prepare sent in an event is for the buffered proposal, or one of those kept. */
  lemma {:induction false} EventOffers(c: Cluster, sent: set<Sending>, leaders: set<NodeId>, v: View, e: Event,
      m: Message)
    requires WellFormed(v) && Enabled(v, e) && FedBy(c, sent, leaders, v) && m in Sent(v, e) && m.Prepare?
    ensures Offered(c, sent, leaders, m.sequence, m.digest)
  {
    if e.TakePrePrepare? {
      OfferIsOffered(c, sent, leaders, v);
    }
  }

  lemma {:induction false} NodeStaysFed(c: Cluster, s: System, step: Step, leaders: set<NodeId>)
    requires StepEnabled(c, s, step) && FedBy(c, s.sent, leaders, s.nodes[step.i].view)
    requires step.Restart? ==> step.leader in leaders
    ensures FedBy(c, s.sent, leaders, NodeAfter(c, s, step).view)
  {
    if step.Local? {
      EventKeepsFed(c, s.sent, leaders, s.nodes[step.i].view, step.e);
    }
  }

  lemma {:induction false} FedStays(c: Cluster, nodes: map<NodeId, Node>, sent: set<Sending>, leaders: set<NodeId>,
      i: NodeId, n': Node, sent': set<Sending>)
    requires AllFed(c, nodes, sent, leaders) && FedBy(c, sent, leaders, n'.view) && sent <= sent'
    ensures AllFed(c, nodes[i := n'], sent', leaders)
  {
    var nodes' := nodes[i := n'];
    forall j | j in nodes' ensures FedBy(c, sent', leaders, nodes'[j].view) {
      FedGrows(c, sent, sent', leaders, nodes'[j].view);
    }
  }

  lemma {:induction false} FedGrows(c: Cluster, sent: set<Sending>, sent': set<Sending>, leaders: set<NodeId>, v: View)
    requires FedBy(c, sent, leaders, v) && sent <= sent'
    ensures FedBy(c, sent', leaders, v)
  {
    VoteStays(c, sent, sent', leaders, v.out.currPrepare);
    VoteStays(c, sent, sent', leaders, v.out.currCommit);
    VoteStays(c, sent, sent', leaders, v.out.prevPrepare);
    VoteStays(c, sent, sent', leaders, v.out.prevCommit);
  }

  lemma {:induction false} VoteStays(c: Cluster, sent: set<Sending>, sent': set<Sending>, leaders: set<NodeId>,
      m: Option<Message>)
    requires VoteOffered(c, sent, leaders, m) && sent <= sent'
    ensures VoteOffered(c, sent', leaders, m)
  {
    if m.Some? && m.value.Prepare? {
      OfferedGrows(c, sent, sent', leaders, m.value.sequence, m.value.digest);
    }
  }

  function With(sent: set<Sending>, i: NodeId, ms: set<Message>): set<Sending> {
    sent + set m | m in ms :: Sending(i, m)
  }

  lemma {:induction false} OffersStay(c: Cluster, sent: set<Sending>, leaders: set<NodeId>, i: NodeId, ms: set<Message>)
    requires VotesOffered(c, sent, leaders)
    requires forall m :: m in ms && m.Prepare? ==> Offered(c, sent, leaders, m.sequence, m.digest)
    ensures VotesOffered(c, With(sent, i, ms), leaders)
  {
    var sent' := With(sent, i, ms);
    forall x | x in sent' && x.msg.Prepare? ensures Offered(c, sent', leaders, x.msg.sequence, x.msg.digest) {
      OfferedGrows(c, sent, sent', leaders, x.msg.sequence, x.msg.digest);
    }
  }

  lemma {:induction false} StepKeepsLed(c: Cluster, s: System, step: Step, leaders: set<NodeId>)
    requires Led(c, s, leaders) && StepEnabled(c, s, step)
    requires step.Restart? ==> step.leader in leaders
    ensures Led(c, Next(c, s, step), leaders)
  {
    NodeStaysFed(c, s, step, leaders);
    var ms := SentBy(c, s, step);
    FedStays(c, s.nodes, s.sent, leaders, step.i, NodeAfter(c, s, step), With(s.sent, step.i, ms));
    forall m | m in ms && m.Prepare? ensures Offered(c, s.sent, leaders, m.sequence, m.digest) {
      EventOffers(c, s.sent, leaders, s.nodes[step.i].view, step.e, m);
    }
    OffersStay(c, s.sent, leaders, step.i, ms);
  }

  /** All leaders of a run: those the nodes start with, and those they restart with. */
  ghost predicate LeadersAmong(run: seq<System>, steps: seq<Step>, leaders: set<NodeId>)
    requires run != []
  {
    && (forall i :: i in run[0].nodes ==> run[0].nodes[i].view.cfg.leaderId in leaders)
    && forall k :: 0 <= k < |steps| && steps[k].Restart? ==> steps[k].leader in leaders
  }

  lemma {:induction false} InitIsLed(c: Cluster, s: System, leaders: set<NodeId>)
    requires Init(c, s) && forall i :: i in s.nodes ==> s.nodes[i].view.cfg.leaderId in leaders
    ensures Led(c, s, leaders)
  {
    forall i | i in s.nodes ensures FedBy(c, s.sent, leaders, s.nodes[i].view) {
      assert InitNode(c, i, s.nodes[i]);
    }
  }

  lemma {:induction false} RunIsLed(c: Cluster, run: seq<System>, steps: seq<Step>, k: nat, leaders: set<NodeId>)
    requires Execution(c, run, steps) && k < |run| && LeadersAmong(run, steps, leaders)
    ensures Led(c, run[k], leaders)
  {
    if k == 0 {
      InitIsLed(c, run[0], leaders);
    } else {
      RunIsLed(c, run, steps, k - 1, leaders);
      StepKeepsLed(c, run[k - 1], steps[k - 1], leaders);
    }
  }

  /** In every run, whatever the faulty nodes send: a prepare of a correct node is for a proposal that one of the
      leaders offered in this view at this sequence. If all leaders are correct, one of them did send it. */
  lemma {:induction false} PreparesAreForOffers(c: Cluster, run: seq<System>, steps: seq<Step>, k: nat,
      leaders: set<NodeId>, x: Sending)
    returns (l: NodeId, m: Message)
    requires Execution(c, run, steps) && k < |run| && LeadersAmong(run, steps, leaders)
    requires x in run[k].sent && x.msg.Prepare? && forall l :: l in leaders ==> c.Correct(l)
    ensures l in leaders && Sending(l, m) in run[k].sent
    ensures m.PrePrepare? && m.view == c.view && m.sequence == x.msg.sequence
    ensures m.proposal.Some? && DigestOf(m.proposal.value) == x.msg.digest
  {
    RunIsLed(c, run, steps, k, leaders);
    assert Offered(c, run[k].sent, leaders, x.msg.sequence, x.msg.digest);
    l, m :| l in leaders && Deliverable(c, run[k].sent, l, m) && Carries(c, m, x.msg.sequence, x.msg.digest);
  }

  /** So with one correct leader that makes one proposal per sequence, all correct nodes prepare the same. */
  lemma {:induction false} OneOfferOnePrepare(c: Cluster, run: seq<System>, steps: seq<Step>, k: nat, leader: NodeId,
      x: Sending, y: Sending)
    requires Execution(c, run, steps) && k < |run| && LeadersAmong(run, steps, {leader}) && c.Correct(leader)
    requires forall m, m' :: Sending(leader, m) in run[k].sent && Sending(leader, m') in run[k].sent ==>
               m.PrePrepare? && m'.PrePrepare? && m.sequence == m'.sequence ==> m.proposal == m'.proposal
    requires x in run[k].sent && y in run[k].sent && x.msg.Prepare? && y.msg.Prepare?
             && x.msg.sequence == y.msg.sequence
    ensures x.msg.digest == y.msg.digest
  {
    var _, m := PreparesAreForOffers(c, run, steps, k, {leader}, x);
    var _, m' := PreparesAreForOffers(c, run, steps, k, {leader}, y);
  }
}
