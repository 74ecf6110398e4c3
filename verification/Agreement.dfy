/** The invariant of the cluster model, piece by piece, and that the messages of other nodes do not disturb it. */
module Agreement {
  import opened Messages
  import opened Votes
  import opened Quorum
  import opened Replica
  import opened Consensus

  // ---- vocabulary ----

  /** A vote without its assist flag. */
  function Plain(m: Message): Message {
    match m
    case Prepare(view, sequence, digest, _) => Prepare(view, sequence, digest, false)
    case Commit(view, sequence, digest, sig, _) => Commit(view, sequence, digest, sig, false)
    case _ => m
  }

  ghost predicate DistinctIds(ids: seq<NodeId>) {
    forall j, k :: 0 <= j < k < |ids| ==> ids[j] != ids[k]
  }

  function SignerIds(sigs: seq<Signature>): seq<NodeId> {
    seq(|sigs|, k requires 0 <= k < |sigs| => sigs[k].signer)
  }

  predicate SentPrepare(c: Cluster, sent: set<Sending>, x: NodeId, sequence: nat, d: Digest) {
    Sending(x, Prepare(c.view, sequence, d, false)) in sent
  }

  /** The nodes that may stand behind digest d at a sequence: its correct preparers, and all faulty nodes. */
  ghost function Preparers(c: Cluster, sent: set<Sending>, sequence: nat, d: Digest): set<NodeId> {
    set x | x in c.nodes && (x in c.faulty || SentPrepare(c, sent, x, sequence, d))
  }

  /** The commit a correct signer must have sent for this signature to exist. */
  function CommitOf(c: Cluster, sequence: nat, sig: Signature): Message {
    Commit(c.view, sequence, DigestOf(sig.subject), Some(sig), false)
  }

  /** A signature on p at a sequence that an authentic commit of that sequence carried. */
  ghost predicate Attests(c: Cluster, sent: set<Sending>, sequence: nat, p: Proposal, sig: Signature) {
    && sig.signer in c.nodes && sig.subject == p
    && (c.Correct(sig.signer) ==> Sending(sig.signer, CommitOf(c, sequence, sig)) in sent)
  }

  // ---- the invariant, piece by piece ----

  /** Only correct nodes' messages are recorded, every assist repeats a vote that was sent, and every prepare is for a
      proposal of the sequence it names. */
  ghost predicate SoundSent(c: Cluster, sent: set<Sending>) {
    forall s :: s in sent ==>
      && c.Correct(s.from) && Sending(s.from, Plain(s.msg)) in sent
      && (s.msg.Prepare? ==> InView(c, s.msg.digest.preimage, s.msg.sequence))
  }

  ghost predicate Shape(c: Cluster, i: NodeId, n: Node) {
    var v := n.view;
    && WellFormed(v)
    && v.cfg == Config(i, v.cfg.leaderId, c.Q(), c.view)
    && !n.checkpoint.metadata.Malformed?
    && v.sequence > 0
    && (v.phase == ABORT ==> n.checkpoint.Sequence() + 1 >= v.sequence)
    && (v.phase != ABORT ==> n.checkpoint.Sequence() + 1 == v.sequence && n.viewData == {})
    && (v.phase == COMMITTED ==> Stale(n.inFlight, c.view, n.checkpoint.Sequence()))
    && (v.phase == PROPOSED || v.phase == PREPARED ==>
          && n.inFlight == n.logged == Some(InFlightData(v.inFlight.value, v.phase == PREPARED))
          && (Behind(v) || InView(c, v.inFlight.value, v.sequence)))
    && (Behind(v) ==> |c.nodes| > 1)
    && (n.logged.Some? ==>
          var p := n.logged.value.proposal;
          InView(c, p, p.Sequence()) && (p.Sequence() <= n.checkpoint.Sequence() || n.logged == n.inFlight))
  }

  predicate InView(c: Cluster, p: Proposal, sequence: nat) {
    p.metadata.Encoded? && p.metadata.md.viewId == c.view && p.Sequence() == sequence
  }

  /** One vote set: pure votes, each of them authentic. */
  ghost predicate Slot(c: Cluster, sent: set<Sending>, cfg: Config, b: Ballot, kind: Kind, sequence: nat) {
    && PureVotes(cfg, b, kind, sequence)
    && b.voted <= c.nodes
    && forall k :: 0 <= k < |b.votes| ==> Deliverable(c, sent, b.votes[k].sender, b.votes[k].msg)
  }

  ghost predicate Mail(c: Cluster, sent: set<Sending>, cfg: Config, sequence: nat, box: Mailbox) {
    && Slot(c, sent, cfg, box.prepares, Prepares, sequence)
    && Slot(c, sent, cfg, box.nextPrepares, Prepares, sequence + 1)
    && Slot(c, sent, cfg, box.commits, Commits, sequence)
    && Slot(c, sent, cfg, box.nextCommits, Commits, sequence + 1)
  }

  /** Credited with a vote, and that vote no longer in the queue. */
  ghost predicate Consumed(b: Ballot, x: NodeId) {
    x in b.voted && x !in Senders(b.votes)
  }

  /** The prepares counted so far: distinct other nodes, all behind the same digest. */
  ghost predicate CountedPrepares(c: Cluster, sent: set<Sending>, b: Ballot, voters: seq<NodeId>, sequence: nat,
      p: Proposal) {
    && DistinctIds(voters)
    && forall k :: 0 <= k < |voters| ==>
         && Consumed(b, voters[k])
         && (c.Correct(voters[k]) ==> SentPrepare(c, sent, voters[k], sequence, DigestOf(p)))
  }

  /** A commit vote on its way through verification. */
  ghost predicate PendingCommit(c: Cluster, sent: set<Sending>, b: Ballot, sequence: nat, vote: Vote) {
    && ValidVote(Commits, vote.sender, vote.msg)
    && vote.msg.view == c.view && vote.msg.sequence == sequence
    && Deliverable(c, sent, vote.sender, vote.msg)
    && Consumed(b, vote.sender)
  }

  ghost predicate CountedCommits(c: Cluster, sent: set<Sending>, b: Ballot, signatures: seq<Signature>,
      verifying: set<Vote>, sequence: nat, p: Proposal) {
    && DistinctIds(SignerIds(signatures))
    && (forall k :: 0 <= k < |signatures| ==>
         Consumed(b, signatures[k].signer) && Attests(c, sent, sequence, p, signatures[k]))
    && (forall vote :: vote in verifying ==>
          PendingCommit(c, sent, b, sequence, vote) && vote.sender !in SignerIds(signatures))
    && (forall x, y :: x in verifying && y in verifying && x.sender == y.sender ==> x == y)
  }

  ghost predicate Counted(c: Cluster, sent: set<Sending>, v: View) {
    && (v.phase == PROPOSED ==>
          v.inFlight.Some? && CountedPrepares(c, sent, v.box.prepares, v.voters, v.sequence, v.inFlight.value))
    && (v.phase == PREPARED ==>
          v.inFlight.Some? && CountedCommits(c, sent, v.box.commits, v.signatures, v.verifying, v.sequence,
              v.inFlight.value))
  }

  /** The votes a node has out: its prepare while it is in PROPOSED (at the proposal's own sequence) or PREPARED, its
      commit while in PREPARED. */
  ghost predicate Standing(c: Cluster, sent: set<Sending>, i: NodeId, v: View) {
    && (v.phase == PROPOSED || v.phase == PREPARED ==>
          v.inFlight.Some? && (Behind(v) || SentPrepare(c, sent, i, v.sequence, DigestOf(v.inFlight.value))))
    && (v.phase == PREPARED ==>
          && v.inFlight.Some? && v.mySignature.Some?
          && v.mySignature.value.signer == i && v.mySignature.value.subject == v.inFlight.value
          && Sending(i, CommitOf(c, v.sequence, v.mySignature.value)) in sent)
    && Repeats(sent, i, v.out.currPrepare) && Repeats(sent, i, v.out.currCommit)
    && Repeats(sent, i, v.out.prevPrepare) && Repeats(sent, i, v.out.prevCommit)
  }

  /** A message kept for lagging replicas repeats a vote already sent. */
  ghost predicate Repeats(sent: set<Sending>, i: NodeId, m: Option<Message>) {
    m.Some? ==> !m.value.PrePrepare? && Sending(i, Plain(m.value)) in sent
  }

  /** A prepare of node i is for a sequence its checkpoint has reached, or for its in-flight proposal. */
  ghost predicate PrepareAccounted(c: Cluster, n: Node, m: Message)
    requires m.Prepare?
  {
    && m.view == c.view
    && (m.sequence <= n.checkpoint.Sequence()
        || (n.inFlight.Some? && m.digest == DigestOf(n.inFlight.value.proposal)
            && InView(c, n.inFlight.value.proposal, m.sequence)))
  }

  /** A commit of node i rests on a quorum of prepares; until the checkpoint reaches its sequence, the in-flight data
      holds its proposal, marked prepared. */
  ghost predicate CommitAccounted(c: Cluster, sent: set<Sending>, i: NodeId, n: Node, m: Message)
    requires m.Commit?
  {
    && m.view == c.view
    && m.signature.Some? && m.signature.value.signer == i && m.digest == DigestOf(m.signature.value.subject)
    && |Preparers(c, sent, m.sequence, m.digest)| >= c.Q()
    && (m.sequence <= n.checkpoint.Sequence()
        || (&& n.inFlight == Some(InFlightData(m.digest.preimage, true))
            && InView(c, m.digest.preimage, m.sequence)
            && m.sequence == n.checkpoint.Sequence() + 1))
  }

  ghost predicate OwnVotes(c: Cluster, sent: set<Sending>, i: NodeId, n: Node) {
    && (forall m :: Sending(i, m) in sent && m.Prepare? ==> PrepareAccounted(c, n, m))
    && (forall m :: Sending(i, m) in sent && m.Commit? ==> CommitAccounted(c, sent, i, n, m))
    && (forall m, m' :: Sending(i, m) in sent && Sending(i, m') in sent && m.Prepare? && m'.Prepare?
          && m.sequence == m'.sequence
          ==> m.digest == m'.digest)
  }

  /** At least Q distinct signers of a proposal at a sequence of this view. */
  ghost predicate Certificate(c: Cluster, sent: set<Sending>, d: Decision) {
    && DistinctIds(SignerIds(d.signatures))
    && |d.signatures| >= c.Q()
    && forall k :: 0 <= k < |d.signatures| ==> Attests(c, sent, d.sequence, d.proposal, d.signatures[k])
  }

  /** A decision with its certificate, the deciding node among the signers. */
  ghost predicate Certified(c: Cluster, sent: set<Sending>, i: NodeId, d: Decision) {
    Certificate(c, sent, d) && i in SignerIds(d.signatures)
  }

  /** View data covers a commit: it reports a decision at least as late, or the committed proposal as prepared. */
  ghost predicate Covers(c: Cluster, vd: ViewData, m: Message)
    requires m.Commit?
  {
    || vd.LastSequence() >= m.sequence
    || (&& vd.inFlightProposal == Some(m.digest.preimage) && vd.inFlightPrepared
        && m.digest.preimage.metadata.Encoded?
        && m.digest.preimage.Sequence() == m.sequence == vd.LastSequence() + 1)
  }

  ghost predicate Records(c: Cluster, sent: set<Sending>, i: NodeId, n: Node) {
    && (forall d :: d in n.decisions ==>
          Certified(c, sent, i, d) && InView(c, d.proposal, d.sequence) && d.sequence <= n.checkpoint.Sequence())
    && (forall vd :: vd in n.viewData ==> vd.lastDecision.Some? && vd.nextView == c.view + 1)
    && (forall vd, m :: vd in n.viewData && Sending(i, m) in sent && m.Commit? ==> Covers(c, vd, m))
  }

  ghost predicate NodeInv(c: Cluster, sent: set<Sending>, i: NodeId, n: Node) {
    && Shape(c, i, n)
    && Mail(c, sent, n.view.cfg, n.view.sequence, n.view.box)
    && Counted(c, sent, n.view)
    && Standing(c, sent, i, n.view)
    && OwnVotes(c, sent, i, n)
    && Records(c, sent, i, n)
  }

  ghost predicate NodesInv(c: Cluster, nodes: map<NodeId, Node>, sent: set<Sending>) {
    forall i :: i in nodes ==> NodeInv(c, sent, i, nodes[i])
  }

  ghost predicate Inv(c: Cluster, s: System) {
    && c.Valid()
    && s.nodes.Keys == c.nodes - c.faulty
    && SoundSent(c, s.sent)
    && NodesInv(c, s.nodes, s.sent)
  }

  // ---- the messages of other nodes do not disturb a node ----

  lemma {:induction false} PreparersGrow(c: Cluster, sent: set<Sending>, sent': set<Sending>, sequence: nat, d: Digest)
    requires sent <= sent'
    ensures |Preparers(c, sent, sequence, d)| <= |Preparers(c, sent', sequence, d)|
  {
    SubsetSize(Preparers(c, sent, sequence, d), Preparers(c, sent', sequence, d));
  }

  ghost predicate NoNewVotes(sent: set<Sending>, sent': set<Sending>, i: NodeId) {
    forall m :: Sending(i, m) in sent' && (m.Prepare? || m.Commit?) ==> Sending(i, m) in sent
  }

  lemma {:induction false} FrameOwnVotes(c: Cluster, sent: set<Sending>, sent': set<Sending>, i: NodeId, n: Node)
    requires OwnVotes(c, sent, i, n) && sent <= sent'
    requires NoNewVotes(sent, sent', i)
    ensures OwnVotes(c, sent', i, n)
  {
    forall m | Sending(i, m) in sent' && m.Commit? ensures CommitAccounted(c, sent', i, n, m) {
      assert Sending(i, m) in sent;
      PreparersGrow(c, sent, sent', m.sequence, m.digest);
    }
    forall m, m' | Sending(i, m) in sent' && Sending(i, m') in sent' && m.Prepare? && m'.Prepare?
      && m.sequence == m'.sequence
      ensures m.digest == m'.digest
    {
      assert Sending(i, m) in sent && Sending(i, m') in sent;
    }
    forall m | Sending(i, m) in sent' && m.Prepare? ensures PrepareAccounted(c, n, m) {
      assert Sending(i, m) in sent;
    }
  }

  lemma {:induction false} FrameRecords(c: Cluster, sent: set<Sending>, sent': set<Sending>, i: NodeId, n: Node)
    requires Records(c, sent, i, n) && sent <= sent'
    requires forall m :: Sending(i, m) in sent' && m.Commit? ==> Sending(i, m) in sent
    ensures Records(c, sent', i, n)
  {
  }

  lemma {:induction false} Frame(c: Cluster, sent: set<Sending>, sent': set<Sending>, i: NodeId, n: Node)
    requires NodeInv(c, sent, i, n) && sent <= sent'
    requires NoNewVotes(sent, sent', i)
    ensures NodeInv(c, sent', i, n)
  {
    FrameOwnVotes(c, sent, sent', i, n);
    FrameRecords(c, sent, sent', i, n);
  }
}
