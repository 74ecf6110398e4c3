/** Every step of Consensus keeps the invariant of Agreement, hence so does every run. */
module Invariance {
  import opened Messages
  import opened Votes
  import opened Quorum
  import opened Replica
  import opened Consensus
  import opened Agreement

  function Recorded(sent: set<Sending>, i: NodeId, ms: set<Message>): set<Sending> {
    sent + set m | m in ms :: Sending(i, m)
  }

  /** A change to what a view has collected, and to nothing else. */
  lemma {:induction false} CollectingKeepsInv(c: Cluster, sent: set<Sending>, i: NodeId, n: Node, v': View)
    requires NodeInv(c, sent, i, n) && WellFormed(v')
    requires v' == n.view.(box := v'.box, stopped := v'.stopped, voters := v'.voters, verifying := v'.verifying,
             signatures := v'.signatures)
    requires Mail(c, sent, v'.cfg, v'.sequence, v'.box) && Counted(c, sent, v')
    ensures NodeInv(c, sent, i, n.(view := v'))
  {
  }

  // ---- receiving ----

  /** Registering a vote keeps the set sound and leaves those already counted where they were. */
  lemma {:induction false} RegisterKeepsSlot(c: Cluster, sent: set<Sending>, cfg: Config, b: Ballot, kind: Kind,
      sequence: nat, sender: NodeId, m: Message)
    requires Slot(c, sent, cfg, b, kind, sequence)
    requires Deliverable(c, sent, sender, m) && sender != cfg.selfId
    requires !m.Unrelated? && m.view == cfg.number && m.sequence == sequence
    ensures var b' := b.Register(kind, sender, m);
            Slot(c, sent, cfg, b', kind, sequence) && forall x :: Consumed(b, x) ==> Consumed(b', x)
  {
  }

  lemma {:induction false} StoreKeepsMail(c: Cluster, sent: set<Sending>, v: View, sender: NodeId, m: Message)
    requires Mail(c, sent, v.cfg, v.sequence, v.box) && Deliverable(c, sent, sender, m)
    requires !m.Unrelated? && m.view == v.cfg.number && (m.sequence == v.sequence || m.sequence == v.sequence + 1)
    ensures var box := Store(v, sender, m);
            && Mail(c, sent, v.cfg, v.sequence, box)
            && (forall x :: Consumed(v.box.prepares, x) ==> Consumed(box.prepares, x))
            && (forall x :: Consumed(v.box.commits, x) ==> Consumed(box.commits, x))
  {
    if sender != v.cfg.selfId {
      if m.sequence == v.sequence {
        RegisterKeepsSlot(c, sent, v.cfg, v.box.prepares, Prepares, v.sequence, sender, m);
        RegisterKeepsSlot(c, sent, v.cfg, v.box.commits, Commits, v.sequence, sender, m);
      } else {
        RegisterKeepsSlot(c, sent, v.cfg, v.box.nextPrepares, Prepares, v.sequence + 1, sender, m);
        RegisterKeepsSlot(c, sent, v.cfg, v.box.nextCommits, Commits, v.sequence + 1, sender, m);
      }
    }
  }

  lemma {:induction false} ReceiveKeepsMail(c: Cluster, sent: set<Sending>, v: View, sender: NodeId, m: Message)
    requires Mail(c, sent, v.cfg, v.sequence, v.box) && Counted(c, sent, v) && Deliverable(c, sent, sender, m)
    ensures var v' := ProcessMsg(v, sender, m);
            Mail(c, sent, v'.cfg, v'.sequence, v'.box) && Counted(c, sent, v')
  {
    if Relevant(v, m) {
      StoreKeepsMail(c, sent, v, sender, m);
    } else {
      assert ProcessMsg(v, sender, m).box == v.box || m.Unrelated?;
    }
  }

  /** A reply repeats a vote that is already recorded, so it adds nothing a plain vote did not. */
  lemma {:induction false} ReplyKeepsOwnVotes(c: Cluster, sent: set<Sending>, i: NodeId, n: Node, r: Message)
    requires OwnVotes(c, sent, i, n) && Records(c, sent, i, n) && Repeats(sent, i, Some(r))
    ensures var sent' := Recorded(sent, i, {r}); OwnVotes(c, sent', i, n) && Records(c, sent', i, n)
  {
    var sent' := Recorded(sent, i, {r});
    assert forall m :: Sending(i, m) in sent' ==> Sending(i, m) in sent || Sending(i, Plain(m)) in sent;
    forall m | Sending(i, m) in sent' && m.Commit? ensures CommitAccounted(c, sent', i, n, m) {
      PreparersGrow(c, sent, sent', m.sequence, m.digest);
      assert CommitAccounted(c, sent, i, n, Plain(m)) || CommitAccounted(c, sent, i, n, m);
    }
    forall m | Sending(i, m) in sent' && m.Prepare? ensures PrepareAccounted(c, n, m) {
      assert PrepareAccounted(c, n, Plain(m)) || PrepareAccounted(c, n, m);
    }
    forall m, m' | Sending(i, m) in sent' && Sending(i, m') in sent' && m.Prepare? && m'.Prepare?
      && m.sequence == m'.sequence
      ensures m.digest == m'.digest
    {
      var p := if Sending(i, m) in sent then m else Plain(m);
      var p' := if Sending(i, m') in sent then m' else Plain(m');
      assert p.digest == p'.digest;
    }
    forall vd, m | vd in n.viewData && Sending(i, m) in sent' && m.Commit? ensures Covers(c, vd, m) {
      assert Covers(c, vd, m) || Covers(c, vd, Plain(m));
    }
  }

  lemma {:induction false} RepliesAreSound(c: Cluster, sent: set<Sending>, i: NodeId, r: Message)
    requires SoundSent(c, sent) && c.Correct(i) && Repeats(sent, i, Some(r))
    ensures SoundSent(c, Recorded(sent, i, {r}))
  {
  }

  lemma {:induction false} ReplyRepeats(c: Cluster, sent: set<Sending>, i: NodeId, v: View, m: Message)
    requires Standing(c, sent, i, v)
    ensures Repeats(sent, i, ReplyTo(v, m))
  {
  }

  lemma {:induction false} StoringKeepsInv(c: Cluster, sent: set<Sending>, i: NodeId, n: Node, sender: NodeId,
      m: Message)
    requires NodeInv(c, sent, i, n) && n.view.phase != ABORT && Deliverable(c, sent, sender, m)
    ensures NodeInv(c, sent, i, NodeStep(n, Receive(sender, m)))
  {
    var v' := Apply(n.view, Receive(sender, m));
    ReceiveKeepsMail(c, sent, n.view, sender, m);
    CollectingKeepsInv(c, sent, i, n, v');
  }

  lemma {:induction false} ReplyKeepsInv(c: Cluster, sent: set<Sending>, i: NodeId, n: Node, r: Message)
    requires NodeInv(c, sent, i, n) && Repeats(sent, i, Some(r))
    ensures NodeInv(c, Recorded(sent, i, {r}), i, n)
  {
    ReplyKeepsOwnVotes(c, sent, i, n, r);
  }

  lemma {:induction false} ReceiveKeepsInv(c: Cluster, sent: set<Sending>, i: NodeId, n: Node, sender: NodeId,
      m: Message)
    requires NodeInv(c, sent, i, n) && SoundSent(c, sent) && c.Correct(i) && n.view.phase != ABORT
    requires Deliverable(c, sent, sender, m)
    ensures var e := Receive(sender, m); var sent' := Recorded(sent, i, Sent(n.view, e));
            NodeInv(c, sent', i, NodeStep(n, e)) && SoundSent(c, sent')
  {
    StoringKeepsInv(c, sent, i, n, sender, m);
    var n' := NodeStep(n, Receive(sender, m));
    var r := ReplyTo(n.view, m);
    ReplyRepeats(c, sent, i, n.view, m);
    if r.Some? {
      ReplyKeepsInv(c, sent, i, n', r.value);
      RepliesAreSound(c, sent, i, r.value);
    } else {
      assert Recorded(sent, i, {}) == sent;
    }
  }

  // ---- silent events ----

  lemma {:induction false} PopKeepsSlot(c: Cluster, sent: set<Sending>, cfg: Config, b: Ballot, kind: Kind,
      sequence: nat)
    requires Slot(c, sent, cfg, b, kind, sequence) && b.votes != []
    ensures Slot(c, sent, cfg, b.Pop(), kind, sequence)
    ensures forall x :: Consumed(b, x) ==> Consumed(b.Pop(), x)
    ensures Consumed(b.Pop(), b.votes[0].sender) && !Consumed(b, b.votes[0].sender)
  {
  }

  lemma {:induction false} TakePrepareKeepsCount(c: Cluster, sent: set<Sending>, cfg: Config, b: Ballot,
      voters: seq<NodeId>, sequence: nat, p: Proposal)
    requires SoundSent(c, sent) && cfg.number == c.view && b.votes != []
    requires Slot(c, sent, cfg, b, Prepares, sequence) && CountedPrepares(c, sent, b, voters, sequence, p)
    ensures CountedPrepares(c, sent, b.Pop(), voters, sequence, p)
    ensures b.votes[0].msg.digest == DigestOf(p)
            ==> CountedPrepares(c, sent, b.Pop(), voters + [b.votes[0].sender], sequence, p)
  {
  }

  lemma {:induction false} TakeCommitKeepsCount(c: Cluster, sent: set<Sending>, cfg: Config, b: Ballot,
      sigs: seq<Signature>, verifying: set<Vote>, sequence: nat, p: Proposal)
    requires cfg.number == c.view && b.votes != []
    requires Slot(c, sent, cfg, b, Commits, sequence) && CountedCommits(c, sent, b, sigs, verifying, sequence, p)
    ensures CountedCommits(c, sent, b.Pop(), sigs, verifying + {b.votes[0]}, sequence, p)
  {
  }

  lemma {:induction false} VerifyKeepsCount(c: Cluster, sent: set<Sending>, v: View, vote: Vote)
    requires vote in v.verifying && v.inFlight.Some? && SoundSent(c, sent)
    requires CountedCommits(c, sent, v.box.commits, v.signatures, v.verifying, v.sequence, v.inFlight.value)
    ensures var v' := CountCommit(v, vote);
            CountedCommits(c, sent, v.box.commits, v'.signatures, v'.verifying, v.sequence, v.inFlight.value)
  {
    var v' := CountCommit(v, vote);
    assert PendingCommit(c, sent, v.box.commits, v.sequence, vote);
    if CommitCounts(v, vote) {
      var sig := vote.msg.signature.value;
      if c.Correct(vote.sender) {
        assert Sending(vote.sender, Plain(vote.msg)) in sent;
        assert Plain(vote.msg) == CommitOf(c, v.sequence, sig);
      }
      assert SignerIds(v'.signatures) == SignerIds(v.signatures) + [sig.signer];
    }
  }

  lemma {:induction false} TakePrepareKeepsInv(c: Cluster, sent: set<Sending>, i: NodeId, n: Node)
    requires NodeInv(c, sent, i, n) && SoundSent(c, sent) && Enabled(n.view, TakePrepare)
    ensures NodeInv(c, sent, i, NodeStep(n, TakePrepare))
  {
    var v := n.view;
    PopKeepsSlot(c, sent, v.cfg, v.box.prepares, Prepares, v.sequence);
    TakePrepareKeepsCount(c, sent, v.cfg, v.box.prepares, v.voters, v.sequence, v.inFlight.value);
    CollectingKeepsInv(c, sent, i, n, Apply(v, TakePrepare));
  }

  lemma {:induction false} TakeCommitKeepsInv(c: Cluster, sent: set<Sending>, i: NodeId, n: Node)
    requires NodeInv(c, sent, i, n) && Enabled(n.view, TakeCommit)
    ensures NodeInv(c, sent, i, NodeStep(n, TakeCommit))
  {
    var v := n.view;
    PopKeepsSlot(c, sent, v.cfg, v.box.commits, Commits, v.sequence);
    TakeCommitKeepsCount(c, sent, v.cfg, v.box.commits, v.signatures, v.verifying, v.sequence, v.inFlight.value);
    CollectingKeepsInv(c, sent, i, n, Apply(v, TakeCommit));
  }

  lemma {:induction false} VerifyKeepsInv(c: Cluster, sent: set<Sending>, i: NodeId, n: Node, vote: Vote)
    requires NodeInv(c, sent, i, n) && SoundSent(c, sent) && Enabled(n.view, VerifyVote(vote))
    ensures NodeInv(c, sent, i, NodeStep(n, VerifyVote(vote)))
  {
    VerifyKeepsCount(c, sent, n.view, vote);
    CollectingKeepsInv(c, sent, i, n, Apply(n.view, VerifyVote(vote)));
  }

  lemma {:induction false} IdleEventsKeepInv(c: Cluster, sent: set<Sending>, i: NodeId, n: Node, e: Event)
    requires NodeInv(c, sent, i, n) && Enabled(n.view, e) && (e.BeginProposal? || e.Stop? || e.NoticeAbort?)
    ensures NodeInv(c, sent, i, NodeStep(n, e))
  {
  }

  // ---- entering the phases ----

  lemma {:induction false} RejectKeepsInv(c: Cluster, sent: set<Sending>, i: NodeId, n: Node)
    requires NodeInv(c, sent, i, n) && n.view.phase == COMMITTED
    ensures NodeInv(c, sent, i, n.(view := RejectProposal(n.view)))
  {
  }

  /** Before a proposal is accepted, every vote of the node is for a sequence its checkpoint has reached. */
  lemma {:induction false} VotesBehindCheckpoint(c: Cluster, sent: set<Sending>, i: NodeId, n: Node)
    requires OwnVotes(c, sent, i, n) && Stale(n.inFlight, c.view, n.checkpoint.Sequence())
    ensures forall m :: Sending(i, m) in sent && (m.Prepare? || m.Commit?) ==> m.sequence <= n.checkpoint.Sequence()
  {
  }

  lemma {:induction false} AcceptKeepsOwnVotes(c: Cluster, sent: set<Sending>, sent': set<Sending>, i: NodeId,
      n: Node, n': Node, vote: Message)
    requires OwnVotes(c, sent, i, n) && Stale(n.inFlight, c.view, n.checkpoint.Sequence())
    requires vote.Prepare? && vote.view == c.view && InView(c, vote.digest.preimage, vote.sequence)
    requires vote.sequence == n.checkpoint.Sequence() + 1
    requires n'.inFlight == Some(InFlightData(vote.digest.preimage, false)) && n'.checkpoint == n.checkpoint
    requires sent <= sent' && NoNewVotes(sent + {Sending(i, vote)}, sent', i)
    ensures OwnVotes(c, sent', i, n')
  {
    VotesBehindCheckpoint(c, sent, i, n);
    forall m | Sending(i, m) in sent' && m.Commit? ensures CommitAccounted(c, sent', i, n', m) {
      assert Sending(i, m) in sent;
      assert CommitAccounted(c, sent, i, n, m);
      PreparersGrow(c, sent, sent', m.sequence, m.digest);
    }
    forall m | Sending(i, m) in sent' && m.Prepare? ensures PrepareAccounted(c, n', m) {
      assert m == vote || (Sending(i, m) in sent && PrepareAccounted(c, n, m));
    }
    forall m, m' | Sending(i, m) in sent' && Sending(i, m') in sent' && m.Prepare? && m'.Prepare?
      && m.sequence == m'.sequence
      ensures m.digest == m'.digest
    {
      assert (m == vote || Sending(i, m) in sent) && (m' == vote || Sending(i, m') in sent);
    }
  }

  lemma {:induction false} AcceptSendsSound(c: Cluster, sent: set<Sending>, i: NodeId, v: View, e: Event)
    requires SoundSent(c, sent) && c.Correct(i) && WellFormed(v) && v.cfg.number == c.view && v.sequence > 0
    requires Enabled(v, e) && AcceptsNow(v, e)
    ensures SoundSent(c, Recorded(sent, i, Sent(v, e)))
  {
    assert InView(c, Offered(v), v.sequence);
  }

  lemma {:induction false} AcceptKeepsVotes(c: Cluster, sent: set<Sending>, i: NodeId, n: Node, e: Event)
    requires NodeInv(c, sent, i, n) && c.Correct(i) && Enabled(n.view, e) && AcceptsNow(n.view, e)
    ensures var sent' := Recorded(sent, i, Sent(n.view, e));
            OwnVotes(c, sent', i, NodeStep(n, e)) && Records(c, sent', i, NodeStep(n, e))
  {
    var sent' := Recorded(sent, i, Sent(n.view, e));
    var vote := PrepareMessage(n.view, Offered(n.view), false);
    assert Sending(i, vote) in sent';
    AcceptKeepsOwnVotes(c, sent, sent', i, n, NodeStep(n, e), vote);
    FrameRecords(c, sent, sent', i, n);
  }

  lemma {:induction false} AcceptKeepsView(c: Cluster, sent: set<Sending>, i: NodeId, n: Node, e: Event)
    requires NodeInv(c, sent, i, n) && c.Correct(i) && Enabled(n.view, e) && AcceptsNow(n.view, e)
    ensures var n' := NodeStep(n, e); var sent' := Recorded(sent, i, Sent(n.view, e));
            && Shape(c, i, n') && Mail(c, sent', n'.view.cfg, n'.view.sequence, n'.view.box)
            && Counted(c, sent', n'.view) && Standing(c, sent', i, n'.view)
  {
  }

  lemma {:induction false} AcceptKeepsInv(c: Cluster, sent: set<Sending>, i: NodeId, n: Node, e: Event)
    requires NodeInv(c, sent, i, n) && SoundSent(c, sent) && c.Correct(i)
    requires Enabled(n.view, e) && AcceptsNow(n.view, e)
    ensures var sent' := Recorded(sent, i, Sent(n.view, e)); NodeInv(c, sent', i, NodeStep(n, e)) && SoundSent(c, sent')
  {
    AcceptSendsSound(c, sent, i, n.view, e);
    AcceptKeepsVotes(c, sent, i, n, e);
    AcceptKeepsView(c, sent, i, n, e);
  }

  lemma {:induction false} SomeVoterIsCorrect(c: Cluster, voters: seq<NodeId>)
    requires DistinctIds(voters) && |voters| > |c.faulty|
    ensures exists k :: 0 <= k < |voters| && voters[k] !in c.faulty
  {
    IdSetSize(voters);
    if IdSet(voters) <= c.faulty {
      SubsetSize(IdSet(voters), c.faulty);
    }
  }

  /** A view restored with a proposal its checkpoint has passed never becomes prepared: among a quorum less one there
      is a correct node, and a correct node prepares a proposal only at the proposal's own sequence. */
  lemma {:induction false} OvertakenNeverPrepares(c: Cluster, sent: set<Sending>, i: NodeId, n: Node)
    requires c.Valid() && NodeInv(c, sent, i, n) && SoundSent(c, sent) && Enabled(n.view, BecomePrepared)
    ensures !Behind(n.view)
  {
    var v := n.view;
    if |c.nodes| > 1 {
      SomeVoterIsCorrect(c, v.voters);
      var k :| 0 <= k < |v.voters| && v.voters[k] !in c.faulty;
      assert Consumed(v.box.prepares, v.voters[k]);
      assert SentPrepare(c, sent, v.voters[k], v.sequence, DigestOf(v.inFlight.value));
    }
  }

  lemma {:induction false} VotersAreAQuorum(c: Cluster, sent: set<Sending>, i: NodeId, n: Node)
    requires NodeInv(c, sent, i, n) && c.Correct(i) && Enabled(n.view, BecomePrepared) && !Behind(n.view)
    ensures |Preparers(c, sent, n.view.sequence, DigestOf(n.view.inFlight.value))| >= c.Q()
  {
    var v := n.view;
    IdSetSize(v.voters);
    var all := Preparers(c, sent, v.sequence, DigestOf(v.inFlight.value));
    forall x | x in IdSet(v.voters) ensures x in all && x != i {
      var k :| 0 <= k < |v.voters| && v.voters[k] == x;
      assert Consumed(v.box.prepares, v.voters[k]);
    }
    SubsetSize(IdSet(v.voters) + {i}, all);
  }

  lemma {:induction false} PreparedKeepsOwnVotes(c: Cluster, sent: set<Sending>, i: NodeId, n: Node, n': Node,
      vote: Message)
    requires OwnVotes(c, sent, i, n) && vote.Commit? && vote.view == c.view
    requires vote.signature.Some? && vote.signature.value.signer == i
             && vote.digest == DigestOf(vote.signature.value.subject)
    requires n.inFlight == Some(InFlightData(vote.digest.preimage, false))
    requires n'.inFlight == Some(InFlightData(vote.digest.preimage, true)) && n'.checkpoint == n.checkpoint
    requires InView(c, vote.digest.preimage, vote.sequence) && vote.sequence == n.checkpoint.Sequence() + 1
    requires |Preparers(c, sent, vote.sequence, vote.digest)| >= c.Q()
    ensures OwnVotes(c, sent + {Sending(i, vote)}, i, n')
  {
    var sent' := sent + {Sending(i, vote)};
    forall m | Sending(i, m) in sent' && m.Commit? ensures CommitAccounted(c, sent', i, n', m) {
      assert m == vote || (Sending(i, m) in sent && CommitAccounted(c, sent, i, n, m));
      PreparersGrow(c, sent, sent', m.sequence, m.digest);
    }
    forall m | Sending(i, m) in sent' && m.Prepare? ensures PrepareAccounted(c, n', m) {
      assert Sending(i, m) in sent && PrepareAccounted(c, n, m);
    }
  }

  lemma {:induction false} PreparedKeepsView(c: Cluster, sent: set<Sending>, i: NodeId, n: Node)
    requires NodeInv(c, sent, i, n) && Enabled(n.view, BecomePrepared) && !Behind(n.view)
    ensures var n' := NodeStep(n, BecomePrepared); var sent' := sent + {Sending(i, CommitMessage(n.view, false))};
            && Shape(c, i, n') && Mail(c, sent', n'.view.cfg, n'.view.sequence, n'.view.box)
            && Counted(c, sent', n'.view) && Standing(c, sent', i, n'.view)
  {
  }

  lemma {:induction false} PreparedKeepsVotes(c: Cluster, sent: set<Sending>, i: NodeId, n: Node)
    requires NodeInv(c, sent, i, n) && c.Correct(i) && Enabled(n.view, BecomePrepared) && !Behind(n.view)
    ensures var n' := NodeStep(n, BecomePrepared); var sent' := sent + {Sending(i, CommitMessage(n.view, false))};
            OwnVotes(c, sent', i, n') && Records(c, sent', i, n')
  {
    VotersAreAQuorum(c, sent, i, n);
    PreparedKeepsOwnVotes(c, sent, i, n, NodeStep(n, BecomePrepared), CommitMessage(n.view, false));
  }

  lemma {:induction false} CommitIsSound(c: Cluster, sent: set<Sending>, i: NodeId, m: Message)
    requires SoundSent(c, sent) && c.Correct(i) && m.Commit? && m == Plain(m)
    ensures SoundSent(c, sent + {Sending(i, m)})
  {
  }

  lemma {:induction false} PreparedKeepsInv(c: Cluster, sent: set<Sending>, i: NodeId, n: Node)
    requires NodeInv(c, sent, i, n) && SoundSent(c, sent) && c.Correct(i) && Enabled(n.view, BecomePrepared)
    requires !Behind(n.view)
    ensures var sent' := Recorded(sent, i, Sent(n.view, BecomePrepared));
            NodeInv(c, sent', i, NodeStep(n, BecomePrepared)) && SoundSent(c, sent')
  {
    assert Recorded(sent, i, {CommitMessage(n.view, false)}) == sent + {Sending(i, CommitMessage(n.view, false))};
    PreparedKeepsVotes(c, sent, i, n);
    PreparedKeepsView(c, sent, i, n);
    CommitIsSound(c, sent, i, CommitMessage(n.view, false));
  }

  lemma {:induction false} DecisionIsCertified(c: Cluster, sent: set<Sending>, i: NodeId, n: Node)
    requires NodeInv(c, sent, i, n) && c.Correct(i) && Enabled(n.view, Decide)
    ensures Certified(c, sent, i, Decision(n.view.sequence, n.view.inFlight.value, DecisionSignatures(n.view)))
  {
    var v := n.view;
    var sigs := DecisionSignatures(v);
    assert SignerIds(sigs) == SignerIds(v.signatures) + [i];
    assert SignerIds(sigs)[|v.signatures|] == i;
    forall k | 0 <= k < |v.signatures| ensures SignerIds(v.signatures)[k] != i {
      assert Consumed(v.box.commits, v.signatures[k].signer);
    }
  }

  lemma {:induction false} SwapKeepsMail(c: Cluster, sent: set<Sending>, cfg: Config, sequence: nat, box: Mailbox)
    requires Mail(c, sent, cfg, sequence, box)
    ensures Mail(c, sent, cfg, sequence + 1, Swap(box))
  {
  }

  lemma {:induction false} DecideKeepsInv(c: Cluster, sent: set<Sending>, i: NodeId, n: Node)
    requires NodeInv(c, sent, i, n) && c.Correct(i) && Enabled(n.view, Decide)
    ensures NodeInv(c, sent, i, NodeStep(n, Decide))
  {
    var n' := NodeStep(n, Decide);
    DecisionIsCertified(c, sent, i, n);
    SwapKeepsMail(c, sent, n.view.cfg, n.view.sequence, n.view.box);
    assert n'.view == Decided(n.view);
    assert OwnVotes(c, sent, i, n');
    assert Shape(c, i, n');
  }

  // ---- everything else a node does ----

  lemma {:induction false} FreshViewIsSound(c: Cluster, sent: set<Sending>, i: NodeId, v: View)
    requires v == NewView(v.cfg, v.sequence, v.decisionsInView)
    ensures Mail(c, sent, v.cfg, v.sequence, v.box) && Counted(c, sent, v) && Standing(c, sent, i, v)
  {
  }

  /** A later checkpoint, with whatever in-flight proposal it makes stale kept or dropped, accounts for the same
      votes. */
  lemma {:induction false} RestartKeepsInv(c: Cluster, sent: set<Sending>, i: NodeId, n: Node, n': Node)
    requires NodeInv(c, sent, i, n) && !n'.checkpoint.metadata.Malformed? && n.viewData == {}
    requires n'.checkpoint.Sequence() >= n.checkpoint.Sequence()
    requires Stale(n.inFlight, c.view, n'.checkpoint.Sequence()) && Stale(n'.inFlight, c.view, n'.checkpoint.Sequence())
    requires n'.view == NewView(n.view.cfg.(leaderId := n'.view.cfg.leaderId), n'.checkpoint.Sequence() + 1,
             n'.view.decisionsInView)
    requires n'.decisions == n.decisions && n'.viewData == n.viewData && n'.logged == n.logged
    ensures NodeInv(c, sent, i, n')
  {
  }

  lemma {:induction false} OvertakenCrashKeepsInv(c: Cluster, sent: set<Sending>, i: NodeId, n: Node)
    requires NodeInv(c, sent, i, n) && n.view.phase != ABORT && |c.nodes| > 1
    requires Overtaken(n.logged, n.checkpoint.Sequence())
    ensures NodeInv(c, sent, i, CrashNode(n))
  {
  }

  lemma {:induction false} CrashKeepsInv(c: Cluster, sent: set<Sending>, i: NodeId, n: Node)
    requires NodeInv(c, sent, i, n) && n.view.phase != ABORT
    requires Overtaken(n.logged, n.checkpoint.Sequence()) ==> |c.nodes| > 1
    ensures NodeInv(c, sent, i, CrashNode(n))
  {
    var n' := CrashNode(n);
    if Overtaken(n.logged, n.checkpoint.Sequence()) {
      OvertakenCrashKeepsInv(c, sent, i, n);
    } else if n.view.phase == COMMITTED {
      RestartKeepsInv(c, sent, i, n, n');
    } else {
      FreshViewIsSound(c, sent, i, NewView(n.view.cfg, n.view.sequence, n.view.decisionsInView));
    }
  }

  lemma {:induction false} DeliveryKeepsInv(c: Cluster, sent: set<Sending>, i: NodeId, n: Node, n': Node)
    requires NodeInv(c, sent, i, n) && n.view.phase == ABORT
    requires n' == n.(checkpoint := n'.checkpoint, checkpointSignatures := n'.checkpointSignatures,
             committedDuringViewChange := n'.committedDuringViewChange)
    requires n'.checkpoint.metadata.Encoded? && n'.checkpoint.Sequence() > n.checkpoint.Sequence()
    ensures NodeInv(c, sent, i, n')
  {
  }

  /** View data built from the node's state covers every commit the node has sent. */
  lemma {:induction false} BuildKeepsInv(c: Cluster, sent: set<Sending>, i: NodeId, n: Node)
    requires NodeInv(c, sent, i, n) && n.view.phase == ABORT
    ensures NodeInv(c, sent, i, n.(viewData := n.viewData + {PrepareViewData(n, c.view + 1)}))
  {
  }

  lemma {:induction false} CollectingEventsKeepInv(c: Cluster, sent: set<Sending>, i: NodeId, n: Node, e: Event)
    requires NodeInv(c, sent, i, n) && SoundSent(c, sent) && c.Correct(i) && Enabled(n.view, e)
    requires !e.Receive? && !e.TakePrePrepare? && !e.BecomePrepared?
    ensures NodeInv(c, sent, i, NodeStep(n, e))
  {
    match e {
      case TakePrepare => TakePrepareKeepsInv(c, sent, i, n);
      case TakeCommit => TakeCommitKeepsInv(c, sent, i, n);
      case VerifyVote(vote) => VerifyKeepsInv(c, sent, i, n, vote);
      case Decide => DecideKeepsInv(c, sent, i, n);
      case _ => IdleEventsKeepInv(c, sent, i, n, e);
    }
  }

  /** Events that send nothing. */
  lemma {:induction false} SilentEventsKeepInv(c: Cluster, sent: set<Sending>, i: NodeId, n: Node, e: Event)
    requires NodeInv(c, sent, i, n) && SoundSent(c, sent) && c.Correct(i) && Enabled(n.view, e)
    requires !e.Receive? && !e.BecomePrepared? && !AcceptsNow(n.view, e)
    ensures NodeInv(c, sent, i, NodeStep(n, e)) && Sent(n.view, e) == {}
  {
    if e.TakePrePrepare? {
      RejectKeepsInv(c, sent, i, n);
    } else {
      CollectingEventsKeepInv(c, sent, i, n, e);
    }
  }

  lemma {:induction false} LocalKeepsInv(c: Cluster, sent: set<Sending>, i: NodeId, n: Node, e: Event)
    requires c.Valid() && NodeInv(c, sent, i, n) && SoundSent(c, sent) && c.Correct(i) && Enabled(n.view, e)
    requires e.Receive? ==> Deliverable(c, sent, e.sender, e.msg)
    ensures var sent' := Recorded(sent, i, Sent(n.view, e)); NodeInv(c, sent', i, NodeStep(n, e)) && SoundSent(c, sent')
  {
    if e.Receive? {
      ReceiveKeepsInv(c, sent, i, n, e.sender, e.msg);
    } else if e.BecomePrepared? {
      OvertakenNeverPrepares(c, sent, i, n);
      PreparedKeepsInv(c, sent, i, n);
    } else if AcceptsNow(n.view, e) {
      AcceptKeepsInv(c, sent, i, n, e);
    } else {
      SilentEventsKeepInv(c, sent, i, n, e);
      assert Recorded(sent, i, {}) == sent;
    }
  }

  lemma {:induction false} ProposeKeepsInv(c: Cluster, sent: set<Sending>, i: NodeId, n: Node, m: Message)
    requires NodeInv(c, sent, i, n) && SoundSent(c, sent) && c.Correct(i) && m.PrePrepare?
    ensures var sent' := Recorded(sent, i, {m}); NodeInv(c, sent', i, n) && SoundSent(c, sent')
  {
    Frame(c, sent, Recorded(sent, i, {m}), i, n);
  }

  lemma {:induction false} OtherStepsKeepInv(c: Cluster, s: System, step: Step)
    requires Inv(c, s) && StepEnabled(c, s, step) && !step.Local? && !step.Propose?
    ensures NodeInv(c, s.sent, step.i, NodeAfter(c, s, step))
  {
    var i, n := step.i, s.nodes[step.i];
    match step {
      case Restart(_, _, _, _, _, _) => RestartKeepsInv(c, s.sent, i, n, NodeAfter(c, s, step));
      case Crash(_) => CrashKeepsInv(c, s.sent, i, n);
      case DeliverInViewChange(_, _, _) => DeliveryKeepsInv(c, s.sent, i, n, NodeAfter(c, s, step));
      case BuildViewData(_) => BuildKeepsInv(c, s.sent, i, n);
    }
  }

  lemma {:induction false} ActorKeepsInv(c: Cluster, s: System, step: Step)
    requires Inv(c, s) && StepEnabled(c, s, step)
    ensures var sent' := Recorded(s.sent, step.i, SentBy(c, s, step));
            NodeInv(c, sent', step.i, NodeAfter(c, s, step)) && SoundSent(c, sent')
  {
    if step.Local? {
      LocalKeepsInv(c, s.sent, step.i, s.nodes[step.i], step.e);
    } else if step.Propose? {
      ProposeKeepsInv(c, s.sent, step.i, s.nodes[step.i], step.m);
    } else {
      OtherStepsKeepInv(c, s, step);
      assert Recorded(s.sent, step.i, {}) == s.sent;
    }
  }

  /** What one node sends does not disturb the others. */
  lemma {:induction false} OthersKeepInv(c: Cluster, nodes: map<NodeId, Node>, sent: set<Sending>, i: NodeId, n': Node,
      ms: set<Message>)
    requires NodesInv(c, nodes, sent) && i in nodes && NodeInv(c, Recorded(sent, i, ms), i, n')
    ensures NodesInv(c, nodes[i := n'], Recorded(sent, i, ms))
  {
    var nodes', sent' := nodes[i := n'], Recorded(sent, i, ms);
    forall j | j in nodes' ensures NodeInv(c, sent', j, nodes'[j]) {
      if j != i {
        Frame(c, sent, sent', j, nodes[j]);
      }
    }
  }

  lemma {:induction false} StepKeepsInv(c: Cluster, s: System, step: Step)
    requires Inv(c, s) && StepEnabled(c, s, step)
    ensures Inv(c, Next(c, s, step))
  {
    ActorKeepsInv(c, s, step);
    OthersKeepInv(c, s.nodes, s.sent, step.i, NodeAfter(c, s, step), SentBy(c, s, step));
  }

  lemma {:induction false} InitHoldsInv(c: Cluster, s: System)
    requires c.Valid() && Init(c, s)
    ensures Inv(c, s)
  {
  }

  /** Every state of every run satisfies the invariant. */
  lemma {:induction false} RunKeepsInv(c: Cluster, run: seq<System>, steps: seq<Step>, k: nat)
    requires Execution(c, run, steps) && k < |run|
    ensures Inv(c, run[k])
  {
    if k == 0 {
      InitHoldsInv(c, run[0]);
    } else {
      RunKeepsInv(c, run, steps, k - 1);
      StepKeepsInv(c, run[k - 1], steps[k - 1]);
    }
  }
}
