/** The view object itself: its fields are updated in place by each handler, and every handler is proved to do exactly
    what the corresponding function of Replica says. */
module ViewProtocol {
  import opened Messages
  import opened Votes
  import R = Replica

  /** A phase loop takes one event per iteration: whatever its select finds ready. An event that is not ready is
      passed over. */
  function Feed(v: R.View, e: R.Event): (v': R.View)
    requires R.WellFormed(v)
    ensures R.WellFormed(v') && v'.cfg == v.cfg
  {
    if R.Enabled(v, e) then R.Apply(v, e) else v
  }

  function FeedAll(v: R.View, events: seq<R.Event>): (v': R.View)
    requires R.WellFormed(v)
    ensures R.WellFormed(v') && v'.cfg == v.cfg
  {
    if events == [] then v else Feed(FeedAll(v, events[..|events| - 1]), events[|events| - 1])
  }

  lemma {:induction false} FeedStep(v: R.View, events: seq<R.Event>, k: nat)
    requires R.WellFormed(v) && k < |events|
    ensures FeedAll(v, events[..k + 1]) == Feed(FeedAll(v, events[..k]), events[k])
  {
    assert events[..k + 1][..k] == events[..k];
  }

  ghost predicate Fits(b: Ballot, nodes: set<NodeId>, n: nat) {
    OnePerSender(b) && |b.votes| <= n && b.voted <= nodes
  }

  class View {
    const cfg: R.Config
    ghost const nodes: set<NodeId>
    const n: nat
    var sequence: nat
    var decisionsInView: nat
    var phase: R.Phase
    var stopped: bool
    var waiting: bool
    var prePrepare: Option<Message>
    var nextPrePrepare: Option<Message>
    var prepares: VoteSet
    var nextPrepares: VoteSet
    var commits: VoteSet
    var nextCommits: VoteSet
    var inFlightProposal: Option<Proposal>
    var voterIDs: seq<NodeId>
    var verifying: set<Vote>
    var signatures: seq<Signature>
    var myProposalSig: Option<Signature>
    var lastBroadcastSent: Option<Message>
    var out: R.Outbox

    ghost function Sets(): set<object>
      reads this
    {
      {prepares, nextPrepares, commits, nextCommits}
    }

    ghost predicate Valid()
      reads this, prepares, nextPrepares, commits, nextCommits
    {
      && |nodes| == n
      && prepares != nextPrepares && commits != nextCommits
      && prepares.kind == nextPrepares.kind == Prepares
      && commits.kind == nextCommits.kind == Commits
      && prepares.capacity == nextPrepares.capacity == commits.capacity == nextCommits.capacity == n
      && Fits(prepares.ballot, nodes, n) && Fits(nextPrepares.ballot, nodes, n)
      && Fits(commits.ballot, nodes, n) && Fits(nextCommits.ballot, nodes, n)
      && R.WellFormed(Value())
    }

    ghost function Value(): R.View
      reads this, prepares, nextPrepares, commits, nextCommits
    {
      R.View(cfg, sequence, decisionsInView, phase, stopped, waiting,
             R.Mailbox(prePrepare, nextPrePrepare, prepares.ballot, nextPrepares.ballot, commits.ballot,
                 nextCommits.ballot),
             inFlightProposal, voterIDs, verifying, signatures, myProposalSig, lastBroadcastSent, out)
    }

    constructor (cfg: R.Config, ghost nodes: set<NodeId>, n: nat, sequence: nat, decisionsInView: nat)
      requires |nodes| == n
      ensures Valid() && Value() == R.NewView(cfg, sequence, decisionsInView)
      ensures this.nodes == nodes && fresh(Sets())
    {
      this.cfg, this.nodes, this.n := cfg, nodes, n;
      this.sequence, this.decisionsInView := sequence, decisionsInView;
      phase, stopped, waiting := R.COMMITTED, false, false;
      prePrepare, nextPrePrepare := None, None;
      prepares := new VoteSet(Prepares, n);
      nextPrepares := new VoteSet(Prepares, n);
      commits := new VoteSet(Commits, n);
      nextCommits := new VoteSet(Commits, n);
      inFlightProposal, voterIDs, verifying, signatures := None, [], {}, [];
      myProposalSig, lastBroadcastSent, out := None, None, R.EMPTY_OUTBOX;
    }

    method ProcessPrePrepare(sender: NodeId, m: Message, msgForNextProposal: bool)
      requires Valid() && m.PrePrepare?
      modifies this`prePrepare, this`nextPrePrepare
      ensures Valid()
      ensures Value() == old(Value()).(
                box := R.StorePrePrepare(old(Value()).box, sender == cfg.leaderId, m, msgForNextProposal))
    {
      if m.proposal.None? {
        return;
      }
      if sender != cfg.leaderId {
        return;
      }
      if msgForNextProposal {
        if nextPrePrepare.None? {
          nextPrePrepare := Some(m);
        }
      } else if prePrepare.None? {
        prePrepare := Some(m);
      }
    }

    method ProcessVote(sender: NodeId, m: Message, msgForNextProposal: bool)
      requires Valid() && sender in nodes
      modifies prepares, nextPrepares, commits, nextCommits
      ensures Valid()
      ensures Value() == old(Value()).(box := R.StoreVote(old(Value()).box, sender, m, msgForNextProposal))
    {
      if m.Prepare? {
        if msgForNextProposal {
          nextPrepares.RegisterVote(sender, m, nodes);
        } else {
          prepares.RegisterVote(sender, m, nodes);
        }
        return;
      }
      if m.Commit? {
        if msgForNextProposal {
          nextCommits.RegisterVote(sender, m, nodes);
        } else {
          commits.RegisterVote(sender, m, nodes);
        }
      }
    }

    method ProcessMsg(sender: NodeId, m: Message) returns (reply: Option<Message>)
      requires Valid() && sender in nodes
      modifies this`stopped, this`prePrepare, this`nextPrePrepare, prepares, nextPrepares, commits, nextCommits
      ensures Valid()
      ensures Value() == R.ProcessMsg(old(Value()), sender, m)
      ensures reply == R.ReplyTo(old(Value()), m)
    {
      reply := None;
      if stopped {
        return;
      }
      var msgViewNum, msgProposalSeq := ViewNumber(m), ProposalSequence(m);
      if msgViewNum != cfg.number {
        if sender != cfg.leaderId {
          return;
        }
        stopped := true;
        return;
      }
      if sequence > 0 && msgProposalSeq == sequence - 1 {
        reply := R.AssistReply(out, m);
        return;
      }
      if msgProposalSeq != sequence && msgProposalSeq != sequence + 1 {
        return;
      }
      var msgForNextProposal := msgProposalSeq == sequence + 1;
      if m.PrePrepare? {
        ProcessPrePrepare(sender, m, msgForNextProposal);
        return;
      }
      if sender == cfg.selfId {
        return;
      }
      ProcessVote(sender, m, msgForNextProposal);
    }

    method SwapPrepares()
      requires Valid()
      modifies this`prepares, this`nextPrepares, prepares
      ensures Valid() && prepares == old(nextPrepares) && nextPrepares == old(prepares)
      ensures Value() == old(Value()).(box := old(Value()).box.(prepares := old(nextPrepares.ballot),
              nextPrepares := EMPTY_BALLOT))
    {
      var tmpVotes := prepares;
      prepares := nextPrepares;
      tmpVotes.Clear(n);
      nextPrepares := tmpVotes;
    }

    method SwapCommits()
      requires Valid()
      modifies this`commits, this`nextCommits, commits
      ensures Valid() && commits == old(nextCommits) && nextCommits == old(commits)
      ensures Value() == old(Value()).(box := old(Value()).box.(commits := old(nextCommits.ballot),
              nextCommits := EMPTY_BALLOT))
    {
      var tmpVotes := commits;
      commits := nextCommits;
      tmpVotes.Clear(n);
      nextCommits := tmpVotes;
    }

    method AdvanceSequence()
      requires Valid()
      modifies this`sequence, this`decisionsInView, this`prePrepare, this`nextPrePrepare
      ensures Valid()
      ensures Value() == old(Value()).(sequence := old(sequence) + 1, decisionsInView := old(decisionsInView) + 1,
                                       box := old(Value()).box.(prePrepare := old(nextPrePrepare),
                                           nextPrePrepare := None))
    {
      sequence := sequence + 1;
      decisionsInView := decisionsInView + 1;
      prePrepare := nextPrePrepare;
      nextPrePrepare := None;
    }

    /** The next sequence starts with the buffered messages; the vote sets change places and the old ones are
        emptied. */
    method StartNextSeq()
      requires Valid()
      modifies this`sequence, this`decisionsInView, this`prePrepare, this`nextPrePrepare,
               this`prepares, this`nextPrepares, this`commits, this`nextCommits, prepares, commits
      ensures Valid() && Sets() == old(Sets())
      ensures Value() == R.StartNextSeq(old(Value()))
    {
      AdvanceSequence();
      SwapPrepares();
      SwapCommits();
    }

    /** The head of processProposal: what was sent at the last sequence is kept for lagging replicas. */
    method BeginProposal()
      requires Valid() && R.Enabled(Value(), R.BeginProposal)
      modifies this`out, this`inFlightProposal, this`lastBroadcastSent, this`waiting
      ensures Valid() && Value() == R.Begin(old(Value()))
    {
      out := R.Outbox(None, None, out.currPrepare, out.currCommit);
      inFlightProposal, lastBroadcastSent, waiting := None, None, true;
    }

    method Reject()
      requires Valid()
      modifies this`prePrepare, this`waiting, this`stopped, this`phase
      ensures Valid() && Value() == R.RejectProposal(old(Value()))
    {
      prePrepare, waiting, stopped, phase := None, false, true, R.ABORT;
    }

    method RecordPrepare(proposal: Proposal)
      requires Valid()
      modifies this`inFlightProposal, this`lastBroadcastSent, this`out
      ensures Valid()
      ensures Value() == old(Value()).(inFlight := Some(proposal),
              lastBroadcast := Some(R.PrepareMessage(old(Value()), proposal, false)),
                                       out := old(out).(currPrepare := Some(R.PrepareMessage(old(Value()), proposal,
                                           true))))
    {
      lastBroadcastSent := Some(Prepare(cfg.number, sequence, DigestOf(proposal), false));
      out := out.(currPrepare := Some(Prepare(cfg.number, sequence, DigestOf(proposal), true)));
      inFlightProposal := Some(proposal);
    }

    method Accept(proposal: Proposal)
      requires Valid()
      modifies this`prePrepare, this`waiting, this`phase, this`inFlightProposal, this`voterIDs,
          this`lastBroadcastSent, this`out
      ensures Valid() && Value() == R.AcceptProposal(old(Value()), proposal)
    {
      RecordPrepare(proposal);
      prePrepare, waiting, voterIDs, phase := None, false, [], R.PROPOSED;
    }

    /** The tail of processProposal once a pre-prepare was received: verify, save, and vote. */
    method TakeProposal(restValid: bool)
      requires Valid() && R.Enabled(Value(), R.TakePrePrepare(restValid))
      modifies this`prePrepare, this`waiting, this`phase, this`stopped, this`inFlightProposal, this`voterIDs,
               this`lastBroadcastSent, this`out
      ensures Valid() && Value() == R.Apply(old(Value()), R.TakePrePrepare(restValid))
    {
      var proposal := prePrepare.value.proposal.value;
      var md := proposal.metadata.Decode();
      if md.None? || md.value.viewId != cfg.number || md.value.latestSequence != sequence
         || md.value.decisionsInView != decisionsInView || !restValid {
        Reject();
        return;
      }
      Accept(proposal);
    }

    method CountPrepare()
      requires Valid() && inFlightProposal.Some? && prepares.ballot.votes != []
      modifies this`voterIDs, prepares`ballot
      ensures Valid() && Value() == R.CountPrepare(old(Value()))
    {
      var vote := prepares.Take();
      if vote.msg.Prepare? && vote.msg.digest == DigestOf(inFlightProposal.value) {
        voterIDs := voterIDs + [vote.sender];
      }
    }

    /** One iteration of the loop of processPrepares. */
    method StepPrepares(e: R.Event)
      requires Valid() && phase == R.PROPOSED && |voterIDs| + 1 < cfg.quorum
      requires e.NoticeAbort? || e.TakePrepare? || (e.Receive? && e.sender in nodes)
      modifies this`stopped, this`phase, this`prePrepare, this`nextPrePrepare, this`voterIDs, prepares, nextPrepares,
          commits, nextCommits
      ensures Valid() && Value() == Feed(old(Value()), e) && (phase == R.PROPOSED || phase == R.ABORT)
    {
      match e {
        case NoticeAbort =>
          if stopped {
            phase := R.ABORT;
          }
        case Receive(sender, m) =>
          var _ := ProcessMsg(sender, m);
        case TakePrepare =>
          if prepares.ballot.votes != [] {
            CountPrepare();
          }
      }
    }

    method NextPrepares(events: seq<R.Event>, k: nat, ghost start: R.View)
      requires Valid() && phase == R.PROPOSED && |voterIDs| + 1 < cfg.quorum
      requires k < |events|
      requires (events[k].NoticeAbort? || events[k].TakePrepare? || (events[k].Receive? && events[k].sender in nodes))
      requires R.WellFormed(start) && Value() == FeedAll(start, events[..k])
      modifies this`stopped, this`phase, this`prePrepare, this`nextPrePrepare, this`voterIDs, prepares, nextPrepares,
          commits, nextCommits
      ensures Valid() && Value() == FeedAll(start, events[..k + 1]) && (phase == R.PROPOSED || phase == R.ABORT)
    {
      FeedStep(start, events, k);
      StepPrepares(events[k]);
    }

    /** The loop of processPrepares, fed by what its select finds: it ends once Quorum - 1 matching prepares of other
        nodes are counted, or when it notices the abort. */
    method CollectPrepares(events: seq<R.Event>) returns (used: nat)
      requires Valid() && phase == R.PROPOSED
      requires forall k :: 0 <= k < |events| ==>
                 events[k].NoticeAbort? || events[k].TakePrepare? || (events[k].Receive? && events[k].sender in nodes)
      modifies this`stopped, this`phase, this`prePrepare, this`nextPrePrepare, this`voterIDs, prepares, nextPrepares,
          commits, nextCommits
      ensures Valid() && used <= |events| && Value() == FeedAll(old(Value()), events[..used])
      ensures phase == R.ABORT || (phase == R.PROPOSED && (|voterIDs| + 1 >= cfg.quorum || used == |events|))
    {
      used := 0;
      ghost var start := Value();
      while phase == R.PROPOSED && |voterIDs| + 1 < cfg.quorum && used < |events|
        invariant Valid() && used <= |events| && (phase == R.PROPOSED || phase == R.ABORT)
        invariant Value() == FeedAll(start, events[..used])
        decreases |events| - used
      {
        NextPrepares(events, used, start);
        used := used + 1;
      }
    }

    method SignCommit()
      requires Valid() && inFlightProposal.Some?
      modifies this`myProposalSig, this`lastBroadcastSent, this`out
      ensures Valid()
      ensures var v := old(Value());
              Value() == v.(mySignature := Some(R.Sign(v)), lastBroadcast := Some(R.CommitMessage(v, false)),
                            out := v.out.(currCommit := Some(R.CommitMessage(v, true))))
    {
      var proposal := inFlightProposal.value;
      var aux := if voterIDs == [] then NoAuxiliary else PreparesFrom(voterIDs);
      myProposalSig := Some(Signature(cfg.selfId, proposal, aux));
      lastBroadcastSent := Some(Commit(cfg.number, sequence, DigestOf(proposal), myProposalSig, false));
      out := out.(currCommit := Some(Commit(cfg.number, sequence, DigestOf(proposal), myProposalSig, true)));
    }

    /** The tail of processPrepares: sign the proposal, naming those the prepares came from, and vote to commit. */
    method BecomePrepared()
      requires Valid() && inFlightProposal.Some?
      modifies this`myProposalSig, this`lastBroadcastSent, this`out, this`verifying, this`signatures, this`phase
      ensures Valid() && Value() == R.Prepared(old(Value()))
    {
      SignCommit();
      verifying, signatures, phase := {}, [], R.PREPARED;
    }

    method CountCommit(vote: Vote)
      requires Valid() && inFlightProposal.Some?
      modifies this`verifying, this`signatures
      ensures Valid() && Value() == R.CountCommit(old(Value()), vote)
    {
      verifying := verifying - {vote};
      if vote.msg.Commit? && vote.msg.signature.Some? && vote.msg.digest == DigestOf(inFlightProposal.value)
         && vote.msg.signature.value.subject == inFlightProposal.value {
        signatures := signatures + [vote.msg.signature.value];
      }
    }

    method DispatchCommit()
      requires Valid() && commits.ballot.votes != []
      modifies this`verifying, commits`ballot
      ensures Valid() && Value() == R.DispatchCommit(old(Value()))
    {
      var vote := commits.Take();
      verifying := verifying + {vote};
    }

    /** One iteration of the loop of processCommits. */
    method StepCommits(e: R.Event)
      requires Valid() && phase == R.PREPARED && |signatures| + 1 < cfg.quorum
      requires e.NoticeAbort? || e.TakeCommit? || e.VerifyVote? || (e.Receive? && e.sender in nodes)
      modifies this`stopped, this`phase, this`prePrepare, this`nextPrePrepare, this`verifying, this`signatures,
               prepares, nextPrepares, commits, nextCommits
      ensures Valid() && Value() == Feed(old(Value()), e) && (phase == R.PREPARED || phase == R.ABORT)
    {
      match e {
        case NoticeAbort =>
          if stopped {
            phase := R.ABORT;
          }
        case Receive(sender, m) =>
          var _ := ProcessMsg(sender, m);
        case TakeCommit =>
          if commits.ballot.votes != [] {
            DispatchCommit();
          }
        case VerifyVote(vote) =>
          if vote in verifying {
            CountCommit(vote);
          }
      }
    }

    method NextCommits(events: seq<R.Event>, k: nat, ghost start: R.View)
      requires Valid() && phase == R.PREPARED && |signatures| + 1 < cfg.quorum
      requires k < |events|
      requires (events[k].NoticeAbort? || events[k].TakeCommit? || events[k].VerifyVote?
                || (events[k].Receive? && events[k].sender in nodes))
      requires R.WellFormed(start) && Value() == FeedAll(start, events[..k])
      modifies this`stopped, this`phase, this`prePrepare, this`nextPrePrepare, this`verifying, this`signatures,
               prepares, nextPrepares, commits, nextCommits
      ensures Valid() && Value() == FeedAll(start, events[..k + 1]) && (phase == R.PREPARED || phase == R.ABORT)
    {
      FeedStep(start, events, k);
      StepCommits(events[k]);
    }

    /** The loop of processCommits: it ends once Quorum - 1 verified commits of other nodes are counted, or at an
        abort. */
    method CollectCommits(events: seq<R.Event>) returns (used: nat)
      requires Valid() && phase == R.PREPARED
      requires forall k :: 0 <= k < |events| ==>
                 events[k].NoticeAbort? || events[k].TakeCommit? || events[k].VerifyVote?
                     || (events[k].Receive? && events[k].sender in nodes)
      modifies this`stopped, this`phase, this`prePrepare, this`nextPrePrepare, this`verifying, this`signatures,
               prepares, nextPrepares, commits, nextCommits
      ensures Valid() && used <= |events| && Value() == FeedAll(old(Value()), events[..used])
      ensures phase == R.ABORT || (phase == R.PREPARED && (|signatures| + 1 >= cfg.quorum || used == |events|))
    {
      used := 0;
      ghost var start := Value();
      while phase == R.PREPARED && |signatures| + 1 < cfg.quorum && used < |events|
        invariant Valid() && used <= |events| && (phase == R.PREPARED || phase == R.ABORT)
        invariant Value() == FeedAll(start, events[..used])
        decreases |events| - used
      {
        NextCommits(events, used, start);
        used := used + 1;
      }
    }

    /** decide: the view is made ready for the next sequence first, then the proposal is handed over with the counted
        signatures and the node's own. */
    method Decide() returns (proposal: Proposal, sigs: seq<Signature>)
      requires Valid() && phase == R.PREPARED
      modifies this`sequence, this`decisionsInView, this`prePrepare, this`nextPrePrepare, this`prepares,
          this`nextPrepares,
               this`commits, this`nextCommits, this`phase, this`waiting, this`verifying, this`signatures, prepares,
                   commits
      ensures Valid() && Value() == R.Decided(old(Value()))
      ensures proposal == old(inFlightProposal).value && sigs == R.DecisionSignatures(old(Value()))
    {
      proposal, sigs := inFlightProposal.value, signatures;
      StartNextSeq();
      sigs := sigs + [myProposalSig.value];
      phase, waiting, verifying, signatures := R.COMMITTED, false, {}, [];
    }
  }
}
