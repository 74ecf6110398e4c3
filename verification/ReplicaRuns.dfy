/** What holds in every run of one view: where its pre-prepares come from, which votes it counts, what it keeps for
    lagging replicas, and what makes it stop. */
module ReplicaRuns {
  import opened Messages
  import opened Votes
  import opened Replica

  /** What a run looks like from its end. */
  lemma {:induction false} RunSnoc(h: History, events: seq<Event>, e: Event)
    requires WellFormed(h.view)
    ensures var r := Run(h, events);
            && (r.Some? ==> WellFormed(r.value.view))
            && Run(h, events + [e])
               == if r.Some? && Enabled(r.value.view, e) then Some(Extend(r.value, e)) else None
    decreases |events|
  {
    if events == [] {
      assert (events + [e])[1..] == [];
    } else {
      assert (events + [e])[1..] == events[1..] + [e];
      if Enabled(h.view, events[0]) {
        RunSnoc(Extend(h, events[0]), events[1..], e);
      }
    }
  }

  // ---- pre-prepares ----

  /** A pre-prepare with a proposal, from the leader, for this view and sequence. */
  predicate Offer(cfg: Config, sequence: nat, h: Heard) {
    && h.sender == cfg.leaderId
    && h.msg.PrePrepare? && h.msg.proposal.Some? && h.msg.view == cfg.number && h.msg.sequence == sequence
  }

  ghost predicate FirstAt(log: seq<Heard>, cfg: Config, sequence: nat, k: nat) {
    k < |log| && Offer(cfg, sequence, log[k]) && forall j :: 0 <= j < k ==> !Offer(cfg, sequence, log[j])
  }

  /** The slot holds the first offer of the log, or nothing if there is none. */
  ghost predicate HoldsFirst(slot: Option<Message>, log: seq<Heard>, cfg: Config, sequence: nat) {
    if slot.None? then forall k :: 0 <= k < |log| ==> !Offer(cfg, sequence, log[k])
    else exists k: nat :: FirstAt(log, cfg, sequence, k) && slot.value == log[k].msg
  }

  /** Both slots hold the first offers for their sequences, the current one since the last one was taken; the proposal
      at hand is that of the first offer. */
  ghost predicate Supplied(h: History) {
    var v := h.view;
    && h.taken <= |h.log| && NothingAhead(h.log, v.sequence + 1)
    && HoldsFirst(v.box.prePrepare, h.log[h.taken..], v.cfg, v.sequence)
    && HoldsFirst(v.box.nextPrePrepare, h.log, v.cfg, v.sequence + 1)
    && (v.phase == COMMITTED ==> h.taken == 0)
    && (v.phase == PROPOSED || v.phase == PREPARED ==> AtHand(h))
  }

  ghost predicate AtHand(h: History)
    requires h.taken <= |h.log|
  {
    exists k: nat :: FirstAt(h.log[..h.taken], h.view.cfg, h.view.sequence, k)
      && h.view.inFlight == h.log[k].msg.proposal
  }

  lemma {:induction false} OneMoreHeard(slot: Option<Message>, log: seq<Heard>, cfg: Config, sequence: nat, h: Heard)
    requires HoldsFirst(slot, log, cfg, sequence)
    ensures HoldsFirst(if slot.None? && Offer(cfg, sequence, h) then Some(h.msg) else slot, log + [h], cfg, sequence)
  {
    if slot.Some? {
      var k: nat :| FirstAt(log, cfg, sequence, k) && slot.value == log[k].msg;
      assert FirstAt(log + [h], cfg, sequence, k);
    } else if Offer(cfg, sequence, h) {
      assert FirstAt(log + [h], cfg, sequence, |log|);
    }
  }

  lemma {:induction false} IrrelevantIsDropped(v: View, sender: NodeId, m: Message)
    requires !Relevant(v, m)
    ensures ProcessMsg(v, sender, m) == v.(stopped := ProcessMsg(v, sender, m).stopped)
  {
  }

  /** What receiving a message does to the two slots. */
  lemma {:induction false} SlotsAfterReceive(v: View, sender: NodeId, m: Message)
    requires Relevant(v, m)
    ensures var v', h := ProcessMsg(v, sender, m), Heard(sender, m);
            var slot, next := v.box.prePrepare, v.box.nextPrePrepare;
            && v'.box.prePrepare == (if slot.None? && Offer(v.cfg, v.sequence, h) then Some(m) else slot)
            && v'.box.nextPrePrepare == (if next.None? && Offer(v.cfg, v.sequence + 1, h) then Some(m) else next)
            && v' == v.(box := v'.box)
  {
  }

  lemma {:induction false} AtHandStays(h: History, heard: Heard)
    requires h.taken <= |h.log| && AtHand(h)
    ensures AtHand(h.(log := h.log + [heard]))
  {
    assert (h.log + [heard])[..h.taken] == h.log[..h.taken];
    var k: nat :| FirstAt(h.log[..h.taken], h.view.cfg, h.view.sequence, k) && h.view.inFlight == h.log[k].msg.proposal;
    assert (h.log + [heard])[k] == h.log[k];
  }

  lemma {:induction false} HearingKeepsSupplied(h: History, sender: NodeId, m: Message)
    requires Supplied(h) && Relevant(h.view, m)
    ensures Supplied(History(ProcessMsg(h.view, sender, m), h.log + [Heard(sender, m)], h.taken))
  {
    var v, heard := h.view, Heard(sender, m);
    SlotsAfterReceive(v, sender, m);
    OneMoreHeard(v.box.prePrepare, h.log[h.taken..], v.cfg, v.sequence, heard);
    OneMoreHeard(v.box.nextPrePrepare, h.log, v.cfg, v.sequence + 1, heard);
    assert (h.log + [heard])[h.taken..] == h.log[h.taken..] + [heard];
    if AtHand(h) {
      AtHandStays(h, heard);
    }
  }

  lemma {:induction false} ReceiveKeepsSupplied(h: History, sender: NodeId, m: Message)
    requires WellFormed(h.view) && Supplied(h) && h.view.phase != ABORT
    ensures Supplied(Extend(h, Receive(sender, m)))
  {
    if Relevant(h.view, m) {
      HearingKeepsSupplied(h, sender, m);
    } else {
      IrrelevantIsDropped(h.view, sender, m);
    }
  }

  lemma {:induction false} TakeKeepsSupplied(h: History, restValid: bool)
    requires WellFormed(h.view) && Supplied(h) && Enabled(h.view, TakePrePrepare(restValid))
    ensures Supplied(Extend(h, TakePrePrepare(restValid)))
  {
    assert h.log[|h.log|..] == [];
    assert h.log[0..] == h.log[..|h.log|] == h.log;
  }

  lemma {:induction false} DecideKeepsSupplied(h: History)
    requires WellFormed(h.view) && Supplied(h) && Enabled(h.view, Decide)
    ensures Supplied(Extend(h, Decide))
  {
    assert h.log[0..] == h.log;
  }

  lemma {:induction false} EventKeepsSupplied(h: History, e: Event)
    requires WellFormed(h.view) && Enabled(h.view, e) && Supplied(h)
    ensures Supplied(Extend(h, e))
  {
    match e {
      case Receive(sender, m) => ReceiveKeepsSupplied(h, sender, m);
      case TakePrePrepare(restValid) => TakeKeepsSupplied(h, restValid);
      case Decide => DecideKeepsSupplied(h);
      case _ =>
    }
  }

  /** In every run of a view, across any number of decisions: a buffered pre-prepare was heard from the leader for
      this view and its sequence, and is the first such one since the slot was emptied; what was buffered for the next
      sequence is at hand once that sequence is reached; and the proposal voted on is that of the first one heard. */
  lemma {:induction false} PrePreparesAreOffers(cfg: Config, sequence: nat, decisionsInView: nat, events: seq<Event>)
    ensures var r := Run(Begun(cfg, sequence, decisionsInView), events);
            r.Some? ==> WellFormed(r.value.view) && Supplied(r.value)
  {
    if events != [] {
      var init, last := events[..|events| - 1], events[|events| - 1];
      PrePreparesAreOffers(cfg, sequence, decisionsInView, init);
      RunSnoc(Begun(cfg, sequence, decisionsInView), init, last);
      assert init + [last] == events;
      var r := Run(Begun(cfg, sequence, decisionsInView), init);
      if r.Some? && Enabled(r.value.view, last) {
        EventKeepsSupplied(r.value, last);
      }
    }
  }

  // ---- counting votes ----

  /** Those of the votes that are for this digest, by sender, in order. */
  function Backers(votes: seq<Vote>, d: Digest): seq<NodeId> {
    if votes == [] then []
    else
      var last := votes[|votes| - 1];
      Backers(votes[..|votes| - 1], d) + (if last.msg.Prepare? && last.msg.digest == d then [last.sender] else [])
  }

  /** A commit for this proposal, with a signature on it. */
  predicate Endorses(vote: Vote, p: Proposal) {
    && vote.msg.Commit? && vote.msg.digest == DigestOf(p)
    && vote.msg.signature.Some? && vote.msg.signature.value.subject == p
  }

  /** The votes that left the queue. */
  ghost function Consumed(whole: seq<Vote>, left: seq<Vote>): seq<Vote>
    requires |left| <= |whole|
  {
    whole[..|whole| - |left|]
  }

  /** Every consumed vote is being verified, or was: then its signature is counted exactly if it endorses the
      proposal. */
  ghost predicate Sorted(consumed: seq<Vote>, verifying: set<Vote>, signatures: seq<Signature>, p: Proposal) {
    && (forall vote :: vote in verifying ==> vote in consumed)
    && (forall vote :: vote in consumed && vote !in verifying && Endorses(vote, p)
          ==> vote.msg.signature.value in signatures)
    && (forall sig :: sig in signatures ==>
          exists vote :: vote in consumed && vote !in verifying && Endorses(vote, p) && vote.msg.signature.value == sig)
  }

  function Queue(v: View, kind: Kind): Ballot {
    if kind == Prepares then v.box.prepares else v.box.commits
  }

  function NextQueue(v: View, kind: Kind): Ballot {
    if kind == Prepares then v.box.nextPrepares else v.box.nextCommits
  }

  /** The votes of a kind for the current sequence that left the queue. */
  ghost function Gone(h: History, kind: Kind): seq<Vote>
    requires Buffered(h)
  {
    assert Buffers(h.view, h.log, kind, Queue(h.view, kind), NextQueue(h.view, kind));
    Consumed(Tally(h.log, kind, h.view.cfg, h.view.sequence).votes, Queue(h.view, kind).votes)
  }

  /** No vote is taken out before its phase, and none that was taken out is forgotten. */
  ghost predicate Counts(v: View, prepares: seq<Vote>, commits: seq<Vote>) {
    && (v.phase == COMMITTED ==> prepares == [])
    && (v.phase == COMMITTED || v.phase == PROPOSED ==> commits == [])
    && (v.phase == PROPOSED || v.phase == PREPARED ==>
          v.inFlight.Some? && v.voters == Backers(prepares, DigestOf(v.inFlight.value)))
    && (v.phase == PREPARED ==>
          && v.inFlight.Some? && Sorted(commits, v.verifying, v.signatures, v.inFlight.value)
          && |v.voters| + 1 >= v.cfg.quorum && v.mySignature.Some?
          && v.mySignature.value.signer == v.cfg.selfId && v.mySignature.value.subject == v.inFlight.value
          && v.mySignature.value.aux.Decode() == Some(v.voters))
  }

  lemma {:induction false} HearingConsumesNothing(v: View, log: seq<Heard>, kind: Kind, current: Ballot, next: Ballot,
      h: Heard)
    requires Buffers(v, log, kind, current, next) && !h.msg.Unrelated? && h.msg.view == v.cfg.number
    ensures var stays := h.sender == v.cfg.selfId || h.msg.sequence != v.sequence;
            var current' := if stays then current else current.Register(kind, h.sender, h.msg);
            var whole, whole' := Tally(log, kind, v.cfg, v.sequence).votes,
                Tally(log + [h], kind, v.cfg, v.sequence).votes;
            |current'.votes| <= |whole'| && Consumed(whole', current'.votes) == Consumed(whole, current.votes)
  {
    TallyStep(log, h, kind, v.cfg, v.sequence);
  }

  lemma {:induction false} PopConsumesOne(whole: seq<Vote>, left: seq<Vote>)
    requires SuffixOf(left, whole) && left != []
    ensures Consumed(whole, left[1..]) == Consumed(whole, left) + [left[0]]
  {
  }

  lemma {:induction false} FirstLeftIsNew(h: History, kind: Kind)
    requires Buffered(h) && Queue(h.view, kind).votes != []
    ensures Queue(h.view, kind).votes[0] !in Gone(h, kind)
  {
    TallyIsPure(h.log, kind, h.view.cfg, h.view.sequence);
    var whole, left := Tally(h.log, kind, h.view.cfg, h.view.sequence).votes, Queue(h.view, kind).votes;
    assert left[0] == whole[|whole| - |left|];
  }

  lemma {:induction false} OneMoreBacker(votes: seq<Vote>, vote: Vote, d: Digest)
    ensures Backers(votes + [vote], d)
            == Backers(votes, d) + (if vote.msg.Prepare? && vote.msg.digest == d then [vote.sender] else [])
  {
    assert (votes + [vote])[..|votes|] == votes;
  }

  lemma {:induction false} DispatchSorts(consumed: seq<Vote>, verifying: set<Vote>, signatures: seq<Signature>,
      p: Proposal, vote: Vote)
    requires Sorted(consumed, verifying, signatures, p) && vote !in consumed
    ensures Sorted(consumed + [vote], verifying + {vote}, signatures, p)
  {
    forall sig | sig in signatures
      ensures exists x :: x in consumed + [vote] && x !in verifying + {vote} && Endorses(x, p)
                && x.msg.signature.value == sig
    {
      var x :| x in consumed && x !in verifying && Endorses(x, p) && x.msg.signature.value == sig;
      assert x in consumed + [vote];
    }
  }

  lemma {:induction false} VerifySorts(consumed: seq<Vote>, verifying: set<Vote>, signatures: seq<Signature>,
      p: Proposal, vote: Vote)
    requires Sorted(consumed, verifying, signatures, p) && vote in verifying
    ensures Sorted(consumed, verifying - {vote},
                   if Endorses(vote, p) then signatures + [vote.msg.signature.value] else signatures, p)
  {
    var signatures' := if Endorses(vote, p) then signatures + [vote.msg.signature.value] else signatures;
    forall sig | sig in signatures'
      ensures exists x :: x in consumed && x !in verifying - {vote} && Endorses(x, p) && x.msg.signature.value == sig
    {
      if sig in signatures {
        var x :| x in consumed && x !in verifying && Endorses(x, p) && x.msg.signature.value == sig;
      } else {
        assert vote in consumed;
      }
    }
  }

  /** What an event takes out of the queue of a kind. */
  function TakenBy(v: View, e: Event, kind: Kind): seq<Vote>
    requires Enabled(v, e)
  {
    if e.TakePrepare? && kind == Prepares then [v.box.prepares.votes[0]]
    else if e.TakeCommit? && kind == Commits then [v.box.commits.votes[0]]
    else []
  }

  lemma {:induction false} QueueAfterReceive(v: View, sender: NodeId, m: Message, kind: Kind)
    requires Relevant(v, m)
    ensures var stays := sender == v.cfg.selfId || m.sequence != v.sequence;
            Queue(ProcessMsg(v, sender, m), kind)
            == if stays then Queue(v, kind) else Queue(v, kind).Register(kind, sender, m)
    ensures ProcessMsg(v, sender, m).cfg == v.cfg && ProcessMsg(v, sender, m).sequence == v.sequence
  {
  }

  lemma {:induction false} RegisteringGone(h: History, v: View, heard: Heard, kind: Kind)
    requires Buffered(h) && !heard.msg.Unrelated? && heard.msg.view == h.view.cfg.number
    requires v.cfg == h.view.cfg && v.sequence == h.view.sequence
    requires var stays := heard.sender == v.cfg.selfId || heard.msg.sequence != v.sequence;
             Queue(v, kind)
             == if stays then Queue(h.view, kind) else Queue(h.view, kind).Register(kind, heard.sender, heard.msg)
    requires Buffered(History(v, h.log + [heard], h.taken))
    ensures Gone(History(v, h.log + [heard], h.taken), kind) == Gone(h, kind)
  {
    HearingConsumesNothing(h.view, h.log, kind, Queue(h.view, kind), NextQueue(h.view, kind), heard);
  }

  lemma {:induction false} HearingGone(h: History, sender: NodeId, m: Message, kind: Kind)
    requires Relevant(h.view, m) && Buffered(h)
    requires Buffered(History(ProcessMsg(h.view, sender, m), h.log + [Heard(sender, m)], h.taken))
    ensures Gone(History(ProcessMsg(h.view, sender, m), h.log + [Heard(sender, m)], h.taken), kind) == Gone(h, kind)
  {
    QueueAfterReceive(h.view, sender, m, kind);
    RegisteringGone(h, ProcessMsg(h.view, sender, m), Heard(sender, m), kind);
  }

  lemma {:induction false} ReceiveGone(h: History, sender: NodeId, m: Message, kind: Kind)
    requires WellFormed(h.view) && Buffered(h) && h.view.phase != ABORT && Buffered(Extend(h, Receive(sender, m)))
    ensures Gone(Extend(h, Receive(sender, m)), kind) == Gone(h, kind)
  {
    if Relevant(h.view, m) {
      HearingGone(h, sender, m, kind);
    } else {
      IrrelevantIsDropped(h.view, sender, m);
    }
  }

  lemma {:induction false} QueueAfter(v: View, e: Event, kind: Kind)
    requires WellFormed(v) && Enabled(v, e) && !e.Receive? && !e.Decide?
    ensures Queue(Apply(v, e), kind).votes == Queue(v, kind).votes[|TakenBy(v, e, kind)|..]
    ensures Apply(v, e).sequence == v.sequence
  {
  }

  lemma {:induction false} EventGone(h: History, e: Event, kind: Kind)
    requires WellFormed(h.view) && Buffered(h) && Enabled(h.view, e) && Buffered(Extend(h, e)) && !e.Receive?
             && !e.Decide?
    ensures Gone(Extend(h, e), kind) == Gone(h, kind) + TakenBy(h.view, e, kind)
  {
    QueueAfter(h.view, e, kind);
    if TakenBy(h.view, e, kind) != [] {
      PopConsumesOne(Tally(h.log, kind, h.view.cfg, h.view.sequence).votes, Queue(h.view, kind).votes);
    }
  }

  lemma {:induction false} DecideGone(h: History, kind: Kind)
    requires WellFormed(h.view) && Buffered(h) && Enabled(h.view, Decide) && Buffered(Extend(h, Decide))
    ensures Gone(Extend(h, Decide), kind) == []
  {
    var h' := Extend(h, Decide);
    assert Queue(h'.view, kind) == Tally(h'.log, kind, h'.view.cfg, h'.view.sequence);
  }

  lemma {:induction false} GoneAfter(h: History, e: Event, kind: Kind)
    requires WellFormed(h.view) && Buffered(h) && Enabled(h.view, e) && Buffered(Extend(h, e))
    ensures Gone(Extend(h, e), kind) == if e.Decide? then [] else Gone(h, kind) + TakenBy(h.view, e, kind)
  {
    match e {
      case Receive(sender, m) => ReceiveGone(h, sender, m, kind);
      case Decide => DecideGone(h, kind);
      case _ => EventGone(h, e, kind);
    }
  }

  /** Counting, as far as the view alone goes. */
  lemma {:induction false} ViewCounts(v: View, e: Event, prepares: seq<Vote>, commits: seq<Vote>)
    requires WellFormed(v) && Enabled(v, e) && Counts(v, prepares, commits)
    requires e.TakeCommit? ==> v.box.commits.votes[0] !in commits
    ensures Counts(Apply(v, e), if e.Decide? then [] else prepares + TakenBy(v, e, Prepares),
                   if e.Decide? then [] else commits + TakenBy(v, e, Commits))
  {
    assert prepares + [] == prepares && commits + [] == commits;
    match e {
      case TakePrepare => PrepareCounts(v, prepares, commits);
      case TakeCommit => DispatchCounts(v, prepares, commits);
      case VerifyVote(vote) => VerifyCounts(v, prepares, commits, vote);
      case _ =>
    }
  }

  lemma {:induction false} PrepareCounts(v: View, prepares: seq<Vote>, commits: seq<Vote>)
    requires WellFormed(v) && Enabled(v, TakePrepare) && Counts(v, prepares, commits)
    ensures Counts(CountPrepare(v), prepares + [v.box.prepares.votes[0]], commits)
  {
    OneMoreBacker(prepares, v.box.prepares.votes[0], DigestOf(v.inFlight.value));
  }

  lemma {:induction false} DispatchCounts(v: View, prepares: seq<Vote>, commits: seq<Vote>)
    requires WellFormed(v) && Enabled(v, TakeCommit) && Counts(v, prepares, commits)
    requires v.box.commits.votes[0] !in commits
    ensures Counts(DispatchCommit(v), prepares, commits + [v.box.commits.votes[0]])
  {
    DispatchSorts(commits, v.verifying, v.signatures, v.inFlight.value, v.box.commits.votes[0]);
  }

  lemma {:induction false} VerifyCounts(v: View, prepares: seq<Vote>, commits: seq<Vote>, vote: Vote)
    requires WellFormed(v) && Enabled(v, VerifyVote(vote)) && Counts(v, prepares, commits)
    ensures Counts(CountCommit(v, vote), prepares, commits)
  {
    VerifySorts(commits, v.verifying, v.signatures, v.inFlight.value, vote);
  }

  lemma {:induction false} EventKeepsCounts(h: History, e: Event)
    requires WellFormed(h.view) && Buffered(h) && Enabled(h.view, e)
    requires Counts(h.view, Gone(h, Prepares), Gone(h, Commits))
    ensures Buffered(Extend(h, e))
    ensures var h' := Extend(h, e); Counts(h'.view, Gone(h', Prepares), Gone(h', Commits))
  {
    EventKeepsBuffers(h, e);
    GoneAfter(h, e, Prepares);
    GoneAfter(h, e, Commits);
    if e.TakeCommit? {
      FirstLeftIsNew(h, Commits);
    }
    ViewCounts(h.view, e, Gone(h, Prepares), Gone(h, Commits));
  }

  /** In every run of a view: the prepares counted are exactly the consumed ones for the proposal at hand, in order of
      arrival, and the node's own signature names exactly their senders; of the consumed commits each is either still
      being verified or has its signature counted exactly if it endorses the proposal. */
  lemma {:induction false} CountingLosesNothing(cfg: Config, sequence: nat, decisionsInView: nat, events: seq<Event>)
    ensures var r := Run(Begun(cfg, sequence, decisionsInView), events);
            r.Some? ==>
              && WellFormed(r.value.view) && Buffered(r.value)
              && Counts(r.value.view, Gone(r.value, Prepares), Gone(r.value, Commits))
  {
    if events != [] {
      var init, last := events[..|events| - 1], events[|events| - 1];
      CountingLosesNothing(cfg, sequence, decisionsInView, init);
      RunSnoc(Begun(cfg, sequence, decisionsInView), init, last);
      assert init + [last] == events;
      var r := Run(Begun(cfg, sequence, decisionsInView), init);
      if r.Some? && Enabled(r.value.view, last) {
        EventKeepsCounts(r.value, last);
      }
    }
  }

  // ---- what is kept for lagging replicas ----

  /** Between a decision and the next call of processProposal. */
  predicate Idle(v: View) {
    v.phase == COMMITTED && !v.waiting
  }

  /** The two votes of this node at a sequence, marked as assists. */
  ghost predicate VotesAt(cfg: Config, prepare: Option<Message>, commit: Option<Message>, sequence: int) {
    && prepare.Some? && commit.Some? && prepare.value.Prepare? && commit.value.Commit?
    && prepare.value == Prepare(cfg.number, prepare.value.sequence, prepare.value.digest, true)
    && commit.value == Commit(cfg.number, prepare.value.sequence, prepare.value.digest, commit.value.signature, true)
    && prepare.value.sequence == sequence
    && commit.value.signature.Some? && commit.value.signature.value.signer == cfg.selfId
    && DigestOf(commit.value.signature.value.subject) == prepare.value.digest
  }

  ghost predicate KeptFor(cfg: Config, prepare: Option<Message>, commit: Option<Message>, sequence: int, from: nat) {
    if sequence >= from then VotesAt(cfg, prepare, commit, sequence) else prepare.None? && commit.None?
  }

  /** A view that started at sequence `from` keeps its votes of the last sequence; while it is idle, those of the two
      last ones, still under their old names. */
  ghost predicate Helpful(v: View, from: nat) {
    && v.sequence >= from
    && (Idle(v) ==> && KeptFor(v.cfg, v.out.currPrepare, v.out.currCommit, v.sequence - 1, from)
                    && KeptFor(v.cfg, v.out.prevPrepare, v.out.prevCommit, v.sequence - 2, from))
    && (!Idle(v) && v.phase != ABORT ==> KeptFor(v.cfg, v.out.prevPrepare, v.out.prevCommit, v.sequence - 1, from))
    && (v.phase == PROPOSED || v.phase == PREPARED ==>
          && v.inFlight.Some?
          && v.out.currPrepare == Some(Prepare(v.cfg.number, v.sequence, DigestOf(v.inFlight.value), true)))
    && (v.phase == PREPARED ==>
          && v.inFlight.Some? && v.mySignature.Some?
          && v.mySignature.value.signer == v.cfg.selfId && v.mySignature.value.subject == v.inFlight.value
          && v.out.currCommit
             == Some(Commit(v.cfg.number, v.sequence, DigestOf(v.inFlight.value), v.mySignature, true)))
  }

  lemma {:induction false} EventKeepsHelpful(v: View, e: Event, from: nat)
    requires WellFormed(v) && Enabled(v, e) && Helpful(v, from)
    ensures Helpful(Apply(v, e), from)
  {
    if e.Receive? {
      assert Apply(v, e).out == v.out;
    } else if e.Decide? || e.BeginProposal? {
      BoundaryKeepsHelpful(v, e, from);
    }
  }

  lemma {:induction false} BoundaryKeepsHelpful(v: View, e: Event, from: nat)
    requires WellFormed(v) && Enabled(v, e) && Helpful(v, from) && (e.Decide? || e.BeginProposal?)
    ensures Helpful(Apply(v, e), from)
  {
  }

  lemma {:induction false} RunKeepsHelpful(cfg: Config, sequence: nat, decisionsInView: nat, events: seq<Event>)
    ensures var r := Run(Begun(cfg, sequence, decisionsInView), events);
            r.Some? ==> WellFormed(r.value.view) && Helpful(r.value.view, sequence)
  {
    if events != [] {
      var init, last := events[..|events| - 1], events[|events| - 1];
      RunKeepsHelpful(cfg, sequence, decisionsInView, init);
      RunSnoc(Begun(cfg, sequence, decisionsInView), init, last);
      assert init + [last] == events;
      var r := Run(Begun(cfg, sequence, decisionsInView), init);
      if r.Some? && Enabled(r.value.view, last) {
        EventKeepsHelpful(r.value.view, last, sequence);
      }
    }
  }

  /** In every run: a vote for the last sequence is answered with the node's own vote of the same kind, marked as an
      assist, unless it is an assist itself; so two nodes never keep answering each other. The answer is for the
      sequence asked about exactly if the view is not idle, and for the one before otherwise; there is none if the
      view did not vote there. */
  lemma {:induction false} RepliesHelp(cfg: Config, start: nat, decisionsInView: nat, events: seq<Event>, m: Message)
    requires Run(Begun(cfg, start, decisionsInView), events).Some?
    requires var v := Run(Begun(cfg, start, decisionsInView), events).value.view;
             v.phase != ABORT && !v.stopped && v.sequence > 0 && (m.Prepare? || m.Commit?)
             && m.view == cfg.number && m.sequence == v.sequence - 1
    ensures var v := Run(Begun(cfg, start, decisionsInView), events).value.view;
            var r, about := ReplyTo(v, m), if Idle(v) then m.sequence - 1 else m.sequence;
            && (r.Some? <==> !m.assist && about >= start)
            && (r.Some? ==>
                  && (if m.Prepare? then r.value.Prepare? else r.value.Commit?)
                  && r.value.assist && r.value.view == cfg.number && r.value.sequence == about)
  {
    RunKeepsHelpful(cfg, start, decisionsInView, events);
    RunKeepsConfig(Begun(cfg, start, decisionsInView), events);
  }

  lemma {:induction false} RunKeepsConfig(h: History, events: seq<Event>)
    requires WellFormed(h.view)
    ensures var r := Run(h, events); r.Some? ==> WellFormed(r.value.view) && r.value.view.cfg == h.view.cfg
    decreases |events|
  {
    if events != [] && Enabled(h.view, events[0]) {
      RunKeepsConfig(Extend(h, events[0]), events[1..]);
    }
  }

  // ---- what stops a view ----

  /** It is told to stop, hears its leader in another view, or refuses a proposal. */
  predicate Cause(v: View, e: Event)
    requires WellFormed(v) && Enabled(v, e)
  {
    match e
    case Stop => true
    case Receive(sender, m) =>
      sender == v.cfg.leaderId && v.cfg.number != (if m.Unrelated? then MAX_UINT64 else m.view)
    case TakePrePrepare(restValid) =>
      var p := v.box.prePrepare.value.proposal.value;
      !restValid || p.metadata.Malformed?
      || (p.metadata.Encoded? && (p.metadata.md.viewId != v.cfg.number || p.metadata.md.latestSequence != v.sequence
                                  || p.metadata.md.decisionsInView != v.decisionsInView))
      || (p.metadata.Absent? && (v.cfg.number != 0 || v.sequence != 0 || v.decisionsInView != 0))
    case _ => false
  }

  lemma {:induction false} StopsExactly(v: View, e: Event)
    requires WellFormed(v) && Enabled(v, e)
    ensures Apply(v, e).stopped <==> v.stopped || Cause(v, e)
    ensures Apply(v, e).phase == ABORT <==> e.NoticeAbort? || (e.TakePrePrepare? && Cause(v, e))
  {
  }

  /** The view after the first k events. */
  ghost predicate CauseAt(h: History, events: seq<Event>, k: nat)
    requires WellFormed(h.view)
  {
    && k < |events|
    && var r := Run(h, events[..k]);
       r.Some? && WellFormed(r.value.view) && Enabled(r.value.view, events[k]) && Cause(r.value.view, events[k])
  }

  /** In every run a view is stopped exactly if one of its events was such a cause. */
  lemma {:induction false} StoppedExactlyByCause(h: History, events: seq<Event>)
    requires WellFormed(h.view) && !h.view.stopped && Run(h, events).Some?
    ensures Run(h, events).value.view.stopped <==> exists k: nat :: CauseAt(h, events, k)
  {
    if events != [] {
      var init, last := events[..|events| - 1], events[|events| - 1];
      RunSnoc(h, init, last);
      assert init + [last] == events;
      StoppedExactlyByCause(h, init);
      var r := Run(h, init);
      StopsExactly(r.value.view, last);
      forall k: nat | k < |init| ensures CauseAt(h, init, k) <==> CauseAt(h, events, k) {
        assert init[..k] == events[..k];
      }
      assert events[..|init|] == init;
      assert CauseAt(h, events, |init|) <==> Cause(r.value.view, last);
      if k: nat :| CauseAt(h, events, k) {
        assert k < |init| ==> CauseAt(h, init, k);
      }
      if k: nat :| CauseAt(h, init, k) {
        assert CauseAt(h, events, k);
      }
    }
  }
}
