/** A run of the cluster model with four nodes, one of them faulty: a node decides with the help of the faulty one,
    another has only prepared the proposal, a third has heard of nothing, and all three report. The theorems about
    decisions and view data speak of such runs. */
module Example {
  import opened Messages
  import opened Votes
  import opened Replica
  import opened Consensus
  import Safety
  import NV = NewView

  const FOUR := Cluster({1, 2, 3, 4}, {4}, 1)
  const FIRST := Proposal([], [], Encoded(ViewMetadata(0, 1, 0, [], [])), 0)
  const PROPOSAL := Proposal([], [], Encoded(ViewMetadata(1, 2, 0, [], [])), 0)
  const PRE_PREPARE := PrePrepare(1, 2, Some(PROPOSAL), [])
  const PREPARE := Prepare(1, 2, DigestOf(PROPOSAL), false)

  function FreshNode(i: NodeId): Node {
    Node(NewView(Config(i, 1, 3, 1), 2, 0), None, None, FIRST, [], None, {}, {})
  }

  function CommitBy(i: NodeId, aux: Auxiliary): Message {
    Commit(1, 2, DigestOf(PROPOSAL), Some(Signature(i, PROPOSAL, aux)), false)
  }

  // ---- one node on its own ----

  /** Events one after the other. */
  datatype Trail = Start | Then(before: Trail, e: Event)

  function Join(t: Trail, more: Trail): Trail {
    match more
    case Start => t
    case Then(before, e) => Then(Join(t, before), e)
  }

  /** Where a trail leads a node; None if one of its events cannot happen. */
  function Walk(n: Node, t: Trail): Option<Node> {
    match t
    case Start => Some(n)
    case Then(before, e) =>
      var m := Walk(n, before);
      if m.None? || !WellFormed(m.value.view) || !Enabled(m.value.view, e) then None else Some(NodeStep(m.value, e))
  }

  /** What the node sends on the way. */
  function Said(n: Node, t: Trail): set<Message> {
    if t.Start? || Walk(n, t).None? then {} else Said(n, t.before) + Sent(Walk(n, t.before).value.view, t.e)
  }

  /** Only these messages arrive. */
  ghost predicate Hears(t: Trail, votes: set<Vote>) {
    t.Then? ==> Hears(t.before, votes) && (t.e.Receive? ==> Vote(t.e.sender, t.e.msg) in votes)
  }

  lemma {:induction false} WalksOn(n: Node, t: Trail, e: Event, votes: set<Vote>) returns (n': Node, longer: Trail)
    requires Hears(t, votes) && (e.Receive? ==> Vote(e.sender, e.msg) in votes)
    requires Walk(n, t).Some? && WellFormed(Walk(n, t).value.view) && Enabled(Walk(n, t).value.view, e)
    ensures longer == Then(t, e) && n' == NodeStep(Walk(n, t).value, e) && Walk(n, longer) == Some(n')
            && Hears(longer, votes)
    ensures Said(n, longer) == Said(n, t) + Sent(Walk(n, t).value.view, e)
  {
    longer := Then(t, e);
    n' := NodeStep(Walk(n, t).value, e);
  }

  lemma {:induction false} Joins(n: Node, t: Trail, more: Trail, votes: set<Vote>)
    requires Walk(n, t).Some? && Walk(Walk(n, t).value, more).Some? && Hears(t, votes) && Hears(more, votes)
    ensures Walk(n, Join(t, more)) == Walk(Walk(n, t).value, more) && Hears(Join(t, more), votes)
    ensures Said(n, Join(t, more)) == Said(n, t) + Said(Walk(n, t).value, more)
  {
    if more.Then? {
      Joins(n, t, more.before, votes);
    }
  }

  /** In a phase of sequence 2 with the proposal at hand, and nothing collected yet. */
  ghost predicate InPhase(i: NodeId, n: Node, phase: Phase) {
    var v := n.view;
    && WellFormed(v) && v.phase == phase && !v.stopped && v.cfg == Config(i, 1, 3, 1) && v.sequence == 2
    && v.inFlight == Some(PROPOSAL) && n.inFlight == Some(InFlightData(PROPOSAL, phase == PREPARED))
    && (phase == PROPOSED ==> v.voters == [] && v.box.prepares == EMPTY_BALLOT)
    && (phase == PREPARED ==> v.signatures == [] && v.verifying == {})
    && v.box.commits == EMPTY_BALLOT
    && n.checkpoint == FIRST && n.checkpointSignatures == [] && n.committedDuringViewChange == None && n.viewData == {}
  }

  lemma {:induction false} Accepts(i: NodeId) returns (n: Node, es: Trail)
    ensures Walk(FreshNode(i), es) == Some(n) && Hears(es, {Vote(1, PRE_PREPARE)})
    ensures InPhase(i, n, PROPOSED) && PREPARE in Said(FreshNode(i), es)
  {
    var start := FreshNode(i);
    n, es := WalksOn(start, Start, Receive(1, PRE_PREPARE), {Vote(1, PRE_PREPARE)});
    assert n.view == start.view.(box := EMPTY_MAILBOX.(prePrepare := Some(PRE_PREPARE)));
    n, es := WalksOn(start, es, BeginProposal, {Vote(1, PRE_PREPARE)});
    var waiting := n.view;
    n, es := WalksOn(start, es, TakePrePrepare(true), {Vote(1, PRE_PREPARE)});
    assert n.view == AcceptProposal(waiting, PROPOSAL);
  }

  /** Votes of another node and of the faulty one arrive. */
  lemma {:induction false} Hear(i: NodeId, start: Node, j: NodeId, ours: Message, theirs: Message, kind: Kind)
      returns (n: Node, es: Trail)
    requires i != j && i != 4 && j != 4
    requires InPhase(i, start, if kind == Prepares then PROPOSED else PREPARED)
    requires ValidVote(kind, j, ours) && ValidVote(kind, 4, theirs)
    requires !ours.Unrelated? && !theirs.Unrelated? && ours.view == theirs.view == 1
             && ours.sequence == theirs.sequence == 2
    ensures Walk(start, es) == Some(n) && Hears(es, {Vote(j, ours), Vote(4, theirs)})
    ensures var b, box := Ballot({j, 4}, [Vote(j, ours), Vote(4, theirs)]), start.view.box;
            n == start.(view := start.view.(box := if kind == Prepares then box.(prepares := b)
                                            else box.(commits := b)))
  {
    n, es := WalksOn(start, Start, Receive(j, ours), {Vote(j, ours), Vote(4, theirs)});
    n, es := WalksOn(start, es, Receive(4, theirs), {Vote(j, ours), Vote(4, theirs)});
    assert {j} + {4} == {j, 4};
    assert {} + {j} == {j};
  }

  lemma {:induction false} CountPrepares(i: NodeId, start: Node, j: NodeId, votes: set<Vote>)
      returns (n: Node, es: Trail, aux: Auxiliary)
    requires InPhase(i, start.(view := start.view.(box := start.view.box.(prepares := EMPTY_BALLOT))), PROPOSED)
    requires start.view.box.prepares.votes == [Vote(j, PREPARE), Vote(4, PREPARE)]
    ensures Walk(start, es) == Some(n) && Hears(es, votes)
    ensures InPhase(i, n, PREPARED) && CommitBy(i, aux) in Said(start, es)
  {
    n, es := WalksOn(start, Start, TakePrepare, votes);
    assert n.view.voters == [j] && n.view.box.prepares.votes == [Vote(4, PREPARE)];
    n, es := WalksOn(start, es, TakePrepare, votes);
    assert n.view.voters == [j, 4];
    aux := AuxiliaryOf(n.view.voters);
    n, es := WalksOn(start, es, BecomePrepared, votes);
  }

  /** Prepares of another node and of the faulty one make a quorum with the node's own. */
  lemma {:induction false} BecomesPrepared(i: NodeId, start: Node, j: NodeId)
      returns (n: Node, es: Trail, aux: Auxiliary)
    requires InPhase(i, start, PROPOSED) && i != j && i != 4 && j != 4
    ensures Walk(start, es) == Some(n) && Hears(es, {Vote(j, PREPARE), Vote(4, PREPARE)})
    ensures InPhase(i, n, PREPARED) && CommitBy(i, aux) in Said(start, es)
  {
    var votes := {Vote(j, PREPARE), Vote(4, PREPARE)};
    var heard, first := Hear(i, start, j, PREPARE, PREPARE, Prepares);
    var second;
    n, second, aux := CountPrepares(i, heard, j, votes);
    Joins(start, first, second, votes);
    es := Join(first, second);
  }

  lemma {:induction false} VerifyCommits(i: NodeId, start: Node, ours: Vote, theirs: Vote, votes: set<Vote>)
      returns (n: Node, es: Trail)
    requires InPhase(i, start.(view := start.view.(box := start.view.box.(commits := EMPTY_BALLOT))), PREPARED)
    requires start.view.box.commits.votes == [ours, theirs] && ours != theirs
    ensures Walk(start, es) == Some(n) && Hears(es, votes)
    ensures n == start.(view := n.view) && n.view.verifying == {ours, theirs}
    ensures n.view == start.view.(box := n.view.box, verifying := n.view.verifying) && WellFormed(n.view)
  {
    n, es := WalksOn(start, Start, TakeCommit, votes);
    assert n.view.verifying == {ours} && n.view.box.commits.votes == [theirs];
    n, es := WalksOn(start, es, TakeCommit, votes);
    assert n.view.verifying == {ours, theirs};
  }

  lemma {:induction false} CountCommits(start: Node, ours: Vote, theirs: Vote, votes: set<Vote>)
      returns (n: Node, es: Trail, sigs: seq<Signature>)
    requires WellFormed(start.view) && start.view.phase == PREPARED && start.view.sequence == 2
             && start.view.cfg.quorum == 3
    requires start.view.inFlight == Some(PROPOSAL) && start.view.verifying == {ours, theirs}
             && start.view.signatures == []
    requires ours != theirs && CommitCounts(start.view, ours) && CommitCounts(start.view, theirs)
    ensures Walk(start, es) == Some(n) && Hears(es, votes)
    ensures Decision(2, PROPOSAL, sigs) in n.decisions && n.view.phase == COMMITTED && WellFormed(n.view)
    ensures n.viewData == start.viewData
  {
    n, es := WalksOn(start, Start, VerifyVote(ours), votes);
    assert n.view.signatures == [ours.msg.signature.value];
    n, es := WalksOn(start, es, VerifyVote(theirs), votes);
    sigs := DecisionSignatures(n.view);
    n, es := WalksOn(start, es, Decide, votes);
  }

  /** Commits of another node and of the faulty one make a quorum with the node's own. */
  lemma {:induction false} Decides(i: NodeId, start: Node, j: NodeId, aux: Auxiliary)
      returns (n: Node, es: Trail, sigs: seq<Signature>)
    requires InPhase(i, start, PREPARED) && i != j && i != 4 && j != 4
    ensures Walk(start, es) == Some(n) && Hears(es, {Vote(j, CommitBy(j, aux)), Vote(4, CommitBy(4, NoAuxiliary))})
    ensures Decision(2, PROPOSAL, sigs) in n.decisions && n.view.phase == COMMITTED && WellFormed(n.view)
            && n.viewData == {}
  {
    var ours, theirs := Vote(j, CommitBy(j, aux)), Vote(4, CommitBy(4, NoAuxiliary));
    var votes := {ours, theirs};
    var heard, first := Hear(i, start, j, ours.msg, theirs.msg, Commits);
    var verifying, second := VerifyCommits(i, heard, ours, theirs, votes);
    Joins(start, first, second, votes);
    var third;
    n, third, sigs := CountCommits(verifying, ours, theirs, votes);
    Joins(start, Join(first, second), third, votes);
    es := Join(Join(first, second), third);
  }

  // ---- nodes in the cluster ----

  /** Steps one after the other; None if one of them cannot happen. */
  function Ends(c: Cluster, s: System, steps: seq<Step>): Option<System> {
    if steps == [] then Some(s)
    else
      var before := Ends(c, s, steps[..|steps| - 1]);
      if before.None? || !StepEnabled(c, before.value, steps[|steps| - 1]) then None
      else Some(Next(c, before.value, steps[|steps| - 1]))
  }

  lemma {:induction false} EndsARun(c: Cluster, s: System, steps: seq<Step>) returns (run: seq<System>)
    requires c.Valid() && Init(c, s) && Ends(c, s, steps).Some?
    ensures Execution(c, run, steps) && run[|steps|] == Ends(c, s, steps).value
  {
    if steps == [] {
      run := [s];
    } else {
      var init := EndsARun(c, s, steps[..|steps| - 1]);
      run := init + [Ends(c, s, steps).value];
    }
  }

  lemma {:induction false} Extend(c: Cluster, s: System, steps: seq<Step>, step: Step) returns (longer: seq<Step>)
    requires Ends(c, s, steps).Some? && StepEnabled(c, Ends(c, s, steps).value, step)
    ensures longer == steps + [step] && Ends(c, s, longer) == Some(Next(c, Ends(c, s, steps).value, step))
  {
    longer := steps + [step];
    assert longer[..|steps|] == steps;
  }

  /** What a node can do on its own, it can do in any run in which the messages arrive. */
  lemma {:induction false} Follows(c: Cluster, s0: System, steps: seq<Step>, s: System, i: NodeId,
      es: Trail, votes: set<Vote>) returns (steps': seq<Step>, s': System)
    requires Ends(c, s0, steps) == Some(s) && c.Correct(i) && i in s.nodes && Walk(s.nodes[i], es).Some?
    requires Hears(es, votes) && forall x :: x in votes ==> Deliverable(c, s.sent, x.sender, x.msg)
    ensures Ends(c, s0, steps') == Some(s')
    ensures s'.nodes == s.nodes[i := Walk(s.nodes[i], es).value] && s.sent <= s'.sent
    ensures forall m :: m in Said(s.nodes[i], es) ==> Sending(i, m) in s'.sent
  {
    match es {
      case Start => steps', s' := steps, s;
      case Then(before, e) =>
        var steps1, s1 := Follows(c, s0, steps, s, i, before, votes);
        steps' := Extend(c, s0, steps1, Local(i, e));
        s' := Next(c, s1, Local(i, e));
    }
  }

  // ---- the run ----

  const START := System(map[1 := FreshNode(1), 2 := FreshNode(2), 3 := FreshNode(3)], {})

  /** Some run of the four ends here. */
  ghost predicate Leads(steps: seq<Step>, s: System) {
    Ends(FOUR, START, steps) == Some(s) && s.nodes.Keys == {1, 2, 3}
  }

  /** One of the correct nodes moves on, hearing what was sent and what the faulty node says. */
  lemma {:induction false} Moves(steps: seq<Step>, s: System, i: NodeId, es: Trail,
      heard: set<Vote>) returns (steps': seq<Step>, s': System)
    requires Leads(steps, s) && i in s.nodes && Walk(s.nodes[i], es).Some?
    requires Hears(es, heard) && forall x :: x in heard
                                   ==> x.sender == 4 || (x.sender in s.nodes && Sending(x.sender, x.msg) in s.sent)
    ensures Leads(steps', s') && s'.nodes == s.nodes[i := Walk(s.nodes[i], es).value] && s.sent <= s'.sent
    ensures forall m :: m in Said(s.nodes[i], es) ==> Sending(i, m) in s'.sent
  {
    steps', s' := Follows(FOUR, START, steps, s, i, es, heard);
  }

  lemma {:induction false} Starts() returns (steps: seq<Step>, s: System)
    ensures Leads(steps, s) && s.nodes == START.nodes && Sending(1, PRE_PREPARE) in s.sent
  {
    steps := Extend(FOUR, START, [], Propose(1, PRE_PREPARE));
    s := Next(FOUR, START, Propose(1, PRE_PREPARE));
    assert PRE_PREPARE in SentBy(FOUR, START, Propose(1, PRE_PREPARE));
  }

  /** Nodes 1 and 2 accept the proposal; node 3 hears nothing. */
  lemma {:induction false} TwoAccept() returns (steps: seq<Step>, s: System)
    ensures Leads(steps, s) && InPhase(1, s.nodes[1], PROPOSED) && InPhase(2, s.nodes[2], PROPOSED)
            && s.nodes[3] == FreshNode(3)
    ensures Sending(1, PREPARE) in s.sent && Sending(2, PREPARE) in s.sent
  {
    steps, s := Starts();
    var _, es := Accepts(1);
    steps, s := Moves(steps, s, 1, es, {Vote(1, PRE_PREPARE)});
    var _, es' := Accepts(2);
    steps, s := Moves(steps, s, 2, es', {Vote(1, PRE_PREPARE)});
  }

  /** ... and prepare it. */
  lemma {:induction false} TwoPrepare() returns (steps: seq<Step>, s: System, aux: Auxiliary)
    ensures Leads(steps, s) && InPhase(1, s.nodes[1], PREPARED) && InPhase(2, s.nodes[2], PREPARED)
            && s.nodes[3] == FreshNode(3)
    ensures Sending(2, CommitBy(2, aux)) in s.sent
  {
    steps, s := TwoAccept();
    var _, es, _ := BecomesPrepared(1, s.nodes[1], 2);
    steps, s := Moves(steps, s, 1, es, {Vote(2, PREPARE), Vote(4, PREPARE)});
    var _, es', a := BecomesPrepared(2, s.nodes[2], 1);
    steps, s := Moves(steps, s, 2, es', {Vote(1, PREPARE), Vote(4, PREPARE)});
    aux := a;
  }

  /** Node 1 decides. */
  lemma {:induction false} OneDecides() returns (steps: seq<Step>, s: System, sigs: seq<Signature>)
    ensures Leads(steps, s) && Decision(2, PROPOSAL, sigs) in s.nodes[1].decisions
    ensures s.nodes[1].view.phase == COMMITTED && WellFormed(s.nodes[1].view) && s.nodes[1].viewData == {}
    ensures InPhase(2, s.nodes[2], PREPARED) && s.nodes[3] == FreshNode(3)
  {
    var aux;
    steps, s, aux := TwoPrepare();
    var _, es, signatures := Decides(1, s.nodes[1], 2, aux);
    steps, s := Moves(steps, s, 1, es, {Vote(2, CommitBy(2, aux)), Vote(4, CommitBy(4, NoAuxiliary))});
    sigs := signatures;
  }

  lemma {:induction false} LeavesView(start: Node) returns (n: Node, es: Trail)
    requires WellFormed(start.view) && start.view.phase != ABORT
    ensures Walk(start, es) == Some(n) && Hears(es, {})
    ensures n == start.(view := start.view.(stopped := true, phase := ABORT))
  {
    n, es := WalksOn(start, Start, Stop, {});
    n, es := WalksOn(start, es, NoticeAbort, {});
  }

  lemma {:induction false} Builds(steps: seq<Step>, s: System, i: NodeId) returns (steps': seq<Step>, s': System)
    requires Leads(steps, s) && i in s.nodes && s.nodes[i].view.phase == ABORT
    ensures Leads(steps', s')
    ensures s'.nodes == s.nodes[i := s.nodes[i].(viewData := s.nodes[i].viewData + {PrepareViewData(s.nodes[i], 2)})]
  {
    steps' := Extend(FOUR, START, steps, BuildViewData(i));
    s' := Next(FOUR, s, BuildViewData(i));
  }

  /** A node leaves the view and reports. */
  lemma {:induction false} Reports(steps: seq<Step>, s: System, i: NodeId) returns (steps': seq<Step>, s': System)
    requires Leads(steps, s) && i in s.nodes && WellFormed(s.nodes[i].view) && s.nodes[i].view.phase != ABORT
             && s.nodes[i].viewData == {}
    ensures Leads(steps', s') && s'.nodes == s.nodes[i := s'.nodes[i]]
    ensures s'.nodes[i].viewData == {PrepareViewData(s.nodes[i], 2)} && s'.nodes[i].decisions == s.nodes[i].decisions
    ensures s'.nodes[i].checkpoint == s.nodes[i].checkpoint
  {
    var n, es := LeavesView(s.nodes[i]);
    var steps1, s1 := Moves(steps, s, i, es, {});
    steps', s' := Builds(steps1, s1, i);
  }

  lemma {:induction false} AllReport() returns (steps: seq<Step>, s: System, sigs: seq<Signature>)
    ensures Leads(steps, s) && Decision(2, PROPOSAL, sigs) in s.nodes[1].decisions && s.nodes[1].viewData != {}
    ensures s.nodes[2].viewData == {ViewData(2, Some(FIRST), [], Some(PROPOSAL), true)}
    ensures s.nodes[3].viewData == {ViewData(2, Some(FIRST), [], None, false)} && s.nodes[3].checkpoint == FIRST
  {
    steps, s, sigs := OneDecides();
    steps, s := Reports(steps, s, 1);
    steps, s := Reports(steps, s, 2);
    steps, s := Reports(steps, s, 3);
  }

  lemma {:induction false} StartIsInit()
    ensures FOUR.Valid() && Init(FOUR, START)
  {
    assert |FOUR.nodes| == 4 && |FOUR.faulty| == 1;
    assert START.nodes.Keys == {1, 2, 3} == FOUR.nodes - FOUR.faulty;
  }

  /** A cluster of four with a faulty node runs through all phases: one node has decided, and all correct nodes have
      reported, one of them the decision, one of them the proposal in flight and prepared, and one of them nothing. */
  lemma {:induction false} FourDecideAndReport() returns (run: seq<System>, steps: seq<Step>, sigs: seq<Signature>)
    ensures Execution(FOUR, run, steps)
    ensures var nodes := run[|steps|].nodes;
            && nodes.Keys == {1, 2, 3}
            && Decision(2, PROPOSAL, sigs) in nodes[1].decisions
            && nodes[1].viewData != {}
            && nodes[2].viewData == {ViewData(2, Some(FIRST), [], Some(PROPOSAL), true)}
            && nodes[3].viewData == {ViewData(2, Some(FIRST), [], None, false)}
            && nodes[3].checkpoint == FIRST
  {
    var s;
    steps, s, sigs := AllReport();
    StartIsInit();
    run := EndsARun(FOUR, START, steps);
  }

  // ---- entries whose signature is not checked ----

  /** View data of a node that has decided nothing. */
  const NOTHING := ViewData(2, Some(Proposal([], [], Absent, 0)), [], None, false)

  /** The trust in entries behind the node is needed: in the same run, a message of unsigned entries that report nothing
      decided makes the third node start the next view at a sequence at which a proposal has been decided. */
  lemma {:induction false} UnsignedEntriesLoseDecision(stops: Proposal -> bool)
      returns (run: seq<System>, steps: seq<Step>, sigs: seq<Signature>)
    ensures Execution(FOUR, run, steps) && 1 in run[|steps|].nodes && 3 in run[|steps|].nodes
    ensures Decision(2, PROPOSAL, sigs) in run[|steps|].nodes[1].decisions
    ensures var s, entries := run[|steps|], NV.Made(NOTHING);
            && Safety.Accepted(FOUR, s, entries, s.nodes[3].checkpoint, stops)
            && Safety.Processed(FOUR, entries, s.nodes[3].checkpoint, stops).checkpoint.Sequence() + 1 == 2
            && NV.Conclude(entries, FOUR.F(), FOUR.Q(), s.nodes[3].checkpoint) == NV.NothingInFlight
  {
    run, steps, sigs := FourDecideAndReport();
    NothingIsAccepted(run[|steps|], stops);
  }

  lemma {:induction false} NothingIsAccepted(s: System, stops: Proposal -> bool)
    ensures Safety.Accepted(FOUR, s, NV.Made(NOTHING), FIRST, stops)
    ensures Safety.Processed(FOUR, NV.Made(NOTHING), FIRST, stops).checkpoint == FIRST
    ensures NV.Conclude(NV.Made(NOTHING), FOUR.F(), FOUR.Q(), FIRST) == NV.NothingInFlight
  {
    assert |FOUR.nodes| == 4;
    NV.UncheckedDecides(NOTHING, FIRST, stops);
  }
}
