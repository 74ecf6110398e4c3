/** The safety theorems of a view, for every run of the cluster with at most f faulty nodes. */
module Safety {
  import opened Messages
  import opened Quorum
  import opened Replica
  import opened Consensus
  import opened Agreement
  import opened Invariance
  import InFlight
  import NewView

  // ---- agreement inside the view ----

  /** Two commits of correct nodes at one sequence carry the same digest: their prepare quorums share a correct node. */
  lemma {:induction false} CommitsAgree(c: Cluster, s: System, i: NodeId, j: NodeId, m: Message, m': Message)
    requires Inv(c, s) && c.Correct(i) && c.Correct(j)
    requires Sending(i, m) in s.sent && Sending(j, m') in s.sent
    requires m.Commit? && m'.Commit? && m.sequence == m'.sequence
    ensures m.digest == m'.digest
  {
    assert CommitAccounted(c, s.sent, i, s.nodes[i], m);
    assert CommitAccounted(c, s.sent, j, s.nodes[j], m');
    var h := QuorumsShareHonest(Preparers(c, s.sent, m.sequence, m.digest),
        Preparers(c, s.sent, m.sequence, m'.digest), c.faulty, c.nodes);
    assert OwnVotes(c, s.sent, h, s.nodes[h]);
    assert Sending(h, Prepare(c.view, m.sequence, m.digest, false)) in s.sent;
    assert Sending(h, Prepare(c.view, m.sequence, m'.digest, false)) in s.sent;
  }

  /** The node is PREPARED on p at this sequence, or has decided it. */
  ghost predicate Stands(n: Node, sequence: nat, p: Proposal) {
    || (n.view.phase == PREPARED && n.view.sequence == sequence && n.view.inFlight == Some(p))
    || exists d :: d in n.decisions && d.sequence == sequence && d.proposal == p
  }

  lemma {:induction false} StandingHasCommit(c: Cluster, s: System, i: NodeId, sequence: nat, p: Proposal)
      returns (m: Message)
    requires Inv(c, s) && i in s.nodes && Stands(s.nodes[i], sequence, p)
    ensures m.Commit? && m.sequence == sequence && m.digest == DigestOf(p) && Sending(i, m) in s.sent
  {
    var n := s.nodes[i];
    assert NodeInv(c, s.sent, i, n);
    if n.view.phase == PREPARED && n.view.sequence == sequence && n.view.inFlight == Some(p) {
      m := CommitOf(c, sequence, n.view.mySignature.value);
    } else {
      var d :| d in n.decisions && d.sequence == sequence && d.proposal == p;
      assert Certified(c, s.sent, i, d);
      var k :| 0 <= k < |d.signatures| && SignerIds(d.signatures)[k] == i;
      assert Attests(c, s.sent, sequence, p, d.signatures[k]);
      m := CommitOf(c, sequence, d.signatures[k]);
    }
  }

  lemma {:induction false} SentGrows(c: Cluster, run: seq<System>, steps: seq<Step>, j: nat, k: nat)
    requires Execution(c, run, steps) && j <= k < |run|
    ensures run[j].sent <= run[k].sent && run[j].nodes.Keys == run[k].nodes.Keys
    decreases k - j
  {
    if j < k {
      SentGrows(c, run, steps, j, k - 1);
      assert run[k] == Next(c, run[k - 1], steps[k - 1]);
    }
  }

  /** In every run, whatever the message order and the faulty votes: correct nodes that are PREPARED or have decided
      at one sequence, at any two moments, hold the same proposal. */
  lemma {:induction false} CorrectNodesAgree(c: Cluster, run: seq<System>, steps: seq<Step>, k: nat, k': nat,
      i: NodeId, j: NodeId,
                          sequence: nat, p: Proposal, p': Proposal)
    requires Execution(c, run, steps) && k < |run| && k' < |run|
    requires c.Correct(i) && i in run[k].nodes && Stands(run[k].nodes[i], sequence, p)
    requires c.Correct(j) && j in run[k'].nodes && Stands(run[k'].nodes[j], sequence, p')
    ensures p == p'
  {
    var last := if k < k' then k' else k;
    RunKeepsInv(c, run, steps, k);
    RunKeepsInv(c, run, steps, k');
    RunKeepsInv(c, run, steps, last);
    var m := StandingHasCommit(c, run[k], i, sequence, p);
    var m' := StandingHasCommit(c, run[k'], j, sequence, p');
    SentGrows(c, run, steps, k, last);
    SentGrows(c, run, steps, k', last);
    CommitsAgree(c, run[last], i, j, m, m');
  }

  /** Every decision of every run is delivered with signatures of at least Q distinct nodes, its own among them,
      and each correct signer did send a commit for it. */
  lemma {:induction false} DecisionsCarryQuorum(c: Cluster, run: seq<System>, steps: seq<Step>, k: nat, i: NodeId,
      d: Decision)
    requires Execution(c, run, steps) && k < |run| && i in run[k].nodes && d in run[k].nodes[i].decisions
    ensures DistinctIds(SignerIds(d.signatures)) && |IdSet(SignerIds(d.signatures))| >= c.Q()
    ensures i in SignerIds(d.signatures) && IdSet(SignerIds(d.signatures)) <= c.nodes
    ensures forall k' :: 0 <= k' < |d.signatures| ==> Attests(c, run[k].sent, d.sequence, d.proposal, d.signatures[k'])
  {
    RunKeepsInv(c, run, steps, k);
    assert Certified(c, run[k].sent, i, d);
    CertificateSigners(c, run[k].sent, d);
  }

  lemma {:induction false} CertificateSigners(c: Cluster, sent: set<Sending>, d: Decision)
    requires Certificate(c, sent, d)
    ensures IdSet(SignerIds(d.signatures)) <= c.nodes && |IdSet(SignerIds(d.signatures))| >= c.Q()
  {
    IdSetSize(SignerIds(d.signatures));
    forall x | x in IdSet(SignerIds(d.signatures)) ensures x in c.nodes {
      var k :| 0 <= k < |d.signatures| && SignerIds(d.signatures)[k] == x;
      assert Attests(c, sent, d.sequence, d.proposal, d.signatures[k]);
    }
  }

  /** The proof of a last decision cannot be made up: at one sequence there are certificates for one proposal only. */
  lemma {:induction false} CertificatesAgree(c: Cluster, run: seq<System>, steps: seq<Step>, k: nat, d: Decision,
      other: Decision)
    requires Execution(c, run, steps) && k < |run| && d.sequence == other.sequence
    requires Certificate(c, run[k].sent, d) && Certificate(c, run[k].sent, other)
    ensures other.proposal == d.proposal
  {
    var s := run[k];
    RunKeepsInv(c, run, steps, k);
    CertificateSigners(c, s.sent, d);
    CertificateSigners(c, s.sent, other);
    var h := QuorumsShareHonest(IdSet(SignerIds(d.signatures)), IdSet(SignerIds(other.signatures)), c.faulty, c.nodes);
    var x :| 0 <= x < |d.signatures| && SignerIds(d.signatures)[x] == h;
    var y :| 0 <= y < |other.signatures| && SignerIds(other.signatures)[y] == h;
    assert Attests(c, s.sent, d.sequence, d.proposal, d.signatures[x]);
    assert Attests(c, s.sent, d.sequence, other.proposal, other.signatures[y]);
    CommitsAgree(c, s, h, h, CommitOf(c, d.sequence, d.signatures[x]), CommitOf(c, d.sequence, other.signatures[y]));
  }

  // ---- from the view to the next one ----

  datatype Report = Report(signer: NodeId, data: ViewData)

  function Data(reports: seq<Report>): seq<ViewData> {
    seq(|reports|, k requires 0 <= k < |reports| => reports[k].data)
  }

  ghost predicate DistinctSigners(reports: seq<Report>) {
    forall j, k :: 0 <= j < k < |reports| ==> reports[j].signer != reports[k].signer
  }

  /** Signed by distinct nodes of the cluster, and by a correct node only if that node built it. */
  ghost predicate Authentic(c: Cluster, s: System, reports: seq<Report>) {
    && DistinctSigners(reports)
    && forall k :: 0 <= k < |reports| ==>
         && reports[k].signer in c.nodes
         && (reports[k].signer in s.nodes ==> reports[k].data in s.nodes[reports[k].signer].viewData)
  }

  ghost predicate AnswersYes(reports: seq<Report>, q: InFlight.Question, expected: nat, x: NodeId) {
    exists k :: 0 <= k < |reports| && reports[k].signer == x && InFlight.Yes(q, expected, reports[k].data)
  }

  /** Those whose view data answers yes. */
  ghost function YesSigners(reports: seq<Report>, q: InFlight.Question, expected: nat): (s: set<NodeId>)
    ensures forall x :: x in s ==> AnswersYes(reports, q, expected, x)
  {
    if reports == [] then {}
    else
      var init, last := reports[..|reports| - 1], reports[|reports| - 1];
      var before := YesSigners(init, q, expected);
      assert forall x :: AnswersYes(init, q, expected, x) ==> AnswersYes(reports, q, expected, x) by {
        assert reports == init + [last];
      }
      if InFlight.Yes(q, expected, last.data) then before + {last.signer} else before
  }

  lemma {:induction false} CountIsYesSigners(reports: seq<Report>, q: InFlight.Question, expected: nat)
    requires DistinctSigners(reports)
    ensures |YesSigners(reports, q, expected)| == InFlight.Count(Data(reports), q, expected)
  {
    if reports != [] {
      var init := reports[..|reports| - 1];
      CountIsYesSigners(init, q, expected);
      assert Data(reports)[..|reports| - 1] == Data(init);
    }
  }

  /** It reports a decision at least as late, or the decided proposal as prepared right after its last decision. */
  ghost predicate Remembers(vd: ViewData, d: Decision) {
    || vd.LastSequence() >= d.sequence
    || (&& vd.inFlightProposal == Some(d.proposal) && vd.inFlightPrepared
        && d.proposal.Sequence() == d.sequence == vd.LastSequence() + 1)
  }

  /** Among any Q nodes there is a correct one that committed a certified proposal, and all its view data remembers
      it. */
  lemma {:induction false} QuorumMeetsCommitter(c: Cluster, s: System, quorum: set<NodeId>, d: Decision)
      returns (h: NodeId)
    requires Inv(c, s) && Certificate(c, s.sent, d)
    requires quorum <= c.nodes && |quorum| >= c.Q()
    ensures h in quorum && h in s.nodes && forall vd :: vd in s.nodes[h].viewData ==> Remembers(vd, d)
  {
    CertificateSigners(c, s.sent, d);
    h := QuorumsShareHonest(quorum, IdSet(SignerIds(d.signatures)), c.faulty, c.nodes);
    var x :| 0 <= x < |d.signatures| && SignerIds(d.signatures)[x] == h;
    assert Attests(c, s.sent, d.sequence, d.proposal, d.signatures[x]);
    var m := CommitOf(c, d.sequence, d.signatures[x]);
    assert Records(c, s.sent, h, s.nodes[h]);
    forall vd | vd in s.nodes[h].viewData ensures Remembers(vd, d) {
      assert Covers(c, vd, m);
    }
  }

  lemma {:induction false} QuorumOfYesRemembers(c: Cluster, s: System, reports: seq<Report>, d: Decision,
      q: InFlight.Question, e: nat)
    returns (k: nat)
    requires Inv(c, s) && Certificate(c, s.sent, d) && Authentic(c, s, reports)
    requires InFlight.Count(Data(reports), q, e) >= c.Q()
    ensures k < |reports| && InFlight.Yes(q, e, reports[k].data) && Remembers(reports[k].data, d)
  {
    var yes := YesSigners(reports, q, e);
    CountIsYesSigners(reports, q, e);
    forall x | x in yes ensures x in c.nodes {
      assert AnswersYes(reports, q, e, x);
    }
    var h := QuorumMeetsCommitter(c, s, yes, d);
    assert AnswersYes(reports, q, e, h);
    k :| 0 <= k < |reports| && reports[k].signer == h && InFlight.Yes(q, e, reports[k].data);
  }

  lemma {:induction false} RememberingSaysNo(messages: seq<ViewData>, k: nat, d: Decision, q: InFlight.Question)
    requires k < |messages| && Remembers(messages[k], d)
    requires forall j :: 0 <= j < |messages| ==> messages[j].LastSequence() < d.sequence
    requires q == InFlight.HasNoPrepared || (q.DoesNotArgue? && q.p != d.proposal)
    ensures !InFlight.Yes(q, InFlight.Expected(messages), messages[k])
  {
  }

  /** Hence a question that the certified proposal answers with no cannot get Q answers of yes. */
  lemma {:induction false} NoQuorumAgainst(c: Cluster, s: System, reports: seq<Report>, d: Decision,
      q: InFlight.Question)
    requires Inv(c, s) && Certificate(c, s.sent, d) && Authentic(c, s, reports)
    requires forall j :: 0 <= j < |reports| ==> reports[j].data.LastSequence() < d.sequence
    requires q == InFlight.HasNoPrepared || (q.DoesNotArgue? && q.p != d.proposal)
    ensures InFlight.Count(Data(reports), q, InFlight.Expected(Data(reports))) < c.Q()
  {
    var messages := Data(reports);
    if InFlight.Count(messages, q, InFlight.Expected(messages)) >= c.Q() {
      var k := QuorumOfYesRemembers(c, s, reports, d, q, InFlight.Expected(messages));
      RememberingSaysNo(messages, k, d, q);
    }
  }

  /** Any authentic, readable view data for the next view either reports a last decision at least as late as a
      certified proposal, or the check answers that proposal or refuses; it never says that nothing is in flight, and
      never names another one. */
  lemma {:induction false} CertificateSurvivesViewChange(c: Cluster, s: System, reports: seq<Report>, d: Decision)
    requires Inv(c, s) && Certificate(c, s.sent, d) && Authentic(c, s, reports)
    requires forall j :: 0 <= j < |reports| ==>
               InFlight.ReadableDecision(reports[j].data) && InFlight.ReadableInFlight(reports[j].data)
    ensures || (exists j :: 0 <= j < |reports| && reports[j].data.LastSequence() >= d.sequence)
            || InFlight.Answer(Data(reports), c.F(), c.Q()) in {InFlight.Agreed(d.proposal), InFlight.NotOk}
  {
    var a := InFlight.Answer(Data(reports), c.F(), c.Q());
    if forall j :: 0 <= j < |reports| ==> reports[j].data.LastSequence() < d.sequence {
      if a.NoInFlight? {
        NoQuorumAgainst(c, s, reports, d, InFlight.HasNoPrepared);
      } else if a.Agreed? && a.p != d.proposal {
        NoQuorumAgainst(c, s, reports, d, InFlight.DoesNotArgue(a.p));
      }
    }
  }

  /** A decision survives the view change, in every run of the view. */
  lemma {:induction false} DecisionSurvivesViewChange(c: Cluster, run: seq<System>, steps: seq<Step>, k: nat,
      reports: seq<Report>, i: NodeId, d: Decision)
    requires Execution(c, run, steps) && k < |run| && i in run[k].nodes && d in run[k].nodes[i].decisions
    requires Authentic(c, run[k], reports)
    requires forall j :: 0 <= j < |reports| ==>
               InFlight.ReadableDecision(reports[j].data) && InFlight.ReadableInFlight(reports[j].data)
    ensures || (exists j :: 0 <= j < |reports| && reports[j].data.LastSequence() >= d.sequence)
            || InFlight.Answer(Data(reports), c.F(), c.Q()) in {InFlight.Agreed(d.proposal), InFlight.NotOk}
  {
    RunKeepsInv(c, run, steps, k);
    DecisionHasCertificate(c, run[k], i, d);
    CertificateSurvivesViewChange(c, run[k], reports, d);
  }

  lemma {:induction false} DecisionHasCertificate(c: Cluster, s: System, i: NodeId, d: Decision)
    requires Inv(c, s) && i in s.nodes && d in s.nodes[i].decisions
    ensures Certificate(c, s.sent, d)
  {
    assert Certified(c, s.sent, i, d);
  }

  /** No certified sequence is more than one ahead of any authentic quorum of reports. */
  lemma {:induction false} ReportsReachDecision(c: Cluster, s: System, reports: seq<Report>, d: Decision)
    requires Inv(c, s) && Certificate(c, s.sent, d)
    requires Authentic(c, s, reports) && |reports| >= c.Q()
    ensures d.sequence <= InFlight.MaxLastSequence(Data(reports)) + 1
  {
    var ids := seq(|reports|, j requires 0 <= j < |reports| => reports[j].signer);
    IdSetSize(ids);
    var h := QuorumMeetsCommitter(c, s, IdSet(ids), d);
    var j :| 0 <= j < |reports| && ids[j] == h;
    assert Remembers(reports[j].data, d);
    assert Data(reports)[j] == reports[j].data;
  }

  /** The entries of a new-view message as reports. */
  function ReportsOf(entries: seq<NewView.SignedViewData>): seq<Report>
    requires NewView.AllDecode(entries)
  {
    seq(|entries|, k requires 0 <= k < |entries| => Report(entries[k].signer, entries[k].data.value))
  }

  lemma {:induction false} ReportsOfAreExtracted(entries: seq<NewView.SignedViewData>)
    requires NewView.AllDecode(entries)
    ensures Data(ReportsOf(entries)) == NewView.Extract(entries)
  {
  }

  // ---- installing the next view ----

  /** Where re-validation of a new-view message leaves a node with this checkpoint. */
  ghost function Processed(c: Cluster, entries: seq<NewView.SignedViewData>, own: Proposal,
      stops: Proposal -> bool): NewView.Result {
    NewView.DeliverAll(entries, c.view + 1, c.Q(), own, stops)
  }

  /** The entry of a node of the cluster, and of a correct node only if that node built it. */
  ghost predicate Genuine(c: Cluster, s: System, e: NewView.SignedViewData) {
    e.signer in c.nodes && (e.signer in s.nodes ==> e.data.Some? && e.data.value in s.nodes[e.signer].viewData)
  }

  /** Signatures that verify cannot be made up. */
  ghost predicate SignaturesHold(c: Cluster, s: System, entries: seq<NewView.SignedViewData>) {
    forall k :: 0 <= k < |entries| && entries[k].signed ==> Genuine(c, s, entries[k])
  }

  /** The entries whose signature validation does not check are genuine nevertheless. */
  ghost predicate TrustedBehind(c: Cluster, s: System, entries: seq<NewView.SignedViewData>, mine: nat) {
    forall k: nat :: NewView.BehindAt(entries, k, mine) ==> Genuine(c, s, entries[k])
  }

  /** A message with one entry per signer that a node finds valid. */
  ghost predicate Accepted(c: Cluster, s: System, entries: seq<NewView.SignedViewData>, own: Proposal,
      stops: Proposal -> bool) {
    && NewView.OnePerSigner(entries) && !own.metadata.Malformed? && SignaturesHold(c, s, entries)
    && Processed(c, entries, own, stops).outcome == NewView.Valid
  }

  lemma {:induction false} FewerFirstEntries(entries: seq<NewView.SignedViewData>, k: nat)
    requires k <= |entries|
    ensures NewView.FirstEntries(entries, k) <= |entries| - k
    decreases |entries| - k
  {
    if k < |entries| {
      FewerFirstEntries(entries, k + 1);
    }
  }

  /** What validation authenticates: a quorum of reports, all of them authentic if those strictly behind the node
      are. */
  lemma {:induction false} AcceptedIsAuthentic(c: Cluster, s: System, entries: seq<NewView.SignedViewData>,
      own: Proposal, stops: Proposal -> bool)
    requires Accepted(c, s, entries, own, stops)
    requires TrustedBehind(c, s, entries, Processed(c, entries, own, stops).checkpoint.Sequence())
    ensures NewView.AllDecode(entries) && Authentic(c, s, ReportsOf(entries)) && |entries| >= c.Q()
  {
    var mine := Processed(c, entries, own, stops).checkpoint.Sequence();
    NewView.DeliverAllSettles(entries, c.view + 1, c.Q(), own, stops);
    NewView.AllSettled(entries, c.view + 1, c.Q(), own, stops);
    NewView.AllReadable(entries, mine);
    FewerFirstEntries(entries, 0);
    forall k | 0 <= k < |entries| ensures Genuine(c, s, entries[k]) {
      assert NewView.Settled(entries[k], mine);
      assert entries[k].signed || NewView.BehindAt(entries, k, mine);
    }
  }

  lemma {:induction false} AcceptedIsReadable(c: Cluster, s: System, entries: seq<NewView.SignedViewData>,
      own: Proposal, stops: Proposal -> bool)
    requires Accepted(c, s, entries, own, stops)
    ensures var mine := Processed(c, entries, own, stops).checkpoint.Sequence();
            && NewView.AllDecode(entries)
            && forall k :: 0 <= k < |entries| ==>
                 && InFlight.ReadableDecision(ReportsOf(entries)[k].data)
                 && InFlight.ReadableInFlight(ReportsOf(entries)[k].data)
                 && ReportsOf(entries)[k].data.LastSequence() <= NewView.MaxReported(entries) <= mine
  {
    var mine := Processed(c, entries, own, stops).checkpoint.Sequence();
    NewView.AllSettled(entries, c.view + 1, c.Q(), own, stops);
    NewView.AllReadable(entries, mine);
    NewView.SettledBound(entries, mine);
    forall k | 0 <= k < |entries|
      ensures InFlight.ReadableDecision(ReportsOf(entries)[k].data)
              && InFlight.ReadableInFlight(ReportsOf(entries)[k].data)
    {
      assert NewView.Extract(entries)[k] == entries[k].data.value;
    }
  }

  lemma {:induction false} AnsweredIsCommitted(entries: seq<NewView.SignedViewData>, f: nat, quorum: nat, now: Proposal,
      d: Decision)
    requires NewView.AllDecode(entries) && now.Sequence() == InFlight.MaxLastSequence(NewView.Extract(entries))
    requires InFlight.Answer(NewView.Extract(entries), f, quorum) in {InFlight.Agreed(d.proposal), InFlight.NotOk}
    ensures NewView.Conclude(entries, f, quorum, now)
            in {NewView.NotInstalled, NewView.Settle(NewView.CommitNow(d.proposal))}
  {
    var messages := NewView.Extract(entries);
    if InFlight.Answer(messages, f, quorum).Agreed? {
      assert InFlight.Possible(messages, InFlight.Expected(messages), d.proposal);
    }
  }

  /** A certified proposal is not lost when a node installs the next view: the node has it or a later one already, or
      commits it before the view starts, or does not start the view. */
  lemma {:induction false} CertificateSurvivesInstallation(c: Cluster, s: System, d: Decision,
      entries: seq<NewView.SignedViewData>, own: Proposal, stops: Proposal -> bool)
    requires Inv(c, s) && Certificate(c, s.sent, d) && Accepted(c, s, entries, own, stops)
    requires TrustedBehind(c, s, entries, Processed(c, entries, own, stops).checkpoint.Sequence())
    ensures var now := Processed(c, entries, own, stops).checkpoint;
            || now.Sequence() >= d.sequence
            || NewView.Conclude(entries, c.F(), c.Q(), now)
               in {NewView.NotInstalled, NewView.Settle(NewView.CommitNow(d.proposal))}
  {
    var now := Processed(c, entries, own, stops).checkpoint;
    AcceptedIsAuthentic(c, s, entries, own, stops);
    AcceptedIsReadable(c, s, entries, own, stops);
    var reports := ReportsOf(entries);
    ReportsOfAreExtracted(entries);
    NewView.MaxOfExtracted(entries);
    ReportsReachDecision(c, s, reports, d);
    CertificateSurvivesViewChange(c, s, reports, d);
    if now.Sequence() < d.sequence {
      AnsweredIsCommitted(entries, c.F(), c.Q(), now, d);
    }
  }

  /** So it is with every decision, in every run of the view. */
  lemma {:induction false} DecisionSurvivesInstallation(c: Cluster, run: seq<System>, steps: seq<Step>, k: nat,
      i: NodeId, d: Decision, entries: seq<NewView.SignedViewData>, own: Proposal, stops: Proposal -> bool)
    requires Execution(c, run, steps) && k < |run| && i in run[k].nodes && d in run[k].nodes[i].decisions
    requires Accepted(c, run[k], entries, own, stops)
    requires TrustedBehind(c, run[k], entries, Processed(c, entries, own, stops).checkpoint.Sequence())
    ensures var now := Processed(c, entries, own, stops).checkpoint;
            || now.Sequence() >= d.sequence
            || NewView.Conclude(entries, c.F(), c.Q(), now)
               in {NewView.NotInstalled, NewView.Settle(NewView.CommitNow(d.proposal))}
  {
    RunKeepsInv(c, run, steps, k);
    DecisionHasCertificate(c, run[k], i, d);
    CertificateSurvivesInstallation(c, run[k], d, entries, own, stops);
  }

  /** The node ends at the latest reported sequence or one past it, and does not panic. */
  ghost predicate Lands(c: Cluster, entries: seq<NewView.SignedViewData>, own: Proposal, stops: Proposal -> bool) {
    var now := Processed(c, entries, own, stops).checkpoint;
    && NewView.MaxReported(entries) <= now.Sequence() <= NewView.MaxReported(entries) + 1
    && NewView.Conclude(entries, c.F(), c.Q(), now) !in {NewView.Panicked, NewView.Settle(NewView.PanicMismatch)}
  }

  lemma {:induction false} SameMaximum(entries: seq<NewView.SignedViewData>)
    requires NewView.AllDecode(entries)
    ensures InFlight.MaxLastSequence(Data(ReportsOf(entries))) == NewView.MaxReported(entries)
  {
    ReportsOfAreExtracted(entries);
    NewView.MaxOfExtracted(entries);
  }

  lemma {:induction false} ReachedLands(c: Cluster, entries: seq<NewView.SignedViewData>, own: Proposal,
      stops: Proposal -> bool)
    requires NewView.OnePerSigner(entries) && !own.metadata.Malformed? && NewView.AllDecode(entries)
    requires Processed(c, entries, own, stops).outcome == NewView.Valid
    requires own.Sequence() <= InFlight.MaxLastSequence(Data(ReportsOf(entries))) + 1
    ensures Lands(c, entries, own, stops)
  {
    SameMaximum(entries);
    NewView.InstallationNeverPanics(entries, c.view + 1, c.F(), c.Q(), own, stops);
  }

  /** From any certified checkpoint. */
  lemma {:induction false} CertifiedCheckpointInstalls(c: Cluster, s: System, own: Proposal, signatures: seq<Signature>,
      entries: seq<NewView.SignedViewData>, stops: Proposal -> bool)
    requires Inv(c, s) && Certificate(c, s.sent, Decision(own.Sequence(), own, signatures))
    requires Accepted(c, s, entries, own, stops)
    requires TrustedBehind(c, s, entries, Processed(c, entries, own, stops).checkpoint.Sequence())
    ensures Lands(c, entries, own, stops)
  {
    AcceptedIsAuthentic(c, s, entries, own, stops);
    ReportsReachDecision(c, s, ReportsOf(entries), Decision(own.Sequence(), own, signatures));
    ReachedLands(c, entries, own, stops);
  }

  /** A node's checkpoint never goes down, and no view data reports less than the node started with. */
  lemma {:induction false} CheckpointsNeverGoDown(c: Cluster, run: seq<System>, steps: seq<Step>, k: nat, i: NodeId)
    requires Execution(c, run, steps) && k < |run| && i in run[0].nodes
    ensures i in run[k].nodes && run[k].nodes[i].checkpoint.Sequence() >= run[0].nodes[i].checkpoint.Sequence()
    ensures forall vd :: vd in run[k].nodes[i].viewData ==> vd.LastSequence() >= run[0].nodes[i].checkpoint.Sequence()
  {
    if k > 0 {
      CheckpointsNeverGoDown(c, run, steps, k - 1, i);
      RunKeepsInv(c, run, steps, k - 1);
      StepRaisesCheckpoint(c, run[k - 1], steps[k - 1]);
      assert run[k] == Next(c, run[k - 1], steps[k - 1]);
    }
  }

  lemma {:induction false} StepRaisesCheckpoint(c: Cluster, s: System, step: Step)
    requires Inv(c, s) && StepEnabled(c, s, step)
    ensures var n, n' := s.nodes[step.i], NodeAfter(c, s, step);
            && n'.checkpoint.Sequence() >= n.checkpoint.Sequence()
            && forall vd :: vd in n'.viewData ==> vd in n.viewData || vd.LastSequence() >= n.checkpoint.Sequence()
  {
    assert Shape(c, step.i, s.nodes[step.i]);
  }

  /** At most one decision past where every correct node started the view. */
  ghost predicate NearStart(start: System, sequence: nat) {
    forall j :: j in start.nodes ==> sequence <= start.nodes[j].checkpoint.Sequence() + 1
  }

  /** Some report of any authentic quorum is by a correct node, which reports no less than it started with. */
  lemma {:induction false} ReportsReachStart(c: Cluster, run: seq<System>, steps: seq<Step>, k: nat,
      reports: seq<Report>, sequence: nat)
    requires Execution(c, run, steps) && k < |run| && NearStart(run[0], sequence)
    requires Authentic(c, run[k], reports) && |reports| >= c.Q()
    ensures sequence <= InFlight.MaxLastSequence(Data(reports)) + 1
  {
    var ids := seq(|reports|, j requires 0 <= j < |reports| => reports[j].signer);
    SomeVoterIsCorrect(c, ids);
    var j :| 0 <= j < |ids| && ids[j] !in c.faulty;
    var h := reports[j].signer;
    assert ids[j] == h && h in run[0].nodes;
    CheckpointsNeverGoDown(c, run, steps, k, h);
    assert Data(reports)[j] == reports[j].data;
  }

  /** So no node panics in any run whose checkpoint is certified in this view, whether it decided that checkpoint
      itself, was brought to it while the view changed, or synchronized to it; and none that is still within one
      decision of where the correct nodes started. */
  lemma {:induction false} InstallingNextViewNeverPanics(c: Cluster, run: seq<System>, steps: seq<Step>, k: nat,
      i: NodeId, entries: seq<NewView.SignedViewData>, stops: Proposal -> bool)
    requires Execution(c, run, steps) && k < |run| && i in run[k].nodes
    requires var n := run[k].nodes[i];
             || Certificate(c, run[k].sent, Decision(n.checkpoint.Sequence(), n.checkpoint, n.checkpointSignatures))
             || NearStart(run[0], n.checkpoint.Sequence())
    requires Accepted(c, run[k], entries, run[k].nodes[i].checkpoint, stops)
    requires var now := Processed(c, entries, run[k].nodes[i].checkpoint, stops).checkpoint;
             TrustedBehind(c, run[k], entries, now.Sequence())
    ensures Lands(c, entries, run[k].nodes[i].checkpoint, stops)
  {
    var s, n := run[k], run[k].nodes[i];
    if NearStart(run[0], n.checkpoint.Sequence()) {
      AcceptedIsAuthentic(c, s, entries, n.checkpoint, stops);
      ReportsReachStart(c, run, steps, k, ReportsOf(entries), n.checkpoint.Sequence());
      ReachedLands(c, entries, n.checkpoint, stops);
    } else {
      RunKeepsInv(c, run, steps, k);
      CertifiedCheckpointInstalls(c, s, n.checkpoint, n.checkpointSignatures, entries, stops);
    }
  }
}
