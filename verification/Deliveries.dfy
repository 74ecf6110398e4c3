/** Decisions delivered from view data are decisions of the cluster: if verified signatures are genuine, a quorum
    behind a proposal of this view is a certificate of the run, so the proposal is the one that correct nodes decide
    there. */
module Deliveries {
  import opened Messages
  import opened Quorum
  import opened Replica
  import opened Consensus
  import opened Agreement
  import opened Invariance
  import Safety
  import NV = NewView
  import Checks = NewViewChecks

  /** Verified signatures are of nodes of the cluster, and those of correct nodes on proposals of this view were sent
      in a commit. */
  ghost predicate Genuine(c: Cluster, sent: set<Sending>, sigs: seq<Signature>) {
    forall k :: 0 <= k < |sigs| ==> GenuineOne(c, sent, sigs[k])
  }

  ghost predicate GenuineOne(c: Cluster, sent: set<Sending>, sig: Signature) {
    && sig.signer in c.nodes
    && (c.Correct(sig.signer) && sig.subject.metadata.Encoded? && sig.subject.metadata.md.viewId == c.view ==>
          exists sequence: nat :: Sending(sig.signer, CommitOf(c, sequence, sig)) in sent)
  }

  /** A commit of a correct node is for a proposal of the sequence it names: a correct node prepared it there. */
  lemma {:induction false} CommitNamesItsSequence(c: Cluster, s: System, i: NodeId, m: Message)
    requires Inv(c, s) && i in s.nodes && Sending(i, m) in s.sent && m.Commit?
    ensures InView(c, m.digest.preimage, m.sequence)
  {
    assert CommitAccounted(c, s.sent, i, s.nodes[i], m);
    var preparers := Preparers(c, s.sent, m.sequence, m.digest);
    var h := QuorumsShareHonest(preparers, preparers, c.faulty, c.nodes);
    assert Sending(h, Prepare(c.view, m.sequence, m.digest, false)) in s.sent;
  }

  lemma {:induction false} GenuineAttests(c: Cluster, s: System, p: Proposal, sig: Signature)
    requires Inv(c, s) && GenuineOne(c, s.sent, sig) && sig.subject == p
    requires p.metadata.Encoded? && p.metadata.md.viewId == c.view
    ensures Attests(c, s.sent, p.Sequence(), p, sig)
  {
    if c.Correct(sig.signer) {
      var sequence: nat :| Sending(sig.signer, CommitOf(c, sequence, sig)) in s.sent;
      CommitNamesItsSequence(c, s, sig.signer, CommitOf(c, sequence, sig));
    }
  }

  /** One signature on p of each node that has one. */
  function OnePerNode(sigs: seq<Signature>, p: Proposal): seq<Signature> {
    if sigs == [] then []
    else
      var before, last := OnePerNode(sigs[..|sigs| - 1], p), sigs[|sigs| - 1];
      if last.subject == p && last.signer !in SignerIds(before) then before + [last] else before
  }

  lemma {:induction false} OnePerNodeIsBacking(sigs: seq<Signature>, p: Proposal)
    ensures var ones := OnePerNode(sigs, p);
            && DistinctIds(SignerIds(ones)) && IdSet(SignerIds(ones)) == Checks.Backing(sigs, p)
            && forall k :: 0 <= k < |ones| ==> ones[k] in sigs && ones[k].subject == p
  {
    if sigs == [] {
      assert Checks.Backing(sigs, p) == {};
    } else {
      var n := |sigs| - 1;
      var before, last := OnePerNode(sigs[..n], p), sigs[n];
      OnePerNodeIsBacking(sigs[..n], p);
      assert sigs == sigs[..n] + [last];
      BackingStep(sigs, p);
      if last.subject == p && last.signer !in SignerIds(before) {
        assert SignerIds(before + [last]) == SignerIds(before) + [last.signer];
      }
    }
  }

  lemma {:induction false} BackingStep(sigs: seq<Signature>, p: Proposal)
    requires sigs != []
    ensures var n := |sigs| - 1;
            Checks.Backing(sigs, p)
            == Checks.Backing(sigs[..n], p) + if sigs[n].subject == p then {sigs[n].signer} else {}
  {
  }

  /** A quorum of genuine signatures on a proposal of this view is a certificate. */
  lemma {:induction false} QuorumIsCertificate(c: Cluster, s: System, sigs: seq<Signature>, p: Proposal)
      returns (ones: seq<Signature>)
    requires Inv(c, s) && Genuine(c, s.sent, sigs) && |Checks.Backing(sigs, p)| >= c.Q()
    requires p.metadata.Encoded? && p.metadata.md.viewId == c.view
    ensures Certificate(c, s.sent, Decision(p.Sequence(), p, ones))
  {
    ones := OnePerNode(sigs, p);
    OnePerNodeIsBacking(sigs, p);
    IdSetSize(SignerIds(ones));
    forall k | 0 <= k < |ones| ensures Attests(c, s.sent, p.Sequence(), p, ones[k]) {
      var j :| 0 <= j < |sigs| && sigs[j] == ones[k];
      GenuineAttests(c, s, p, ones[k]);
    }
  }

  /** All signatures in the entries are genuine. */
  ghost predicate EntriesGenuine(c: Cluster, sent: set<Sending>, entries: seq<NV.SignedViewData>) {
    forall k :: 0 <= k < |entries| && entries[k].data.Some?
      ==> Genuine(c, sent, entries[k].data.value.lastDecisionSignatures)
  }

  /** In every run: each decision of this view that a new-view message makes a node deliver is certified in the run. */
  lemma {:induction false} DeliveredIsCertified(c: Cluster, run: seq<System>, steps: seq<Step>, k: nat,
      entries: seq<NV.SignedViewData>, own: Proposal, stops: Proposal -> bool, p: Proposal)
    returns (ones: seq<Signature>)
    requires Execution(c, run, steps) && k < |run| && EntriesGenuine(c, run[k].sent, entries)
    requires p in Checks.Deliveries(entries, c.view + 1, c.Q(), own, stops)
    requires p.metadata.Encoded? && p.metadata.md.viewId == c.view
    ensures Certificate(c, run[k].sent, Decision(p.Sequence(), p, ones))
  {
    RunKeepsInv(c, run, steps, k);
    Checks.DeliveriesAreSigned(entries, c.view + 1, c.Q(), own, stops);
    var j: nat :| Checks.Carried(entries, c.view + 1, c.Q(), p, j);
    ones := QuorumIsCertificate(c, run[k], entries[j].data.value.lastDecisionSignatures, p);
  }

  /** ... so it is what every correct node decides at that sequence. */
  lemma {:induction false} DeliveredIsDecided(c: Cluster, run: seq<System>, steps: seq<Step>, k: nat,
      entries: seq<NV.SignedViewData>, own: Proposal, stops: Proposal -> bool, p: Proposal, i: NodeId, d: Decision)
    requires Execution(c, run, steps) && k < |run| && EntriesGenuine(c, run[k].sent, entries)
    requires p in Checks.Deliveries(entries, c.view + 1, c.Q(), own, stops)
    requires p.metadata.Encoded? && p.metadata.md.viewId == c.view
    requires i in run[k].nodes && d in run[k].nodes[i].decisions && d.sequence == p.Sequence()
    ensures d.proposal == p
  {
    var ones := DeliveredIsCertified(c, run, steps, k, entries, own, stops, p);
    RunKeepsInv(c, run, steps, k);
    Safety.DecisionHasCertificate(c, run[k], i, d);
    Safety.CertificatesAgree(c, run, steps, k, Decision(p.Sequence(), p, ones), d);
  }
}
