/** The leader's side of a proposal (its metadata) and the follower's side (the checks), and when the two fit. */
module ProposalCheck {
  import opened Messages
  import opened Leader
  import Blacklist

  /** What the verifier and the membership notifier of a node answer. */
  datatype Env = Env(
    verificationSequence: nat,
    membershipChange: bool,
    proposalValid: Proposal -> bool,
    verifyConsenterSig: (Signature, Proposal) -> Option<Auxiliary>,
    auxiliaryData: Signature -> Auxiliary,
    signaturesDigest: seq<Signature> -> Bytes)

  /** The part of a view and its checkpoint that proposals depend on. */
  datatype ViewState = ViewState(
    number: nat,
    sequence: nat,
    decisionsInView: nat,
    leaderId: NodeId,
    setup: Setup,
    checkpoint: Proposal,
    checkpointSignatures: seq<Signature>,
    blacklistSupported: bool)

  datatype Verdict =
    | Accepted
    | Panic
    | BadProposal | BadMetadata | WrongView | WrongSequence | WrongDecisions | WrongVerificationSequence
    | BadPrevCommit | BlacklistWithoutRotation | BlacklistChanged | TooFewPrevCommits | WrongBlacklist | WrongDigest

  // ---- shared ----

  /** The prepares each signer attests to; a later signature of the same signer replaces an earlier one. */
  function PreparesFromAll(sigs: seq<Signature>, aux: Signature -> Option<Auxiliary>):
      Option<map<NodeId, seq<NodeId>>> {
    if sigs == [] then Some(map[])
    else
      var before, last := PreparesFromAll(sigs[..|sigs| - 1], aux), sigs[|sigs| - 1];
      if before.None? || aux(last).None? || aux(last).value.Decode().None? then None
      else Some(before.value[last.signer := aux(last).value.Decode().value])
  }

  /** How the leader reads the auxiliary data of a signature it has persisted. */
  function ReadAuxiliary(env: Env): Signature -> Option<Auxiliary> {
    sig => Some(env.auxiliaryData(sig))
  }

  /** How a follower gets it: by verifying the signature on the last decision. */
  function VerifiedAuxiliary(env: Env, decided: Proposal): Signature -> Option<Auxiliary> {
    sig => env.verifyConsenterSig(sig, decided)
  }

  ghost function ExpectedBlacklist(v: ViewState, prevMD: ViewMetadata,
      preparesFrom: map<NodeId, seq<NodeId>>): Option<seq<NodeId>>
    requires v.setup.nodes != []
  {
    Blacklist.Update(v.setup, Blacklist.Context(v.leaderId, prevMD, v.number, preparesFrom))
  }

  /** CommitSignaturesDigest: nothing for no signatures. */
  function DigestOfSignatures(env: Env, sigs: seq<Signature>): Bytes {
    if sigs == [] then [] else env.signaturesDigest(sigs)
  }

  // ---- the leader ----

  /** GetMetadata; None is a panic. */
  ghost function Metadata(v: ViewState, env: Env): Option<ViewMetadata>
    requires v.setup.nodes != []
  {
    var prevMD := v.checkpoint.metadata.Decode();
    if prevMD.None? then None
    else
      var blacklist :=
        if env.verificationSequence != v.checkpoint.verificationSequence || env.membershipChange
        then Some(prevMD.value.blackList)
        else if !v.setup.Rotation() then Some([])
        else
          match PreparesFromAll(v.checkpointSignatures, ReadAuxiliary(env))
          case None => None
          case Some(preparesFrom) => ExpectedBlacklist(v, prevMD.value, preparesFrom);
      if blacklist.None? then None
      else Some(ViewMetadata(v.number, v.sequence, v.decisionsInView, blacklist.value,
                             if v.setup.Rotation() then DigestOfSignatures(env, v.checkpointSignatures) else []))
  }

  /** The previous commit signatures Propose attaches. */
  function AttachedSignatures(v: ViewState): seq<Signature> {
    if v.setup.Rotation() then v.checkpointSignatures else []
  }

  // ---- the follower ----

  function PrevCommits(v: ViewState, env: Env, prevCommits: seq<Signature>): Option<map<NodeId, seq<NodeId>>> {
    if v.checkpoint.verificationSequence != env.verificationSequence then Some(map[])
    else PreparesFromAll(prevCommits, VerifiedAuxiliary(env, v.checkpoint))
  }

  function Witnesses(env: Env, sigs: seq<Signature>): nat {
    if sigs == [] then 0
    else Witnesses(env, sigs[..|sigs| - 1]) + (if env.auxiliaryData(sigs[|sigs| - 1]) != NoAuxiliary then 1 else 0)
  }

  predicate BlacklistingSupported(v: ViewState, env: Env) {
    v.blacklistSupported || Witnesses(env, v.checkpointSignatures) > v.setup.F()
  }

  ghost function CheckBlacklist(v: ViewState, env: Env, prevCommits: seq<Signature>, pending: seq<NodeId>,
      acks: map<NodeId, seq<NodeId>>): Verdict
    requires v.setup.nodes != []
  {
    if !v.setup.Rotation() then
      if |pending| > 0 then BlacklistWithoutRotation else Accepted
    else
      var prevMD := v.checkpoint.metadata.Decode();
      if prevMD.None? then Panic
      else if v.checkpoint.verificationSequence != env.verificationSequence || env.membershipChange then
        if prevMD.value.blackList != pending then BlacklistChanged else Accepted
      else if BlacklistingSupported(v, env) && |prevCommits| < |v.checkpointSignatures| then TooFewPrevCommits
      else
        match ExpectedBlacklist(v, prevMD.value, acks)
        case None => Panic
        case Some(expected) => if pending != expected then WrongBlacklist else Accepted
  }

  ghost function Check(v: ViewState, env: Env, proposal: Proposal, prevCommits: seq<Signature>): Verdict
    requires v.setup.nodes != []
  {
    if !env.proposalValid(proposal) then BadProposal
    else
      match proposal.metadata.Decode()
      case None => BadMetadata
      case Some(md) =>
        if md.viewId != v.number then WrongView
        else if md.latestSequence != v.sequence then WrongSequence
        else if md.decisionsInView != v.decisionsInView then WrongDecisions
        else if proposal.verificationSequence != env.verificationSequence then WrongVerificationSequence
        else if v.checkpoint.metadata.Decode().None? then Panic
        else
          match PrevCommits(v, env, prevCommits)
          case None => BadPrevCommit
          case Some(acks) =>
            var bl := CheckBlacklist(v, env, prevCommits, md.blackList, acks);
            if bl != Accepted then bl
            else if DigestOfSignatures(env, prevCommits) != md.prevCommitSignatureDigest && v.setup.Rotation()
            then WrongDigest
            else Accepted
  }

  // ---- the loops of the source ----

  method CollectAcknowledgements(sigs: seq<Signature>,
      aux: Signature -> Option<Auxiliary>) returns (acks: Option<map<NodeId, seq<NodeId>>>)
    ensures acks == PreparesFromAll(sigs, aux)
  {
    var prepareAcknowledgements: map<NodeId, seq<NodeId>> := map[];
    for i := 0 to |sigs|
      invariant PreparesFromAll(sigs[..i], aux) == Some(prepareAcknowledgements)
    {
      var sig := sigs[i];
      assert sigs[..i + 1][..i] == sigs[..i];
      if aux(sig).None? || aux(sig).value.Decode().None? {
        NoneStaysNone(sigs, aux, i + 1);
        return None;
      }
      prepareAcknowledgements := prepareAcknowledgements[sig.signer := aux(sig).value.Decode().value];
    }
    assert sigs[..|sigs|] == sigs;
    return Some(prepareAcknowledgements);
  }

  lemma {:induction false} NoneStaysNone(sigs: seq<Signature>, aux: Signature -> Option<Auxiliary>, k: nat)
    requires k <= |sigs| && PreparesFromAll(sigs[..k], aux).None?
    ensures PreparesFromAll(sigs, aux).None?
  {
    if k == |sigs| {
      assert sigs[..k] == sigs;
    } else {
      assert sigs[..|sigs| - 1][..k] == sigs[..k];
      NoneStaysNone(sigs[..|sigs| - 1], aux, k);
    }
  }

  method CountWitnesses(env: Env, sigs: seq<Signature>) returns (count: nat)
    ensures count == Witnesses(env, sigs)
  {
    count := 0;
    for i := 0 to |sigs|
      invariant count == Witnesses(env, sigs[..i])
    {
      assert sigs[..i + 1][..i] == sigs[..i];
      if env.auxiliaryData(sigs[i]) != NoAuxiliary {
        count := count + 1;
      }
    }
    assert sigs[..|sigs|] == sigs;
  }

  method VerifyBlacklist(v: ViewState, env: Env, prevCommits: seq<Signature>, pending: seq<NodeId>,
      acks: map<NodeId, seq<NodeId>>)
    returns (r: Verdict)
    requires v.setup.nodes != []
    ensures r == CheckBlacklist(v, env, prevCommits, pending, acks)
  {
    if v.setup.decisionsPerLeader == 0 {
      if |pending| > 0 {
        return BlacklistWithoutRotation;
      }
      return Accepted;
    }
    var prevMD := v.checkpoint.metadata.Decode();
    if prevMD.None? {
      return Panic;
    }
    if v.checkpoint.verificationSequence != env.verificationSequence {
      return if prevMD.value.blackList != pending then BlacklistChanged else Accepted;
    }
    if env.membershipChange {
      return if prevMD.value.blackList != pending then BlacklistChanged else Accepted;
    }
    var supported := v.blacklistSupported;
    if !supported {
      var count := CountWitnesses(env, v.checkpointSignatures);
      supported := count > v.setup.F();
    }
    if supported && |prevCommits| < |v.checkpointSignatures| {
      return TooFewPrevCommits;
    }
    var expected := Blacklist.ComputeUpdate(v.setup, Blacklist.Context(v.leaderId, prevMD.value, v.number, acks));
    if expected.None? {
      return Panic;
    }
    return if pending != expected.value then WrongBlacklist else Accepted;
  }

  method VerifyProposal(v: ViewState, env: Env, proposal: Proposal, prevCommits: seq<Signature>) returns (r: Verdict)
    requires v.setup.nodes != []
    ensures r == Check(v, env, proposal, prevCommits)
  {
    if !env.proposalValid(proposal) {
      return BadProposal;
    }
    var md := proposal.metadata.Decode();
    if md.None? {
      return BadMetadata;
    }
    if md.value.viewId != v.number {
      return WrongView;
    }
    if md.value.latestSequence != v.sequence {
      return WrongSequence;
    }
    if md.value.decisionsInView != v.decisionsInView {
      return WrongDecisions;
    }
    if proposal.verificationSequence != env.verificationSequence {
      return WrongVerificationSequence;
    }
    if v.checkpoint.metadata.Decode().None? {
      return Panic;
    }
    var acks: Option<map<NodeId, seq<NodeId>>> := Some(map[]);
    if v.checkpoint.verificationSequence == env.verificationSequence {
      acks := CollectAcknowledgements(prevCommits, VerifiedAuxiliary(env, v.checkpoint));
      if acks.None? {
        return BadPrevCommit;
      }
    }
    r := VerifyBlacklist(v, env, prevCommits, md.value.blackList, acks.value);
    if r != Accepted {
      return r;
    }
    if DigestOfSignatures(env, prevCommits) != md.value.prevCommitSignatureDigest && v.setup.decisionsPerLeader > 0 {
      return WrongDigest;
    }
    return Accepted;
  }

  method GetMetadata(v: ViewState, env: Env) returns (md: Option<ViewMetadata>)
    requires v.setup.nodes != []
    ensures md == Metadata(v, env)
  {
    var prevMD := v.checkpoint.metadata.Decode();
    if prevMD.None? {
      return None;
    }
    var metadata := ViewMetadata(v.number, v.sequence, v.decisionsInView, prevMD.value.blackList, []);
    if env.verificationSequence == v.checkpoint.verificationSequence && !env.membershipChange {
      if v.setup.decisionsPerLeader == 0 {
        metadata := metadata.(blackList := []);
      } else {
        var preparesFrom := CollectAcknowledgements(v.checkpointSignatures, ReadAuxiliary(env));
        if preparesFrom.None? {
          return None;
        }
        var list := Blacklist.ComputeUpdate(v.setup,
            Blacklist.Context(v.leaderId, prevMD.value, metadata.viewId, preparesFrom.value));
        if list.None? {
          return None;
        }
        metadata := metadata.(blackList := list.value);
      }
    }
    if v.setup.decisionsPerLeader > 0 {
      metadata := metadata.(prevCommitSignatureDigest := DigestOfSignatures(env, v.checkpointSignatures));
    }
    return Some(metadata);
  }

  // ---- the two sides fit ----

  /** Leader and follower agree on the view, the last decision and the outside world; the follower can verify the
      leader's commit signatures, and finds the auxiliary data the leader read from them. */
  ghost predicate SameView(l: ViewState, f: ViewState, le: Env, fe: Env) {
    && l.setup.Valid() && f.setup == l.setup
    && f.number == l.number && f.sequence == l.sequence && f.decisionsInView == l.decisionsInView
    && f.leaderId == l.leaderId
    && f.checkpoint == l.checkpoint && l.checkpoint.metadata.Decode().Some?
    && |l.checkpoint.metadata.Decode().value.blackList| <= l.setup.F()
    && fe.verificationSequence == le.verificationSequence && fe.membershipChange == le.membershipChange
    && (forall sigs :: fe.signaturesDigest(sigs) == le.signaturesDigest(sigs))
    && (forall k :: 0 <= k < |l.checkpointSignatures| ==>
          var sig := l.checkpointSignatures[k];
          && fe.verifyConsenterSig(sig, l.checkpoint) == Some(le.auxiliaryData(sig))
          && le.auxiliaryData(sig).Decode().Some?)
  }

  lemma {:induction false} SameAcknowledgements(sigs: seq<Signature>, a: Signature -> Option<Auxiliary>,
      b: Signature -> Option<Auxiliary>)
    requires forall k :: 0 <= k < |sigs| ==>
               a(sigs[k]) == b(sigs[k]) && a(sigs[k]).Some? && a(sigs[k]).value.Decode().Some?
    ensures PreparesFromAll(sigs, a) == PreparesFromAll(sigs, b) && PreparesFromAll(sigs, a).Some?
  {
    if sigs != [] {
      SameAcknowledgements(sigs[..|sigs| - 1], a, b);
    }
  }

  /** The leader's state lets it build metadata at all. */
  lemma {:induction false} LeaderCanPropose(l: ViewState, f: ViewState, le: Env, fe: Env)
    requires SameView(l, f, le, fe)
    ensures Metadata(l, le).Some?
  {
    SameAcknowledgements(l.checkpointSignatures, ReadAuxiliary(le), ReadAuxiliary(le));
    var acks := PreparesFromAll(l.checkpointSignatures, ReadAuxiliary(le)).value;
    Blacklist.UpdateIsSound(l.setup, Blacklist.Context(l.leaderId, l.checkpoint.metadata.Decode().value, l.number,
        acks));
  }

  /** The condition under which the follower accepts, in terms of what both can see before the proposal is sent. */
  ghost predicate Fits(l: ViewState, f: ViewState, fe: Env)
    requires f.checkpoint.metadata.Decode().Some?
  {
    var sameConfig := fe.verificationSequence == f.checkpoint.verificationSequence && !fe.membershipChange;
    if f.setup.Rotation()
    then sameConfig && BlacklistingSupported(f, fe) ==> |l.checkpointSignatures| >= |f.checkpointSignatures|
    else sameConfig || f.checkpoint.metadata.Decode().value.blackList == []
  }

  /** A proposal with the leader's metadata passes every check of a follower in the same view state exactly when: with
      rotation on, the leader attached at least as many commit signatures as the follower holds (once blacklisting is
      supported, and unless the configuration changed); with rotation off, the previous blacklist was empty or the
      configuration did not change. */
  lemma {:induction false} LeaderProposalIsAccepted(l: ViewState, f: ViewState, le: Env, fe: Env, proposal: Proposal)
    requires SameView(l, f, le, fe)
    requires proposal.metadata.Encoded? && Metadata(l, le) == Some(proposal.metadata.md)
    requires proposal.verificationSequence == le.verificationSequence && fe.proposalValid(proposal)
    ensures Check(f, fe, proposal, AttachedSignatures(l)) == Accepted <==> Fits(l, f, fe)
  {
    SameAcknowledgements(l.checkpointSignatures, ReadAuxiliary(le), VerifiedAuxiliary(fe, f.checkpoint));
  }
}
