/** What a follower accepts, rule by rule, and that it accepts nothing else: in a given state, with given previous
    commits, the metadata of a proposal is fixed. */
module ProposalRules {
  import opened Messages
  import opened Leader
  import opened ProposalCheck
  import Blacklist
  import BlacklistUpdates

  // ---- what the previous commits attest to ----

  predicate Readable(aux: Signature -> Option<Auxiliary>, sig: Signature) {
    aux(sig).Some? && aux(sig).value.Decode().Some?
  }

  ghost predicate AllReadable(sigs: seq<Signature>, aux: Signature -> Option<Auxiliary>) {
    forall k :: 0 <= k < |sigs| ==> Readable(aux, sigs[k])
  }

  /** No later signature has the same signer. */
  ghost predicate LastOfSigner(sigs: seq<Signature>, k: nat)
    requires k < |sigs|
  {
    forall j :: k < j < |sigs| ==> sigs[j].signer != sigs[k].signer
  }

  /** The signers, each with the list in its last signature. */
  ghost predicate Attested(sigs: seq<Signature>, aux: Signature -> Option<Auxiliary>, acks: map<NodeId, seq<NodeId>>)
    requires AllReadable(sigs, aux)
  {
    && (forall w :: w in acks ==> exists k: nat :: k < |sigs| && sigs[k].signer == w && LastOfSigner(sigs, k))
    && (forall k: nat :: k < |sigs| && LastOfSigner(sigs, k) ==>
          sigs[k].signer in acks && acks[sigs[k].signer] == aux(sigs[k]).value.Decode().value)
  }

  lemma {:induction false} ReadableExactly(sigs: seq<Signature>, aux: Signature -> Option<Auxiliary>)
    ensures PreparesFromAll(sigs, aux).Some? <==> AllReadable(sigs, aux)
  {
    if sigs != [] {
      ReadableExactly(sigs[..|sigs| - 1], aux);
      if AllReadable(sigs[..|sigs| - 1], aux) && Readable(aux, sigs[|sigs| - 1]) {
        forall k | 0 <= k < |sigs| ensures Readable(aux, sigs[k]) {
          assert k < |sigs| - 1 ==> sigs[..|sigs| - 1][k] == sigs[k];
        }
      }
    }
  }

  lemma {:induction false} LastAfterOneMore(sigs: seq<Signature>, last: Signature, k: nat)
    requires k < |sigs|
    ensures LastOfSigner(sigs + [last], k) <==> LastOfSigner(sigs, k) && sigs[k].signer != last.signer
  {
    var all := sigs + [last];
    if LastOfSigner(all, k) {
      assert all[|sigs|] == last;
      forall j | k < j < |sigs| ensures sigs[j].signer != sigs[k].signer {
        assert all[j] == sigs[j];
      }
    }
  }

  lemma {:induction false} OneMoreAttested(sigs: seq<Signature>, last: Signature, aux: Signature -> Option<Auxiliary>,
      acks: map<NodeId, seq<NodeId>>)
    requires AllReadable(sigs, aux) && Readable(aux, last) && Attested(sigs, aux, acks)
    ensures AllReadable(sigs + [last], aux)
    ensures Attested(sigs + [last], aux, acks[last.signer := aux(last).value.Decode().value])
  {
    var all, acks' := sigs + [last], acks[last.signer := aux(last).value.Decode().value];
    forall k: nat | k < |all| && LastOfSigner(all, k)
      ensures all[k].signer in acks' && acks'[all[k].signer] == aux(all[k]).value.Decode().value
    {
      if k < |sigs| {
        LastAfterOneMore(sigs, last, k);
      }
    }
    forall w | w in acks' ensures exists k: nat :: k < |all| && all[k].signer == w && LastOfSigner(all, k) {
      if w == last.signer {
        assert all[|sigs|].signer == w && LastOfSigner(all, |sigs|);
      } else {
        var k: nat :| k < |sigs| && sigs[k].signer == w && LastOfSigner(sigs, k);
        LastAfterOneMore(sigs, last, k);
        assert all[k].signer == w && LastOfSigner(all, k);
      }
    }
  }

  lemma {:induction false} CollectedAreAttested(sigs: seq<Signature>, aux: Signature -> Option<Auxiliary>)
    requires AllReadable(sigs, aux)
    ensures PreparesFromAll(sigs, aux).Some? && Attested(sigs, aux, PreparesFromAll(sigs, aux).value)
  {
    if sigs != [] {
      var init, last := sigs[..|sigs| - 1], sigs[|sigs| - 1];
      assert sigs == init + [last];
      CollectedAreAttested(init, aux);
      OneMoreAttested(init, last, aux, PreparesFromAll(init, aux).value);
    }
  }

  lemma {:induction false} AttestedIsUnique(sigs: seq<Signature>, aux: Signature -> Option<Auxiliary>,
      a: map<NodeId, seq<NodeId>>, b: map<NodeId, seq<NodeId>>)
    requires AllReadable(sigs, aux) && Attested(sigs, aux, a) && Attested(sigs, aux, b)
    ensures a == b
  {
    forall w | w in a ensures w in b && b[w] == a[w] {
      var k: nat :| k < |sigs| && sigs[k].signer == w && LastOfSigner(sigs, k);
    }
    forall w | w in b ensures w in a {
      var k: nat :| k < |sigs| && sigs[k].signer == w && LastOfSigner(sigs, k);
    }
  }

  /** The prepares collected from signatures exist exactly if every one can be read, and are the lists of the last
      signature of each signer. */
  lemma {:induction false} CollectedExactly(sigs: seq<Signature>, aux: Signature -> Option<Auxiliary>,
      acks: map<NodeId, seq<NodeId>>)
    ensures PreparesFromAll(sigs, aux) == Some(acks) <==> AllReadable(sigs, aux) && Attested(sigs, aux, acks)
  {
    ReadableExactly(sigs, aux);
    if AllReadable(sigs, aux) {
      CollectedAreAttested(sigs, aux);
      if Attested(sigs, aux, acks) {
        AttestedIsUnique(sigs, aux, acks, PreparesFromAll(sigs, aux).value);
      }
    }
  }

  /** The signatures that carry auxiliary data. */
  ghost function Carrying(env: Env, sigs: seq<Signature>): set<nat> {
    set k: nat | k < |sigs| && env.auxiliaryData(sigs[k]) != NoAuxiliary
  }

  lemma {:induction false} WitnessesCarry(env: Env, sigs: seq<Signature>)
    ensures Witnesses(env, sigs) == |Carrying(env, sigs)|
  {
    if sigs == [] {
      assert Carrying(env, sigs) == {};
    } else {
      var init := sigs[..|sigs| - 1];
      WitnessesCarry(env, init);
      if env.auxiliaryData(sigs[|sigs| - 1]) != NoAuxiliary {
        assert Carrying(env, sigs) == Carrying(env, init) + {|sigs| - 1};
      } else {
        assert Carrying(env, sigs) == Carrying(env, init);
      }
    }
  }

  // ---- the rules ----

  /** Nothing was reconfigured since the last decision. */
  ghost predicate SameConfiguration(v: ViewState, env: Env) {
    v.checkpoint.verificationSequence == env.verificationSequence && !env.membershipChange
  }

  /** Once more than f commits on the last decision are known to carry auxiliary data, no fewer commits are attached
      than the follower holds. */
  ghost predicate EnoughCommits(v: ViewState, env: Env, prevCommits: seq<Signature>) {
    v.blacklistSupported || |Carrying(env, v.checkpointSignatures)| > v.setup.F()
    ==> |prevCommits| >= |v.checkpointSignatures|
  }

  /** The list that follows from the last decision, given what the previous commits attest to. */
  ghost predicate NextList(v: ViewState, env: Env, prevMD: ViewMetadata, prevCommits: seq<Signature>, list: seq<NodeId>)
    requires v.setup.nodes != [] && AllReadable(prevCommits, VerifiedAuxiliary(env, v.checkpoint))
  {
    exists acks :: && Attested(prevCommits, VerifiedAuxiliary(env, v.checkpoint), acks)
                   && BlacklistUpdates.Follows(v.setup, Blacklist.Context(v.leaderId, prevMD, v.number, acks), list)
  }

  ghost predicate RightList(v: ViewState, env: Env, prevMD: ViewMetadata, prevCommits: seq<Signature>,
      list: seq<NodeId>)
    requires v.setup.nodes != []
  {
    if !v.setup.Rotation() then list == []
    else if !SameConfiguration(v, env) then list == prevMD.blackList
    else
      && AllReadable(prevCommits, VerifiedAuxiliary(env, v.checkpoint))
      && EnoughCommits(v, env, prevCommits) && NextList(v, env, prevMD, prevCommits, list)
  }

  ghost predicate RightMetadata(v: ViewState, env: Env, prevMD: ViewMetadata, prevCommits: seq<Signature>,
      md: ViewMetadata)
    requires v.setup.nodes != []
  {
    && md.viewId == v.number && md.latestSequence == v.sequence && md.decisionsInView == v.decisionsInView
    && RightList(v, env, prevMD, prevCommits, md.blackList)
    && (v.setup.Rotation() ==>
          md.prevCommitSignatureDigest == if prevCommits == [] then [] else env.signaturesDigest(prevCommits))
  }

  ghost predicate Acceptable(v: ViewState, env: Env, proposal: Proposal, prevCommits: seq<Signature>)
    requires v.setup.nodes != []
  {
    && env.proposalValid(proposal) && proposal.verificationSequence == env.verificationSequence
    && proposal.metadata.Decode().Some? && v.checkpoint.metadata.Decode().Some?
    && (v.checkpoint.verificationSequence == env.verificationSequence ==>
          AllReadable(prevCommits, VerifiedAuxiliary(env, v.checkpoint)))
    && RightMetadata(v, env, v.checkpoint.metadata.Decode().value, prevCommits, proposal.metadata.Decode().value)
  }

  lemma {:induction false} NextListExactly(v: ViewState, env: Env, prevMD: ViewMetadata, prevCommits: seq<Signature>,
      acks: map<NodeId, seq<NodeId>>, list: seq<NodeId>)
    requires v.setup.nodes != [] && PreparesFromAll(prevCommits, VerifiedAuxiliary(env, v.checkpoint)) == Some(acks)
    ensures AllReadable(prevCommits, VerifiedAuxiliary(env, v.checkpoint))
    ensures ExpectedBlacklist(v, prevMD, acks) == Some(list) <==> NextList(v, env, prevMD, prevCommits, list)
  {
    var aux := VerifiedAuxiliary(env, v.checkpoint);
    CollectedExactly(prevCommits, aux, acks);
    BlacklistUpdates.UpdateExactly(v.setup, Blacklist.Context(v.leaderId, prevMD, v.number, acks), list);
    if NextList(v, env, prevMD, prevCommits, list) {
      var other :| && Attested(prevCommits, aux, other)
                   && BlacklistUpdates.Follows(v.setup, Blacklist.Context(v.leaderId, prevMD, v.number, other), list);
      AttestedIsUnique(prevCommits, aux, acks, other);
    }
  }

  /** The check of the blacklist, against the rules. */
  lemma {:induction false} ListExactly(v: ViewState, env: Env, prevCommits: seq<Signature>, list: seq<NodeId>,
      acks: map<NodeId, seq<NodeId>>)
    requires v.setup.nodes != [] && v.checkpoint.metadata.Decode().Some?
             && PrevCommits(v, env, prevCommits) == Some(acks)
    ensures CheckBlacklist(v, env, prevCommits, list, acks) == Accepted
            <==> RightList(v, env, v.checkpoint.metadata.Decode().value, prevCommits, list)
  {
    if v.setup.Rotation() && SameConfiguration(v, env) {
      WitnessesCarry(env, v.checkpointSignatures);
      NextListExactly(v, env, v.checkpoint.metadata.Decode().value, prevCommits, acks, list);
    }
  }

  /** A follower accepts a proposal exactly if it is acceptable by these rules. */
  lemma {:induction false} AcceptedExactly(v: ViewState, env: Env, proposal: Proposal, prevCommits: seq<Signature>)
    requires v.setup.nodes != []
    ensures Check(v, env, proposal, prevCommits) == Accepted <==> Acceptable(v, env, proposal, prevCommits)
  {
    ReadableExactly(prevCommits, VerifiedAuxiliary(env, v.checkpoint));
    var acks := PrevCommits(v, env, prevCommits);
    if acks.Some? && v.checkpoint.metadata.Decode().Some? && proposal.metadata.Decode().Some? {
      ListExactly(v, env, prevCommits, proposal.metadata.Decode().value.blackList, acks.value);
    }
  }

  // ---- nothing else is accepted ----

  /** The metadata agree in all that a follower looks at; the digest counts only with rotation. */
  predicate Agree(a: ViewMetadata, b: ViewMetadata, rotation: bool) {
    && a.viewId == b.viewId && a.latestSequence == b.latestSequence && a.decisionsInView == b.decisionsInView
    && a.blackList == b.blackList && (rotation ==> a.prevCommitSignatureDigest == b.prevCommitSignatureDigest)
  }

  /** With the same previous commits a follower accepts no two proposals whose metadata differ, so once a leader's
      proposal is accepted nothing that differs from it is. */
  lemma {:induction false} AcceptedMetadataIsFixed(v: ViewState, env: Env, p: Proposal, q: Proposal,
      prevCommits: seq<Signature>)
    requires v.setup.nodes != []
    requires Check(v, env, p, prevCommits) == Accepted && Check(v, env, q, prevCommits) == Accepted
    ensures p.metadata.Decode().Some? && q.metadata.Decode().Some?
    ensures Agree(p.metadata.Decode().value, q.metadata.Decode().value, v.setup.Rotation())
    ensures p.verificationSequence == q.verificationSequence
  {
  }

  /** Where the two sides fit, the follower accepts exactly the proposals with the leader's metadata. */
  lemma {:induction false} OnlyTheLeadersMetadata(l: ViewState, f: ViewState, le: Env, fe: Env, proposal: Proposal)
    requires SameView(l, f, le, fe) && Fits(l, f, fe)
    ensures Metadata(l, le).Some?
    ensures Check(f, fe, proposal, AttachedSignatures(l)) == Accepted
            <==> && fe.proposalValid(proposal) && proposal.verificationSequence == fe.verificationSequence
                 && proposal.metadata.Decode().Some?
                 && Agree(proposal.metadata.Decode().value, Metadata(l, le).value, f.setup.Rotation())
  {
    LeaderCanPropose(l, f, le, fe);
    SameAcknowledgements(l.checkpointSignatures, ReadAuxiliary(le), VerifiedAuxiliary(fe, f.checkpoint));
  }

  // ---- what an accepted list is ----

  ghost predicate SoundList(v: ViewState, prevMD: ViewMetadata, acks: map<NodeId, seq<NodeId>>, list: seq<NodeId>)
    requires v.setup.nodes != []
  {
    var c := Blacklist.Context(v.leaderId, prevMD, v.number, acks);
    && |list| <= v.setup.F()
    && (forall x :: x in list && x !in prevMD.blackList ==>
          x != v.leaderId && BlacklistUpdates.LedGivenUp(v.setup, c, x))
    && (prevMD.viewId == v.number && |prevMD.blackList| <= v.setup.F() ==>
          forall x :: x in list <==>
            x in prevMD.blackList && x in v.setup.nodes && Blacklist.Acks(acks, acks.Keys, x) <= v.setup.F())
  }

  lemma {:induction false} FollowingIsSound(v: ViewState, prevMD: ViewMetadata, acks: map<NodeId, seq<NodeId>>,
      list: seq<NodeId>)
    requires v.setup.nodes != []
    requires BlacklistUpdates.Follows(v.setup, Blacklist.Context(v.leaderId, prevMD, v.number, acks), list)
    ensures SoundList(v, prevMD, acks, list)
  {
    var c := Blacklist.Context(v.leaderId, prevMD, v.number, acks);
    forall x ensures x in list && x !in prevMD.blackList ==>
                       x != v.leaderId && BlacklistUpdates.LedGivenUp(v.setup, c, x) {
      BlacklistUpdates.GainedLedBefore(v.setup, c, list, x);
    }
    if prevMD.viewId == v.number && |prevMD.blackList| <= v.setup.F() {
      forall x ensures x in list <==> && x in prevMD.blackList && x in v.setup.nodes
                                      && Blacklist.Acks(acks, acks.Keys, x) <= v.setup.F() {
        BlacklistUpdates.KeptExactly(v.setup, c, list, x);
      }
    }
  }

  /** With rotation on and nothing reconfigured, an accepted list has at most f entries and never gains the current
      leader, only leaders of views that were given up since the last decision. Inside a view its entries are exactly
      the previous ones that are still in the configuration and that the attached commits name at most f times. */
  lemma {:induction false} AcceptedListIsSound(v: ViewState, env: Env, proposal: Proposal, prevCommits: seq<Signature>)
    returns (acks: map<NodeId, seq<NodeId>>)
    requires v.setup.nodes != [] && v.setup.Rotation() && SameConfiguration(v, env)
    requires Check(v, env, proposal, prevCommits) == Accepted
    ensures proposal.metadata.Decode().Some? && v.checkpoint.metadata.Decode().Some?
    ensures AllReadable(prevCommits, VerifiedAuxiliary(env, v.checkpoint))
    ensures Attested(prevCommits, VerifiedAuxiliary(env, v.checkpoint), acks)
    ensures SoundList(v, v.checkpoint.metadata.Decode().value, acks, proposal.metadata.Decode().value.blackList)
  {
    AcceptedExactly(v, env, proposal, prevCommits);
    var prevMD, list := v.checkpoint.metadata.Decode().value, proposal.metadata.Decode().value.blackList;
    acks :| && Attested(prevCommits, VerifiedAuxiliary(env, v.checkpoint), acks)
            && BlacklistUpdates.Follows(v.setup, Blacklist.Context(v.leaderId, prevMD, v.number, acks), list);
    FollowingIsSound(v, prevMD, acks, list);
  }
}
