/** What validating a new-view message establishes, in terms of the entries alone: which messages are valid, what
    makes a node synchronize or deliver, and that whatever it delivers was signed by a quorum. */
module NewViewChecks {
  import opened Messages
  import opened NewView
  import Quorum

  // ---- one entry ----

  /** An entry for this view that reports a decision of an earlier view. */
  ghost predicate Fresh(e: SignedViewData, currView: nat) {
    && e.data.Some? && e.data.value.nextView == currView && e.data.value.lastDecision.Some?
    && !e.data.value.lastDecision.value.metadata.Malformed?
    && (e.data.value.lastDecision.value.metadata.Encoded?
        ==> e.data.value.lastDecision.value.metadata.md.viewId < currView)
  }

  /** Its in-flight proposal, if any, is right after that decision. */
  ghost predicate FollowsUp(vd: ViewData) {
    vd.inFlightProposal.Some? ==>
      vd.inFlightProposal.value.metadata.Encoded? && vd.inFlightProposal.value.Sequence() == vd.LastSequence() + 1
  }

  /** An entry that says nothing new to a node with this checkpoint: strictly behind it, or level, signed and with the
      same decision. */
  ghost predicate Countable(e: SignedViewData, currView: nat, own: Proposal) {
    && Fresh(e, currView) && FollowsUp(e.data.value)
    && var last, mine := e.data.value.LastSequence(), own.Sequence();
       || last < mine
       || (last == mine && e.signed && (e.data.value.lastDecision.value.metadata.Encoded?
                                        ==> e.data.value.lastDecision.value == own))
  }

  /** The signers of at least one signature on p. */
  function Backing(sigs: seq<Signature>, p: Proposal): set<NodeId> {
    set k | 0 <= k < |sigs| && sigs[k].subject == p :: sigs[k].signer
  }

  /** A quorum signed p, and no signer has an earlier signature on something else. */
  ghost predicate SignedByQuorum(sigs: seq<Signature>, p: Proposal, quorum: nat) {
    && |Backing(sigs, p)| >= quorum
    && forall k :: 0 <= k < |sigs| && (forall j :: 0 <= j < k ==> sigs[j].signer != sigs[k].signer)
         ==> sigs[k].subject == p
  }

  /** The entry reports the decision right after the checkpoint, signed by a quorum. */
  ghost predicate Brings(e: SignedViewData, currView: nat, quorum: nat, own: Proposal, p: Proposal) {
    && Fresh(e, currView) && e.data.value.lastDecision == Some(p) && p.metadata.Encoded?
    && p.Sequence() == own.Sequence() + 1 && SignedByQuorum(e.data.value.lastDecisionSignatures, p, quorum)
  }

  /** The first entry of a signer that is not countable. */
  ghost predicate FirstProblem(entries: seq<SignedViewData>, currView: nat, own: Proposal, k: nat) {
    && k < |entries| && FirstEntry(entries, k) && !Countable(entries[k], currView, own)
    && forall j: nat :: j < k && FirstEntry(entries, j) ==> Countable(entries[j], currView, own)
  }

  lemma {:induction false} FirstOfSigner(sigs: seq<Signature>, k: nat) returns (j: nat)
    requires k < |sigs|
    ensures j <= k && sigs[j].signer == sigs[k].signer && sigs[j].signer !in SignersOf(sigs[..j])
  {
    if sigs[k].signer in SignersOf(sigs[..k]) {
      var i :| 0 <= i < k && sigs[i].signer == sigs[k].signer;
      j := FirstOfSigner(sigs, i);
    } else {
      j := k;
    }
  }

  lemma {:induction false} ProvesBacks(sigs: seq<Signature>, p: Proposal, quorum: nat)
    requires Proves(sigs, p, quorum)
    ensures SignedByQuorum(sigs, p, quorum)
  {
    forall x | x in SignersOf(sigs) ensures x in Backing(sigs, p) {
      var k :| 0 <= k < |sigs| && sigs[k].signer == x;
      var j := FirstOfSigner(sigs, k);
      assert sigs[j].subject == p;
    }
    assert SignersOf(sigs) == Backing(sigs, p);
  }

  lemma {:induction false} BacksProves(sigs: seq<Signature>, p: Proposal, quorum: nat)
    requires SignedByQuorum(sigs, p, quorum)
    ensures Proves(sigs, p, quorum)
  {
    Quorum.SubsetSize(Backing(sigs, p), SignersOf(sigs));
    forall k | 0 <= k < |sigs| && sigs[k].signer !in SignersOf(sigs[..k]) ensures sigs[k].subject == p {
      forall j | 0 <= j < k ensures sigs[j].signer != sigs[k].signer {
        assert sigs[..k][j] == sigs[j];
      }
    }
  }

  lemma {:induction false} CountsExactly(e: SignedViewData, currView: nat, quorum: nat, own: Proposal,
      stops: Proposal -> bool)
    ensures Inspect(e, currView, quorum, own, stops) == Counts <==> Countable(e, currView, own)
  {
  }

  lemma {:induction false} MissingExactly(e: SignedViewData, currView: nat, quorum: nat, own: Proposal,
      stops: Proposal -> bool, p: Proposal)
    ensures (exists rest :: Inspect(e, currView, quorum, own, stops) == Missing(p, rest))
            <==> Brings(e, currView, quorum, own, p)
    ensures Brings(e, currView, quorum, own, p) ==>
              Inspect(e, currView, quorum, own, stops) == Missing(p, !stops(p) && e.signed && FollowsUp(e.data.value))
  {
    if Fresh(e, currView) {
      var sigs := e.data.value.lastDecisionSignatures;
      if Proves(sigs, p, quorum) {
        ProvesBacks(sigs, p, quorum);
      }
      if SignedByQuorum(sigs, p, quorum) {
        BacksProves(sigs, p, quorum);
      }
    }
    if Brings(e, currView, quorum, own, p) {
      assert Inspect(e, currView, quorum, own, stops) == Missing(p, !stops(p) && e.signed && FollowsUp(e.data.value));
    }
  }

  lemma {:induction false} AheadExactly(e: SignedViewData, currView: nat, quorum: nat, own: Proposal,
      stops: Proposal -> bool)
    ensures Inspect(e, currView, quorum, own, stops) == Ahead
       <==> Fresh(e, currView) && e.data.value.LastSequence() > own.Sequence() + 1
  {
  }

  // ---- the whole message ----

  lemma {:induction false} CountableAreCounted(entries: seq<SignedViewData>, k: nat, valid: nat, currView: nat,
      quorum: nat, own: Proposal, stops: Proposal -> bool)
    requires k <= |entries|
    requires forall j: nat :: k <= j < |entries| && FirstEntry(entries, j) ==> Countable(entries[j], currView, own)
    ensures Validate(entries, k, valid, currView, quorum, own, stops)
            == Result(if valid + FirstEntries(entries, k) < quorum then Invalid else Valid, own)
    decreases |entries| - k
  {
    if k < |entries| {
      var valid' := if FirstEntry(entries, k) then valid + 1 else valid;
      CountsExactly(entries[k], currView, quorum, own, stops);
      CountableAreCounted(entries, k + 1, valid', currView, quorum, own, stops);
    }
  }

  /** What the first problem makes of the message. */
  ghost function Blamed(e: SignedViewData, currView: nat, quorum: nat, own: Proposal, stops: Proposal -> bool): Result {
    match Inspect(e, currView, quorum, own, stops)
    case Missing(p, rest) => Result(if rest then CalledDeliver else Invalid, p)
    case Ahead => Result(CalledSync, own)
    case _ => Result(Invalid, own)
  }

  lemma {:induction false} ProblemIsBlamed(entries: seq<SignedViewData>, k: nat, valid: nat, currView: nat, quorum: nat,
      own: Proposal, stops: Proposal -> bool, at: nat)
    requires k <= at && FirstProblem(entries, currView, own, at)
    ensures Validate(entries, k, valid, currView, quorum, own, stops)
            == Blamed(entries[at], currView, quorum, own, stops)
    decreases |entries| - k
  {
    CountsExactly(entries[k], currView, quorum, own, stops);
    if k < at {
      var valid' := if FirstEntry(entries, k) then valid + 1 else valid;
      ProblemIsBlamed(entries, k + 1, valid', currView, quorum, own, stops, at);
    }
  }

  lemma {:induction false} SomeProblemIsFirst(entries: seq<SignedViewData>, currView: nat, own: Proposal, k: nat)
    returns (at: nat)
    requires k < |entries| && FirstEntry(entries, k) && !Countable(entries[k], currView, own)
    ensures FirstProblem(entries, currView, own, at)
    decreases k
  {
    if j: nat :| j < k && FirstEntry(entries, j) && !Countable(entries[j], currView, own) {
      at := SomeProblemIsFirst(entries, currView, own, j);
    } else {
      at := k;
    }
  }

  lemma {:induction false} FirstEntriesAreSigners(entries: seq<SignedViewData>, k: nat)
    requires k <= |entries|
    ensures FirstEntries(entries, k) == |EntrySigners(entries)| - |EntrySigners(entries[..k])|
    decreases |entries| - k
  {
    if k == |entries| {
      assert entries[..k] == entries;
    } else {
      EntrySignersStep(entries, k);
      FirstEntriesAreSigners(entries, k + 1);
      var before := EntrySigners(entries[..k]);
      if FirstEntry(entries, k) {
        assert |before + {entries[k].signer}| == |before| + 1;
      } else {
        assert before + {entries[k].signer} == before;
      }
    }
  }

  /** A message is valid exactly when the first entries of all signers are countable and a quorum signed. */
  lemma {:induction false} ValidExactly(entries: seq<SignedViewData>, currView: nat, quorum: nat, own: Proposal,
      stops: Proposal -> bool)
    ensures Validate(entries, 0, 0, currView, quorum, own, stops).outcome == Valid
       <==> && |EntrySigners(entries)| >= quorum
            && forall k: nat :: k < |entries| && FirstEntry(entries, k) ==> Countable(entries[k], currView, own)
  {
    FirstEntriesAreSigners(entries, 0);
    assert entries[..0] == [] && EntrySigners([]) == {};
    if k: nat :| k < |entries| && FirstEntry(entries, k) && !Countable(entries[k], currView, own) {
      var at := SomeProblemIsFirst(entries, currView, own, k);
      ProblemIsBlamed(entries, 0, 0, currView, quorum, own, stops, at);
    } else {
      CountableAreCounted(entries, 0, 0, currView, quorum, own, stops);
    }
  }

  /** It calls for a synchronization exactly when the first problem is an entry more than one decision ahead, and for
      a delivery exactly when that is a signed entry with the next decision, signed by a quorum, and nothing else is
      wrong. */
  lemma {:induction false} CallsExactly(entries: seq<SignedViewData>, currView: nat, quorum: nat, own: Proposal,
      stops: Proposal -> bool)
    ensures var r := Validate(entries, 0, 0, currView, quorum, own, stops);
            && (r.outcome == CalledSync <==>
                  exists k: nat :: && FirstProblem(entries, currView, own, k) && Fresh(entries[k], currView)
                                   && entries[k].data.value.LastSequence() > own.Sequence() + 1)
            && (r.outcome == CalledDeliver <==>
                  exists k: nat, p ::
                    && FirstProblem(entries, currView, own, k) && Brings(entries[k], currView, quorum, own, p)
                    && entries[k].signed && FollowsUp(entries[k].data.value) && !stops(p))
            && (forall k: nat, p ::
                  FirstProblem(entries, currView, own, k) && Brings(entries[k], currView, quorum, own, p) ==>
                    r.checkpoint == p)
  {
    if k: nat :| k < |entries| && FirstEntry(entries, k) && !Countable(entries[k], currView, own) {
      var at := SomeProblemIsFirst(entries, currView, own, k);
      ProblemIsBlamed(entries, 0, 0, currView, quorum, own, stops, at);
      var e := entries[at];
      AheadExactly(e, currView, quorum, own, stops);
      forall p { MissingExactly(e, currView, quorum, own, stops, p); }
      forall j: nat | FirstProblem(entries, currView, own, j) ensures j == at {
        OneProblemIsFirst(entries, currView, own, j, at);
      }
    } else {
      CountableAreCounted(entries, 0, 0, currView, quorum, own, stops);
    }
  }

  lemma {:induction false} OneProblemIsFirst(entries: seq<SignedViewData>, currView: nat, own: Proposal, j: nat, k: nat)
    requires FirstProblem(entries, currView, own, j) && FirstProblem(entries, currView, own, k)
    ensures j == k
  {
  }

  // ---- what is delivered ----

  /** The decisions that processing a message delivers, in order. */
  ghost function Deliveries(entries: seq<SignedViewData>, currView: nat, quorum: nat, own: Proposal,
      stops: Proposal -> bool): seq<Proposal>
    decreases if MaxReported(entries) > own.Sequence() then MaxReported(entries) - own.Sequence() else 0
  {
    var r := Validate(entries, 0, 0, currView, quorum, own, stops);
    DeliveryMakesProgress(entries, 0, 0, currView, quorum, own, stops);
    if r.checkpoint == own then []
    else if r.outcome != CalledDeliver then [r.checkpoint]
    else [r.checkpoint] + Deliveries(entries, currView, quorum, r.checkpoint, stops)
  }

  /** An entry of the message carries p as its last decision, with the signatures of a quorum. */
  ghost predicate Carried(entries: seq<SignedViewData>, currView: nat, quorum: nat, p: Proposal, k: nat) {
    && k < |entries| && Fresh(entries[k], currView) && entries[k].data.value.lastDecision == Some(p)
    && p.metadata.Encoded?
    && SignedByQuorum(entries[k].data.value.lastDecisionSignatures, p, quorum)
  }

  lemma {:induction false} OneDelivery(entries: seq<SignedViewData>, currView: nat, quorum: nat, own: Proposal,
      stops: Proposal -> bool)
    returns (k: nat)
    requires Validate(entries, 0, 0, currView, quorum, own, stops).checkpoint != own
    ensures var p := Validate(entries, 0, 0, currView, quorum, own, stops).checkpoint;
            Carried(entries, currView, quorum, p, k) && p.Sequence() == own.Sequence() + 1
  {
    if j: nat :| j < |entries| && FirstEntry(entries, j) && !Countable(entries[j], currView, own) {
      k := SomeProblemIsFirst(entries, currView, own, j);
      ProblemIsBlamed(entries, 0, 0, currView, quorum, own, stops, k);
      MissingExactly(entries[k], currView, quorum, own, stops,
          Validate(entries, 0, 0, currView, quorum, own, stops).checkpoint);
    } else {
      CountableAreCounted(entries, 0, 0, currView, quorum, own, stops);
    }
  }

  /** Consecutive decisions after the checkpoint, each carried by some entry. */
  ghost predicate AllCarried(entries: seq<SignedViewData>, currView: nat, quorum: nat, own: Proposal,
      ds: seq<Proposal>) {
    forall j :: 0 <= j < |ds| ==>
      ds[j].Sequence() == own.Sequence() + 1 + j && exists k: nat :: Carried(entries, currView, quorum, ds[j], k)
  }

  lemma {:induction false} AllCarriedCons(entries: seq<SignedViewData>, currView: nat, quorum: nat, own: Proposal,
      p: Proposal, k: nat, ds: seq<Proposal>)
    requires Carried(entries, currView, quorum, p, k) && p.Sequence() == own.Sequence() + 1
    requires AllCarried(entries, currView, quorum, p, ds)
    ensures AllCarried(entries, currView, quorum, own, [p] + ds)
  {
    var all := [p] + ds;
    forall j | 0 <= j < |all|
      ensures all[j].Sequence() == own.Sequence() + 1 + j
              && exists i: nat :: Carried(entries, currView, quorum, all[j], i)
    {
      if j > 0 {
        assert all[j] == ds[j - 1];
      }
    }
  }

  /** Whatever a message makes a node deliver, one decision after the other: an entry of the message carries it, and a
      quorum of distinct nodes has signed it. The node ends at the last of them. */
  lemma {:induction false} DeliveriesAreSigned(entries: seq<SignedViewData>, currView: nat, quorum: nat, own: Proposal,
      stops: Proposal -> bool)
    ensures var ds := Deliveries(entries, currView, quorum, own, stops);
            && AllCarried(entries, currView, quorum, own, ds)
            && DeliverAll(entries, currView, quorum, own, stops).checkpoint == (if ds == [] then own else ds[|ds| - 1])
    decreases if MaxReported(entries) > own.Sequence() then MaxReported(entries) - own.Sequence() else 0
  {
    var r := Validate(entries, 0, 0, currView, quorum, own, stops);
    DeliveryMakesProgress(entries, 0, 0, currView, quorum, own, stops);
    if r.checkpoint != own {
      var k := OneDelivery(entries, currView, quorum, own, stops);
      AllCarriedCons(entries, currView, quorum, own, r.checkpoint, k, []);
      if r.outcome == CalledDeliver {
        DeliveriesAreSigned(entries, currView, quorum, r.checkpoint, stops);
        AllCarriedCons(entries, currView, quorum, own, r.checkpoint, k,
                       Deliveries(entries, currView, quorum, r.checkpoint, stops));
      }
    }
  }

  /** So a checkpoint that moved was signed by a quorum. */
  lemma {:induction false} NewCheckpointIsSigned(entries: seq<SignedViewData>, currView: nat, quorum: nat,
      own: Proposal, stops: Proposal -> bool)
    returns (k: nat)
    requires DeliverAll(entries, currView, quorum, own, stops).checkpoint != own
    ensures Carried(entries, currView, quorum, DeliverAll(entries, currView, quorum, own, stops).checkpoint, k)
  {
    DeliveriesAreSigned(entries, currView, quorum, own, stops);
    var ds := Deliveries(entries, currView, quorum, own, stops);
    k :| Carried(entries, currView, quorum, ds[|ds| - 1], k);
  }

  // ---- the in-flight proposal ----

  /** What becomes of an agreed proposal depends on where the node is: at the latest reported decision it commits the
      proposal, right past it it has decided there already and checks that it was this one, anywhere else it panics; a
      node without any decision commits it. */
  lemma {:induction false} SettlesByPosition(entries: seq<SignedViewData>, f: nat, quorum: nat, own: Proposal,
      p: Proposal)
    requires AllDecode(entries) && InFlight.Answer(Extract(entries), f, quorum) == InFlight.Agreed(p)
    ensures Conclude(entries, f, quorum, own)
            == if own.metadata.Absent? || own.Sequence() == MaxReported(entries) then Settle(CommitNow(p))
               else if own.Sequence() != MaxReported(entries) + 1 then Settle(PanicMismatch)
               else if own == p then Settle(AlreadyDecided)
               else Settle(Refuse)
  {
    MaxOfExtracted(entries);
  }
}
