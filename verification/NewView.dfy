/** Installing a new view: validation of the leader's new-view message, the loop that delivers missing decisions from
    it, and the sequence check before an in-flight proposal is committed. */
module NewView {
  import opened Messages
  import InFlight
  import Quorum

  /** A signed view data entry: None if the raw bytes do not decode; signed if its signature verifies. */
  datatype SignedViewData = SignedViewData(signer: NodeId, data: Option<ViewData>, signed: bool)

  // ---- the last decision and its proof ----

  function SignersOf(sigs: seq<Signature>): set<NodeId> {
    set k | 0 <= k < |sigs| :: sigs[k].signer
  }

  /** Signatures by a quorum of distinct nodes; of each node the first signature counts and must be on p. */
  ghost predicate Proves(sigs: seq<Signature>, p: Proposal, quorum: nat) {
    && |SignersOf(sigs)| >= quorum
    && forall k :: 0 <= k < |sigs| && sigs[k].signer !in SignersOf(sigs[..k]) ==> sigs[k].subject == p
  }

  /** When ValidateLastDecision finds no fault. */
  ghost predicate ValidLastDecision(vd: ViewData, quorum: nat) {
    && vd.lastDecision.Some?
    && match vd.lastDecision.value.metadata
       case Absent => true
       case Malformed => false
       case Encoded(md) => md.viewId < vd.nextView && Proves(vd.lastDecisionSignatures, vd.lastDecision.value, quorum)
  }

  lemma {:induction false} FewerSigners(sigs: seq<Signature>)
    ensures |SignersOf(sigs)| <= |sigs|
  {
    if sigs == [] {
      assert SignersOf(sigs) == {};
    } else {
      FewerSigners(sigs[..|sigs| - 1]);
      SignersStep(sigs, |sigs| - 1);
      assert sigs[..|sigs|] == sigs;
    }
  }

  lemma {:induction false} SignersStep(sigs: seq<Signature>, k: nat)
    requires k < |sigs|
    ensures SignersOf(sigs[..k + 1]) == SignersOf(sigs[..k]) + {sigs[k].signer}
  {
  }

  method CountSignatures(sigs: seq<Signature>, p: Proposal) returns (validSig: nat, bad: bool)
    ensures bad <==> exists k :: 0 <= k < |sigs| && sigs[k].signer !in SignersOf(sigs[..k]) && sigs[k].subject != p
    ensures !bad ==> validSig == |SignersOf(sigs)|
  {
    var nodesMap: set<NodeId> := {};
    validSig, bad := 0, false;
    for i := 0 to |sigs|
      invariant nodesMap == SignersOf(sigs[..i]) && validSig == |nodesMap| && !bad
      invariant forall k :: 0 <= k < i && sigs[k].signer !in SignersOf(sigs[..k]) ==> sigs[k].subject == p
    {
      SignersStep(sigs, i);
      if sigs[i].signer in nodesMap {
        continue;
      }
      nodesMap := nodesMap + {sigs[i].signer};
      if sigs[i].subject != p {
        return 0, true;
      }
      validSig := validSig + 1;
    }
    assert sigs[..|sigs|] == sigs;
  }

  /** ValidateLastDecision: the sequence of the last decision if it is proved, else an error. */
  method ValidateLastDecision(vd: ViewData, quorum: nat) returns (r: Option<nat>)
    ensures r.Some? <==> ValidLastDecision(vd, quorum)
    ensures r.Some? ==> r.value == vd.LastSequence()
  {
    if vd.lastDecision.None? {
      return None;
    }
    var last := vd.lastDecision.value;
    if last.metadata.Absent? {
      return Some(0);
    }
    if last.metadata.Malformed? || last.metadata.md.viewId >= vd.nextView {
      return None;
    }
    var numSigs := |vd.lastDecisionSignatures|;
    FewerSigners(vd.lastDecisionSignatures);
    if numSigs < quorum {
      return None;
    }
    var validSig, bad := CountSignatures(vd.lastDecisionSignatures, last);
    if bad || validSig < quorum {
      return None;
    }
    return Some(last.metadata.md.latestSequence);
  }

  predicate ValidInFlight(p: Option<Proposal>, lastSequence: nat) {
    p.Some? ==> p.value.metadata.Encoded? && p.value.metadata.md.latestSequence == lastSequence + 1
  }

  // ---- one entry of the new-view message ----

  datatype Finding =
    | Bad                 // the message is invalid
    | Ahead               // a decision too far in the future: synchronize
    | Counts              // one more valid entry
    | Missing(p: Proposal, rest: bool)   // the next decision, delivered, and whether the other checks pass

  /** What validateNewViewMsg makes of one entry, for a node whose checkpoint is own; stops(p): delivering p stops the
      node. */
  ghost function Inspect(e: SignedViewData, currView: nat, quorum: nat, own: Proposal,
      stops: Proposal -> bool): Finding {
    if e.data.None? || e.data.value.nextView != currView || e.data.value.lastDecision.None? then Bad
    else
      var vd, mine := e.data.value, own.Sequence();
      match vd.lastDecision.value.metadata
      case Malformed => Bad
      case Absent =>
        if (mine > 0 || e.signed) && ValidInFlight(vd.inFlightProposal, 0) then Counts else Bad
      case Encoded(md) =>
        if md.viewId >= vd.nextView then Bad
        else if md.latestSequence > mine + 1 then Ahead
        else if md.latestSequence < mine then
          if ValidInFlight(vd.inFlightProposal, md.latestSequence) then Counts else Bad
        else if md.latestSequence == mine then
          if e.signed && vd.lastDecision.value == own && ValidInFlight(vd.inFlightProposal, mine) then Counts else Bad
        else if !ValidLastDecision(vd, quorum) then Bad
        else Missing(vd.lastDecision.value,
                     !stops(vd.lastDecision.value) && e.signed && ValidInFlight(vd.inFlightProposal, md.latestSequence))
  }

  datatype Outcome = Invalid | CalledSync | CalledDeliver | Valid

  datatype Result = Result(outcome: Outcome, checkpoint: Proposal)

  function EntrySigners(entries: seq<SignedViewData>): set<NodeId> {
    set k | 0 <= k < |entries| :: entries[k].signer
  }

  ghost predicate FirstEntry(entries: seq<SignedViewData>, k: nat)
    requires k < |entries|
  {
    entries[k].signer !in EntrySigners(entries[..k])
  }

  /** validateNewViewMsg from entry k on, with `valid` entries counted before it. */
  ghost function Validate(entries: seq<SignedViewData>, k: nat, valid: nat, currView: nat, quorum: nat,
      own: Proposal, stops: Proposal -> bool): Result
    requires k <= |entries|
    decreases |entries| - k
  {
    if k == |entries| then Result(if valid < quorum then Invalid else Valid, own)
    else if !FirstEntry(entries, k) then Validate(entries, k + 1, valid, currView, quorum, own, stops)
    else
      match Inspect(entries[k], currView, quorum, own, stops)
      case Bad => Result(Invalid, own)
      case Ahead => Result(CalledSync, own)
      case Counts => Validate(entries, k + 1, valid + 1, currView, quorum, own, stops)
      case Missing(p, rest) => Result(if rest then CalledDeliver else Invalid, p)
  }

  /** The latest last decision any entry reports. */
  function MaxReported(entries: seq<SignedViewData>): (max: nat)
    ensures forall k :: 0 <= k < |entries| && entries[k].data.Some? ==> entries[k].data.value.LastSequence() <= max
  {
    if entries == [] then 0
    else
      var before, last := MaxReported(entries[..|entries| - 1]), entries[|entries| - 1];
      if last.data.Some? && last.data.value.LastSequence() > before then last.data.value.LastSequence() else before
  }

  // ---- the methods of the source, on the shared checkpoint ----

  class Checkpoint {
    var proposal: Proposal

    constructor (p: Proposal)
      ensures proposal == p
    {
      proposal := p;
    }
  }

  /** One entry; delivering its last decision moves the checkpoint. */
  method InspectEntry(e: SignedViewData, currView: nat, quorum: nat, checkpoint: Checkpoint, stops: Proposal -> bool)
    returns (finding: Finding)
    modifies checkpoint
    ensures finding == Inspect(e, currView, quorum, old(checkpoint.proposal), stops)
    ensures checkpoint.proposal == if finding.Missing? then finding.p else old(checkpoint.proposal)
  {
    var own := checkpoint.proposal;
    var mySequence := if own.metadata.Encoded? then own.metadata.md.latestSequence else 0;
    if e.data.None? {
      return Bad;
    }
    var vd := e.data.value;
    if vd.nextView != currView {
      return Bad;
    }
    if vd.lastDecision.None? {
      return Bad;
    }
    var last := vd.lastDecision.value;
    if last.metadata.Absent? {
      if mySequence > 0 {
        return if ValidInFlight(vd.inFlightProposal, 0) then Counts else Bad;
      }
      if !e.signed {
        return Bad;
      }
      return if ValidInFlight(vd.inFlightProposal, 0) then Counts else Bad;
    }
    if last.metadata.Malformed? {
      return Bad;
    }
    var md := last.metadata.md;
    if md.viewId >= vd.nextView {
      return Bad;
    }
    if md.latestSequence > mySequence + 1 {
      return Ahead;
    }
    if md.latestSequence < mySequence {
      return if ValidInFlight(vd.inFlightProposal, md.latestSequence) then Counts else Bad;
    }
    if md.latestSequence == mySequence {
      if !e.signed {
        return Bad;
      }
      if last != own {
        return Bad;
      }
      return if ValidInFlight(vd.inFlightProposal, md.latestSequence) then Counts else Bad;
    }
    var lastSequence := ValidateLastDecision(vd, quorum);
    if lastSequence.None? {
      return Bad;
    }
    checkpoint.proposal := last;
    return Missing(last, !stops(last) && e.signed && ValidInFlight(vd.inFlightProposal, md.latestSequence));
  }

  lemma {:induction false} EntrySignersStep(entries: seq<SignedViewData>, k: nat)
    requires k < |entries|
    ensures EntrySigners(entries[..k + 1]) == EntrySigners(entries[..k]) + {entries[k].signer}
  {
  }

  method ValidateNewViewMsg(entries: seq<SignedViewData>, currView: nat, quorum: nat, checkpoint: Checkpoint,
      stops: Proposal -> bool)
    returns (outcome: Outcome)
    modifies checkpoint
    ensures Result(outcome, checkpoint.proposal)
            == Validate(entries, 0, 0, currView, quorum, old(checkpoint.proposal), stops)
  {
    var nodesMap: set<NodeId> := {};
    var validViewDataMsgs := 0;
    var k := 0;
    while k < |entries|
      invariant k <= |entries| && nodesMap == EntrySigners(entries[..k])
      invariant checkpoint.proposal == old(checkpoint.proposal)
      invariant Validate(entries, 0, 0, currView, quorum, checkpoint.proposal, stops)
                == Validate(entries, k, validViewDataMsgs, currView, quorum, checkpoint.proposal, stops)
      decreases |entries| - k
    {
      EntrySignersStep(entries, k);
      if entries[k].signer in nodesMap {
        k := k + 1;
        continue;
      }
      nodesMap := nodesMap + {entries[k].signer};
      var finding := InspectEntry(entries[k], currView, quorum, checkpoint, stops);
      match finding {
        case Bad => return Invalid;
        case Ahead => return CalledSync;
        case Counts => validViewDataMsgs := validViewDataMsgs + 1;
        case Missing(_, rest) => return if rest then CalledDeliver else Invalid;
      }
      k := k + 1;
    }
    if validViewDataMsgs < quorum {
      return Invalid;
    }
    return Valid;
  }

  // ---- delivering until the message is valid ----

  /** A delivery takes the node's own sequence one step toward the latest reported one. */
  lemma {:induction false} DeliveryMakesProgress(entries: seq<SignedViewData>, k: nat, valid: nat, currView: nat,
      quorum: nat, own: Proposal, stops: Proposal -> bool)
    requires k <= |entries|
    ensures var r := Validate(entries, k, valid, currView, quorum, own, stops);
            || r.checkpoint == own
            || (r.checkpoint.metadata.Encoded? && r.checkpoint.Sequence() == own.Sequence() + 1 <= MaxReported(entries))
    ensures var r := Validate(entries, k, valid, currView, quorum, own, stops);
            r.outcome == CalledDeliver ==> r.checkpoint != own
    ensures var r := Validate(entries, k, valid, currView, quorum, own, stops);
            r.outcome == Valid ==> r.checkpoint == own
    decreases |entries| - k
  {
    if k < |entries| {
      if !FirstEntry(entries, k) {
        DeliveryMakesProgress(entries, k + 1, valid, currView, quorum, own, stops);
      } else if Inspect(entries[k], currView, quorum, own, stops).Counts? {
        DeliveryMakesProgress(entries, k + 1, valid + 1, currView, quorum, own, stops);
      }
    }
  }

  /** An entry that was counted: readable, not ahead of the node, and signed unless it is strictly behind the node. */
  ghost predicate Settled(e: SignedViewData, mine: nat) {
    && e.data.Some?
    && InFlight.ReadableDecision(e.data.value) && InFlight.ReadableInFlight(e.data.value)
    && e.data.value.LastSequence() <= mine
    && (e.signed || e.data.value.LastSequence() < mine)
  }

  ghost function FirstEntries(entries: seq<SignedViewData>, k: nat): nat
    requires k <= |entries|
    decreases |entries| - k
  {
    if k == |entries| then 0 else FirstEntries(entries, k + 1) + (if FirstEntry(entries, k) then 1 else 0)
  }

  /** A message found valid has a quorum of entries by distinct signers, each settled. */
  lemma {:induction false} ValidMeansSettled(entries: seq<SignedViewData>, k: nat, valid: nat, currView: nat,
      quorum: nat, own: Proposal, stops: Proposal -> bool)
    requires k <= |entries| && Validate(entries, k, valid, currView, quorum, own, stops).outcome == Valid
    ensures valid + FirstEntries(entries, k) >= quorum
    ensures forall j :: k <= j < |entries| && FirstEntry(entries, j) ==> Settled(entries[j], own.Sequence())
    decreases |entries| - k
  {
    if k < |entries| {
      var valid' := if FirstEntry(entries, k) then valid + 1 else valid;
      ValidMeansSettled(entries, k + 1, valid', currView, quorum, own, stops);
    }
  }

  /** The entry at k reports a decision before the given sequence. */
  ghost predicate BehindAt(entries: seq<SignedViewData>, k: nat, mine: nat) {
    k < |entries| && entries[k].data.Some? && entries[k].data.value.LastSequence() < mine
  }

  function Unsigned(entries: seq<SignedViewData>, j: nat): seq<SignedViewData>
    requires j < |entries|
  {
    entries[j := entries[j].(signed := false)]
  }

  lemma {:induction false} UnsignedHasSameSigners(entries: seq<SignedViewData>, j: nat, k: nat)
    requires j < |entries| && k < |entries|
    ensures FirstEntry(Unsigned(entries, j), k) <==> FirstEntry(entries, k)
  {
    var entries' := Unsigned(entries, j);
    assert forall i :: 0 <= i < k ==> entries'[..k][i].signer == entries[..k][i].signer;
  }

  lemma {:induction false} UnsignedFrom(entries: seq<SignedViewData>, j: nat, k: nat, valid: nat, currView: nat,
      quorum: nat, own: Proposal, stops: Proposal -> bool)
    requires j < |entries| && k <= |entries|
    requires Validate(entries, k, valid, currView, quorum, own, stops).outcome == Valid
    ensures Validate(Unsigned(entries, j), k, valid, currView, quorum, own, stops).outcome == Valid
       <==> j < k || !FirstEntry(entries, j) || BehindAt(entries, j, own.Sequence())
    decreases |entries| - k
  {
    if k < |entries| {
      UnsignedHasSameSigners(entries, j, k);
      var valid' := if FirstEntry(entries, k) then valid + 1 else valid;
      UnsignedFrom(entries, j, k + 1, valid', currView, quorum, own, stops);
    }
  }

  /** What a valid message says about signatures: without the signature of one entry it is still valid exactly when the
      entry repeats a signer, or is strictly behind the node. */
  lemma {:induction false} SignatureMattersExactlyWhenLevel(entries: seq<SignedViewData>, j: nat, currView: nat,
      quorum: nat, own: Proposal, stops: Proposal -> bool)
    requires j < |entries| && Validate(entries, 0, 0, currView, quorum, own, stops).outcome == Valid
    ensures Validate(Unsigned(entries, j), 0, 0, currView, quorum, own, stops).outcome == Valid
       <==> !FirstEntry(entries, j) || BehindAt(entries, j, own.Sequence())
  {
    UnsignedFrom(entries, j, 0, 0, currView, quorum, own, stops);
  }

  /** processNewViewMsg up to the in-flight check: validate again after every delivery. */
  ghost function DeliverAll(entries: seq<SignedViewData>, currView: nat, quorum: nat, own: Proposal,
      stops: Proposal -> bool): Result
    decreases if MaxReported(entries) > own.Sequence() then MaxReported(entries) - own.Sequence() else 0
  {
    var r := Validate(entries, 0, 0, currView, quorum, own, stops);
    DeliveryMakesProgress(entries, 0, 0, currView, quorum, own, stops);
    if r.outcome == CalledDeliver then DeliverAll(entries, currView, quorum, r.checkpoint, stops) else r
  }

  /** It ends with the message rejected, a synchronization requested, or the message valid; the node's own sequence only
      rises, and never past the latest reported one. */
  lemma {:induction false} DeliverAllSettles(entries: seq<SignedViewData>, currView: nat, quorum: nat, own: Proposal,
      stops: Proposal -> bool)
    ensures var r := DeliverAll(entries, currView, quorum, own, stops);
            && r.outcome != CalledDeliver
            && r.checkpoint.Sequence() >= own.Sequence()
            && (r.checkpoint == own || (r.checkpoint.metadata.Encoded?
                                        && r.checkpoint.Sequence() <= MaxReported(entries)))
            && (r.outcome == Valid ==>
                  && FirstEntries(entries, 0) >= quorum
                  && forall k :: 0 <= k < |entries| && FirstEntry(entries, k)
                       ==> Settled(entries[k], r.checkpoint.Sequence()))
    decreases if MaxReported(entries) > own.Sequence() then MaxReported(entries) - own.Sequence() else 0
  {
    var r := Validate(entries, 0, 0, currView, quorum, own, stops);
    DeliveryMakesProgress(entries, 0, 0, currView, quorum, own, stops);
    if r.outcome == CalledDeliver {
      DeliverAllSettles(entries, currView, quorum, r.checkpoint, stops);
    } else if r.outcome == Valid {
      ValidMeansSettled(entries, 0, 0, currView, quorum, own, stops);
    }
  }

  // ---- the in-flight proposal ----

  datatype Commitment = Refuse | AlreadyDecided | CommitNow(p: Proposal) | PanicMismatch

  /** The sequence check at the head of commitInFlightProposal. */
  function CheckSequence(own: Proposal, p: Proposal): Commitment {
    if own.metadata.Absent? then CommitNow(p)
    else if own.Sequence() == p.Sequence() then
      if own == p then AlreadyDecided else Refuse
    else if own.Sequence() + 1 != p.Sequence() then PanicMismatch
    else CommitNow(p)
  }

  datatype Installation =
    | NotInstalled
    | Panicked
    | NothingInFlight                 // start the view right away
    | Settle(c: Commitment)           // settle the in-flight proposal first

  predicate AllDecode(entries: seq<SignedViewData>) {
    forall k :: 0 <= k < |entries| ==> entries[k].data.Some?
  }

  /** extractViewDataMessages: every entry, repeated signers included. */
  function Extract(entries: seq<SignedViewData>): seq<ViewData>
    requires AllDecode(entries)
  {
    seq(|entries|, k requires 0 <= k < |entries| => entries[k].data.value)
  }

  /** What becomes of a valid message: the in-flight check over all its entries, then the sequence check. */
  function Conclude(entries: seq<SignedViewData>, f: nat, quorum: nat, own: Proposal): Installation {
    if !AllDecode(entries) then Panicked
    else
      match InFlight.Answer(Extract(entries), f, quorum)
      case Panic => Panicked
      case Error => Panicked
      case NotOk => NotInstalled
      case NoInFlight => NothingInFlight
      case Agreed(p) => Settle(CheckSequence(own, p))
  }

  method ProcessNewViewMsg(entries: seq<SignedViewData>, currView: nat, f: nat, quorum: nat, checkpoint: Checkpoint,
      stops: Proposal -> bool)
    returns (r: Installation)
    modifies checkpoint
    ensures var d := DeliverAll(entries, currView, quorum, old(checkpoint.proposal), stops);
            && checkpoint.proposal == d.checkpoint
            && r == if d.outcome == Valid then Conclude(entries, f, quorum, d.checkpoint) else NotInstalled
  {
    ghost var start := checkpoint.proposal;
    ghost var before := start;
    var outcome := ValidateNewViewMsg(entries, currView, quorum, checkpoint, stops);
    while outcome == CalledDeliver
      invariant Validate(entries, 0, 0, currView, quorum, before, stops) == Result(outcome, checkpoint.proposal)
      invariant DeliverAll(entries, currView, quorum, start, stops)
                == DeliverAll(entries, currView, quorum, before, stops)
      decreases MaxReported(entries) - before.Sequence()
    {
      DeliveryMakesProgress(entries, 0, 0, currView, quorum, before, stops);
      before := checkpoint.proposal;
      outcome := ValidateNewViewMsg(entries, currView, quorum, checkpoint, stops);
    }
    if outcome != Valid {
      return NotInstalled;
    }
    DeliveryMakesProgress(entries, 0, 0, currView, quorum, before, stops);
    if exists k :: 0 <= k < |entries| && entries[k].data.None? {
      return Panicked;
    }
    var answer := InFlight.CheckInFlight(Extract(entries), f, quorum);
    match answer {
      case Panic => return Panicked;
      case Error => return Panicked;
      case NotOk => return NotInstalled;
      case NoInFlight => return NothingInFlight;
      case Agreed(p) => return Settle(CheckSequence(checkpoint.proposal, p));
    }
  }

  // ---- the panic on a mismatched sequence ----

  ghost predicate OnePerSigner(entries: seq<SignedViewData>) {
    forall j, k :: 0 <= j < k < |entries| ==> entries[j].signer != entries[k].signer
  }

  lemma {:induction false} SettledBound(entries: seq<SignedViewData>, mine: nat)
    requires forall k :: 0 <= k < |entries| ==> Settled(entries[k], mine)
    ensures MaxReported(entries) <= mine
  {
    if entries != [] {
      SettledBound(entries[..|entries| - 1], mine);
    }
  }

  lemma {:induction false} MaxOfExtracted(entries: seq<SignedViewData>)
    requires AllDecode(entries)
    ensures InFlight.MaxLastSequence(Extract(entries)) == MaxReported(entries)
  {
    if entries != [] {
      var init := entries[..|entries| - 1];
      MaxOfExtracted(init);
      assert Extract(entries)[..|entries| - 1] == Extract(init);
    }
  }

  lemma {:induction false} AllSettled(entries: seq<SignedViewData>, currView: nat, quorum: nat, own: Proposal,
      stops: Proposal -> bool)
    requires OnePerSigner(entries) && DeliverAll(entries, currView, quorum, own, stops).outcome == Valid
    ensures var now := DeliverAll(entries, currView, quorum, own, stops).checkpoint;
            forall k :: 0 <= k < |entries| ==> Settled(entries[k], now.Sequence())
  {
    DeliverAllSettles(entries, currView, quorum, own, stops);
    forall k | 0 <= k < |entries| ensures FirstEntry(entries, k) {
    }
  }

  lemma {:induction false} AllReadable(entries: seq<SignedViewData>, mine: nat)
    requires forall k :: 0 <= k < |entries| ==> Settled(entries[k], mine)
    ensures AllDecode(entries)
    ensures forall k :: 0 <= k < |entries| ==>
              InFlight.ReadableDecision(Extract(entries)[k]) && InFlight.ReadableInFlight(Extract(entries)[k])
  {
    forall k | 0 <= k < |entries|
      ensures entries[k].data.Some?
      ensures InFlight.ReadableDecision(entries[k].data.value) && InFlight.ReadableInFlight(entries[k].data.value)
    {
      assert Settled(entries[k], mine);
    }
  }

  /** With one entry per signer a message found valid leaves the node at the latest reported sequence or past it, the
      in-flight check never panics, and the sequence check panics exactly when a proposal was agreed on and the node was
      more than one decision ahead of all entries from the start. */
  lemma {:induction false} PanicsExactlyWhenPast(entries: seq<SignedViewData>, currView: nat, f: nat, quorum: nat,
      own: Proposal, stops: Proposal -> bool)
    requires OnePerSigner(entries) && !own.metadata.Malformed?
    requires DeliverAll(entries, currView, quorum, own, stops).outcome == Valid
    ensures var now := DeliverAll(entries, currView, quorum, own, stops).checkpoint;
            && AllDecode(entries) && MaxReported(entries) <= now.Sequence() && !now.metadata.Malformed?
            && Conclude(entries, f, quorum, now) != Panicked
            && (Conclude(entries, f, quorum, now) == Settle(PanicMismatch)
                <==> InFlight.Answer(Extract(entries), f, quorum).Agreed? && own.Sequence() > MaxReported(entries) + 1)
  {
    var now := DeliverAll(entries, currView, quorum, own, stops).checkpoint;
    DeliverAllSettles(entries, currView, quorum, own, stops);
    AllSettled(entries, currView, quorum, own, stops);
    SettledBound(entries, now.Sequence());
    AllReadable(entries, now.Sequence());
    MaxOfExtracted(entries);
  }

  /** Hence a node at most one decision ahead of all entries never panics, and ends at the latest reported sequence or
      one past it. */
  lemma {:induction false} InstallationNeverPanics(entries: seq<SignedViewData>, currView: nat, f: nat, quorum: nat,
      own: Proposal, stops: Proposal -> bool)
    requires OnePerSigner(entries) && own.Sequence() <= MaxReported(entries) + 1 && !own.metadata.Malformed?
    requires DeliverAll(entries, currView, quorum, own, stops).outcome == Valid
    ensures var now := DeliverAll(entries, currView, quorum, own, stops).checkpoint;
            && MaxReported(entries) <= now.Sequence() <= MaxReported(entries) + 1
            && Conclude(entries, f, quorum, now) !in {Panicked, Settle(PanicMismatch)}
  {
    PanicsExactlyWhenPast(entries, currView, f, quorum, own, stops);
    DeliverAllSettles(entries, currView, quorum, own, stops);
  }

  /** In general the sequence check panics exactly when the node is behind some entry, or more than one ahead of all. */
  lemma {:induction false} PanicsExactlyWhenApart(entries: seq<SignedViewData>, f: nat, quorum: nat, own: Proposal,
      p: Proposal)
    requires AllDecode(entries) && InFlight.Answer(Extract(entries), f, quorum) == InFlight.Agreed(p)
             && own.metadata.Encoded?
    ensures Conclude(entries, f, quorum, own) == Settle(PanicMismatch)
       <==> own.Sequence() < MaxReported(entries) || own.Sequence() > MaxReported(entries) + 1
  {
    MaxOfExtracted(entries);
  }

  lemma {:induction false} MaxIsReported(entries: seq<SignedViewData>) returns (k: nat)
    requires MaxReported(entries) > 0
    ensures k < |entries| && entries[k].data.Some? && entries[k].data.value.LastSequence() == MaxReported(entries)
  {
    var n := |entries| - 1;
    if entries[n].data.Some? && entries[n].data.value.LastSequence() == MaxReported(entries) {
      k := n;
    } else {
      k := MaxIsReported(entries[..n]);
    }
  }

  /** After a valid exit the node is behind some entry exactly when a repeated signer reports a decision it does not
      have; no first entry of a signer does. */
  lemma {:induction false} OnlyRepeatsAreAhead(entries: seq<SignedViewData>, currView: nat, quorum: nat, own: Proposal,
      stops: Proposal -> bool)
    requires DeliverAll(entries, currView, quorum, own, stops).outcome == Valid
    ensures var mine := DeliverAll(entries, currView, quorum, own, stops).checkpoint.Sequence();
            && (mine < MaxReported(entries) <==> exists k :: AheadAt(entries, k, mine))
            && (forall k :: AheadAt(entries, k, mine) ==> !FirstEntry(entries, k))
  {
    var mine := DeliverAll(entries, currView, quorum, own, stops).checkpoint.Sequence();
    DeliverAllSettles(entries, currView, quorum, own, stops);
    if mine < MaxReported(entries) {
      var k := MaxIsReported(entries);
      assert AheadAt(entries, k, mine);
    }
  }

  /** The entry at k reports a decision past the given sequence. */
  ghost predicate AheadAt(entries: seq<SignedViewData>, k: nat, mine: nat) {
    k < |entries| && entries[k].data.Some? && entries[k].data.value.LastSequence() > mine
  }

  function At(view: nat, sequence: nat, header: Bytes): Proposal {
    Proposal(header, [], Encoded(ViewMetadata(view, sequence, 0, [], [])), 0)
  }

  /** View data of a node at the first decision with nothing in flight, and of one that claims to be far ahead. */
  const LEVEL := ViewData(1, Some(At(0, 1, [])), [], None, false)
  const AHEAD := ViewData(1, Some(At(0, 5, [])), [], Some(At(0, 6, [])), true)

  /** A new-view message to a cluster of four: three nodes in step, and two unsigned repeats in the name of the
      first. */
  const REPEATED := [SignedViewData(1, Some(LEVEL), true), SignedViewData(2, Some(LEVEL), true),
                     SignedViewData(3, Some(LEVEL), true),
                     SignedViewData(1, Some(AHEAD), false), SignedViewData(1, Some(AHEAD), false)]

  lemma {:induction false} RepeatsAreSkipped(stops: Proposal -> bool)
    ensures Validate(REPEATED, 0, 0, 1, 3, At(0, 1, []), stops) == Result(Valid, At(0, 1, []))
  {
    var own := At(0, 1, []);
    assert REPEATED[..3][0].signer == 1 && REPEATED[..4][0].signer == 1;
    assert !FirstEntry(REPEATED, 3) && !FirstEntry(REPEATED, 4);
    assert FirstEntry(REPEATED, 0) && FirstEntry(REPEATED, 1) && FirstEntry(REPEATED, 2);
    assert forall k :: 0 <= k < 3 ==> Inspect(REPEATED[k], 1, 3, own, stops) == Counts;
    assert Validate(REPEATED, 3, 3, 1, 3, own, stops) == Result(Valid, own) by {
      assert Validate(REPEATED, 4, 3, 1, 3, own, stops) == Result(Valid, own);
    }
    assert Validate(REPEATED, 1, 1, 1, 3, own, stops) == Validate(REPEATED, 2, 2, 1, 3, own, stops)
           == Validate(REPEATED, 3, 3, 1, 3, own, stops);
  }

  /** Reports that are level say nothing about a later proposal, and do not argue against it. */
  lemma {:induction false} LevelReports(n: nat, p: Proposal)
    ensures var level := seq(n, _ => LEVEL);
            && InFlight.MaxLastSequence(level) <= 1
            && InFlight.PossibleProposals(level, 6) == []
            && InFlight.Count(level, InFlight.DoesNotArgue(p), 6) == n
  {
    if n > 0 {
      var level := seq(n, _ => LEVEL);
      assert level[..n - 1] == seq(n - 1, _ => LEVEL);
      LevelReports(n - 1, p);
    }
  }

  /** What one more report from ahead adds. */
  lemma {:induction false} OneMoreAhead(messages: seq<ViewData>)
    ensures var more, p := messages + [AHEAD], At(0, 6, []);
            && InFlight.MaxLastSequence(more) == (if InFlight.MaxLastSequence(messages) < 5 then 5
                                                  else InFlight.MaxLastSequence(messages))
            && InFlight.PossibleProposals(more, 6)
               == InFlight.PossibleProposals(messages, 6)
                   + (if p in InFlight.PossibleProposals(messages, 6) then [] else [p])
            && InFlight.Count(more, InFlight.DoesNotArgue(p), 6)
               == InFlight.Count(messages, InFlight.DoesNotArgue(p), 6) + 1
            && InFlight.Count(more, InFlight.Supports(p), 6) == InFlight.Count(messages, InFlight.Supports(p), 6) + 1
  {
    assert (messages + [AHEAD])[..|messages|] == messages;
  }

  lemma {:induction false} OnlyPossibleIsAnswered(messages: seq<ViewData>, f: nat, quorum: nat, p: Proposal)
    requires forall k :: 0 <= k < |messages| ==>
               InFlight.ReadableDecision(messages[k]) && InFlight.ReadableInFlight(messages[k])
    requires InFlight.PossibleProposals(messages, InFlight.Expected(messages)) == [p]
    requires InFlight.Backed(messages, f, quorum, InFlight.Expected(messages), p)
    ensures InFlight.Answer(messages, f, quorum) == InFlight.Agreed(p)
  {
  }

  /** Three reports at the own decision and two of the sequence ahead. */
  function TwoAhead(): seq<ViewData> {
    seq(3, _ => LEVEL) + [AHEAD] + [AHEAD]
  }

  lemma {:induction false} TwoAheadCount()
    ensures var p := At(0, 6, []);
            && InFlight.MaxLastSequence(TwoAhead()) == 5 && InFlight.PossibleProposals(TwoAhead(), 6) == [p]
            && InFlight.Count(TwoAhead(), InFlight.DoesNotArgue(p), 6) >= 3
            && InFlight.Count(TwoAhead(), InFlight.Supports(p), 6) >= 2
  {
    var three := seq(3, _ => LEVEL);
    LevelReports(3, At(0, 6, []));
    OneMoreAhead(three);
    OneMoreAhead(three + [AHEAD]);
  }

  lemma {:induction false} TwoAheadIsAnswered()
    ensures InFlight.Answer(TwoAhead(), 1, 3) == InFlight.Agreed(At(0, 6, []))
  {
    TwoAheadCount();
    var messages := TwoAhead();
    forall k | 0 <= k < |messages|
      ensures InFlight.ReadableDecision(messages[k]) && InFlight.ReadableInFlight(messages[k])
    {
      assert messages[k] == LEVEL || messages[k] == AHEAD;
    }
    OnlyPossibleIsAnswered(messages, 1, 3, At(0, 6, []));
  }

  lemma {:induction false} RepeatsAreExtracted()
    ensures AllDecode(REPEATED) && Extract(REPEATED) == TwoAhead()
  {
    var messages := TwoAhead();
    assert |messages| == 5 && messages[0] == messages[1] == messages[2] == LEVEL && messages[3] == messages[4] == AHEAD;
  }

  lemma {:induction false} RepeatsAreCounted()
    ensures AllDecode(REPEATED) && InFlight.Answer(Extract(REPEATED), 1, 3) == InFlight.Agreed(At(0, 6, []))
  {
    TwoAheadIsAnswered();
    RepeatsAreExtracted();
  }

  /** One entry per signer is needed, also where a quorum is more than one node: in a cluster of four a second entry
      of a signer is skipped by the validation but not by the in-flight check, and can name a sequence the node is
      nowhere near. */
  lemma {:induction false} RepeatedSignerMatters(stops: Proposal -> bool)
    ensures var own, sizes := At(0, 1, []), Quorum.ComputeQuorum(4);
            && sizes.q == 3 && sizes.f == 1
            && DeliverAll(REPEATED, 1, sizes.q, own, stops) == Result(Valid, own)
            && Conclude(REPEATED, sizes.f, sizes.q, own) == Settle(PanicMismatch)
  {
    RepeatsAreSkipped(stops);
    RepeatsAreCounted();
  }

  // ---- entries strictly behind the node ----

  /** A new-view message in the name of three nodes, none of whose signatures verifies. */
  function Made(vd: ViewData): seq<SignedViewData> {
    [SignedViewData(1, Some(vd), false), SignedViewData(2, Some(vd), false), SignedViewData(3, Some(vd), false)]
  }

  /** View data that validation does not look at the signature of. */
  ghost predicate Unchecked(vd: ViewData, own: Proposal) {
    && vd.lastDecision.Some? && !vd.lastDecision.value.metadata.Malformed?
    && (vd.lastDecision.value.metadata.Encoded? ==> vd.lastDecision.value.metadata.md.viewId < vd.nextView)
    && vd.LastSequence() < own.Sequence()
    && ValidInFlight(vd.inFlightProposal, vd.LastSequence())
  }

  lemma {:induction false} MadeIsValid(vd: ViewData, own: Proposal, stops: Proposal -> bool)
    requires Unchecked(vd, own)
    ensures OnePerSigner(Made(vd)) && DeliverAll(Made(vd), vd.nextView, 3, own, stops) == Result(Valid, own)
    ensures AllDecode(Made(vd)) && Extract(Made(vd)) == [vd, vd, vd]
  {
    var entries := Made(vd);
    assert FirstEntry(entries, 0) && FirstEntry(entries, 1) && FirstEntry(entries, 2);
    assert forall k :: 0 <= k < 3 ==> Inspect(entries[k], vd.nextView, 3, own, stops) == Counts;
    assert Validate(entries, 2, 2, vd.nextView, 3, own, stops) == Validate(entries, 3, 3, vd.nextView, 3, own, stops);
    assert Validate(entries, 1, 1, vd.nextView, 3, own, stops) == Result(Valid, own);
  }

  lemma {:induction false} ThreeCount(vd: ViewData, q: InFlight.Question, expected: nat)
    ensures InFlight.Count([vd, vd, vd], q, expected) == if InFlight.Yes(q, expected, vd) then 3 else 0
    ensures InFlight.MaxLastSequence([vd, vd, vd]) == vd.LastSequence()
  {
    assert [vd, vd, vd][..2] == [vd, vd] && [vd, vd][..1] == [vd] && [vd][..0] == [];
    assert InFlight.Count([vd], q, expected) == if InFlight.Yes(q, expected, vd) then 1 else 0;
    assert InFlight.Count([vd, vd], q, expected) == if InFlight.Yes(q, expected, vd) then 2 else 0;
    assert InFlight.MaxLastSequence([vd]) == InFlight.MaxLastSequence([vd, vd]) == vd.LastSequence();
  }

  /** In a cluster of four such a message is valid, and its content decides what becomes of the view. */
  lemma {:induction false} UncheckedDecides(vd: ViewData, own: Proposal, stops: Proposal -> bool)
    requires Unchecked(vd, own)
    ensures var sizes := Quorum.ComputeQuorum(4);
            && sizes.q == 3 && sizes.f == 1
            && OnePerSigner(Made(vd)) && DeliverAll(Made(vd), vd.nextView, sizes.q, own, stops) == Result(Valid, own)
            && Conclude(Made(vd), sizes.f, sizes.q, own)
               == if vd.inFlightProposal.Some? && vd.inFlightPrepared
                  then Settle(CheckSequence(own, vd.inFlightProposal.value))
                  else NothingInFlight
  {
    MadeIsValid(vd, own, stops);
    ThreeIsAnswered(vd);
  }

  lemma {:induction false} ThreeIsAnswered(vd: ViewData)
    requires InFlight.ReadableDecision(vd) && ValidInFlight(vd.inFlightProposal, vd.LastSequence())
    ensures InFlight.Answer([vd, vd, vd], 1, 3)
            == if vd.inFlightProposal.Some? && vd.inFlightPrepared then InFlight.Agreed(vd.inFlightProposal.value)
               else InFlight.NoInFlight
  {
    var messages, expected := [vd, vd, vd], vd.LastSequence() + 1;
    ThreeCount(vd, InFlight.HasNoPrepared, expected);
    if vd.inFlightProposal.Some? && vd.inFlightPrepared {
      var p := vd.inFlightProposal.value;
      ThreeCount(vd, InFlight.Supports(p), expected);
      ThreeCount(vd, InFlight.DoesNotArgue(p), expected);
      assert InFlight.Yes(InFlight.Supports(p), expected, messages[0]);
      assert InFlight.Possible(messages, expected, p);
    }
  }

  /** A node past the second decision panics on unsigned entries at the first one that agree on a proposal after it. */
  lemma {:induction false} UnsignedEntriesPanic(own: Proposal, stops: Proposal -> bool)
    requires own.Sequence() >= 3
    ensures var sizes := Quorum.ComputeQuorum(4);
            var entries := Made(LEVEL.(inFlightProposal := Some(At(0, 2, [])), inFlightPrepared := true));
            && OnePerSigner(entries) && DeliverAll(entries, 1, sizes.q, own, stops) == Result(Valid, own)
            && Conclude(entries, sizes.f, sizes.q, own) == Settle(PanicMismatch)
  {
    UncheckedDecides(LEVEL.(inFlightProposal := Some(At(0, 2, [])), inFlightPrepared := true), own, stops);
  }

  /** A node past the first decision starts the next view on unsigned entries at the first one with nothing in
      flight. */
  lemma {:induction false} UnsignedEntriesForget(own: Proposal, stops: Proposal -> bool)
    requires own.Sequence() >= 2
    ensures var entries, sizes := Made(LEVEL), Quorum.ComputeQuorum(4);
            && OnePerSigner(entries) && DeliverAll(entries, 1, sizes.q, own, stops) == Result(Valid, own)
            && Conclude(entries, sizes.f, sizes.q, own) == NothingInFlight
  {
    UncheckedDecides(LEVEL, own, stops);
  }
}
