/** Entities shared by the protocol modules. Encodings are abstracted to the value they carry, with a
    constructor for bytes that do not decode; a digest is its preimage, which is what a collision-free
    hash amounts to; a signature names its signer and what was signed, so a node can only produce its own. */
module Messages {

  datatype Option<+T> = None | Some(value: T)

  type NodeId = nat

  function IdSet(xs: seq<NodeId>): (s: set<NodeId>)
    ensures forall x :: x in s <==> x in xs
  {
    set x | x in xs
  }

  lemma {:induction false} IdSetSize(xs: seq<NodeId>)
    ensures |IdSet(xs)| <= |xs|
    ensures (forall j, k :: 0 <= j < k < |xs| ==> xs[j] != xs[k]) ==> |IdSet(xs)| == |xs|
  {
    if xs == [] {
      assert IdSet(xs) == {};
    } else {
      var init, last := xs[..|xs| - 1], xs[|xs| - 1];
      IdSetSize(init);
      assert xs == init + [last];
      assert IdSet(xs) == IdSet(init) + {last};
    }
  }

  newtype byte = x: int | 0 <= x < 256
  type Bytes = seq<byte>

  /** What a view answers for a message kind it does not know: math.MaxUint64. */
  const MAX_UINT64: nat := 0xFFFF_FFFF_FFFF_FFFF

  datatype ViewMetadata = ViewMetadata(
    viewId: nat,
    latestSequence: nat,
    decisionsInView: nat,
    blackList: seq<NodeId>,
    prevCommitSignatureDigest: Bytes)

  /** The metadata bytes of a proposal: nil, undecodable, or the encoding of a ViewMetadata. */
  datatype MetadataField = Absent | Malformed | Encoded(md: ViewMetadata)
  {
    /** proto.Unmarshal: no bytes decode to the all-zero message. */
    function Decode(): Option<ViewMetadata> {
      match this
      case Absent => Some(ViewMetadata(0, 0, 0, [], []))
      case Malformed => None
      case Encoded(md) => Some(md)
    }
  }

  datatype Proposal = Proposal(header: Bytes, payload: Bytes, metadata: MetadataField, verificationSequence: nat)
  {
    /** The sequence its metadata carries; 0 for a genesis proposal. */
    function Sequence(): nat {
      if metadata.Encoded? then metadata.md.latestSequence else 0
    }
  }

  datatype Digest = DigestOf(preimage: Proposal)

  /** Auxiliary bytes of a consenter signature: none, undecodable, or the ids a commit saw prepares from. */
  datatype Auxiliary = NoAuxiliary | BadAuxiliary | PreparesFrom(ids: seq<NodeId>)
  {
    function Decode(): Option<seq<NodeId>> {
      match this
      case NoAuxiliary => Some([])
      case BadAuxiliary => None
      case PreparesFrom(ids) => Some(ids)
    }
  }

  datatype Signature = Signature(signer: NodeId, subject: Proposal, aux: Auxiliary)

  datatype Message =
    | PrePrepare(view: nat, sequence: nat, proposal: Option<Proposal>, prevCommits: seq<Signature>)
    | Prepare(view: nat, sequence: nat, digest: Digest, assist: bool)
    | Commit(view: nat, sequence: nat, digest: Digest, signature: Option<Signature>, assist: bool)
    | Unrelated

  function ViewNumber(m: Message): nat {
    if m.Unrelated? then MAX_UINT64 else m.view
  }

  function ProposalSequence(m: Message): nat {
    if m.Unrelated? then MAX_UINT64 else m.sequence
  }

  /** The view data a node signs for the next leader. */
  datatype ViewData = ViewData(
    nextView: nat,
    lastDecision: Option<Proposal>,
    lastDecisionSignatures: seq<Signature>,
    inFlightProposal: Option<Proposal>,
    inFlightPrepared: bool)
  {
    function LastSequence(): nat {
      if lastDecision.Some? then lastDecision.value.Sequence() else 0
    }
  }
}
