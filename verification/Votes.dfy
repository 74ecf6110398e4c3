/** The vote set: one vote per sender, kept in arrival order in a queue of capacity N. */
module Votes {
  import opened Messages

  datatype Vote = Vote(sender: NodeId, msg: Message)

  datatype Kind = Prepares | Commits

  /** The vote filter the view installs for prepares and for commits: a commit must carry a signature by its sender. */
  predicate ValidVote(kind: Kind, voter: NodeId, m: Message) {
    match kind
    case Prepares => m.Prepare?
    case Commits => m.Commit? && m.signature.Some? && m.signature.value.signer == voter
  }

  /** The value of a vote set: who voted, and the votes not yet consumed. */
  datatype Ballot = Ballot(voted: set<NodeId>, votes: seq<Vote>)
  {
    function Register(kind: Kind, voter: NodeId, m: Message): Ballot {
      if !ValidVote(kind, voter, m) || voter in voted then this
      else Ballot(voted + {voter}, votes + [Vote(voter, m)])
    }

    function Pop(): Ballot
      requires votes != []
    {
      Ballot(voted, votes[1..])
    }
  }

  const EMPTY_BALLOT := Ballot({}, [])

  function Senders(votes: seq<Vote>): (s: set<NodeId>)
    ensures forall i :: 0 <= i < |votes| ==> votes[i].sender in s
    ensures forall x :: x in s ==> exists i :: 0 <= i < |votes| && votes[i].sender == x
  {
    set i | 0 <= i < |votes| :: votes[i].sender
  }

  ghost predicate DistinctSenders(votes: seq<Vote>) {
    forall i, j :: 0 <= i < j < |votes| ==> votes[i].sender != votes[j].sender
  }

  /** Every queued vote is the one vote its sender was credited with. */
  ghost predicate OnePerSender(b: Ballot) {
    && DistinctSenders(b.votes)
    && Senders(b.votes) <= b.voted
  }

  lemma {:induction false} SendersSize(votes: seq<Vote>)
    requires DistinctSenders(votes)
    ensures |Senders(votes)| == |votes|
  {
    if votes == [] {
      assert Senders(votes) == {};
    } else {
      var init, last := votes[..|votes| - 1], votes[|votes| - 1];
      SendersSize(init);
      assert votes == init + [last];
      assert Senders(votes) == Senders(init) + {last.sender};
      assert last.sender !in Senders(init);
    }
  }

  /** The vote set of the source: a record of who voted and a queue that would block if it grew past its capacity. */
  class VoteSet {
    const kind: Kind
    var ballot: Ballot
    var capacity: nat

    ghost predicate Valid()
      reads this
    {
      OnePerSender(ballot) && |ballot.votes| <= capacity
    }

    constructor (kind: Kind, n: nat)
      ensures Valid() && ballot == EMPTY_BALLOT && capacity == n && this.kind == kind
    {
      this.kind := kind;
      ballot, capacity := EMPTY_BALLOT, n;
    }

    method Clear(n: nat)
      modifies this
      ensures Valid() && ballot == EMPTY_BALLOT && capacity == n
    {
      while |ballot.votes| > 0
      {
        ballot := ballot.Pop();
      }
      ballot, capacity := EMPTY_BALLOT, n;
    }

    /** The send on the queue never blocks: with voters drawn from N nodes there is always room. */
    method RegisterVote(voter: NodeId, message: Message, ghost nodes: set<NodeId>)
      requires Valid()
      requires ballot.voted <= nodes && voter in nodes && |nodes| == capacity
      modifies this`ballot
      ensures Valid() && ballot.voted <= nodes
      ensures ballot == old(ballot).Register(kind, voter, message)
    {
      if !ValidVote(kind, voter, message) {
        return;
      }
      if voter in ballot.voted {
        return;
      }
      RoomLeft(ballot, nodes, voter);
      assert |ballot.votes| < capacity;
      ballot := Ballot(ballot.voted + {voter}, ballot.votes + [Vote(voter, message)]);
    }

    /** Receives the oldest queued vote. */
    method Take() returns (vote: Vote)
      requires Valid() && ballot.votes != []
      modifies this`ballot
      ensures Valid() && vote == old(ballot).votes[0] && ballot == old(ballot).Pop()
    {
      vote := ballot.votes[0];
      ballot := Ballot(ballot.voted, ballot.votes[1..]);
    }
  }

  /** Fewer votes are queued than there are nodes as long as one node has not voted. */
  lemma {:induction false} RoomLeft(b: Ballot, nodes: set<NodeId>, voter: NodeId)
    requires OnePerSender(b) && b.voted <= nodes && voter in nodes - b.voted
    ensures |b.votes| < |nodes|
  {
    SendersSize(b.votes);
    var senders := Senders(b.votes);
    assert nodes - (nodes - senders) == senders;
    assert voter in nodes - senders;
  }
}
