/** The per-sender request processor: one bounded queue per node, and rounds that take at most one request from each. */
module Partition {
  import opened Messages

  datatype Queue = Queue(waiting: seq<Bytes>, handled: seq<Bytes>, accepted: seq<Bytes>)

  datatype Outcome = Accepted | NotFound | QueueFull

  /** The last position of a sender in the nodes list. */
  function LastIndex(nodes: seq<NodeId>, sender: NodeId): Option<nat> {
    if nodes == [] then None
    else if nodes[|nodes| - 1] == sender then Some(|nodes| - 1)
    else LastIndex(nodes[..|nodes| - 1], sender)
  }

  function Enqueue(q: Queue, payload: Bytes): Queue {
    q.(waiting := q.waiting + [payload], accepted := q.accepted + [payload])
  }

  function HandleOne(q: Queue): Queue {
    if q.waiting == [] then q else q.(waiting := q.waiting[1..], handled := q.handled + [q.waiting[0]])
  }

  datatype Step = Add(sender: NodeId, payload: Bytes) | Round

  function Apply(nodes: seq<NodeId>, capacity: nat, queues: seq<Queue>, s: Step): (r: seq<Queue>)
    requires |queues| == |nodes|
    ensures |r| == |nodes|
  {
    match s
    case Add(sender, payload) =>
      var i := LastIndex(nodes, sender);
      if i.Some? && i.value < |queues| && |queues[i.value].waiting| < capacity
      then queues[i.value := Enqueue(queues[i.value], payload)] else queues
    case Round => seq(|queues|, i requires 0 <= i < |queues| => HandleOne(queues[i]))
  }

  function Run(nodes: seq<NodeId>, capacity: nat, queues: seq<Queue>, steps: seq<Step>): (r: seq<Queue>)
    requires |queues| == |nodes|
    ensures |r| == |nodes|
  {
    if steps == [] then queues
    else Apply(nodes, capacity, Run(nodes, capacity, queues, steps[..|steps| - 1]), steps[|steps| - 1])
  }

  function Rounds(steps: seq<Step>): nat {
    if steps == [] then 0 else Rounds(steps[..|steps| - 1]) + if steps[|steps| - 1].Round? then 1 else 0
  }

  /** What was handled, then what waits, is what was accepted; the queue is within its capacity. */
  ghost predicate Ordered(q: Queue, capacity: nat) {
    q.accepted == q.handled + q.waiting && |q.waiting| <= capacity
  }

  lemma {:induction false} HandledIsPrefix(nodes: seq<NodeId>, capacity: nat, queues: seq<Queue>, steps: seq<Step>,
      i: nat)
    requires |queues| == |nodes| && i < |queues| && Ordered(queues[i], capacity)
    ensures Ordered(Run(nodes, capacity, queues, steps)[i], capacity)
    ensures Run(nodes, capacity, queues, steps)[i].handled <= Run(nodes, capacity, queues, steps)[i].accepted
  {
    if steps != [] {
      HandledIsPrefix(nodes, capacity, queues, steps[..|steps| - 1], i);
    }
  }

  /** What a sender's queue does in the given steps depends on the number of rounds only: of the requests waiting at
      the start, exactly the first that many are handled, in order, however much anyone enqueues meanwhile. */
  lemma {:induction false} HandledByRounds(nodes: seq<NodeId>, capacity: nat, queues: seq<Queue>, steps: seq<Step>,
      i: nat)
    requires |queues| == |nodes| && i < |queues|
    ensures var q, now, n := queues[i], Run(nodes, capacity, queues, steps)[i], Rounds(steps);
            if n <= |q.waiting|
            then now.handled == q.handled + q.waiting[..n] && q.waiting[n..] <= now.waiting
            else q.handled + q.waiting <= now.handled
  {
    var q := queues[i];
    if steps == [] {
      assert q.waiting[..0] == [];
    } else {
      var init, last := steps[..|steps| - 1], steps[|steps| - 1];
      HandledByRounds(nodes, capacity, queues, init, i);
      var n := Rounds(init);
      if last.Round? && n < |q.waiting| {
        assert q.waiting[..n + 1] == q.waiting[..n] + [q.waiting[n]];
        assert q.waiting[n..][0] == q.waiting[n];
        assert q.waiting[n..][1..] == q.waiting[n + 1..];
      }
    }
  }

  /** The request at position p of a queue is handled in the (p+1)-th next round, not before and not after. */
  lemma {:induction false} HandledInItsRound(nodes: seq<NodeId>, capacity: nat, queues: seq<Queue>, steps: seq<Step>,
      i: nat, p: nat)
    requires |queues| == |nodes| && i < |queues| && p < |queues[i].waiting|
    ensures var q, now := queues[i], Run(nodes, capacity, queues, steps)[i];
            Rounds(steps) > p <==> |now.handled| > |q.handled| + p
    ensures var q, now := queues[i], Run(nodes, capacity, queues, steps)[i];
            Rounds(steps) > p ==> now.handled[|q.handled| + p] == q.waiting[p]
  {
    HandledByRounds(nodes, capacity, queues, steps, i);
    var q, now := queues[i], Run(nodes, capacity, queues, steps)[i];
    assert (q.handled + q.waiting)[|q.handled| + p] == q.waiting[p];
  }

  /** A sender's queue is that of its last position in the nodes list. */
  predicate Owns(nodes: seq<NodeId>, i: nat, sender: NodeId) {
    i < |nodes| && nodes[i] == sender && forall j :: i < j < |nodes| ==> nodes[j] != sender
  }

  lemma {:induction false} LastIndexOwns(nodes: seq<NodeId>, sender: NodeId, i: nat)
    ensures LastIndex(nodes, sender) == Some(i) <==> Owns(nodes, i, sender)
    ensures LastIndex(nodes, sender).None? <==> sender !in nodes
  {
    if nodes != [] && nodes[|nodes| - 1] != sender {
      var init := nodes[..|nodes| - 1];
      LastIndexOwns(init, sender, i);
      assert sender in nodes <==> sender in init;
      if i < |init| && Owns(init, i, sender) {
        assert nodes[i] == init[i];
      }
      if Owns(nodes, i, sender) {
        assert i < |init| && init[i] == sender;
      }
    }
  }

  /** The payloads that steps send to the i-th queue, of which some may find it full. */
  function SentTo(nodes: seq<NodeId>, steps: seq<Step>, i: nat): seq<Bytes> {
    if steps == [] then []
    else
      var init, last := steps[..|steps| - 1], steps[|steps| - 1];
      SentTo(nodes, init, i) + if last.Add? && Owns(nodes, i, last.sender) then [last.payload] else []
  }

  /** What a queue accepts: a payload sent to it, exactly if there is room, and nothing else. */
  lemma {:induction false} AcceptsExactly(nodes: seq<NodeId>, capacity: nat, queues: seq<Queue>, s: Step, i: nat)
    requires |queues| == |nodes| && i < |nodes|
    ensures Apply(nodes, capacity, queues, s)[i].accepted
            == queues[i].accepted
               + if s.Add? && Owns(nodes, i, s.sender) && |queues[i].waiting| < capacity then [s.payload] else []
  {
    if s.Add? {
      LastIndexOwns(nodes, s.sender, i);
    }
  }

  /** With room for all that is sent, a queue accepts it all, in order. */
  lemma {:induction false} NothingIsLost(nodes: seq<NodeId>, capacity: nat, queues: seq<Queue>, steps: seq<Step>,
      i: nat)
    requires |queues| == |nodes| && i < |nodes| && |queues[i].waiting| + |SentTo(nodes, steps, i)| <= capacity
    ensures Run(nodes, capacity, queues, steps)[i].accepted == queues[i].accepted + SentTo(nodes, steps, i)
    ensures |Run(nodes, capacity, queues, steps)[i].waiting| <= |queues[i].waiting| + |SentTo(nodes, steps, i)|
  {
    if steps != [] {
      var init, last := steps[..|steps| - 1], steps[|steps| - 1];
      NothingIsLost(nodes, capacity, queues, init, i);
      var before := Run(nodes, capacity, queues, init);
      AcceptsExactly(nodes, capacity, before, last, i);
      if last.Add? {
        LastIndexOwns(nodes, last.sender, i);
      }
    }
  }

  // ---- the object ----

  class PartitionedProcessor {
    const nodesList: seq<NodeId>
    const capacity: nat
    var queues: seq<Queue>

    constructor (nodesList: seq<NodeId>, capacity: nat)
      ensures this.nodesList == nodesList && this.capacity == capacity
      ensures |queues| == |nodesList| && forall i :: 0 <= i < |queues| ==> queues[i] == Queue([], [], [])
    {
      this.nodesList, this.capacity := nodesList, capacity;
      queues := seq(|nodesList|, _ => Queue([], [], []));
    }

    method Find(sender: NodeId) returns (index: Option<nat>)
      ensures index == LastIndex(nodesList, sender)
      ensures index.Some? ==> index.value < |nodesList|
    {
      index := None;
      var i := 0;
      assert nodesList[..0] == [];
      while i < |nodesList|
        invariant i <= |nodesList| && index == LastIndex(nodesList[..i], sender) && (index.Some? ==> index.value < i)
        decreases |nodesList| - i
      {
        assert nodesList[..i + 1][..i] == nodesList[..i];
        if nodesList[i] == sender {
          index := Some(i);
        }
        i := i + 1;
      }
      assert nodesList[..i] == nodesList;
    }

    method AddRequest(sender: NodeId, payload: Bytes) returns (outcome: Outcome)
      requires |queues| == |nodesList|
      modifies this
      ensures queues == Apply(nodesList, capacity, old(queues), Add(sender, payload))
      ensures outcome == Accepted <==> queues != old(queues)
      ensures outcome == NotFound <==> sender !in nodesList
    {
      var index := Find(sender);
      LastIndexOwns(nodesList, sender, 0);
      if index.None? {
        return NotFound;
      }
      var q := queues[index.value];
      if |q.waiting| >= capacity {
        return QueueFull;
      }
      queues := queues[index.value := Enqueue(q, payload)];
      assert |queues[index.value].waiting| == |q.waiting| + 1;
      return Accepted;
    }

    /** One round: every queue is looked at once. */
    method ProcessRound()
      requires |queues| == |nodesList|
      modifies this
      ensures queues == Apply(nodesList, capacity, old(queues), Round)
    {
      var i := 0;
      while i < |queues|
        invariant i <= |queues| == |old(queues)|
        invariant forall k :: 0 <= k < i ==> queues[k] == HandleOne(old(queues)[k])
        invariant forall k :: i <= k < |queues| ==> queues[k] == old(queues)[k]
        decreases |queues| - i
      {
        if queues[i].waiting != [] {
          queues := queues[i := queues[i].(waiting := queues[i].waiting[1..],
              handled := queues[i].handled + [queues[i].waiting[0]])];
        }
        i := i + 1;
      }
    }
  }
}
