/** The queue of the request pool in terms of the operations: what is in it, in which order, and how much. */
module PoolRuns {
  import opened Messages
  import opened PoolModel

  // ---- how much ----

  /** From an empty pool, no more requests are queued or about to be than there are permits. */
  lemma {:induction false} RunIsWithinCapacity(o: Options, ops: seq<Op>)
    ensures var p := Run(o, EMPTY, ops); |p.fifo| + |p.pending| <= o.capacity
  {
    EmptyIsGood(o);
    RunIsGood(o, EMPTY, ops);
    if ops != [] {
      var init, op := ops[..|ops| - 1], ops[|ops| - 1];
      RunIsWithinCapacity(o, init);
      RunIsGood(o, EMPTY, init);
      TakesNoMore(o, Run(o, EMPTY, init), op);
    }
  }

  lemma {:induction false} TakesNoMore(o: Options, p: Pool, op: Op)
    requires Good(o, p) && p.held <= o.capacity
    ensures Apply(o, p, op).held <= o.capacity
  {
    if op.CloseAll? {
      EachTakesNoMore(p.(closed := true), op.order);
    }
  }

  lemma {:induction false} EachTakesNoMore(p: Pool, order: seq<Info>)
    ensures DeleteEach(p, order).held <= p.held
    decreases |order|
  {
    if order != [] {
      EachTakesNoMore(if order[0] in p.exist then DeleteRequest(p, order[0]) else p, order[1..]);
    }
  }

  // ---- in which order ----

  ghost predicate Increasing(places: seq<nat>) {
    forall i, j :: 0 <= i < j < |places| ==> places[i] < places[j]
  }

  /** Each queued request was put there by the operation at its place, the earlier one first. */
  ghost predicate QueuedBy(ops: seq<Op>, fifo: seq<Bytes>, places: seq<nat>) {
    && |places| == |fifo| && Increasing(places)
    && forall j :: 0 <= j < |places| ==> places[j] < |ops| && ops[places[j]] == FinishSubmit(fifo[j])
  }

  lemma {:induction false} QueuedStays(ops: seq<Op>, fifo: seq<Bytes>, places: seq<nat>, op: Op)
    requires QueuedBy(ops, fifo, places)
    ensures QueuedBy(ops + [op], fifo, places)
  {
  }

  lemma {:induction false} QueuedLast(ops: seq<Op>, fifo: seq<Bytes>, places: seq<nat>, r: Bytes)
    requires QueuedBy(ops, fifo, places)
    ensures QueuedBy(ops + [FinishSubmit(r)], fifo + [r], places + [|ops|])
  {
  }

  lemma {:induction false} QueuedWithout(ops: seq<Op>, fifo: seq<Bytes>, places: seq<nat>, x: Bytes)
    returns (places': seq<nat>)
    requires QueuedBy(ops, fifo, places) && x in fifo
    ensures QueuedBy(ops, Drop(fifo, x), places')
  {
    var i := DropAt(fifo, x);
    places' := places[..i] + places[i + 1..];
  }

  lemma {:induction false} QueuedWithoutEach(o: Options, ops: seq<Op>, p: Pool, order: seq<Info>, places: seq<nat>)
    returns (places': seq<nat>)
    requires Good(o, p) && p.closed && QueuedBy(ops, p.fifo, places)
    ensures QueuedBy(ops, DeleteEach(p, order).fifo, places')
    decreases |order|
  {
    if order == [] {
      places' := places;
    } else if order[0] in p.exist {
      DeleteKeepsGoodClosed(o, p, order[0]);
      places' := QueuedWithout(ops, p.fifo, places, p.exist[order[0]]);
      places' := QueuedWithoutEach(o, ops, DeleteRequest(p, order[0]), order[1..], places');
    } else {
      places' := QueuedWithoutEach(o, ops, p, order[1..], places);
    }
  }

  lemma {:induction false} ApplyQueues(o: Options, ops: seq<Op>, p: Pool, op: Op, places: seq<nat>)
    returns (places': seq<nat>)
    requires Good(o, p) && QueuedBy(ops, p.fifo, places)
    ensures QueuedBy(ops + [op], Apply(o, p, op).fifo, places')
  {
    QueuedStays(ops, p.fifo, places, op);
    places' := places;
    match op {
      case FinishSubmit(r) =>
        if r in p.pending && p.held > 0 && Refusal(o, p, r) == Ok {
          QueuedLast(ops, p.fifo, places, r);
          places' := places + [|ops|];
        }
      case RemoveRequest(info) =>
        if info in p.exist {
          places' := QueuedWithout(ops + [op], p.fifo, places, p.exist[info]);
        }
      case CloseAll(order) =>
        if Order(p, order) {
          places' := QueuedWithoutEach(o, ops + [op], p.(closed := true), order, places);
        }
      case _ =>
    }
  }

  /** In every run the queue holds submitted requests in the order in which their submissions finished. */
  lemma {:induction false} QueueIsInOrder(o: Options, ops: seq<Op>) returns (places: seq<nat>)
    ensures QueuedBy(ops, Run(o, EMPTY, ops).fifo, places)
  {
    if ops == [] {
      places := [];
    } else {
      var init, op := ops[..|ops| - 1], ops[|ops| - 1];
      assert ops == init + [op];
      places := QueueIsInOrder(o, init);
      EmptyIsGood(o);
      RunIsGood(o, EMPTY, init);
      places := ApplyQueues(o, init, Run(o, EMPTY, init), op, places);
    }
  }

  // ---- and what is in it ----

  lemma {:induction false} DeleteEachKeeps(o: Options, p: Pool, order: seq<Info>, r: Bytes)
    requires Good(o, p) && p.closed && r in p.fifo && o.inspect(r) !in Range(order)
    ensures r in DeleteEach(p, order).fifo
    decreases |order|
  {
    if order != [] {
      if order[0] in p.exist {
        DeleteKeepsGoodClosed(o, p, order[0]);
        DropRemoves(p.fifo, p.exist[order[0]]);
        assert order[0] in Range(order);
        DeleteEachKeeps(o, DeleteRequest(p, order[0]), order[1..], r);
      } else {
        DeleteEachKeeps(o, p, order[1..], r);
      }
    }
  }

  lemma {:induction false} ApplyKeepsQueued(o: Options, p: Pool, op: Op, r: Bytes)
    requires Good(o, p) && r in p.fifo && o.inspect(r) !in RemovedBy(op)
    ensures r in Apply(o, p, op).fifo
  {
    match op {
      case RemoveRequest(info) =>
        if info in p.exist {
          DropRemoves(p.fifo, p.exist[info]);
        }
      case CloseAll(order) => DeleteEachKeeps(o, p.(closed := true), order, r);
      case _ =>
    }
  }

  /** A queued request stays queued until its id is removed. */
  lemma {:induction false} QueuedUntilRemoved(o: Options, p: Pool, ops: seq<Op>, r: Bytes)
    requires Good(o, p) && r in p.fifo && o.inspect(r) !in Removed(ops)
    ensures r in Run(o, p, ops).fifo
  {
    if ops != [] {
      var init, op := ops[..|ops| - 1], ops[|ops| - 1];
      QueuedUntilRemoved(o, p, init, r);
      RunIsGood(o, p, init);
      ApplyKeepsQueued(o, Run(o, p, init), op, r);
    }
  }

  lemma {:induction false} ApplyKeepsPending(o: Options, p: Pool, op: Op, r: Bytes)
    requires Good(o, p) && r in p.pending && op != FinishSubmit(r)
    ensures r in Apply(o, p, op).pending
  {
    match op {
      case FinishSubmit(other) =>
        if other in p.pending {
          DropRemoves(p.pending, other);
        }
      case CloseAll(order) => DeleteEachLeaves(p.(closed := true), order);
      case _ =>
    }
  }

  lemma {:induction false} PendingUntilFinished(o: Options, p: Pool, ops: seq<Op>, r: Bytes)
    requires Good(o, p) && r in p.pending && FinishSubmit(r) !in ops
    ensures r in Run(o, p, ops).pending
  {
    if ops != [] {
      var init, op := ops[..|ops| - 1], ops[|ops| - 1];
      PendingUntilFinished(o, p, init, r);
      RunIsGood(o, p, init);
      assert op in ops;
      ApplyKeepsPending(o, Run(o, p, init), op, r);
    }
  }

  /** A request that is small enough, whose id is neither queued nor remembered, is taken into an open pool with a free
      permit; whatever happens before the submission finishes, it is then queued, or its id is by then queued or
      remembered. */
  lemma {:induction false} SubmissionEnters(o: Options, p: Pool, ops: seq<Op>, r: Bytes)
    requires Good(o, p) && !p.closed && |r| <= o.requestMaxBytes && p.held < o.capacity
    requires o.inspect(r) !in p.exist && o.inspect(r) !in p.deleted && FinishSubmit(r) !in ops
    ensures var now := Run(o, Begin(o, p, r).0, ops);
            && Begin(o, p, r).1 == Ok
            && (o.inspect(r) !in now.exist && o.inspect(r) !in now.deleted ==>
                  Finish(o, now, r).1 == Ok && r in Finish(o, now, r).0.fifo)
  {
    var p1 := Begin(o, p, r).0;
    BeginKeepsGood(o, p, r);
    PendingUntilFinished(o, p1, ops, r);
    RunIsGood(o, p1, ops);
    var now := Run(o, p1, ops);
    assert now.held > 0;
    assert now.fifo + [r] == Finish(o, now, r).0.fifo || Refusal(o, now, r) != Ok;
  }
}
