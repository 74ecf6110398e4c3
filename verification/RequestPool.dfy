/** The request pool object: each method is a critical section and does what the operation on values does. */
module RequestPool {
  import opened Messages
  import opened PoolModel

  lemma {:induction false} DropsFirst<T>(s: seq<T>, x: T, i: nat)
    requires i <= |s| && (i < |s| ==> s[i] == x) && forall k :: 0 <= k < i ==> s[k] != x
    ensures Drop(s, x) == if i < |s| then s[..i] + s[i + 1..] else s
  {
    if i > 0 {
      DropsFirst(s[1..], x, i - 1);
      assert [s[0]] + s[1..] == s;
      if i < |s| {
        assert [s[0]] + (s[1..][..i - 1] + s[1..][i..]) == s[..i] + s[i + 1..];
      }
    }
  }

  lemma {:induction false} DeletesOneMore(p: Pool, order: seq<Info>, info: Info)
    requires info in DeleteEach(p, order).exist
    ensures DeleteEach(p, order + [info]) == DeleteRequest(DeleteEach(p, order), info)
    decreases |order|
  {
    if order == [] {
      assert [] + [info] == [info];
    } else {
      assert (order + [info])[1..] == order[1..] + [info];
      DeletesOneMore(if order[0] in p.exist then DeleteRequest(p, order[0]) else p, order[1..], info);
    }
  }

  lemma {:induction false} OrderOfKeys(order: seq<Info>, keys: set<Info>)
    requires Distinct(order) && Range(order) == keys
    ensures multiset(order) == multiset(keys)
  {
    if order != [] {
      var init, last := order[..|order| - 1], order[|order| - 1];
      assert order == init + [last];
      OrderOfKeys(init, keys - {last});
    }
  }

  class RequestPool {
    const options: Options
    var fifo: seq<Bytes>
    var existMap: map<Info, Bytes>
    var sizeBytes: int
    var held: nat
    var delMap: set<Info>
    var delSlice: seq<Info>
    var closed: bool
    ghost var pending: seq<Bytes>

    ghost function Value(): Pool
      reads this
    {
      Pool(fifo, existMap, sizeBytes, held, pending, delMap, delSlice, closed)
    }

    constructor (options: Options)
      ensures Value() == EMPTY && this.options == options && Good(options, Value())
    {
      this.options := options;
      fifo, existMap, sizeBytes, held, pending := [], map[], 0, 0, [];
      delMap, delSlice, closed := {}, [], false;
    }

    method BeginSubmit(r: Bytes) returns (outcome: Outcome)
      requires Good(options, Value())
      modifies this`held, this`pending
      ensures Begin(options, old(Value()), r) == (Value(), outcome) && Good(options, Value())
    {
      BeginKeepsGood(options, Value(), r);
      var info := options.inspect(r);
      if closed {
        return PoolClosed;
      }
      if |r| > options.requestMaxBytes {
        return TooBig;
      }
      if info in existMap {
        return AlreadyExists;
      }
      if info in delMap {
        return AlreadyProcessed;
      }
      if held >= options.capacity {
        return NoPermit;
      }
      held := held + 1;
      pending := pending + [r];
      return Ok;
    }

    method FinishSubmit(r: Bytes) returns (outcome: Outcome)
      requires Good(options, Value()) && r in pending
      modifies this
      ensures Finish(options, old(Value()), r) == (Value(), outcome) && Good(options, Value())
    {
      FinishKeepsGood(options, Value(), r);
      DropRemoves(pending, r);
      outcome := Insert(r);
    }

    /** The second look at the index and the removed ids, under the lock. */
    method Insert(r: Bytes) returns (outcome: Outcome)
      requires r in pending && held > 0
      modifies this
      ensures Finish(options, old(Value()), r) == (Value(), outcome)
    {
      var info := options.inspect(r);
      pending := Drop(pending, r);
      if info in existMap {
        held := held - 1;
        return AlreadyExists;
      }
      if info in delMap {
        held := held - 1;
        return AlreadyProcessed;
      }
      fifo := fifo + [r];
      existMap := existMap[info := r];
      sizeBytes := sizeBytes + |r|;
      return Ok;
    }

    method MoveToDelSlice(info: Info)
      modifies this`delMap, this`delSlice
      ensures Value() == MoveToDeleted(old(Value()), info)
    {
      if info in delMap {
        return;
      }
      delMap := delMap + {info};
      delSlice := delSlice + [info];
    }

    /** Takes one request out of the queue. */
    method Unlink(r: Bytes)
      modifies this`fifo
      ensures fifo == Drop(old(fifo), r)
    {
      var i := 0;
      while i < |fifo| && fifo[i] != r
        invariant i <= |fifo| && fifo == old(fifo) && forall k :: 0 <= k < i ==> fifo[k] != r
        decreases |fifo| - i
      {
        i := i + 1;
      }
      DropsFirst(fifo, r, i);
      if i < |fifo| {
        fifo := fifo[..i] + fifo[i + 1..];
      }
    }

    method DeleteElement(info: Info)
      requires info in existMap
      modifies this
      ensures Value() == DeleteRequest(old(Value()), info)
    {
      Unlink(existMap[info]);
      existMap := existMap - {info};
      MoveToDelSlice(info);
      if held > 0 {
        held := held - 1;
      }
    }

    method RemoveRequest(info: Info) returns (outcome: Outcome)
      requires Good(options, Value())
      modifies this
      ensures Remove(old(Value()), info) == (Value(), outcome) && Good(options, Value())
    {
      RemoveKeepsGood(options, Value(), info);
      if info !in existMap {
        MoveToDelSlice(info);
        return NotInPool;
      }
      var size := |existMap[info]|;
      DeleteElement(info);
      sizeBytes := sizeBytes - size;
      return Ok;
    }

    method EraseFromDelSlice()
      requires Good(options, Value())
      modifies this`delMap, this`delSlice
      ensures Value() == Erase(old(Value())) && Good(options, Value())
    {
      EraseKeepsGood(options, Value());
      if |delSlice| <= WINDOW {
        return;
      }
      var n := |delSlice| - WINDOW;
      var i := 0;
      while i < n
        invariant 0 <= i <= n && delSlice == old(delSlice)
        invariant delMap == old(delMap) - Range(delSlice[..i])
        decreases n - i
      {
        assert Range(delSlice[..i + 1]) == Range(delSlice[..i]) + {delSlice[i]};
        delMap := delMap - {delSlice[i]};
        i := i + 1;
      }
      delSlice := delSlice[n..];
    }

    /** Deletes every live request, in whatever order the map yields them. */
    method DrainAll() returns (ghost order: seq<Info>)
      modifies this
      ensures Distinct(order) && Range(order) == old(existMap).Keys && Value() == DeleteEach(old(Value()), order)
    {
      order := [];
      ghost var start := Value();
      var left := existMap.Keys;
      while left != {}
        invariant DeleteEach(start, order) == Value() && existMap.Keys == left
                  && left == start.exist.Keys - Range(order)
        invariant Distinct(order) && Range(order) <= start.exist.Keys
        decreases left
      {
        var info :| info in left;
        DeletesOneMore(start, order, info);
        DeleteElement(info);
        assert Range(order + [info]) == Range(order) + {info};
        order := order + [info];
        left := left - {info};
      }
      assert forall x :: x in start.exist.Keys ==> x in start.exist.Keys - Range(order) || x in Range(order);
    }

    method CloseAll() returns (ghost order: seq<Info>)
      requires Good(options, Value())
      modifies this
      ensures Order(old(Value()), order) && Value() == Close(old(Value()), order)
      ensures Good(options, Value()) && fifo == [] && existMap == map[]
    {
      closed := true;
      order := DrainAll();
      OrderOfKeys(order, old(existMap).Keys);
      CloseEmpties(options, old(Value()), order);
    }

    /** The batch: the longest prefix within both limits; full exactly when the pool holds as many requests or bytes
        as the limits. With check, nothing at all unless it is full; a closed pool, whose byte count is too large, may
        still answer. */
    method NextRequests(maxCount: nat, maxSizeBytes: nat, check: bool) returns (batch: seq<Bytes>, full: bool)
      requires Good(options, Value())
      ensures full == Full(fifo, maxCount, maxSizeBytes)
      ensures batch == [] || batch == Batch(fifo, maxCount, maxSizeBytes)
      ensures full || !check ==> batch == Batch(fifo, maxCount, maxSizeBytes)
      ensures check && !full && !closed ==> batch == []
    {
      IndexHasSizeOfQueue(options, fifo, existMap);
      if check {
        if |existMap| < maxCount && sizeBytes < maxSizeBytes {
          return [], false;
        }
      }
      batch, full := Collect(maxCount, maxSizeBytes);
    }

    method Collect(maxCount: nat, maxSizeBytes: nat) returns (batch: seq<Bytes>, full: bool)
      ensures full == Full(fifo, maxCount, maxSizeBytes) && batch == Batch(fifo, maxCount, maxSizeBytes)
    {
      var count := if |fifo| < maxCount then |fifo| else maxCount;
      var totalSize := 0;
      batch := [];
      var i := 0;
      assert fifo[..0] == [];
      while i < count
        invariant i <= count && batch == fifo[..i] && totalSize == Total(batch) <= maxSizeBytes
        decreases count - i
      {
        var req := fifo[i];
        assert fifo[..i + 1] == fifo[..i] + [req] && (fifo[..i] + [req])[..i] == fifo[..i];
        if totalSize + |req| > maxSizeBytes {
          BatchIsUnique(fifo, maxCount, maxSizeBytes, i);
          TotalGrows(fifo, i + 1, |fifo|);
          assert fifo[..|fifo|] == fifo;
          return batch, true;
        }
        batch := batch + [req];
        totalSize := totalSize + |req|;
        i := i + 1;
      }
      BatchIsUnique(fifo, maxCount, maxSizeBytes, i);
      assert fifo[..|fifo|] == fifo;
      full := totalSize >= maxSizeBytes || |batch| == maxCount;
      TotalGrows(fifo, i, |fifo|);
    }
  }
}
