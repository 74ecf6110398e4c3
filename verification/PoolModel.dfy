/** The request pool as a state: requests in arrival order, an index by request id, a byte count, permits, and a
    window of removed ids. Each operation is one critical section; a submission is two, with the permit acquired in
    between. */
module PoolModel {
  import opened Messages

  datatype Info = Info(clientId: Bytes, id: Bytes)

  /** How many removed ids the eraser leaves in the window. */
  const WINDOW: nat := 1000

  datatype Options = Options(capacity: nat, requestMaxBytes: nat, inspect: Bytes -> Info)

  datatype Pool = Pool(
    fifo: seq<Bytes>,
    exist: map<Info, Bytes>,
    sizeBytes: int,
    held: nat,                       // permits taken from the semaphore
    pending: seq<Bytes>,             // submissions that hold a permit and are not inserted yet
    deleted: set<Info>,
    delSlice: seq<Info>,
    closed: bool)

  const EMPTY := Pool([], map[], 0, 0, [], {}, [], false)

  datatype Outcome = Ok | PoolClosed | TooBig | AlreadyExists | AlreadyProcessed | NoPermit | NotInPool

  function Total(rs: seq<Bytes>): nat {
    if rs == [] then 0 else Total(rs[..|rs| - 1]) + |rs[|rs| - 1]|
  }

  function Drop<T(==)>(s: seq<T>, x: T): seq<T> {
    if s == [] then [] else if s[0] == x then s[1..] else [s[0]] + Drop(s[1..], x)
  }

  // ---- submitting ----

  function Refusal(o: Options, p: Pool, r: Bytes): Outcome {
    if o.inspect(r) in p.exist then AlreadyExists
    else if o.inspect(r) in p.deleted then AlreadyProcessed
    else Ok
  }

  /** Submit up to and including the permit; a permit is had only when one is free. */
  function Begin(o: Options, p: Pool, r: Bytes): (Pool, Outcome) {
    if p.closed then (p, PoolClosed)
    else if |r| > o.requestMaxBytes then (p, TooBig)
    else if Refusal(o, p, r) != Ok then (p, Refusal(o, p, r))
    else if p.held >= o.capacity then (p, NoPermit)
    else (p.(held := p.held + 1, pending := p.pending + [r]), Ok)
  }

  /** The rest of Submit, for a submission that holds a permit. */
  function Finish(o: Options, p: Pool, r: Bytes): (Pool, Outcome) {
    if r !in p.pending || p.held == 0 then (p, Ok)
    else if Refusal(o, p, r) != Ok then (p.(pending := Drop(p.pending, r), held := p.held - 1), Refusal(o, p, r))
    else (p.(pending := Drop(p.pending, r), fifo := p.fifo + [r], exist := p.exist[o.inspect(r) := r],
        sizeBytes := p.sizeBytes + |r|), Ok)
  }

  // ---- removing ----

  function MoveToDeleted(p: Pool, info: Info): Pool {
    if info in p.deleted then p else p.(deleted := p.deleted + {info}, delSlice := p.delSlice + [info])
  }

  function DeleteRequest(p: Pool, info: Info): Pool
    requires info in p.exist
  {
    MoveToDeleted(p.(fifo := Drop(p.fifo, p.exist[info]), exist := p.exist - {info}), info)
    .(held := if p.held > 0 then p.held - 1 else 0)
  }

  function Remove(p: Pool, info: Info): (Pool, Outcome) {
    if info !in p.exist then (MoveToDeleted(p, info), NotInPool)
    else (DeleteRequest(p, info).(sizeBytes := p.sizeBytes - |p.exist[info]|), Ok)
  }

  function Range<T>(s: seq<T>): set<T> {
    set x | x in s
  }

  function Erase(p: Pool): Pool {
    if |p.delSlice| <= WINDOW then p
    else
      var n := |p.delSlice| - WINDOW;
      p.(deleted := p.deleted - Range(p.delSlice[..n]), delSlice := p.delSlice[n..])
  }

  function DeleteEach(p: Pool, order: seq<Info>): Pool
    decreases |order|
  {
    if order == [] then p
    else DeleteEach(if order[0] in p.exist then DeleteRequest(p, order[0]) else p, order[1..])
  }

  /** Close, with the live ids in the order the map yields them; the byte count is not adjusted. */
  function Close(p: Pool, order: seq<Info>): Pool {
    DeleteEach(p.(closed := true), order)
  }

  // ---- batching ----

  /** The longest prefix within the two limits, counting on from the first k requests. */
  function BatchFrom(fifo: seq<Bytes>, maxCount: nat, maxBytes: nat, k: nat): (m: nat)
    requires k <= |fifo|
    ensures k <= m <= |fifo|
    decreases |fifo| - k
  {
    if k < |fifo| && k < maxCount && Total(fifo[..k + 1]) <= maxBytes then BatchFrom(fifo, maxCount, maxBytes, k + 1)
        else k
  }

  function Batch(fifo: seq<Bytes>, maxCount: nat, maxBytes: nat): seq<Bytes> {
    fifo[..BatchFrom(fifo, maxCount, maxBytes, 0)]
  }

  predicate Full(fifo: seq<Bytes>, maxCount: nat, maxBytes: nat) {
    |fifo| >= maxCount || Total(fifo) >= maxBytes
  }

  // ---- what every run keeps ----

  ghost predicate Distinct<T>(s: seq<T>) {
    forall i, j :: 0 <= i < j < |s| ==> s[i] != s[j]
  }

  /** The index and the queue are in bijection, through the request ids. */
  ghost predicate Indexed(o: Options, fifo: seq<Bytes>, exist: map<Info, Bytes>) {
    && Distinct(fifo)
    && (forall r :: r in fifo ==> o.inspect(r) in exist && exist[o.inspect(r)] == r)
    && (forall i :: i in exist ==> exist[i] in fifo && o.inspect(exist[i]) == i)
  }

  ghost predicate Windowed(p: Pool) {
    && Distinct(p.delSlice)
    && p.deleted == Range(p.delSlice)
    && p.exist.Keys !! p.deleted
  }

  ghost predicate Small(rs: seq<Bytes>, n: nat) {
    forall r :: r in rs ==> |r| <= n
  }

  ghost predicate Good(o: Options, p: Pool) {
    && Indexed(o, p.fifo, p.exist)
    && Windowed(p)
    && p.held == |p.fifo| + |p.pending|
    && p.sizeBytes >= Total(p.fifo) && (!p.closed ==> p.sizeBytes == Total(p.fifo))
    && Small(p.fifo, o.requestMaxBytes) && Small(p.pending, o.requestMaxBytes)
  }

  lemma {:induction false} IndexHasSizeOfQueue(o: Options, fifo: seq<Bytes>, exist: map<Info, Bytes>)
    requires Indexed(o, fifo, exist)
    ensures |exist| == |fifo|
  {
    if fifo == [] {
      assert exist == map[];
    } else {
      var init, last := fifo[..|fifo| - 1], fifo[|fifo| - 1];
      assert last in fifo;
      var id := o.inspect(last);
      var rest := exist - {id};
      forall r | r in init ensures o.inspect(r) in rest && rest[o.inspect(r)] == r {
        assert r in fifo;
        assert r != last;
      }
      IndexHasSizeOfQueue(o, init, rest);
      assert exist.Keys == rest.Keys + {id};
    }
  }

  /** Dropping takes out the first occurrence and leaves the rest in order. */
  lemma {:induction false} DropAt<T>(s: seq<T>, x: T) returns (i: nat)
    requires x in s
    ensures i < |s| && s[i] == x && Drop(s, x) == s[..i] + s[i + 1..]
  {
    if s[0] == x {
      i := 0;
    } else {
      i := DropAt(s[1..], x);
      i := i + 1;
      assert s[..i] == [s[0]] + s[1..][..i - 1];
      assert s[i + 1..] == s[1..][i..];
    }
  }

  lemma {:induction false} DropRemoves<T>(s: seq<T>, x: T)
    requires x in s
    ensures |Drop(s, x)| == |s| - 1
    ensures forall y :: y in Drop(s, x) ==> y in s
    ensures forall y :: y in s && y != x ==> y in Drop(s, x)
    ensures Distinct(s) ==> Distinct(Drop(s, x)) && x !in Drop(s, x)
  {
    var i := DropAt(s, x);
    forall y | y in s && y != x ensures y in Drop(s, x) {
      var k :| 0 <= k < |s| && s[k] == y;
      assert Drop(s, x)[if k < i then k else k - 1] == y;
    }
  }

  lemma {:induction false} TotalSplits(a: seq<Bytes>, b: seq<Bytes>)
    ensures Total(a + b) == Total(a) + Total(b)
  {
    if b == [] {
      assert a + b == a;
    } else {
      TotalSplits(a, b[..|b| - 1]);
      assert (a + b)[..|a + b| - 1] == a + b[..|b| - 1];
    }
  }

  lemma {:induction false} DropTotal(s: seq<Bytes>, x: Bytes)
    requires x in s
    ensures Total(Drop(s, x)) == Total(s) - |x|
  {
    assert s == [s[0]] + s[1..];
    TotalSplits([s[0]], s[1..]);
    assert Total([s[0]]) == Total([]) + |s[0]|;
    if s[0] != x {
      DropTotal(s[1..], x);
      TotalSplits([s[0]], Drop(s[1..], x));
    }
  }

  // ---- each operation ----

  lemma {:induction false} BeginKeepsGood(o: Options, p: Pool, r: Bytes)
    requires Good(o, p)
    ensures Good(o, Begin(o, p, r).0) && Begin(o, p, r).0.held <= (if p.held <= o.capacity then o.capacity else p.held)
  {
  }

  lemma {:induction false} InsertKeepsIndexed(o: Options, fifo: seq<Bytes>, exist: map<Info, Bytes>, r: Bytes)
    requires Indexed(o, fifo, exist) && o.inspect(r) !in exist
    ensures Indexed(o, fifo + [r], exist[o.inspect(r) := r])
  {
  }

  lemma {:induction false} FinishKeepsGood(o: Options, p: Pool, r: Bytes)
    requires Good(o, p)
    ensures Good(o, Finish(o, p, r).0)
  {
    if r in p.pending && p.held > 0 {
      DropRemoves(p.pending, r);
      if Refusal(o, p, r) == Ok {
        InsertKeepsIndexed(o, p.fifo, p.exist, r);
        assert Total(p.fifo + [r]) == Total(p.fifo) + |r| by {
          assert (p.fifo + [r])[..|p.fifo|] == p.fifo;
        }
      }
    }
  }

  lemma {:induction false} DropKeepsIndexed(o: Options, fifo: seq<Bytes>, exist: map<Info, Bytes>, info: Info)
    requires Indexed(o, fifo, exist) && info in exist
    ensures Indexed(o, Drop(fifo, exist[info]), exist - {info})
  {
    DropRemoves(fifo, exist[info]);
  }

  lemma {:induction false} MoveKeepsWindowed(p: Pool, info: Info)
    requires Windowed(p.(exist := p.exist - {info}))
    ensures Windowed(MoveToDeleted(p.(exist := p.exist - {info}), info))
  {
  }

  lemma {:induction false} DeleteKeepsParts(o: Options, p: Pool, info: Info)
    requires Good(o, p) && info in p.exist
    ensures var p' := DeleteRequest(p, info);
            && Indexed(o, p'.fifo, p'.exist) && Windowed(p') && p'.held == |p'.fifo| + |p'.pending|
            && Small(p'.fifo, o.requestMaxBytes) && Small(p'.pending, o.requestMaxBytes)
            && Total(p'.fifo) == Total(p.fifo) - |p.exist[info]|
  {
    DropKeepsIndexed(o, p.fifo, p.exist, info);
    DropRemoves(p.fifo, p.exist[info]);
    DropTotal(p.fifo, p.exist[info]);
    MoveKeepsWindowed(p.(fifo := Drop(p.fifo, p.exist[info])), info);
  }

  lemma {:induction false} RemoveKeepsGood(o: Options, p: Pool, info: Info)
    requires Good(o, p)
    ensures Good(o, Remove(p, info).0)
  {
    if info in p.exist {
      DeleteKeepsParts(o, p, info);
    } else {
      MoveKeepsWindowed(p, info);
      assert p.exist - {info} == p.exist;
    }
  }

  lemma {:induction false} DeleteKeepsGoodClosed(o: Options, p: Pool, info: Info)
    requires Good(o, p) && p.closed && info in p.exist
    ensures Good(o, DeleteRequest(p, info))
  {
    DeleteKeepsParts(o, p, info);
  }

  lemma {:induction false} DeleteEachKeepsGood(o: Options, p: Pool, order: seq<Info>)
    requires Good(o, p) && p.closed
    ensures Good(o, DeleteEach(p, order))
    decreases |order|
  {
    if order != [] {
      if order[0] in p.exist {
        DeleteKeepsGoodClosed(o, p, order[0]);
        DeleteEachKeepsGood(o, DeleteRequest(p, order[0]), order[1..]);
      } else {
        DeleteEachKeepsGood(o, p, order[1..]);
      }
    }
  }

  lemma {:induction false} DeleteEachLeaves(p: Pool, order: seq<Info>)
    ensures var p' := DeleteEach(p, order);
            p'.exist == p.exist - Range(order) && p'.pending == p.pending && p'.closed == p.closed
    decreases |order|
  {
    if order != [] {
      assert Range(order) == {order[0]} + Range(order[1..]);
      DeleteEachLeaves(if order[0] in p.exist then DeleteRequest(p, order[0]) else p, order[1..]);
    }
  }

  /** The orders in which a map may yield the live ids. */
  predicate Order(p: Pool, order: seq<Info>) {
    multiset(order) == multiset(p.exist.Keys)
  }

  /** Closing empties the pool, remembers every id it held, and leaves only the permits of pending submissions. */
  lemma {:induction false} CloseEmpties(o: Options, p: Pool, order: seq<Info>)
    requires Good(o, p) && Order(p, order)
    ensures var p' := Close(p, order);
            Good(o, p') && p'.closed && p'.fifo == [] && p'.exist == map[] && p'.held == |p'.pending|
  {
    DeleteEachKeepsGood(o, p.(closed := true), order);
    DeleteEachLeaves(p.(closed := true), order);
    forall i | i in p.exist ensures i in Range(order) {
      assert i in multiset(p.exist.Keys);
    }
    assert Close(p, order).exist == map[];
    IndexHasSizeOfQueue(o, Close(p, order).fifo, map[]);
  }

  lemma {:induction false} EraseKeepsGood(o: Options, p: Pool)
    requires Good(o, p)
    ensures Good(o, Erase(p))
  {
  }

  // ---- runs ----

  datatype Op =
    | BeginSubmit(r: Bytes)
    | FinishSubmit(r: Bytes)
    | RemoveRequest(info: Info)
    | EraseOld
    | CloseAll(order: seq<Info>)

  function Apply(o: Options, p: Pool, op: Op): Pool {
    match op
    case BeginSubmit(r) => Begin(o, p, r).0
    case FinishSubmit(r) => Finish(o, p, r).0
    case RemoveRequest(info) => Remove(p, info).0
    case EraseOld => Erase(p)
    case CloseAll(order) => if Order(p, order) then Close(p, order) else p
  }

  function Run(o: Options, p: Pool, ops: seq<Op>): Pool {
    if ops == [] then p else Apply(o, Run(o, p, ops[..|ops| - 1]), ops[|ops| - 1])
  }

  lemma {:induction false} RunSnoc(o: Options, p: Pool, ops: seq<Op>, op: Op)
    ensures Run(o, p, ops + [op]) == Apply(o, Run(o, p, ops), op)
  {
    assert (ops + [op])[..|ops|] == ops;
  }

  lemma {:induction false} ApplyKeepsGood(o: Options, p: Pool, op: Op)
    requires Good(o, p)
    ensures Good(o, Apply(o, p, op))
  {
    match op {
      case BeginSubmit(r) => BeginKeepsGood(o, p, r);
      case FinishSubmit(r) => FinishKeepsGood(o, p, r);
      case RemoveRequest(info) => RemoveKeepsGood(o, p, info);
      case EraseOld => EraseKeepsGood(o, p);
      case CloseAll(order) =>
        if Order(p, order) {
          CloseEmpties(o, p, order);
        }
    }
  }

  /** A pool keeps queue and index in bijection, the permits accounted for, live and removed ids apart, and, until it
      is closed, the byte count exact. */
  lemma {:induction false} RunIsGood(o: Options, p: Pool, ops: seq<Op>)
    requires Good(o, p)
    ensures Good(o, Run(o, p, ops))
  {
    if ops != [] {
      RunIsGood(o, p, ops[..|ops| - 1]);
      ApplyKeepsGood(o, Run(o, p, ops[..|ops| - 1]), ops[|ops| - 1]);
    }
  }

  lemma {:induction false} EmptyIsGood(o: Options)
    ensures Good(o, EMPTY)
  {
  }

  // ---- removed ids stay refused ----

  function RemovedBy(op: Op): set<Info> {
    match op
    case RemoveRequest(info) => {info}
    case CloseAll(order) => Range(order)
    case _ => {}
  }

  /** The ids that the operations remove. */
  function Removed(ops: seq<Op>): set<Info> {
    if ops == [] then {} else Removed(ops[..|ops| - 1]) + RemovedBy(ops[|ops| - 1])
  }

  /** The id is remembered at position i, and only the given ids come after it. */
  ghost predicate RememberedAt(p: Pool, info: Info, i: int, others: set<Info>) {
    0 <= i < |p.delSlice| && p.delSlice[i] == info && forall j :: i < j < |p.delSlice| ==> p.delSlice[j] in others
  }

  lemma {:induction false} DistinctFit<T>(s: seq<T>, others: set<T>)
    requires Distinct(s) && forall x :: x in s ==> x in others
    ensures |s| <= |others|
  {
    if s != [] {
      DistinctFit(s[1..], others - {s[0]});
    }
  }

  /** The eraser forgets an id exactly when at least a thousand ids come after it. */
  lemma {:induction false} ErasedExactly(p: Pool, info: Info, i: nat)
    requires Windowed(p) && i < |p.delSlice| && p.delSlice[i] == info
    ensures info in Erase(p).deleted <==> |p.delSlice| - 1 - i < WINDOW
  {
    if |p.delSlice| > WINDOW {
      var gone := p.delSlice[..|p.delSlice| - WINDOW];
      if i < |gone| {
        assert gone[i] == info;
      }
    }
  }

  lemma {:induction false} MovedIsRemembered(p: Pool, info: Info, other: Info, i: int, others: set<Info>)
    requires RememberedAt(p, info, i, others) && (other in others || other in p.deleted)
    ensures RememberedAt(MoveToDeleted(p, other), info, i, others)
  {
  }

  lemma {:induction false} DeleteEachRemembers(o: Options, p: Pool, order: seq<Info>, info: Info, i: int,
      others: set<Info>)
    requires Good(o, p) && p.closed && RememberedAt(p, info, i, others) && Range(order) <= others + {info}
    ensures RememberedAt(DeleteEach(p, order), info, i, others)
    decreases |order|
  {
    if order != [] {
      assert order[0] in Range(order);
      var p1 := if order[0] in p.exist then DeleteRequest(p, order[0]) else p;
      if order[0] in p.exist {
        assert info in p.deleted;
        DeleteKeepsParts(o, p, order[0]);
      }
      DeleteEachRemembers(o, p1, order[1..], info, i, others);
    }
  }

  lemma {:induction false} EraseRemembers(p: Pool, info: Info, i: int, others: set<Info>) returns (i': int)
    requires Windowed(p) && RememberedAt(p, info, i, others) && |others| < WINDOW
    ensures RememberedAt(Erase(p), info, i', others)
  {
    i' := i;
    if |p.delSlice| > WINDOW {
      var later := p.delSlice[i + 1..];
      forall a, b | 0 <= a < b < |later| ensures later[a] != later[b] {
        assert later[a] == p.delSlice[i + 1 + a] && later[b] == p.delSlice[i + 1 + b];
      }
      DistinctFit(later, others);
      i' := i - (|p.delSlice| - WINDOW);
    }
  }

  lemma {:induction false} ApplyRemembers(o: Options, p: Pool, op: Op, info: Info, i: int, others: set<Info>)
      returns (i': int)
    requires Good(o, p) && RememberedAt(p, info, i, others) && |others| < WINDOW && RemovedBy(op) <= others + {info}
    ensures RememberedAt(Apply(o, p, op), info, i', others)
  {
    i' := i;
    match op {
      case EraseOld => i' := EraseRemembers(p, info, i, others);
      case RemoveRequest(other) =>
        assert info in p.deleted;
        assert other in RemovedBy(op);
        MovedIsRemembered(p, info, other, i, others);
      case CloseAll(order) => DeleteEachRemembers(o, p.(closed := true), order, info, i, others);
      case _ =>
    }
  }

  lemma {:induction false} RunRemembers(o: Options, p: Pool, ops: seq<Op>, info: Info, i: int, others: set<Info>)
    returns (i': int)
    requires Good(o, p) && RememberedAt(p, info, i, others) && |others| < WINDOW
    requires Removed(ops) <= others + {info}
    ensures RememberedAt(Run(o, p, ops), info, i', others)
  {
    if ops == [] {
      i' := i;
    } else {
      var init, last := ops[..|ops| - 1], ops[|ops| - 1];
      i' := RunRemembers(o, p, init, info, i, others);
      RunIsGood(o, p, init);
      i' := ApplyRemembers(o, Run(o, p, init), last, info, i', others);
    }
  }

  /** In a pool in order, a request is refused as processed exactly while its id is remembered. */
  lemma {:induction false} RefusedWhileRemembered(o: Options, p: Pool, r: Bytes)
    requires Good(o, p)
    ensures Refusal(o, p, r) == AlreadyProcessed <==> o.inspect(r) in p.deleted
  {
  }

  /** The removal to come is the latest: the id is not remembered yet, or nothing was removed after it. */
  predicate Latest(p: Pool, info: Info) {
    info !in p.deleted || (p.delSlice != [] && p.delSlice[|p.delSlice| - 1] == info)
  }

  /** An id whose removal is the latest is refused as processed until a thousand other ids are removed after it,
      whatever else happens. */
  lemma {:induction false} RemovedIsRefused(o: Options, p: Pool, ops: seq<Op>, r: Bytes)
    requires Good(o, p) && Latest(p, o.inspect(r)) && |Removed(ops) - {o.inspect(r)}| < WINDOW
    ensures var now := Run(o, Remove(p, o.inspect(r)).0, ops);
            && Refusal(o, now, r) == AlreadyProcessed
            && (!now.closed && |r| <= o.requestMaxBytes ==> Begin(o, now, r) == (now, AlreadyProcessed))
  {
    var info := o.inspect(r);
    var p1 := Remove(p, info).0;
    RemoveKeepsGood(o, p, info);
    LatestIsLast(p, info);
    var i := RunRemembers(o, p1, ops, info, |p1.delSlice| - 1, Removed(ops) - {info});
    RunIsGood(o, p1, ops);
    RefusedWhileRemembered(o, Run(o, p1, ops), r);
  }

  lemma {:induction false} LatestIsLast(p: Pool, info: Info)
    requires Windowed(p) && Latest(p, info)
    ensures var p1 := Remove(p, info).0; p1.delSlice != [] && p1.delSlice[|p1.delSlice| - 1] == info
  {
  }

  // ---- and only those do ----

  function Zeros(n: nat): (b: Bytes)
    ensures |b| == n
  {
    if n == 0 then [] else Zeros(n - 1) + [0]
  }

  /** Ids longer than a given length, one for each number. */
  function FreshId(longest: nat, k: nat): Info {
    Info([], Zeros(longest + 1 + k))
  }

  function Longest(ids: seq<Info>): (n: nat)
    ensures forall x :: x in ids ==> |x.id| <= n
  {
    if ids == [] then 0
    else
      var before, last := Longest(ids[..|ids| - 1]), ids[|ids| - 1];
      if |last.id| > before then |last.id| else before
  }

  function FreshIds(longest: nat, n: nat): (ids: seq<Info>)
    ensures |ids| == n && forall x :: x in ids ==> longest < |x.id| <= longest + n
  {
    if n == 0 then [] else FreshIds(longest, n - 1) + [FreshId(longest, n - 1)]
  }

  function FreshRemovals(longest: nat, n: nat): seq<Op> {
    if n == 0 then [] else FreshRemovals(longest, n - 1) + [RemoveRequest(FreshId(longest, n - 1))]
  }

  lemma {:induction false} RemovedSnoc(ops: seq<Op>, op: Op)
    ensures Removed(ops + [op]) == Removed(ops) + RemovedBy(op)
  {
    assert (ops + [op])[..|ops|] == ops;
  }

  lemma {:induction false} FewRemoved(longest: nat, n: nat)
    ensures |Removed(FreshRemovals(longest, n))| <= n
  {
    if n > 0 {
      FewRemoved(longest, n - 1);
      RemovedSnoc(FreshRemovals(longest, n - 1), RemoveRequest(FreshId(longest, n - 1)));
    }
  }

  lemma {:induction false} RemovalQueuesUp(p: Pool, info: Info)
    requires Windowed(p) && info !in p.delSlice
    ensures Remove(p, info).0.delSlice == p.delSlice + [info]
  {
  }

  lemma {:induction false} OneMoreQueuesUp(o: Options, p: Pool, ops: seq<Op>, ids: seq<Info>, next: Info)
    requires Good(o, p) && Run(o, p, ops).delSlice == p.delSlice + ids && next !in p.delSlice && next !in ids
    ensures Run(o, p, ops + [RemoveRequest(next)]).delSlice == p.delSlice + (ids + [next])
  {
    RunIsGood(o, p, ops);
    RunSnoc(o, p, ops, RemoveRequest(next));
    RemovalQueuesUp(Run(o, p, ops), next);
  }

  lemma {:induction false} FreshIdsQueueUp(o: Options, p: Pool, longest: nat, n: nat)
    requires Good(o, p) && forall x :: x in p.delSlice ==> |x.id| <= longest
    ensures Run(o, p, FreshRemovals(longest, n)).delSlice == p.delSlice + FreshIds(longest, n)
  {
    if n > 0 {
      FreshIdsQueueUp(o, p, longest, n - 1);
      OneMoreQueuesUp(o, p, FreshRemovals(longest, n - 1), FreshIds(longest, n - 1), FreshId(longest, n - 1));
    }
  }

  /** The operations that make a pool forget what was removed before its latest removal: a thousand less one removals,
      one sweep. */
  function Forgetting(p: Pool): seq<Op> {
    FreshRemovals(Longest(p.delSlice), WINDOW - 1) + [EraseOld]
  }

  lemma {:induction false} EarlierIsForgotten(o: Options, p: Pool, i: nat)
    requires Good(o, p) && i < |p.delSlice| - 1
    ensures |Removed(Forgetting(p))| < WINDOW && p.delSlice[i] !in Run(o, p, Forgetting(p)).deleted
  {
    var ops := FreshRemovals(Longest(p.delSlice), WINDOW - 1);
    RunSnoc(o, p, ops, EraseOld);
    RemovedSnoc(ops, EraseOld);
    FewRemoved(Longest(p.delSlice), WINDOW - 1);
    FreshIdsQueueUp(o, p, Longest(p.delSlice), WINDOW - 1);
    RunIsGood(o, p, ops);
    ErasedExactly(Run(o, p, ops), p.delSlice[i], i);
  }

  /** A removed id is refused in every continuation that removes fewer than a thousand other ids. */
  ghost predicate StaysRefused(o: Options, p: Pool, r: Bytes) {
    forall ops :: |Removed(ops) - {o.inspect(r)}| < WINDOW ==> Refusal(o, Run(o, p, ops), r) == AlreadyProcessed
  }

  /** ... exactly when its removal is the latest: removing an id again, with others removed in between, does not
      extend its stay. */
  lemma {:induction false} RefusedExactlyWhenLatest(o: Options, p: Pool, r: Bytes)
    requires Good(o, p)
    ensures StaysRefused(o, Remove(p, o.inspect(r)).0, r) <==> Latest(p, o.inspect(r))
  {
    var info := o.inspect(r);
    var p1 := Remove(p, info).0;
    if Latest(p, info) {
      forall ops | |Removed(ops) - {info}| < WINDOW ensures Refusal(o, Run(o, p1, ops), r) == AlreadyProcessed {
        RemovedIsRefused(o, p, ops, r);
      }
    } else {
      assert p1 == p;
      var i :| 0 <= i < |p.delSlice| && p.delSlice[i] == info;
      EarlierIsForgotten(o, p, i);
      RunIsGood(o, p, Forgetting(p));
      assert Refusal(o, Run(o, p1, Forgetting(p)), r) != AlreadyProcessed;
      WithoutOneIsSmaller(Removed(Forgetting(p)), info);
    }
  }

  lemma {:induction false} WithoutOneIsSmaller(s: set<Info>, x: Info)
    ensures |s - {x}| <= |s|
  {
    if x in s {
      assert s == (s - {x}) + {x};
    } else {
      assert s - {x} == s;
    }
  }

  // ---- batches ----

  lemma {:induction false} TotalGrows(fifo: seq<Bytes>, j: nat, k: nat)
    requires j <= k <= |fifo|
    ensures Total(fifo[..j]) <= Total(fifo[..k])
  {
    assert fifo[..k] == fifo[..j] + fifo[j..k];
    TotalSplits(fifo[..j], fifo[j..k]);
  }

  lemma {:induction false} BatchFromIsLongest(fifo: seq<Bytes>, maxCount: nat, maxBytes: nat, k: nat, j: nat)
    requires k <= |fifo| && k <= maxCount && Total(fifo[..k]) <= maxBytes && j <= |fifo|
    ensures var m := BatchFrom(fifo, maxCount, maxBytes, k);
            && m <= maxCount && Total(fifo[..m]) <= maxBytes
            && (j <= maxCount && Total(fifo[..j]) <= maxBytes ==> j <= m)
    decreases |fifo| - k
  {
    if k < |fifo| && k < maxCount && Total(fifo[..k + 1]) <= maxBytes {
      BatchFromIsLongest(fifo, maxCount, maxBytes, k + 1, j);
    } else if k < j && k < |fifo| {
      TotalGrows(fifo, k + 1, j);
    }
  }

  /** A batch is within both limits, and no longer prefix of the queue is. */
  lemma {:induction false} BatchIsLongest(fifo: seq<Bytes>, maxCount: nat, maxBytes: nat, j: nat)
    requires j <= |fifo|
    ensures var b := Batch(fifo, maxCount, maxBytes);
            && b <= fifo && |b| <= maxCount && Total(b) <= maxBytes
            && (j <= maxCount && Total(fifo[..j]) <= maxBytes ==> j <= |b|)
  {
    assert fifo[..0] == [];
    BatchFromIsLongest(fifo, maxCount, maxBytes, 0, j);
  }

  /** A batch is determined by being the longest. */
  lemma {:induction false} BatchIsUnique(fifo: seq<Bytes>, maxCount: nat, maxBytes: nat, m: nat)
    requires m <= |fifo| && m <= maxCount && Total(fifo[..m]) <= maxBytes
    requires m < |fifo| && m < maxCount ==> Total(fifo[..m + 1]) > maxBytes
    ensures Batch(fifo, maxCount, maxBytes) == fifo[..m]
  {
    var b := |Batch(fifo, maxCount, maxBytes)|;
    BatchIsLongest(fifo, maxCount, maxBytes, m);
    if m < b {
      TotalGrows(fifo, m + 1, b);
    }
  }

  ghost predicate NonEmpty(rs: seq<Bytes>) {
    forall i :: 0 <= i < |rs| ==> rs[i] != []
  }

  /** A full batch is final: later submissions of non-empty requests do not change it. */
  lemma {:induction false} FullBatchIsFinal(fifo: seq<Bytes>, more: seq<Bytes>, maxCount: nat, maxBytes: nat)
    requires Full(fifo, maxCount, maxBytes) && NonEmpty(more)
    ensures Batch(fifo + more, maxCount, maxBytes) == Batch(fifo, maxCount, maxBytes)
  {
    var all, m := fifo + more, |Batch(fifo, maxCount, maxBytes)|;
    BatchIsLongest(fifo, maxCount, maxBytes, if m < |fifo| then m + 1 else m);
    assert all[..m] == fifo[..m];
    if m < |all| && m < maxCount {
      if m < |fifo| {
        assert all[..m + 1] == fifo[..m + 1];
      } else {
        assert all[..m + 1] == fifo + [more[0]];
        assert (fifo + [more[0]])[..m] == fifo && fifo[..m] == fifo;
      }
    }
    BatchIsUnique(all, maxCount, maxBytes, m);
  }

  /** Only an empty request can still join a full batch, exactly when the batch is the whole queue, fills the byte
      limit and leaves room for one more. */
  lemma {:induction false} EmptyRequestJoins(fifo: seq<Bytes>, r: Bytes, maxCount: nat, maxBytes: nat)
    requires Full(fifo, maxCount, maxBytes)
    ensures Batch(fifo + [r], maxCount, maxBytes) != Batch(fifo, maxCount, maxBytes)
       <==> r == [] && |fifo| < maxCount && Total(fifo) == maxBytes
  {
    if r != [] {
      FullBatchIsFinal(fifo, [r], maxCount, maxBytes);
    } else if |fifo| < maxCount && Total(fifo) == maxBytes {
      WholeQueueJoins(fifo, maxCount, maxBytes);
    } else {
      EmptyRequestStays(fifo, maxCount, maxBytes);
    }
  }

  lemma {:induction false} WholeQueueJoins(fifo: seq<Bytes>, maxCount: nat, maxBytes: nat)
    requires |fifo| < maxCount && Total(fifo) == maxBytes
    ensures Batch(fifo + [[]], maxCount, maxBytes) != Batch(fifo, maxCount, maxBytes)
  {
    var all := fifo + [[]];
    assert all[..|fifo|] == fifo && all[..|all|] == all;
    BatchIsUnique(all, maxCount, maxBytes, |all|);
  }

  lemma {:induction false} EmptyRequestStays(fifo: seq<Bytes>, maxCount: nat, maxBytes: nat)
    requires Full(fifo, maxCount, maxBytes) && !(|fifo| < maxCount && Total(fifo) == maxBytes)
    ensures Batch(fifo + [[]], maxCount, maxBytes) == Batch(fifo, maxCount, maxBytes)
  {
    var all, m := fifo + [[]], |Batch(fifo, maxCount, maxBytes)|;
    BatchIsLongest(fifo, maxCount, maxBytes, if m < |fifo| then m + 1 else m);
    assert all[..m] == fifo[..m] && fifo[..|fifo|] == fifo;
    if m < |fifo| {
      assert all[..m + 1] == fifo[..m + 1];
    }
    BatchIsUnique(all, maxCount, maxBytes, m);
  }

  /** With positive limits, of which the byte limit admits every single request, a full batch holds at least one
      request. */
  lemma {:induction false} FullBatchIsNotEmpty(o: Options, p: Pool, maxCount: nat, maxBytes: nat)
    requires Good(o, p) && maxCount > 0 && maxBytes > 0 && o.requestMaxBytes <= maxBytes
             && Full(p.fifo, maxCount, maxBytes)
    ensures Batch(p.fifo, maxCount, maxBytes) != []
  {
    assert p.fifo != [];
    assert p.fifo[..1][..0] == [] && p.fifo[..1][0] in p.fifo;
    assert Total(p.fifo[..1]) == Total([]) + |p.fifo[0]|;
    BatchIsLongest(p.fifo, maxCount, maxBytes, 1);
  }
}
