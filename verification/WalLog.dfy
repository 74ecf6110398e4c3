/** What the write-ahead log promises: whatever the file-size limit, it behaves like a list of entries that truncation
    marks empty and that survives closing and opening. */
module WalLog {
  import opened Messages
  import opened WalFormat
  import opened WalModel

  // ---- the listing of a directory ----

  ghost predicate Greatest(s: set<nat>, m: nat) {
    m in s && forall x :: x in s ==> x <= m
  }

  lemma {:induction false} HasGreatest(s: set<nat>)
    requires s != {}
    ensures exists m :: Greatest(s, m)
  {
    var x :| x in s;
    var rest := s - {x};
    assert s == rest + {x};
    if rest == {} {
      assert Greatest(s, x);
    } else {
      HasGreatest(rest);
      var m :| Greatest(rest, m);
      assert Greatest(s, if m < x then x else m);
    }
  }

  /** The file indexes of a directory in increasing order. */
  ghost function Listing(s: set<nat>): seq<nat> {
    if s == {} then []
    else
      HasGreatest(s);
      var m :| Greatest(s, m);
      Listing(s - {m}) + [m]
  }

  lemma {:induction false} ListingOfInterval(s: set<nat>, lo: nat, n: nat)
    requires forall x :: x in s <==> lo <= x < lo + n
    ensures |Listing(s)| == n && forall i :: 0 <= i < n ==> Listing(s)[i] == lo + i
  {
    if n > 0 {
      assert lo + n - 1 in s;
      HasGreatest(s);
      assert forall m :: Greatest(s, m) ==> m == lo + n - 1;
      ListingOfInterval(s - {lo + n - 1}, lo, n - 1);
    }
  }

  lemma {:induction false} ListingIsActive(disk: Disk, active: seq<nat>)
    requires Numbered(disk, active)
    ensures Listing(disk.Keys) == active
  {
    ListingOfInterval(disk.Keys, active[0], |active|);
  }

  // ---- operations on the files ----

  datatype Op =
    | Append(data: Bytes, truncateTo: bool)
    | TruncateTo
    | Close
    | Open
    | ReadEntries

  const TRUNCATE := Record(Control, true, [])

  ghost function Step(c: Codec, limit: int, w: Wal, op: Op): Answer {
    match op
    case Append(data, truncateTo) =>
      if data == [] then Answer(w, Err(EmptyData)) else AppendRecord(c, limit, w, Record(Entry, truncateTo, data))
    case TruncateTo => AppendRecord(c, limit, w, TRUNCATE)
    case Close => Answer(w.(mode := Closed), Done)
    case Open => if w.disk == map[] then Answer(w, Err(Failed)) else OpenNamed(c, w.disk, Listing(w.disk.Keys))
    case ReadEntries => ReadAll(c, w)
  }

  // ---- the log it stands for ----

  datatype Log = Log(mode: Mode, live: seq<Bytes>)
  datatype Reply = Reply(log: Log, result: Result)

  function Add(log: Log, r: Record, fits: bool): Reply {
    match log.mode
    case Closed => Reply(log, Err(IsClosed))
    case Reading => Reply(log, Err(IsReadOnly))
    case Writing => if fits then Reply(log.(live := Collect(log.live, r)), Done) else Reply(log, Err(TooBig))
  }

  function Simple(c: Codec, log: Log, op: Op): Reply {
    match op
    case Append(data, truncateTo) =>
      if data == [] then Reply(log, Err(EmptyData))
      else Add(log, Record(Entry, truncateTo, data), |c.marshal(Record(Entry, truncateTo, data))| < TWO_32)
    case TruncateTo => Add(log, TRUNCATE, |c.marshal(TRUNCATE)| < TWO_32)
    case Close => Reply(log.(mode := Closed), Done)
    case Open => Reply(log.(mode := Reading), Done)
    case ReadEntries =>
      match log.mode
      case Closed => Reply(log, Err(IsClosed))
      case Writing => Reply(log, Err(IsWriteOnly))
      case Reading => Reply(log.(mode := Writing), Items(log.live))
  }

  // ---- the records behind the files ----

  /** How many of the records ever written are not in the last file. */
  function Earlier(parts: seq<Part>, history: seq<Record>): int
    requires parts != []
  {
    |history| - |parts[|parts| - 1].records|
  }

  /** One more record in the last file. */
  function Longer(parts: seq<Part>, r: Record): seq<Part>
    requires parts != []
  {
    var last := parts[|parts| - 1];
    parts[..|parts| - 1] + [last.(records := last.records + [r])]
  }

  /** The last file ends the history, and the files before it hold what a reader is owed of the rest. */
  ghost predicate Kept(parts: seq<Part>, history: seq<Record>) {
    && parts != [] && Earlier(parts, history) >= 0
    && var last, k := parts[|parts| - 1], Earlier(parts, history);
       && last.tail == [] && last.records == history[k..]
       && CollectAll([], AllRecords(parts[..|parts| - 1])) == CollectAll([], history[..k])
  }

  lemma {:induction false} OwedOfPrefix(a: seq<Record>, history: seq<Record>, k: nat, n: nat)
    requires k + n <= |history| && CollectAll([], a) == CollectAll([], history[..k])
    ensures CollectAll([], a + history[k..k + n]) == CollectAll([], history[..k + n])
  {
    var more := history[k..k + n];
    CollectSplits([], a, more);
    CollectSplits([], history[..k], more);
    assert history[..k] + more == history[..k + n];
  }

  /** Of a history the files end with, any part of the last file can be missing. */
  lemma {:induction false} LiveOfShortened(parts: seq<Part>, history: seq<Record>, last: Part, n: nat)
    requires Kept(parts, history) && n <= |parts[|parts| - 1].records|
             && last.records == parts[|parts| - 1].records[..n]
    ensures Live(parts[..|parts| - 1] + [last]) == CollectAll([], history[..Earlier(parts, history) + n])
  {
    var k, init := Earlier(parts, history), parts[..|parts| - 1];
    OwedOfPrefix(AllRecords(init), history, k, n);
    assert (init + [last])[..|init|] == init;
    assert last.records == history[k..k + n];
  }

  lemma {:induction false} LiveOfKept(parts: seq<Part>, history: seq<Record>)
    requires Kept(parts, history)
    ensures Live(parts) == CollectAll([], history)
  {
    var last := parts[|parts| - 1];
    assert last.records[..|last.records|] == last.records && history[..|history|] == history;
    LiveOfShortened(parts, history, last, |last.records|);
    assert parts[..|parts| - 1] + [last] == parts;
  }

  lemma {:induction false} ExtendedIsKept(parts: seq<Part>, history: seq<Record>, r: Record)
    requires Kept(parts, history)
    ensures Kept(Longer(parts, r), history + [r])
  {
    var k, parts' := Earlier(parts, history), Longer(parts, r);
    assert parts'[..|parts'| - 1] == parts[..|parts| - 1];
    assert (history + [r])[k..] == history[k..] + [r] && (history + [r])[..k] == history[..k];
  }

  lemma {:induction false} FreshIsKept(parts: seq<Part>, history: seq<Record>)
    requires Fresh(parts) && Live(parts) == CollectAll([], history)
    ensures Kept(parts, history)
  {
    var init := parts[..|parts| - 1];
    assert AllRecords(parts) == AllRecords(init) + [] == AllRecords(init);
    assert history[..|history|] == history;
  }

  /** The record an operation adds to the log, if any. */
  function Added(c: Codec, mode: Mode, op: Op): seq<Record> {
    match op
    case Append(data, truncateTo) =>
      var r := Record(Entry, truncateTo, data);
      if data != [] && mode.Writing? && |c.marshal(r)| < TWO_32 then [r] else []
    case TruncateTo => if mode.Writing? && |c.marshal(TRUNCATE)| < TWO_32 then [TRUNCATE] else []
    case _ => []
  }

  /** Every record ever written, in order. */
  function Accepted(c: Codec, ops: seq<Op>): seq<Record> {
    if ops == [] then []
    else Accepted(c, ops[..|ops| - 1]) + Added(c, Entries(c, ops[..|ops| - 1]).mode, ops[|ops| - 1])
  }

  /** The first records ever written are those of the first operations. */
  lemma {:induction false} FirstRecords(c: Codec, ops: seq<Op>, k: nat) returns (j: nat)
    requires k <= |Accepted(c, ops)|
    ensures j <= |ops| && Accepted(c, ops[..j]) == Accepted(c, ops)[..k]
  {
    if k == |Accepted(c, ops)| {
      j := |ops|;
      assert ops[..j] == ops;
    } else {
      var init := ops[..|ops| - 1];
      j := FirstRecords(c, init, k);
      assert init[..j] == ops[..j];
      assert Accepted(c, ops)[..k] == Accepted(c, init)[..k];
    }
  }

  // ---- appending ----

  lemma {:induction false} ExtendLast(c: Codec, last: Part, r: Record)
    requires last.tail == [] && PartOk(c, last) && Fits(c, r)
    ensures var last' := last.(records := last.records + [r]);
            && Image(c, last') == Image(c, last) + Frame(c, EndCrc(c, last), r)
            && EndCrc(c, last') == Chain(c, EndCrc(c, last), r)
            && PartOk(c, last')
  {
    var last' := last.(records := last.records + [r]);
    assert Body(last') == Body(last) + [r];
    assert Body(last')[..|Body(last)|] == Body(last);
    FramesOfExtended(c, last.anchor, Body(last), r);
  }

  lemma {:induction false} FramesOfExtended(c: Codec, crc: Word, rs: seq<Record>, r: Record)
    ensures Frames(c, crc, rs + [r]) == Frames(c, crc, rs) + Frame(c, ChainAll(c, crc, rs), r)
    ensures ChainAll(c, crc, rs + [r]) == Chain(c, ChainAll(c, crc, rs), r)
  {
  }

  lemma {:induction false} HoldsToo(c: Codec, disk: Disk, disk': Disk, active: seq<nat>, parts: seq<Part>,
      parts': seq<Part>, i: nat)
    requires i < |active| == |parts| == |parts'| && Holds(c, disk, active, parts, i)
    requires PartOk(c, parts'[i]) && Contents(disk', active[i]) == Image(c, parts'[i])
             && parts'[i].anchor == parts[i].anchor
    requires i > 0 ==> parts'[i - 1] == parts[i - 1]
    ensures Holds(c, disk', active, parts', i)
  {
  }

  /** Replacing the last part and its file. */
  lemma {:induction false} ReplaceLast(c: Codec, disk: Disk, disk': Disk, active: seq<nat>, parts: seq<Part>,
      last: Part)
    requires active != [] && LaidTo(c, disk, active, parts, |active|) && PartOk(c, last)
    requires last.anchor == parts[|parts| - 1].anchor
    requires forall i :: 0 <= i < |active| - 1 ==> Contents(disk', active[i]) == Contents(disk, active[i])
    requires Contents(disk', active[|active| - 1]) == Image(c, last)
    ensures LaidTo(c, disk', active, parts[..|parts| - 1] + [last], |active|)
  {
    var parts' := parts[..|parts| - 1] + [last];
    forall i | 0 <= i < |parts'| ensures Holds(c, disk', active, parts', i) {
      assert Holds(c, disk, active, parts, i);
      HoldsToo(c, disk, disk', active, parts, parts', i);
    }
  }

  lemma {:induction false} RewriteLast(c: Codec, disk: Disk, active: seq<nat>, parts: seq<Part>, last: Part)
    requires Laid(c, disk, active, parts) && PartOk(c, last) && last.anchor == parts[|parts| - 1].anchor
    ensures Laid(c, disk[active[|active| - 1] := Image(c, last)], active, parts[..|parts| - 1] + [last])
  {
    ReplaceLast(c, disk, disk[active[|active| - 1] := Image(c, last)], active, parts, last);
  }

  lemma {:induction false} LiveGrows(parts: seq<Part>, r: Record)
    requires parts != []
    ensures Live(Longer(parts, r)) == Collect(Live(parts), r)
  {
    var init, last, parts' := parts[..|parts| - 1], parts[|parts| - 1], Longer(parts, r);
    assert parts'[..|parts'| - 1] == init;
    assert AllRecords(parts') == AllRecords(init) + (last.records + [r]) == AllRecords(parts) + [r];
    assert (AllRecords(parts) + [r])[..|AllRecords(parts)|] == AllRecords(parts);
  }

  lemma {:induction false} MarkMoves(w: Wal, parts: seq<Part>, r: Record)
    requires |w.active| == |parts| > 0 && Marked(w.mark, w.active, parts) && w.index == w.active[0] + |w.active| - 1
    ensures Marked(Mark(w.mark, r, w.index), w.active, Longer(parts, r))
  {
    var last := parts[|parts| - 1];
    var rs := last.records + [r];
    assert r.truncateTo ==> rs[|last.records|].truncateTo;
    if HasMark(last.records) {
      var i :| 0 <= i < |last.records| && last.records[i].truncateTo;
      assert rs[i].truncateTo;
    }
  }

  lemma {:induction false} ExtendedIsLaid(c: Codec, w: Wal, parts: seq<Part>, r: Record)
    requires Laid(c, w.disk, w.active, parts) && Ready(c, w, parts[|parts| - 1]) && Fits(c, r)
    ensures Laid(c, Extend(c, w, r).disk, w.active, Longer(parts, r))
    ensures Extend(c, w, r).crc == EndCrc(c, Longer(parts, r)[|parts| - 1])
  {
    var last := parts[|parts| - 1];
    assert Holds(c, w.disk, w.active, parts, |parts| - 1);
    ExtendLast(c, last, r);
    RewriteLast(c, w.disk, w.active, parts, last.(records := last.records + [r]));
  }

  lemma {:induction false} ExtendKeeps(c: Codec, w: Wal, parts: seq<Part>, r: Record)
    requires Lawful(c) && Valid(c, w, parts) && w.mode.Writing? && Fits(c, r)
    ensures Valid(c, Extend(c, w, r), Longer(parts, r)) && Live(Longer(parts, r)) == Collect(Live(parts), r)
  {
    ExtendedIsLaid(c, w, parts, r);
    LiveGrows(parts, r);
    MarkMoves(w, parts, r);
  }

  lemma {:induction false} SwitchIfFullKeeps(c: Codec, limit: int, w: Wal, parts: seq<Part>,
      history: seq<Record>) returns (parts': seq<Part>)
    requires Lawful(c) && Valid(c, w, parts) && Kept(parts, history) && w.mode.Writing?
    ensures Valid(c, SwitchIfFull(c, limit, w), parts') && SwitchIfFull(c, limit, w).mode.Writing?
    ensures Live(parts') == Live(parts) && Kept(parts', history)
  {
    parts' := parts;
    if |Contents(w.disk, w.index)| > limit - 16 {
      parts' := SwitchKeepsValid(c, w, parts);
      LiveOfKept(parts, history);
      FreshIsKept(parts', history);
    }
  }

  lemma {:induction false} AppendKeeps(c: Codec, limit: int, w: Wal, parts: seq<Part>, history: seq<Record>,
      r: Record) returns (parts': seq<Part>)
    requires Lawful(c) && Valid(c, w, parts) && Kept(parts, history) && w.mode.Writing? && Fits(c, r)
    ensures var w' := SwitchIfFull(c, limit, Extend(c, w, r)); Valid(c, w', parts') && w'.mode.Writing?
    ensures Live(parts') == Collect(Live(parts), r) && Kept(parts', history + [r])
  {
    ExtendKeeps(c, w, parts, r);
    ExtendedIsKept(parts, history, r);
    parts' := SwitchIfFullKeeps(c, limit, Extend(c, w, r), Longer(parts, r), history + [r]);
  }

  // ---- opening and reading ----

  lemma {:induction false} AnchorOf(c: Codec, p: Part)
    requires Lawful(c)
    ensures ReadAnchor(c, Image(c, p)).Some?
  {
    FirstFrame(c, p.anchor, p.records);
    var first := Frame(c, p.anchor, ANCHOR);
    assert Image(c, p) == first + Image(c, p)[|first|..];
    AnchorReadsBack(c, p, Image(c, p)[|first|..]);
  }

  lemma {:induction false} FilesPass(names: seq<nat>, readable: set<nat>, i: nat)
    requires i <= |names| && forall k :: 0 <= k < |names| ==> names[k] == names[0] + k
    requires forall k :: 0 <= k < |names| ==> names[k] in readable
    ensures CheckFiles(names, readable, i).None?
    decreases |names| - i
  {
    if i < |names| {
      FilesPass(names, readable, i + 1);
    }
  }

  lemma {:induction false} LaidAnchors(c: Codec, disk: Disk, active: seq<nat>, parts: seq<Part>, m: nat)
    requires Lawful(c) && LaidTo(c, disk, active, parts, m)
    ensures forall k :: 0 <= k < m ==> active[k] in Readable(c, disk, active)
  {
    forall k | 0 <= k < m ensures active[k] in Readable(c, disk, active) {
      assert Holds(c, disk, active, parts, k);
      AnchorOf(c, parts[k]);
    }
  }

  lemma {:induction false} OpenKeeps(c: Codec, limit: int, w: Wal, parts: seq<Part>)
    requires Lawful(c) && Laid(c, w.disk, w.active, parts)
    ensures Step(c, limit, w, Open) == Answer(Wal(w.disk, w.active, w.active[0], 0, 0, Reading), Done)
  {
    assert w.active[0] in w.disk;
    ListingIsActive(w.disk, w.active);
    LaidAnchors(c, w.disk, w.active, parts, |w.active|);
    FilesPass(w.active, Readable(c, w.disk, w.active), 0);
  }

  /** The handle after the file loop of ReadAll went through, before it moves to a new file. */
  lemma {:induction false} LoopReads(c: Codec, w: Wal, parts: seq<Part>)
    requires Lawful(c) && Laid(c, w.disk, w.active, parts) && Marked(w.mark, w.active, parts)
    ensures var p := ReadFiles(c, w.disk, w.active, 0, Progress([], w.crc, w.mark, w.index, None));
            && p.error.None? && p.items == Live(parts)
            && p.crc == EndCrc(c, parts[|parts| - 1]) && p.index == w.active[|w.active| - 1]
            && Marked(p.mark, w.active, parts)
  {
    var n := |w.active|;
    FilesRead(c, w.disk, w.active, parts, n, Progress([], w.crc, w.mark, w.index, None));
    assert parts[..n] == parts;
    MarkStays(w.mark, w.active, parts, n);
  }

  lemma {:induction false} ReadKeeps(c: Codec, w: Wal, parts: seq<Part>) returns (parts': seq<Part>)
    requires Lawful(c) && Laid(c, w.disk, w.active, parts) && Marked(w.mark, w.active, parts) && w.mode.Reading?
    ensures Valid(c, ReadAll(c, w).wal, parts') && ReadAll(c, w).wal.mode.Writing? && Live(parts') == Live(parts)
            && Fresh(parts')
    ensures ReadAll(c, w).result == Items(Live(parts))
  {
    LoopReads(c, w, parts);
    var p := ReadFiles(c, w.disk, w.active, 0, Progress([], w.crc, w.mark, w.index, None));
    parts' := SwitchKeepsValid(c, w.(crc := p.crc, mark := p.mark, index := p.index, mode := Writing), parts);
  }

  // ---- the refinement ----

  ghost predicate StandsFor(c: Codec, w: Wal, parts: seq<Part>, log: Log) {
    Valid(c, w, parts) && w.mode == log.mode && Live(parts) == log.live
  }

  lemma {:induction false} AddRefines(c: Codec, limit: int, w: Wal, parts: seq<Part>, log: Log, history: seq<Record>,
      r: Record) returns (parts': seq<Part>)
    requires Lawful(c) && StandsFor(c, w, parts, log) && Kept(parts, history) && Writable(r)
    ensures var reply := Add(log, r, |c.marshal(r)| < TWO_32);
            AppendRecord(c, limit, w, r).result == reply.result
                && StandsFor(c, AppendRecord(c, limit, w, r).wal, parts', reply.log)
    ensures Kept(parts', history + if log.mode.Writing? && |c.marshal(r)| < TWO_32 then [r] else [])
  {
    if w.mode.Writing? && |c.marshal(r)| < TWO_32 {
      parts' := AppendKeeps(c, limit, w, parts, history, r);
    } else {
      parts' := parts;
      assert history + [] == history;
    }
  }

  lemma {:induction false} StepRefines(c: Codec, limit: int, w: Wal, parts: seq<Part>, log: Log, history: seq<Record>,
      op: Op) returns (parts': seq<Part>)
    requires Lawful(c) && StandsFor(c, w, parts, log) && Kept(parts, history)
    ensures Step(c, limit, w, op).result == Simple(c, log, op).result
    ensures StandsFor(c, Step(c, limit, w, op).wal, parts', Simple(c, log, op).log)
    ensures Kept(parts', history + Added(c, log.mode, op))
  {
    assert history + [] == history;
    match op {
      case Append(data, truncateTo) =>
        if data == [] {
          parts' := parts;
        } else {
          parts' := AddRefines(c, limit, w, parts, log, history, Record(Entry, truncateTo, data));
        }
      case TruncateTo => parts' := AddRefines(c, limit, w, parts, log, history, TRUNCATE);
      case Close => parts' := parts;
      case Open =>
        OpenKeeps(c, limit, w, parts);
        parts' := parts;
      case ReadEntries =>
        if w.mode.Reading? {
          parts' := ReadKeeps(c, w, parts);
          LiveOfKept(parts, history);
          FreshIsKept(parts', history);
        } else {
          parts' := parts;
        }
    }
  }

  ghost function Files(c: Codec, limit: int, ops: seq<Op>): Wal {
    if ops == [] then Create(c) else Step(c, limit, Files(c, limit, ops[..|ops| - 1]), ops[|ops| - 1]).wal
  }

  function Entries(c: Codec, ops: seq<Op>): Log {
    if ops == [] then Log(Writing, []) else Simple(c, Entries(c, ops[..|ops| - 1]), ops[|ops| - 1]).log
  }

  lemma {:induction false} RunIsKept(c: Codec, limit: int, ops: seq<Op>) returns (parts: seq<Part>)
    requires Lawful(c)
    ensures StandsFor(c, Files(c, limit, ops), parts, Entries(c, ops)) && Kept(parts, Accepted(c, ops))
  {
    if ops == [] {
      NewFile(c, CRC_SEED);
      parts := [Part(CRC_SEED, [], [])];
      assert AllRecords(parts) == [];
    } else {
      var before := RunIsKept(c, limit, ops[..|ops| - 1]);
      parts := StepRefines(c, limit, Files(c, limit, ops[..|ops| - 1]), before, Entries(c, ops[..|ops| - 1]),
        Accepted(c, ops[..|ops| - 1]), ops[|ops| - 1]);
    }
  }

  lemma {:induction false} RunStandsFor(c: Codec, limit: int, ops: seq<Op>) returns (parts: seq<Part>)
    requires Lawful(c)
    ensures StandsFor(c, Files(c, limit, ops), parts, Entries(c, ops))
  {
    parts := RunIsKept(c, limit, ops);
  }

  /** The list of entries is what a reader is owed of the records. */
  lemma {:induction false} EntriesAreOwed(c: Codec, ops: seq<Op>)
    requires Lawful(c)
    ensures Entries(c, ops).live == CollectAll([], Accepted(c, ops))
  {
    var parts := RunIsKept(c, 0, ops);
    LiveOfKept(parts, Accepted(c, ops));
  }

  /** After any operations, under any file-size limit, every operation answers as the list of entries does. */
  lemma {:induction false} LogRefinesList(c: Codec, limit: int, ops: seq<Op>, op: Op)
    requires Lawful(c)
    ensures Step(c, limit, Files(c, limit, ops), op).result == Simple(c, Entries(c, ops), op).result
  {
    var parts := RunIsKept(c, limit, ops);
    var _ := StepRefines(c, limit, Files(c, limit, ops), parts, Entries(c, ops), Accepted(c, ops), op);
  }
}
