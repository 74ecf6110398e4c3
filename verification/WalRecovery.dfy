/** Recovery of a write-ahead log whose last file was cut at some byte. */
module WalRecovery {
  import opened Messages
  import opened WalFormat
  import opened WalModel
  import opened WalLog

  /** scanVerifyFiles: every file reads to its end, and the checksums chain. */
  predicate Verified(c: Codec, disk: Disk, names: seq<nat>) {
    ReadFiles(c, disk, names, 0, Progress([], 0, 0, 0, None)).error.None?
  }

  /** scanRepairFile: the file as it is when it reads to its end, without what follows the last good record otherwise,
      and not at all when its anchor does not read. */
  function RepairedFile(c: Codec, b: Bytes): Option<Bytes> {
    match ReadAnchor(c, b)
    case None => None
    case Some(a) =>
      var (cur, why) := ReadOn(c, b, 0, Cursor(a.next, a.crc, [], 0));
      Some(if why.End? then b else b[..cur.pos])
  }

  function Repair(c: Codec, disk: Disk, names: seq<nat>): Option<Disk>
    requires names != []
  {
    var last := names[|names| - 1];
    if !Verified(c, disk, names[..|names| - 1]) then None
    else
      match RepairedFile(c, Contents(disk, last))
      case None => Some(disk - {last})
      case Some(b) => Some(disk[last := b])
  }

  ghost function Initialize(c: Codec, disk: Disk): Answer {
    if disk == map[] then Answer(Create(c), Items([]))
    else
      var names := Listing(disk.Keys);
      assert names != [];
      var handle := OpenNamed(c, disk, names);
      if handle.result.Err? then handle
      else
        var read := ReadAll(c, handle.wal);
        if read.result != Err(UnexpectedEnd) then read
        else
          match Repair(c, disk, names)
          case None => Answer(read.wal, Err(Failed))
          case Some(disk') => ReadAll(c, read.wal.(disk := disk'))
  }

  /** The part a cut to n bytes leaves. */
  function CutPart(c: Codec, p: Part, n: nat): Part {
    var k := Whole(c, Body(p), n);
    Part(p.anchor, if k == 0 then [] else p.records[..k - 1], Rest(c, p.anchor, Body(p), n))
  }

  /** A file cut at or after the end of its anchor holds the whole records before the cut, and then some rest. */
  lemma {:induction false} CutFileIs(c: Codec, p: Part, n: nat)
    requires Lawful(c) && AllFit(c, p.records) && p.tail == [] && FrameSize(c, ANCHOR) <= n <= |Image(c, p)|
    ensures Whole(c, Body(p), n) > 0 && Body(CutPart(c, p, n)) == Body(p)[..Whole(c, Body(p), n)]
    ensures Image(c, p)[..n] == Image(c, CutPart(c, p, n))
    ensures Ending(c, CutPart(c, p, n)) == if CleanTail(CutPart(c, p, n).tail) then End else Torn
  {
    var k := Whole(c, Body(p), n);
    assert Image(c, p) == Frames(c, p.anchor, Body(p));
    FrameShape(c, p.anchor, ANCHOR);
    PaddedShape(c.marshal(ANCHOR));
    assert Size(c, Body(p), 1) == FrameSize(c, ANCHOR);
    CutIsWholeAndRest(c, p.anchor, Body(p), n);
    CutReads(c, p.anchor, Body(p), n);
    assert Body(p)[..k] == [ANCHOR] + p.records[..k - 1];
  }

  function Trim(p: Part): Part {
    p.(tail := [])
  }

  function WithLast(parts: seq<Part>, last: Part): seq<Part>
    requires parts != []
  {
    parts[..|parts| - 1] + [last]
  }

  lemma {:induction false} TailsDoNotMatter(parts: seq<Part>, last: Part)
    requires parts != []
    ensures Live(WithLast(parts, last)) == Live(WithLast(parts, Trim(last)))
  {
  }

  lemma {:induction false} OpensCut(c: Codec, disk: Disk, active: seq<nat>, parts: seq<Part>, last: Part)
    requires Lawful(c) && Laid(c, disk, active, parts)
    ensures var disk' := disk[active[|active| - 1] := Image(c, last)];
            Listing(disk'.Keys) == active && OpenNamed(c, disk', active)
                == Answer(Wal(disk', active, active[0], 0, 0, Reading), Done)
  {
    var m := |active| - 1;
    var disk' := disk[active[m] := Image(c, last)];
    ListingIsActive(disk', active);
    LaidAnchors(c, disk, active, parts, |active|);
    AnchorOf(c, last);
    forall k | 0 <= k < |active| ensures active[k] in Readable(c, disk', active) {
      assert active[k] in Readable(c, disk, active);
    }
    FilesPass(active, Readable(c, disk', active), 0);
  }

  /** All files but the last read as they did before the cut. */
  lemma {:induction false} FirstFilesRead(c: Codec, disk: Disk, active: seq<nat>, parts: seq<Part>, last: Part)
    requires Laid(c, disk, active, parts)
    ensures LaidTo(c, disk[active[|active| - 1] := Image(c, last)], active, WithLast(parts, last), |active| - 1)
    ensures LaidTo(c, disk[active[|active| - 1] := Image(c, last)], active[..|active| - 1], parts[..|parts| - 1],
            |active| - 1)
  {
    var m := |active| - 1;
    var disk', parts' := disk[active[m] := Image(c, last)], WithLast(parts, last);
    forall i | 0 <= i < m
      ensures Holds(c, disk', active, parts', i) && Holds(c, disk', active[..m], parts[..m], i)
    {
      assert Holds(c, disk, active, parts, i);
      HoldsToo(c, disk, disk', active, parts, parts', i);
      assert i > 0 ==> parts[..m][i - 1] == parts[i - 1];
    }
  }

  lemma {:induction false} AnchorContinues(c: Codec, disk: Disk, active: seq<nat>, parts: seq<Part>, last: Part)
    requires Laid(c, disk, active, parts) && last.anchor == parts[|parts| - 1].anchor && |parts| > 1
    ensures last.anchor == EndCrc(c, WithLast(parts, last)[|parts| - 2])
  {
    assert Holds(c, disk, active, parts, |parts| - 1);
    assert WithLast(parts, last)[|parts| - 2] == parts[|parts| - 2];
  }

  /** Where the file loop stands when it fails on a torn last file. */
  function Stopped(c: Codec, active: seq<nat>, parts: seq<Part>): Progress
    requires |active| == |parts| > 0
  {
    var start := Progress([], 0, 0, active[0], None);
    ProgressAfter(c, active, parts, |active|, start).(
      crc := ProgressAfter(c, active, parts, |active| - 1, start).crc, error := Some(UnexpectedEnd))
  }

  lemma {:induction false} TornFileStops(c: Codec, disk: Disk, active: seq<nat>, parts: seq<Part>, last: Part)
    requires Lawful(c) && Laid(c, disk, active, parts) && last.anchor == parts[|parts| - 1].anchor
             && AllFit(c, last.records)
    requires Ending(c, last).Torn?
    ensures ReadFiles(c, disk[active[|active| - 1] := Image(c, last)], active, 0, Progress([], 0, 0, active[0], None))
            == Stopped(c, active, WithLast(parts, last))
  {
    var m := |active| - 1;
    var disk', parts' := disk[active[m] := Image(c, last)], WithLast(parts, last);
    var start := Progress([], 0, 0, active[0], None);
    FirstFilesRead(c, disk, active, parts, last);
    FilesRead(c, disk', active, parts', m, start);
    if m > 0 {
      AnchorContinues(c, disk, active, parts, last);
    }
    NextFileReads(c, disk', active, parts', m, start);
  }

  lemma {:induction false} MarkOfStopped(c: Codec, active: seq<nat>, parts: seq<Part>, last: Part)
    requires |active| == |parts| > 0 && forall i :: 0 <= i < |active| ==> active[i] == active[0] + i
    ensures Marked(Stopped(c, active, WithLast(parts, last)).mark, active, WithLast(parts, Trim(last)))
  {
    MarkStays(0, active, WithLast(parts, last), |active|);
  }

  lemma {:induction false} RepairTrims(c: Codec, disk: Disk, active: seq<nat>, parts: seq<Part>, last: Part)
    requires Lawful(c) && Laid(c, disk, active, parts) && AllFit(c, last.records) && Ending(c, last).Torn?
    ensures Repair(c, disk[active[|active| - 1] := Image(c, last)], active)
            == Some(disk[active[|active| - 1] := Image(c, Trim(last))])
  {
    var m := |active| - 1;
    var disk' := disk[active[m] := Image(c, last)];
    FirstFilesRead(c, disk, active, parts, last);
    FilesRead(c, disk', active[..m], parts[..m], m, Progress([], 0, 0, 0, None));
    FileReads(c, last, 0, [], 0);
    assert Image(c, last)[..|Frames(c, last.anchor, Body(last))|] == Image(c, Trim(last));
    assert disk'[active[m] := Image(c, Trim(last))] == disk[active[m] := Image(c, Trim(last))];
  }

  ghost predicate Recovers(c: Codec, answer: Answer, parts: seq<Part>, live: seq<Bytes>) {
    answer.result == Items(live) && Valid(c, answer.wal, parts) && answer.wal.mode.Writing? && Live(parts) == live
  }

  lemma {:induction false} InitializeTorn(c: Codec, disk: Disk, active: seq<nat>, parts: seq<Part>,
      last: Part) returns (parts': seq<Part>)
    requires Lawful(c) && Laid(c, disk, active, parts) && last.anchor == parts[|parts| - 1].anchor
             && AllFit(c, last.records)
    requires Ending(c, last).Torn?
    ensures Recovers(c, Initialize(c, disk[active[|active| - 1] := Image(c, last)]), parts',
            Live(WithLast(parts, Trim(last))))
  {
    var disk' := disk[active[|active| - 1] := Image(c, last)];
    var fixed := disk[active[|active| - 1] := Image(c, Trim(last))];
    OpensCut(c, disk, active, parts, last);
    TornFileStops(c, disk, active, parts, last);
    MarkOfStopped(c, active, parts, last);
    RepairTrims(c, disk, active, parts, last);
    RewriteLast(c, disk, active, parts, Trim(last));
    var p := Stopped(c, active, WithLast(parts, last));
    parts' := ReadKeeps(c, Wal(fixed, active, p.index, p.crc, p.mark, Reading), WithLast(parts, Trim(last)));
  }

  lemma {:induction false} InitializeClean(c: Codec, disk: Disk, active: seq<nat>, parts: seq<Part>,
      last: Part) returns (parts': seq<Part>)
    requires Lawful(c) && Laid(c, disk, active, parts) && last.anchor == parts[|parts| - 1].anchor && PartOk(c, last)
    ensures Recovers(c, Initialize(c, disk[active[|active| - 1] := Image(c, last)]), parts',
            Live(WithLast(parts, last)))
  {
    var disk' := disk[active[|active| - 1] := Image(c, last)];
    OpensCut(c, disk, active, parts, last);
    RewriteLast(c, disk, active, parts, last);
    parts' := ReadKeeps(c, Wal(disk', active, active[0], 0, 0, Reading), WithLast(parts, last));
  }

  lemma {:induction false} InitializeReads(c: Codec, disk: Disk, active: seq<nat>, parts: seq<Part>,
      last: Part) returns (parts': seq<Part>)
    requires Lawful(c) && Laid(c, disk, active, parts) && last.anchor == parts[|parts| - 1].anchor
             && AllFit(c, last.records)
    requires Ending(c, last) == if CleanTail(last.tail) then End else Torn
    ensures Recovers(c, Initialize(c, disk[active[|active| - 1] := Image(c, last)]), parts',
            Live(WithLast(parts, Trim(last))))
  {
    TailsDoNotMatter(parts, last);
    if CleanTail(last.tail) {
      parts' := InitializeClean(c, disk, active, parts, last);
    } else {
      parts' := InitializeTorn(c, disk, active, parts, last);
    }
  }

  lemma {:induction false} CutPartIsFit(c: Codec, disk: Disk, active: seq<nat>, parts: seq<Part>, n: nat)
    requires Lawful(c) && Laid(c, disk, active, parts)
    requires parts[|parts| - 1].tail == [] && FrameSize(c, ANCHOR) <= n <= |Contents(disk, active[|active| - 1])|
    ensures var cut := CutPart(c, parts[|parts| - 1], n);
            Contents(disk, active[|active| - 1])[..n] == Image(c, cut) && AllFit(c, cut.records)
                && Ending(c, cut) == if CleanTail(cut.tail) then End else Torn
  {
    assert Holds(c, disk, active, parts, |parts| - 1);
    CutFileIs(c, parts[|parts| - 1], n);
  }

  /** A log whose last file is cut at any byte at or after the end of its anchor comes back with exactly the log of
      the whole records before the cut, and is in order again. */
  lemma {:induction false} CutRecovers(c: Codec, disk: Disk, active: seq<nat>, parts: seq<Part>,
      n: nat) returns (parts': seq<Part>)
    requires Lawful(c) && Laid(c, disk, active, parts)
    requires parts[|parts| - 1].tail == [] && FrameSize(c, ANCHOR) <= n <= |Contents(disk, active[|active| - 1])|
    ensures var index, whole := active[|active| - 1], Trim(CutPart(c, parts[|parts| - 1], n));
            Recovers(c, Initialize(c, disk[index := Contents(disk, index)[..n]]), parts', Live(WithLast(parts, whole)))
  {
    CutPartIsFit(c, disk, active, parts, n);
    parts' := InitializeReads(c, disk, active, parts, CutPart(c, parts[|parts| - 1], n));
  }

  lemma {:induction false} CutAnchorDoesNotRead(c: Codec, p: Part, n: nat)
    requires Lawful(c) && n < FrameSize(c, ANCHOR)
    ensures n <= |Image(c, p)| && ReadAnchor(c, Image(c, p)[..n]).None?
  {
    FirstFrame(c, p.anchor, p.records);
    FrameShape(c, p.anchor, ANCHOR);
    PaddedShape(c.marshal(ANCHOR));
    assert Image(c, p)[..n] == [] + Frame(c, p.anchor, ANCHOR)[..n];
    CutFrameEnds(c, [], p.anchor, ANCHOR, n);
  }

  /** ... and a cut inside the anchor is not recovered from. */
  lemma {:induction false} CutAnchorFails(c: Codec, disk: Disk, active: seq<nat>, parts: seq<Part>, n: nat)
    requires Lawful(c) && Laid(c, disk, active, parts) && n < FrameSize(c, ANCHOR)
    ensures var index := active[|active| - 1];
            n <= |Contents(disk, index)| && Initialize(c, disk[index := Contents(disk, index)[..n]]).result.Err?
  {
    var m := |active| - 1;
    assert Holds(c, disk, active, parts, m);
    CutAnchorDoesNotRead(c, parts[m], n);
    var disk' := disk[active[m] := Contents(disk, active[m])[..n]];
    ListingIsActive(disk', active);
    CheckFails(active, Readable(c, disk', active), 0);
  }

  /** A crash between two operations, whatever they were, loses nothing. */
  lemma {:induction false} NothingIsLost(c: Codec, limit: int, ops: seq<Op>)
    requires Lawful(c)
    ensures Initialize(c, Files(c, limit, ops).disk).result == Items(Entries(c, ops).live)
  {
    var w := Files(c, limit, ops);
    var parts := RunStandsFor(c, limit, ops);
    var m := |parts| - 1;
    assert Holds(c, w.disk, w.active, parts, m);
    assert w.disk[w.active[m] := Image(c, parts[m])] == w.disk;
    assert WithLast(parts, parts[m]) == parts;
    var _ := InitializeClean(c, w.disk, w.active, parts, parts[m]);
  }

  function LastFile(w: Wal): nat {
    if w.active == [] then 0 else w.active[|w.active| - 1]
  }

  /** The records of a file that a cut to n bytes does not leave whole. */
  function Lost(c: Codec, p: Part, n: nat): seq<Record> {
    if Whole(c, Body(p), n) == 0 then p.records else p.records[Whole(c, Body(p), n) - 1..]
  }

  /** What is left of a history when its last file is cut. */
  lemma {:induction false} LiveOfCut(c: Codec, parts: seq<Part>, history: seq<Record>, n: nat)
    requires Kept(parts, history) && Whole(c, Body(parts[|parts| - 1]), n) > 0
    ensures var last := parts[|parts| - 1];
            && |Lost(c, last, n)| <= |history| && history[|history| - |Lost(c, last, n)|..] == Lost(c, last, n)
            && Live(WithLast(parts, Trim(CutPart(c, last, n))))
               == CollectAll([], history[..|history| - |Lost(c, last, n)|])
  {
    var last, cut, whole := parts[|parts| - 1], Trim(CutPart(c, parts[|parts| - 1], n)),
        Whole(c, Body(parts[|parts| - 1]), n) - 1;
    assert cut.records == last.records[..whole] && |Lost(c, last, n)| == |last.records| - whole;
    LiveOfShortened(parts, history, cut, whole);
  }

  lemma {:induction false} AnchorIsWhole(c: Codec, disk: Disk, active: seq<nat>, parts: seq<Part>, n: nat)
    requires Lawful(c) && Laid(c, disk, active, parts) && parts[|parts| - 1].tail == []
    requires FrameSize(c, ANCHOR) <= n <= |Contents(disk, active[|active| - 1])|
    ensures Contents(disk, active[|active| - 1]) == Image(c, parts[|parts| - 1])
            && Whole(c, Body(parts[|parts| - 1]), n) > 0
  {
    assert Holds(c, disk, active, parts, |parts| - 1);
    CutFileIs(c, parts[|parts| - 1], n);
  }

  lemma {:induction false} CutLeaves(c: Codec, disk: Disk, active: seq<nat>, parts: seq<Part>, history: seq<Record>,
      n: nat) returns (k: nat)
    requires Lawful(c) && Laid(c, disk, active, parts) && Kept(parts, history)
    requires FrameSize(c, ANCHOR) <= n <= |Contents(disk, active[|active| - 1])|
    ensures Contents(disk, active[|active| - 1]) == Image(c, parts[|parts| - 1])
    ensures k <= |history| && history[k..] == Lost(c, parts[|parts| - 1], n)
    ensures var index := active[|active| - 1];
            Initialize(c, disk[index := Contents(disk, index)[..n]]).result == Items(CollectAll([], history[..k]))
  {
    AnchorIsWhole(c, disk, active, parts, n);
    var _ := CutRecovers(c, disk, active, parts, n);
    LiveOfCut(c, parts, history, n);
    k := |history| - |Lost(c, parts[|parts| - 1], n)|;
  }

  /** The directory after a cut of its last file to n bytes. */
  function CutDisk(w: Wal, n: nat): Disk
    requires n <= |Contents(w.disk, LastFile(w))|
  {
    w.disk[LastFile(w) := Contents(w.disk, LastFile(w))[..n]]
  }

  /** The first k records are those of the first j operations, and what they leave live is what those leave. */
  lemma {:induction false} FirstOperations(c: Codec, ops: seq<Op>, k: nat) returns (j: nat)
    requires Lawful(c) && k <= |Accepted(c, ops)|
    ensures j <= |ops| && Accepted(c, ops) == Accepted(c, ops[..j]) + Accepted(c, ops)[k..]
    ensures Entries(c, ops[..j]).live == CollectAll([], Accepted(c, ops)[..k])
  {
    j := FirstRecords(c, ops, k);
    EntriesAreOwed(c, ops[..j]);
  }

  lemma {:induction false} CutOfLog(c: Codec, w: Wal, parts: seq<Part>, ops: seq<Op>, n: nat) returns (j: nat)
    requires Lawful(c) && Laid(c, w.disk, w.active, parts) && Kept(parts, Accepted(c, ops))
    requires FrameSize(c, ANCHOR) <= n <= |Contents(w.disk, LastFile(w))|
    ensures j <= |ops| && Accepted(c, ops) == Accepted(c, ops[..j]) + Lost(c, parts[|parts| - 1], n)
    ensures Contents(w.disk, LastFile(w)) == Image(c, parts[|parts| - 1])
    ensures Initialize(c, CutDisk(w, n)).result == Items(Entries(c, ops[..j]).live)
  {
    var k := CutLeaves(c, w.disk, w.active, parts, Accepted(c, ops), n);
    j := FirstOperations(c, ops, k);
  }

  /** A crash in the middle of a write, whatever was done before: the log comes back as it was after the first j
      operations, and the records of all later ones are exactly those the cut does not leave whole. */
  lemma {:induction false} CutLosesTheEnd(c: Codec, limit: int, ops: seq<Op>, n: nat) returns (j: nat, last: Part)
    requires Lawful(c)
    requires var w := Files(c, limit, ops); FrameSize(c, ANCHOR) <= n <= |Contents(w.disk, LastFile(w))|
    ensures j <= |ops| && Accepted(c, ops) == Accepted(c, ops[..j]) + Lost(c, last, n)
    ensures var w := Files(c, limit, ops); Contents(w.disk, LastFile(w)) == Image(c, last) && last.tail == []
    ensures Initialize(c, CutDisk(Files(c, limit, ops), n)).result == Items(Entries(c, ops[..j]).live)
  {
    var parts := RunIsKept(c, limit, ops);
    last := parts[|parts| - 1];
    j := CutOfLog(c, Files(c, limit, ops), parts, ops, n);
  }

  lemma {:induction false} CheckFails(names: seq<nat>, readable: set<nat>, i: nat)
    requires i < |names| && names[|names| - 1] !in readable
    ensures CheckFiles(names, readable, i).Some?
    decreases |names| - i
  {
    if i < |names| - 1 {
      CheckFails(names, readable, i + 1);
    }
  }
}
