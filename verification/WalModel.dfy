/** The write-ahead log as a state: a directory of files and a handle on it. Each operation does what the code does,
    byte by byte; the theorems relate it to a log that is just a list of entries. */
module WalModel {
  import opened Messages
  import opened WalFormat

  datatype Mode = Closed | Reading | Writing

  datatype Error =
    | IsClosed | IsReadOnly | IsWriteOnly | EmptyData | TooBig
    | NotInSequence
    | UnexpectedEnd                  // possibly repairable
    | Failed

  type Disk = map<nat, Bytes>

  datatype Wal = Wal(disk: Disk, active: seq<nat>, index: nat, crc: Word, mark: nat, mode: Mode)

  datatype Result = Done | Items(items: seq<Bytes>) | Err(error: Error)

  datatype Answer = Answer(wal: Wal, result: Result)

  // ---- files ----

  /** Writing at the start of a file that is opened without being emptied. */
  function Overwrite(was: Bytes, b: Bytes): Bytes {
    if |was| <= |b| then b else b + was[|b|..]
  }

  function Contents(disk: Disk, index: nat): Bytes {
    if index in disk then disk[index] else []
  }

  /** The first active file at or after the last truncation mark, searching from the i-th on. */
  function FirstKept(active: seq<nat>, mark: nat, i: nat): (j: nat)
    requires i <= |active|
    ensures i <= j <= |active|
    decreases |active| - i
  {
    if i == |active| || active[i] >= mark then i else FirstKept(active, mark, i + 1)
  }

  function Without(disk: Disk, gone: seq<nat>): Disk {
    map x | x in disk && x !in gone :: disk[x]
  }

  function WithFile(disk: Disk, index: nat, b: Bytes): Disk {
    disk[index := Overwrite(Contents(disk, index), b)]
  }

  /** Drop the first j active files and start the next one with the given bytes. */
  function MoveOn(w: Wal, j: nat, first: Bytes): Wal
    requires j <= |w.active|
  {
    w.(index := w.index + 1,
       disk := WithFile(Without(w.disk, w.active[..j]), w.index + 1, first),
       active := w.active[j..] + [w.index + 1])
  }

  function DeleteAndCreate(c: Codec, w: Wal): Wal {
    MoveOn(w, FirstKept(w.active, w.mark, 0), Frame(c, w.crc, ANCHOR))
  }

  // ---- appending ----

  function Extend(c: Codec, w: Wal, r: Record): Wal {
    w.(disk := w.disk[w.index := Contents(w.disk, w.index) + Frame(c, w.crc, r)],
       crc := Chain(c, w.crc, r),
       mark := Mark(w.mark, r, w.index))
  }

  function SwitchIfFull(c: Codec, limit: int, w: Wal): Wal {
    if |Contents(w.disk, w.index)| > limit - 16 then DeleteAndCreate(c, w) else w
  }

  function AppendRecord(c: Codec, limit: int, w: Wal, r: Record): Answer {
    if w.mode.Closed? then Answer(w, Err(IsClosed))
    else if w.mode.Reading? then Answer(w, Err(IsReadOnly))
    else if |c.marshal(r)| >= TWO_32 then Answer(w, Err(TooBig))
    else Answer(SwitchIfFull(c, limit, Extend(c, w, r)), Done)
  }

  // ---- reading ----

  datatype Progress = Progress(items: seq<Bytes>, crc: Word, mark: nat, index: nat, error: Option<Error>)

  predicate Repairable(why: Outcome) {
    why.Torn? || why.BadCrc? || why.BadPayload?
  }

  /** One round of the file loop of ReadAll. */
  function ReadFile(c: Codec, b: Bytes, index: nat, first: bool, last: bool, p: Progress): Progress {
    match ReadAnchor(c, b)
    case None => p.(index := index, error := Some(Failed))
    case Some(a) =>
      if !first && a.crc != p.crc then p.(index := index, error := Some(Failed))
      else
        var (cur, why) := ReadOn(c, b, index, Cursor(a.next, a.crc, p.items, p.mark));
        if why.End? then Progress(cur.items, cur.crc, cur.mark, index, None)
        else Progress(cur.items, p.crc, cur.mark, index,
            Some(if last && Repairable(why) then UnexpectedEnd else Failed))
  }

  /** The file loop, from the k-th active file on. */
  function ReadFiles(c: Codec, disk: Disk, active: seq<nat>, k: nat, p: Progress): Progress
    requires k <= |active|
    decreases |active| - k
  {
    if k == |active| then p
    else
      var q := ReadFile(c, Contents(disk, active[k]), active[k], k == 0, k == |active| - 1, p);
      if q.error.Some? then q else ReadFiles(c, disk, active, k + 1, q)
  }

  function ReadAll(c: Codec, w: Wal): Answer {
    if w.mode.Closed? then Answer(w, Err(IsClosed))
    else if w.mode.Writing? then Answer(w, Err(IsWriteOnly))
    else
      var p := ReadFiles(c, w.disk, w.active, 0, Progress([], w.crc, w.mark, w.index, None));
      var w1 := w.(crc := p.crc, mark := p.mark, index := p.index);
      if p.error.Some? then Answer(w1, Err(p.error.value))
      else Answer(DeleteAndCreate(c, w1.(mode := Writing)), Items(p.items))
  }

  // ---- opening ----

  /** The files whose anchor reads. */
  function Readable(c: Codec, disk: Disk, names: seq<nat>): set<nat> {
    set x | x in names && ReadAnchor(c, Contents(disk, x)).Some?
  }

  /** checkWalFiles, from the i-th name on: every file is readable and follows the one before. */
  function CheckFiles(names: seq<nat>, readable: set<nat>, i: nat): Option<Error>
    requires i <= |names|
    decreases |names| - i
  {
    if i == |names| then None
    else if names[i] !in readable then Some(if i == |names| - 1 then UnexpectedEnd else Failed)
    else if i > 0 && names[i] != names[i - 1] + 1 then Some(NotInSequence)
    else CheckFiles(names, readable, i + 1)
  }

  /** Open, given the sorted names of the log files. */
  function OpenNamed(c: Codec, disk: Disk, names: seq<nat>): Answer
    requires names != []
  {
    var error := CheckFiles(names, Readable(c, disk, names), 0);
    if error.Some? then Answer(Wal(disk, [], 0, 0, 0, Closed), Err(error.value))
    else Answer(Wal(disk, names, names[0], 0, 0, Reading), Done)
  }

  function Create(c: Codec): Wal {
    Wal(map[1 := Frame(c, CRC_SEED, ANCHOR)], [1], 1, CRC_SEED, 1, Writing)
  }

  // ---- what the files hold ----

  /** One file: its anchor checksum, its records, and what may follow the last whole one. */
  datatype Part = Part(anchor: Word, records: seq<Record>, tail: Bytes)

  function Body(p: Part): seq<Record> {
    [ANCHOR] + p.records
  }

  function EndCrc(c: Codec, p: Part): Word {
    ChainAll(c, p.anchor, Body(p))
  }

  function Image(c: Codec, p: Part): Bytes {
    Frames(c, p.anchor, Body(p)) + p.tail
  }

  function AllRecords(parts: seq<Part>): seq<Record> {
    if parts == [] then [] else AllRecords(parts[..|parts| - 1]) + parts[|parts| - 1].records
  }

  ghost predicate PartOk(c: Codec, p: Part) {
    AllFit(c, p.records) && CleanTail(p.tail)
  }

  /** The i-th active file holds the i-th part, whose anchor continues the checksum of the file before. */
  ghost predicate Holds(c: Codec, disk: Disk, active: seq<nat>, parts: seq<Part>, i: nat)
    requires i < |active| == |parts|
  {
    && PartOk(c, parts[i]) && Contents(disk, active[i]) == Image(c, parts[i])
    && (i > 0 ==> parts[i].anchor == EndCrc(c, parts[i - 1]))
  }

  ghost predicate LaidTo(c: Codec, disk: Disk, active: seq<nat>, parts: seq<Part>, m: nat) {
    m <= |active| == |parts| && forall i :: 0 <= i < m ==> Holds(c, disk, active, parts, i)
  }

  ghost predicate Numbered(disk: Disk, active: seq<nat>) {
    && active != []
    && (forall i :: 0 <= i < |active| ==> active[i] == active[0] + i)
    && (forall x :: x in disk <==> active[0] <= x < active[0] + |active|)
  }

  /** The directory holds exactly the active files. */
  ghost predicate Laid(c: Codec, disk: Disk, active: seq<nat>, parts: seq<Part>) {
    Numbered(disk, active) && LaidTo(c, disk, active, parts, |active|)
  }

  ghost predicate HasMark(rs: seq<Record>) {
    exists i :: 0 <= i < |rs| && rs[i].truncateTo
  }

  /** The remembered truncation index is at or before the first file, or a file with a truncation mark. */
  ghost predicate Marked(mark: nat, active: seq<nat>, parts: seq<Part>)
    requires |active| == |parts| > 0
  {
    mark <= active[0] || (mark - active[0] < |parts| && HasMark(parts[mark - active[0]].records))
  }

  ghost predicate Ready(c: Codec, w: Wal, last: Part) {
    last.tail == [] && w.crc == EndCrc(c, last) && w.index in w.active && w.index == w.active[|w.active| - 1]
  }

  ghost predicate Valid(c: Codec, w: Wal, parts: seq<Part>) {
    && Laid(c, w.disk, w.active, parts)
    && Marked(w.mark, w.active, parts)
    && (w.mode.Writing? ==> Ready(c, w, parts[|parts| - 1]))
  }

  /** The entries a reader is owed: the data since the last truncation mark, that record included. */
  function Live(parts: seq<Part>): seq<Bytes> {
    CollectAll([], AllRecords(parts))
  }

  // ---- one file reads back ----

  lemma {:induction false} AnchorIsNeutral(rs: seq<Record>, items: seq<Bytes>, mark: nat, index: nat)
    ensures CollectAll(items, [ANCHOR] + rs) == CollectAll(items, rs)
    ensures MarkAll(mark, [ANCHOR] + rs, index) == MarkAll(mark, rs, index)
  {
    if rs == [] {
      assert [ANCHOR] + rs == [ANCHOR];
      assert CollectAll(items, [ANCHOR]) == Collect(CollectAll(items, []), ANCHOR);
    } else {
      AnchorIsNeutral(rs[..|rs| - 1], items, mark, index);
      assert ([ANCHOR] + rs)[..|rs|] == [ANCHOR] + rs[..|rs| - 1];
    }
  }

  lemma {:induction false} AnchorReadsBack(c: Codec, p: Part, more: Bytes)
    requires Lawful(c)
    ensures ReadAnchor(c, Frame(c, p.anchor, ANCHOR) + more)
            == Some(Got(ANCHOR, |Frame(c, p.anchor, ANCHOR)|, p.anchor))
  {
    FrameReadsBack(c, Frame(c, p.anchor, ANCHOR) + more, 0, p.anchor, ANCHOR);
  }

  lemma {:induction false} FirstFrame(c: Codec, crc: Word, rs: seq<Record>)
    ensures Frames(c, crc, [ANCHOR]) == Frame(c, crc, ANCHOR) && ChainAll(c, crc, [ANCHOR]) == crc
    ensures Frame(c, crc, ANCHOR) <= Frames(c, crc, [ANCHOR] + rs)
  {
    assert [ANCHOR][..0] == [];
    assert Frames(c, crc, []) == [] && ChainAll(c, crc, []) == crc;
    FramesOfPrefix(c, crc, [ANCHOR] + rs, 1);
    assert ([ANCHOR] + rs)[..1] == [ANCHOR];
  }

  /** A file of whole records and some tail reads as its records, and stops at the tail. */
  lemma {:induction false} FileReads(c: Codec, p: Part, index: nat, items: seq<Bytes>, mark: nat)
    requires Lawful(c) && AllFit(c, p.records)
    requires !ReadRecord(c, Image(c, p), |Frames(c, p.anchor, Body(p))|, EndCrc(c, p)).Got?
    ensures ReadAnchor(c, Image(c, p)) == Some(Got(ANCHOR, |Frame(c, p.anchor, ANCHOR)|, p.anchor))
    ensures ReadOn(c, Image(c, p), index, Cursor(|Frame(c, p.anchor, ANCHOR)|, p.anchor, items, mark))
            == (Cursor(|Frames(c, p.anchor, Body(p))|, EndCrc(c, p), CollectAll(items, p.records),
                MarkAll(mark, p.records, index)),
                ReadRecord(c, Image(c, p), |Frames(c, p.anchor, Body(p))|, EndCrc(c, p)))
  {
    FirstFrame(c, p.anchor, p.records);
    var first := Frame(c, p.anchor, ANCHOR);
    assert Image(c, p) == first + Image(c, p)[|first|..];
    AnchorReadsBack(c, p, Image(c, p)[|first|..]);
    assert Body(p)[..1] == [ANCHOR];
    WholeRecordsReadBack(c, p.anchor, Body(p), p.tail, 1, index, items, mark);
    AnchorIsNeutral([], items, mark, index);
    assert [ANCHOR] + [] == [ANCHOR];
    AnchorIsNeutral(p.records, items, mark, index);
  }

  lemma {:induction false} MarkIsOldOrHere(mark: nat, rs: seq<Record>, index: nat)
    ensures MarkAll(mark, rs, index) == if HasMark(rs) then index else mark
  {
    if rs != [] {
      MarkIsOldOrHere(mark, rs[..|rs| - 1], index);
      if HasMark(rs) && !rs[|rs| - 1].truncateTo {
        var i :| 0 <= i < |rs| && rs[i].truncateTo;
        assert rs[..|rs| - 1][i].truncateTo;
      }
    }
  }

  lemma {:induction false} CollectSplits(items: seq<Bytes>, a: seq<Record>, b: seq<Record>)
    ensures CollectAll(items, a + b) == CollectAll(CollectAll(items, a), b)
  {
    if b == [] {
      assert a + b == a;
    } else {
      CollectSplits(items, a, b[..|b| - 1]);
      assert (a + b)[..|a + b| - 1] == a + b[..|b| - 1];
    }
  }

  /** Nothing before a truncation mark matters. */
  lemma {:induction false} MarkForgets(items: seq<Bytes>, rs: seq<Record>)
    requires HasMark(rs)
    ensures CollectAll(items, rs) == CollectAll([], rs)
  {
    var init := rs[..|rs| - 1];
    if !rs[|rs| - 1].truncateTo {
      var i :| 0 <= i < |rs| && rs[i].truncateTo;
      assert init[i].truncateTo;
      MarkForgets(items, init);
    }
  }

  lemma {:induction false} AllRecordsSplits(a: seq<Part>, b: seq<Part>)
    ensures AllRecords(a + b) == AllRecords(a) + AllRecords(b)
  {
    if b == [] {
      assert a + b == a;
    } else {
      var init, last := b[..|b| - 1], b[|b| - 1];
      AllRecordsSplits(a, init);
      assert (a + b)[..|a + b| - 1] == a + init;
      assert AllRecords(a + b) == AllRecords(a + init) + last.records;
      assert AllRecords(a) + AllRecords(init) + last.records == AllRecords(a) + (AllRecords(init) + last.records);
    }
  }

  // ---- all files read back ----

  function MarkFiles(mark: nat, active: seq<nat>, parts: seq<Part>, m: nat): nat
    requires m <= |active| == |parts|
  {
    if m == 0 then mark else MarkAll(MarkFiles(mark, active, parts, m - 1), parts[m - 1].records, active[m - 1])
  }

  function ProgressAfter(c: Codec, active: seq<nat>, parts: seq<Part>, m: nat, p: Progress): Progress
    requires m <= |active| == |parts|
  {
    if m == 0 then p
    else Progress(CollectAll(p.items, AllRecords(parts[..m])), EndCrc(c, parts[m - 1]),
        MarkFiles(p.mark, active, parts, m), active[m - 1], None)
  }

  /** How the file of a part ends. */
  function Ending(c: Codec, p: Part): Outcome {
    ReadRecord(c, Image(c, p), |Frames(c, p.anchor, Body(p))|, EndCrc(c, p))
  }

  function ErrorFor(why: Outcome, last: bool): Option<Error> {
    if why.End? then None else Some(if last && Repairable(why) then UnexpectedEnd else Failed)
  }

  lemma {:induction false} OneFileReads(c: Codec, part: Part, index: nat, first: bool, last: bool, p: Progress)
    requires Lawful(c) && AllFit(c, part.records) && !Ending(c, part).Got?
    requires first || part.anchor == p.crc
    ensures ReadFile(c, Image(c, part), index, first, last, p)
            == Progress(CollectAll(p.items, part.records), if Ending(c, part).End? then EndCrc(c, part) else p.crc,
                        MarkAll(p.mark, part.records, index), index, ErrorFor(Ending(c, part), last))
  {
    FileReads(c, part, index, p.items, p.mark);
  }

  lemma {:induction false} ProgressNext(c: Codec, active: seq<nat>, parts: seq<Part>, m: nat, p: Progress)
    requires m < |active| == |parts|
    ensures var before := ProgressAfter(c, active, parts, m, p);
            ProgressAfter(c, active, parts, m + 1, p)
            == Progress(CollectAll(before.items, parts[m].records), EndCrc(c, parts[m]),
                MarkAll(before.mark, parts[m].records, active[m]), active[m], None)
  {
    assert parts[..0] == [];
    assert CollectAll(p.items, AllRecords(parts[..0])) == p.items;
    assert parts[..m + 1][..m] == parts[..m];
    CollectSplits(p.items, AllRecords(parts[..m]), parts[m].records);
  }

  /** Reading the file after the first m: what is collected, and how the file ends. */
  lemma {:induction false} NextFileReads(c: Codec, disk: Disk, active: seq<nat>, parts: seq<Part>, m: nat, p: Progress)
    requires Lawful(c) && m < |active| == |parts| && AllFit(c, parts[m].records)
    requires Contents(disk, active[m]) == Image(c, parts[m])
    requires m > 0 ==> parts[m].anchor == EndCrc(c, parts[m - 1])
    requires !Ending(c, parts[m]).Got?
    ensures var before, after := ProgressAfter(c, active, parts, m, p), ProgressAfter(c, active, parts, m + 1, p);
            ReadFiles(c, disk, active, m, before)
            == if Ending(c, parts[m]).End? then ReadFiles(c, disk, active, m + 1, after)
               else after.(crc := before.crc, error := ErrorFor(Ending(c, parts[m]), m == |active| - 1))
  {
    OneFileReads(c, parts[m], active[m], m == 0, m == |active| - 1, ProgressAfter(c, active, parts, m, p));
    ProgressNext(c, active, parts, m, p);
  }

  lemma {:induction false} FilesRead(c: Codec, disk: Disk, active: seq<nat>, parts: seq<Part>, m: nat, p: Progress)
    requires Lawful(c) && LaidTo(c, disk, active, parts, m)
    ensures ReadFiles(c, disk, active, 0, p) == ReadFiles(c, disk, active, m, ProgressAfter(c, active, parts, m, p))
  {
    if m > 0 {
      FilesRead(c, disk, active, parts, m - 1, p);
      var last := parts[m - 1];
      assert Holds(c, disk, active, parts, m - 1);
      CleanTailReadsAsEnd(c, Frames(c, last.anchor, Body(last)), last.tail, EndCrc(c, last));
      NextFileReads(c, disk, active, parts, m - 1, p);
    }
  }

  lemma {:induction false} MarkStays(mark: nat, active: seq<nat>, parts: seq<Part>, m: nat)
    requires m <= |active| == |parts| && |active| > 0 && Marked(mark, active, parts)
    requires forall i :: 0 <= i < |active| ==> active[i] == active[0] + i
    ensures Marked(MarkFiles(mark, active, parts, m), active, parts)
  {
    if m > 0 {
      MarkStays(mark, active, parts, m - 1);
      MarkIsOldOrHere(MarkFiles(mark, active, parts, m - 1), parts[m - 1].records, active[m - 1]);
    }
  }

  // ---- deleting old files is invisible ----

  /** The number of files a deletion drops. */
  function Dropped(active: seq<nat>, mark: nat): nat
    requires active != []
  {
    if mark <= active[0] then 0 else mark - active[0]
  }

  lemma {:induction false} DropsUpToMark(active: seq<nat>, mark: nat, i: nat)
    requires active != [] && forall k :: 0 <= k < |active| ==> active[k] == active[0] + k
    requires mark < active[0] + |active| && i <= Dropped(active, mark)
    ensures FirstKept(active, mark, i) == Dropped(active, mark)
    decreases |active| - i
  {
    if active[i] < mark {
      DropsUpToMark(active, mark, i + 1);
    }
  }

  lemma {:induction false} DroppedRecordsDoNotMatter(active: seq<nat>, mark: nat, parts: seq<Part>, last: Part)
    requires |active| == |parts| > 0 && Marked(mark, active, parts) && last.records == []
    ensures Dropped(active, mark) < |parts|
    ensures Live(parts[Dropped(active, mark)..] + [last]) == Live(parts)
  {
    var j := Dropped(active, mark);
    var kept := parts[j..];
    assert (kept + [last])[..|kept|] == kept;
    assert AllRecords(kept) + [] == AllRecords(kept);
    assert parts == parts[..j] + kept;
    AllRecordsSplits(parts[..j], kept);
    CollectSplits([], AllRecords(parts[..j]), AllRecords(kept));
    if j > 0 {
      FirstMarkShows(kept);
      MarkForgets(CollectAll([], AllRecords(parts[..j])), AllRecords(kept));
    } else {
      assert parts[..j] == [];
    }
  }

  lemma {:induction false} FirstMarkShows(parts: seq<Part>)
    requires parts != [] && HasMark(parts[0].records)
    ensures HasMark(AllRecords(parts))
  {
    assert parts == [parts[0]] + parts[1..];
    AllRecordsSplits([parts[0]], parts[1..]);
    assert AllRecords([parts[0]]) == [] + parts[0].records;
    var i :| 0 <= i < |parts[0].records| && parts[0].records[i].truncateTo;
    assert AllRecords(parts)[i].truncateTo;
  }

  lemma {:induction false} NewFile(c: Codec, crc: Word)
    requires Lawful(c)
    ensures PartOk(c, Part(crc, [], [])) && Image(c, Part(crc, [], [])) == Frame(c, crc, ANCHOR)
    ensures EndCrc(c, Part(crc, [], [])) == crc
  {
    FirstFrame(c, crc, []);
    assert [ANCHOR] + [] == [ANCHOR];
  }

  lemma {:induction false} MovedIsLaid(c: Codec, w: Wal, j: nat, parts: seq<Part>, last: Part)
    requires Laid(c, w.disk, w.active, parts) && j < |w.active| && last.anchor == EndCrc(c, parts[|parts| - 1])
    requires PartOk(c, last)
    requires w.index == w.active[|w.active| - 1]
    ensures Laid(c, MoveOn(w, j, Image(c, last)).disk, MoveOn(w, j, Image(c, last)).active, parts[j..] + [last])
  {
    DiskAfterSwitch(w.disk, w.active, j, w.index, Image(c, last));
    LaidAfterSwitch(c, w.disk, MoveOn(w, j, Image(c, last)).disk, w.active, parts, j, w.index, last);
  }

  lemma {:induction false} SwitchKeepsFiles(c: Codec, w: Wal, parts: seq<Part>)
    requires Lawful(c) && Laid(c, w.disk, w.active, parts) && Marked(w.mark, w.active, parts)
    requires w.index == w.active[|w.active| - 1] && w.crc == EndCrc(c, parts[|parts| - 1])
    ensures Dropped(w.active, w.mark) < |parts|
    ensures Laid(c, DeleteAndCreate(c, w).disk, DeleteAndCreate(c, w).active,
            parts[Dropped(w.active, w.mark)..] + [Part(w.crc, [], [])])
  {
    NewFile(c, w.crc);
    DropsUpToMark(w.active, w.mark, 0);
    MovedIsLaid(c, w, Dropped(w.active, w.mark), parts, Part(w.crc, [], []));
  }

  /** Moving to a new file deletes only what no reader is owed. */
  lemma {:induction false} SwitchKeepsLive(c: Codec, w: Wal, parts: seq<Part>)
    requires Lawful(c) && Numbered(w.disk, w.active) && |w.active| == |parts| && Marked(w.mark, w.active, parts)
    requires w.index == w.active[|w.active| - 1]
    ensures Dropped(w.active, w.mark) < |parts|
    ensures var w', parts' := DeleteAndCreate(c, w), parts[Dropped(w.active, w.mark)..] + [Part(w.crc, [], [])];
            && |w'.active| == |parts'|
            && Marked(w'.mark, w'.active, parts') && Ready(c, w', Part(w.crc, [], []))
            && Live(parts') == Live(parts)
  {
    NewFile(c, w.crc);
    DroppedRecordsDoNotMatter(w.active, w.mark, parts, Part(w.crc, [], []));
    DropsUpToMark(w.active, w.mark, 0);
    assert w.active[Dropped(w.active, w.mark)] >= w.mark;
  }

  /** Nothing was written to the last file yet. */
  ghost predicate Fresh(parts: seq<Part>) {
    parts != [] && parts[|parts| - 1].records == [] && parts[|parts| - 1].tail == []
  }

  /** Moving to a new file keeps the log in order and every entry a reader is owed. */
  lemma {:induction false} SwitchKeepsValid(c: Codec, w: Wal, parts: seq<Part>) returns (parts': seq<Part>)
    requires Lawful(c) && Laid(c, w.disk, w.active, parts) && Marked(w.mark, w.active, parts)
    requires w.index == w.active[|w.active| - 1] && w.crc == EndCrc(c, parts[|parts| - 1])
    ensures Valid(c, DeleteAndCreate(c, w), parts') && Live(parts') == Live(parts)
    ensures Fresh(parts')
    ensures Dropped(w.active, w.mark) < |parts| && parts' == parts[Dropped(w.active, w.mark)..] + [Part(w.crc, [], [])]
  {
    SwitchKeepsFiles(c, w, parts);
    SwitchKeepsLive(c, w, parts);
    parts' := parts[Dropped(w.active, w.mark)..] + [Part(w.crc, [], [])];
  }

  lemma {:induction false} LaidAfterSwitch(c: Codec, disk: Disk, disk': Disk, active: seq<nat>, parts: seq<Part>,
      j: nat, index: nat, last: Part)
    requires active != [] && LaidTo(c, disk, active, parts, |active|) && j < |active|
    requires forall i :: j <= i < |active| ==> Contents(disk', active[i]) == Contents(disk, active[i])
    requires Contents(disk', index + 1) == Image(c, last) && last.anchor == EndCrc(c, parts[|parts| - 1])
             && PartOk(c, last)
    ensures LaidTo(c, disk', active[j..] + [index + 1], parts[j..] + [last], |active| - j + 1)
  {
    var active', parts' := active[j..] + [index + 1], parts[j..] + [last];
    forall i | 0 <= i < |parts'| ensures Holds(c, disk', active', parts', i) {
      if i < |parts'| - 1 {
        assert Holds(c, disk, active, parts, j + i);
        assert parts'[i] == parts[j + i] && active'[i] == active[j + i];
      }
      if i > 0 {
        assert parts'[i - 1] == parts[j + i - 1];
      }
    }
  }

  lemma {:induction false} DiskAfterSwitch(disk: Disk, active: seq<nat>, j: nat, index: nat, first: Bytes)
    requires Numbered(disk, active) && j < |active| && index == active[|active| - 1]
    ensures var disk' := WithFile(Without(disk, active[..j]), index + 1, first);
            && Numbered(disk', active[j..] + [index + 1])
            && (forall i :: j <= i < |active| ==> Contents(disk', active[i]) == Contents(disk, active[i]))
            && Contents(disk', index + 1) == first
  {
    forall x | x in disk ensures x in active[..j] <==> x < active[0] + j {
      if x < active[0] + j {
        assert active[..j][x - active[0]] == x;
      }
    }
  }
}
