/** Whatever bytes the files hold: a reader returns only entries of records whose checksums form one unbroken chain
    through all files, and all of those. */
module WalReading {
  import opened Messages
  import opened WalFormat
  import opened WalModel

  // ---- one record ----

  /** A record as it lies in a file: what the header says, the padded payload, and what that decodes to. */
  datatype Stored = Stored(length: Word, written: Word, payload: Bytes, record: Record)
  {
    function Size(): nat { HEADER_SIZE + |payload| }
  }

  function FourBytes(b: Bytes): nat
    requires |b| >= 4
  {
    b[0] as int + 0x100 * b[1] as int + 0x10000 * b[2] as int + 0x1000000 * b[3] as int
  }

  lemma {:induction false} LowFour(b: Bytes)
    requires |b| >= 4
    ensures FromLittleEndian(b) == FourBytes(b) + TWO_32 * FromLittleEndian(b[4..]) && FourBytes(b) < TWO_32
  {
    var h := FromLittleEndian(b[4..]);
    assert b[1..][1..] == b[2..] && b[2..][1..] == b[3..] && b[3..][1..] == b[4..];
    assert FromLittleEndian(b[3..]) == b[3] as int + 256 * h;
    assert FromLittleEndian(b[2..]) == b[2] as int + 256 * (b[3] as int + 256 * h);
  }

  /** Length in the first four bytes, checksum in the next four, low byte first. */
  lemma {:induction false} HeaderLayout(h: Bytes)
    requires |h| == HEADER_SIZE
    ensures LengthIn(h) == FourBytes(h) && CrcIn(h) == FourBytes(h[4..])
  {
    LowFour(h);
    LowFour(h[4..]);
    assert h[4..][4..] == [];
  }

  ghost predicate LiesAt(b: Bytes, pos: nat, s: Stored) {
    && pos + s.Size() <= |b|
    && s.length == LengthIn(b[pos..pos + HEADER_SIZE]) && s.written == CrcIn(b[pos..pos + HEADER_SIZE])
    && |s.payload| == s.length + (8 - s.length % 8) % 8
    && s.payload == b[pos + HEADER_SIZE..pos + s.Size()]
  }

  /** It decodes, to a record of a known kind, and its checksum continues the one before, unless it is an anchor. */
  ghost predicate Checked(c: Codec, crc: Word, s: Stored)
    requires |s.payload| >= s.length
  {
    && c.unmarshal(s.payload[..s.length]) == Some(s.record) && !s.record.kind.UnknownKind?
    && (s.record.kind.CrcAnchor? || s.written == c.update(crc, s.payload))
  }

  /** A stored record is read exactly if it passes the check. */
  lemma {:induction false} ReadExactlyIfChecked(c: Codec, b: Bytes, pos: nat, crc: Word, s: Stored)
    requires pos <= |b| && LiesAt(b, pos, s)
    ensures ReadRecord(c, b, pos, crc) == Got(s.record, pos + s.Size(), s.written) <==> Checked(c, crc, s)
  {
  }

  /** And nothing is read that does not lie there. */
  lemma {:induction false} ReadIsStored(c: Codec, b: Bytes, pos: nat, crc: Word) returns (s: Stored)
    requires pos <= |b| && ReadRecord(c, b, pos, crc).Got?
    ensures LiesAt(b, pos, s) && Checked(c, crc, s)
    ensures ReadRecord(c, b, pos, crc) == Got(s.record, pos + s.Size(), s.written)
  {
    var r, header := ReadRecord(c, b, pos, crc), b[pos..pos + HEADER_SIZE];
    s := Stored(LengthIn(header), CrcIn(header), b[pos + HEADER_SIZE..r.next], r.record);
  }

  // ---- one file ----

  /** Records that lie one behind the other, each continuing the checksum of the one before. */
  ghost predicate Chained(c: Codec, b: Bytes, pos: nat, crc: Word, stored: seq<Stored>, end: Cursor)
    decreases |stored|
  {
    if stored == [] then end.pos == pos && end.crc == crc
    else
      && LiesAt(b, pos, stored[0]) && Checked(c, crc, stored[0])
      && Chained(c, b, pos + stored[0].Size(), stored[0].written, stored[1..], end)
  }

  function Records(stored: seq<Stored>): seq<Record> {
    seq(|stored|, k requires 0 <= k < |stored| => stored[k].record)
  }

  lemma {:induction false} MarkSplits(mark: nat, a: seq<Record>, b: seq<Record>, index: nat)
    ensures MarkAll(mark, a + b, index) == MarkAll(MarkAll(mark, a, index), b, index)
  {
    if b == [] {
      assert a + b == a;
    } else {
      MarkSplits(mark, a, b[..|b| - 1], index);
      assert (a + b)[..|a + b| - 1] == a + b[..|b| - 1];
    }
  }

  lemma {:induction false} FirstOf(items: seq<Bytes>, mark: nat, r: Record, rest: seq<Record>, index: nat)
    ensures CollectAll(items, [r] + rest) == CollectAll(Collect(items, r), rest)
    ensures MarkAll(mark, [r] + rest, index) == MarkAll(Mark(mark, r, index), rest, index)
  {
    CollectSplits(items, [r], rest);
    MarkSplits(mark, [r], rest, index);
    assert [r][..0] == [];
    assert CollectAll(items, [r]) == Collect(CollectAll(items, []), r);
    assert MarkAll(mark, [r], index) == Mark(MarkAll(mark, [], index), r, index);
  }

  /** From one place to another, a reader passes the stored records and collects what they hold. */
  ghost predicate Collected(c: Codec, b: Bytes, index: nat, cur: Cursor, stored: seq<Stored>, end: Cursor) {
    && Chained(c, b, cur.pos, cur.crc, stored, end)
    && end.items == CollectAll(cur.items, Records(stored))
    && end.mark == MarkAll(cur.mark, Records(stored), index)
  }

  function Past(cur: Cursor, s: Stored, index: nat): Cursor {
    Cursor(cur.pos + s.Size(), s.written, Collect(cur.items, s.record), Mark(cur.mark, s.record, index))
  }

  lemma {:induction false} OneMoreCollected(c: Codec, b: Bytes, index: nat, cur: Cursor, s: Stored, rest: seq<Stored>,
      end: Cursor)
    requires LiesAt(b, cur.pos, s) && Checked(c, cur.crc, s) && Collected(c, b, index, Past(cur, s, index), rest, end)
    ensures Collected(c, b, index, cur, [s] + rest, end)
  {
    assert ([s] + rest)[1..] == rest;
    FirstOf(cur.items, cur.mark, s.record, Records(rest), index);
    assert Records([s] + rest) == [s.record] + Records(rest);
  }

  lemma {:induction false} ReadsOnPast(c: Codec, b: Bytes, index: nat, cur: Cursor) returns (s: Stored)
    requires cur.pos <= |b| && ReadRecord(c, b, cur.pos, cur.crc).Got?
    ensures LiesAt(b, cur.pos, s) && Checked(c, cur.crc, s)
    ensures ReadOn(c, b, index, cur) == ReadOn(c, b, index, Past(cur, s, index))
  {
    s := ReadIsStored(c, b, cur.pos, cur.crc);
  }

  /** Reading on collects a chain, up to a record that does not read. */
  lemma {:induction false} ReadsAChain(c: Codec, b: Bytes, index: nat, cur: Cursor) returns (stored: seq<Stored>)
    requires cur.pos <= |b|
    ensures var end := ReadOn(c, b, index, cur).0;
            && Collected(c, b, index, cur, stored, end)
            && ReadOn(c, b, index, cur).1 == ReadRecord(c, b, end.pos, end.crc)
    decreases |b| - cur.pos
  {
    if ReadRecord(c, b, cur.pos, cur.crc).Got? {
      var s := ReadsOnPast(c, b, index, cur);
      var rest := ReadsAChain(c, b, index, Past(cur, s, index));
      OneMoreCollected(c, b, index, cur, s, rest, ReadOn(c, b, index, cur).0);
      stored := [s] + rest;
    } else {
      stored := [];
    }
  }

  /** The file ends there, or in a header that nothing follows. */
  predicate EndsAt(b: Bytes, pos: nat) {
    pos == |b| || pos + HEADER_SIZE == |b|
  }

  lemma {:induction false} EndIsAtTheEnd(c: Codec, b: Bytes, pos: nat, crc: Word)
    requires pos <= |b| && ReadRecord(c, b, pos, crc).End?
    ensures EndsAt(b, pos)
  {
  }

  /** A file that starts with an anchor and holds a chain from there to its end; read with what was collected before. */
  ghost predicate Genuine(c: Codec, b: Bytes, index: nat, before: Progress, anchor: Stored, stored: seq<Stored>,
      after: Progress) {
    && LiesAt(b, 0, anchor) && Checked(c, 0, anchor) && anchor.record.kind.CrcAnchor?
    && after.error.None? && after.index == index
    && exists pos: nat ::
         && Collected(c, b, index, Cursor(anchor.Size(), anchor.written, before.items, before.mark), stored,
                      Cursor(pos, after.crc, after.items, after.mark))
         && EndsAt(b, pos)
  }

  /** A file that reads without error is genuine, and continues from the file before it. */
  lemma {:induction false} ReadFileIsGenuine(c: Codec, b: Bytes, index: nat, first: bool, last: bool, p: Progress)
    returns (anchor: Stored, stored: seq<Stored>)
    requires ReadFile(c, b, index, first, last, p).error.None?
    ensures Genuine(c, b, index, p, anchor, stored, ReadFile(c, b, index, first, last, p))
    ensures first || anchor.written == p.crc
  {
    anchor := ReadIsStored(c, b, 0, 0);
    var cur := Cursor(anchor.Size(), anchor.written, p.items, p.mark);
    stored := ReadsAChain(c, b, index, cur);
    var end := ReadOn(c, b, index, cur).0;
    EndIsAtTheEnd(c, b, end.pos, end.crc);
  }

  // ---- all files ----

  /** A file as it was read: its anchor, the records behind it, and where the reader stood after it. */
  datatype File = File(anchor: Stored, stored: seq<Stored>, after: Progress)

  /** Where the reader stood before the k-th file. */
  function Before(start: Progress, files: seq<File>, k: nat): Progress
    requires k <= |files|
  {
    if k == 0 then start else files[k - 1].after
  }

  /** The k-th file is genuine and continues the checksum of the file before. */
  ghost predicate GenuineAt(c: Codec, disk: Disk, active: seq<nat>, start: Progress, files: seq<File>, k: nat)
    requires k < |files| <= |active|
  {
    var before, file := Before(start, files, k), files[k];
    && Genuine(c, Contents(disk, active[k]), active[k], before, file.anchor, file.stored, file.after)
    && (k > 0 ==> file.anchor.written == before.crc)
  }

  ghost predicate AllGenuine(c: Codec, disk: Disk, active: seq<nat>, start: Progress, files: seq<File>) {
    |files| <= |active| && forall k: nat :: k < |files| ==> GenuineAt(c, disk, active, start, files, k)
  }

  function AllStored(files: seq<File>): seq<Record> {
    if files == [] then [] else AllStored(files[..|files| - 1]) + Records(files[|files| - 1].stored)
  }

  /** The k-th file adds what it holds to what was collected before. */
  ghost predicate CollectsAt(start: Progress, files: seq<File>, k: nat)
    requires k < |files|
  {
    files[k].after.items == CollectAll(Before(start, files, k).items, Records(files[k].stored))
  }

  lemma {:induction false} GenuineCollects(c: Codec, disk: Disk, active: seq<nat>, start: Progress, files: seq<File>,
      k: nat)
    requires k < |files| <= |active| && GenuineAt(c, disk, active, start, files, k)
    ensures CollectsAt(start, files, k)
  {
  }

  lemma {:induction false} AllCollected(start: Progress, files: seq<File>, k: nat)
    requires k <= |files| && forall j: nat :: j < k ==> CollectsAt(start, files, j)
    ensures Before(start, files, k).items == CollectAll(start.items, AllStored(files[..k]))
  {
    if k > 0 {
      AllCollected(start, files, k - 1);
      assert CollectsAt(start, files, k - 1);
      assert files[..k][..k - 1] == files[..k - 1];
      CollectSplits(start.items, AllStored(files[..k - 1]), Records(files[k - 1].stored));
    }
  }

  lemma {:induction false} OneMoreGenuine(c: Codec, disk: Disk, active: seq<nat>, start: Progress, files: seq<File>,
      file: File)
    requires |files| < |active| && AllGenuine(c, disk, active, start, files)
    requires GenuineAt(c, disk, active, start, files + [file], |files|)
    ensures AllGenuine(c, disk, active, start, files + [file])
  {
    forall k: nat | k < |files| ensures GenuineAt(c, disk, active, start, files + [file], k) {
      assert GenuineAt(c, disk, active, start, files, k);
    }
  }

  lemma {:induction false} ReadsNext(c: Codec, disk: Disk, active: seq<nat>, k: nat, p: Progress)
    requires k < |active| && ReadFiles(c, disk, active, k, p).error.None?
    ensures var q := ReadFile(c, Contents(disk, active[k]), active[k], k == 0, k == |active| - 1, p);
            q.error.None? && ReadFiles(c, disk, active, k, p) == ReadFiles(c, disk, active, k + 1, q)
  {
  }

  /** The first m files, when all of them read. */
  lemma {:induction false} ReadAreGenuine(c: Codec, disk: Disk, active: seq<nat>, start: Progress, m: nat)
    returns (files: seq<File>)
    requires m <= |active| && ReadFiles(c, disk, active, 0, start).error.None?
    ensures |files| == m && AllGenuine(c, disk, active, start, files)
    ensures ReadFiles(c, disk, active, m, Before(start, files, m)) == ReadFiles(c, disk, active, 0, start)
  {
    if m == 0 {
      files := [];
    } else {
      var first := ReadAreGenuine(c, disk, active, start, m - 1);
      var file := ReadFileNext(c, disk, active, start, first);
      files := first + [file];
      OneMoreGenuine(c, disk, active, start, first, file);
    }
  }

  lemma {:induction false} ReadFileNext(c: Codec, disk: Disk, active: seq<nat>, start: Progress, files: seq<File>)
    returns (file: File)
    requires |files| < |active| && ReadFiles(c, disk, active, |files|, Before(start, files, |files|)).error.None?
    ensures GenuineAt(c, disk, active, start, files + [file], |files|)
    ensures ReadFiles(c, disk, active, |files|, Before(start, files, |files|))
            == ReadFiles(c, disk, active, |files| + 1, file.after)
  {
    var k, p := |files|, Before(start, files, |files|);
    ReadsNext(c, disk, active, k, p);
    var anchor, stored := ReadFileIsGenuine(c, Contents(disk, active[k]), active[k], k == 0, k == |active| - 1, p);
    file := File(anchor, stored, ReadFile(c, Contents(disk, active[k]), active[k], k == 0, k == |active| - 1, p));
  }

  /** Whatever the files hold: entries are returned only if every file is one unbroken chain of checked records to its
      end, each file continuing the one before; and then they are what a reader is owed of those records. */
  lemma {:induction false} OnlyCheckedEntries(c: Codec, w: Wal) returns (files: seq<File>)
    requires ReadAll(c, w).result.Items?
    ensures |files| == |w.active|
    ensures AllGenuine(c, w.disk, w.active, Progress([], w.crc, w.mark, w.index, None), files)
    ensures ReadAll(c, w).result == Items(CollectAll([], AllStored(files)))
  {
    var start := Progress([], w.crc, w.mark, w.index, None);
    files := ReadAreGenuine(c, w.disk, w.active, start, |w.active|);
    forall k: nat | k < |files| ensures CollectsAt(start, files, k) {
      GenuineCollects(c, w.disk, w.active, start, files, k);
    }
    AllCollected(start, files, |files|);
    assert files[..|files|] == files;
  }
}
