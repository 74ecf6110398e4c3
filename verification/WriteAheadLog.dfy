/** The write-ahead log as the object it is: a reader over one file, and a handle that appends, switches files and
    reads all files back. Each method is proved to do what the operation on values does. */
module WriteAheadLog {
  import opened Messages
  import opened WalFormat
  import opened WalModel
  import opened WalLog
  import opened WalRecovery

  class LogRecordReader {
    const codec: Codec
    const bytes: Bytes
    var pos: nat
    var crc: Word

    constructor (codec: Codec, bytes: Bytes)
      ensures this.codec == codec && this.bytes == bytes && pos == 0 && crc == 0
    {
      this.codec, this.bytes, pos, crc := codec, bytes, 0, 0;
    }

    /** Takes n bytes, as io.ReadFull does. */
    method Take(n: nat) returns (chunk: Chunk)
      requires pos <= |bytes|
      modifies this
      ensures chunk == ReadFull(bytes, old(pos), n) && crc == old(crc) && pos <= |bytes|
      ensures chunk.Full? ==> pos == old(pos) + n
    {
      if n <= |bytes| - pos {
        chunk := Full(bytes[pos..pos + n]);
        pos := pos + n;
      } else if pos == |bytes| {
        chunk := Nothing;
      } else {
        chunk := Partial;
        pos := |bytes|;
      }
    }

    method Read() returns (o: Outcome)
      requires pos <= |bytes|
      modifies this
      ensures o == ReadRecord(codec, bytes, old(pos), old(crc)) && pos <= |bytes|
      ensures if o.Got? then pos == o.next && crc == o.crc else crc == old(crc)
    {
      var header := Take(HEADER_SIZE);
      if !header.Full? {
        return if header.Nothing? then End else Torn;
      }
      var n := LengthIn(header.bytes);
      var payload := Take(n + PadSize(n));
      if !payload.Full? {
        return if payload.Nothing? then End else Torn;
      }
      var record := codec.unmarshal(payload.bytes[..n]);
      if record.None? {
        return BadPayload;
      }
      o := Accept(codec, crc, CrcIn(header.bytes), payload.bytes, record.value, pos);
      if o.Got? {
        crc := o.crc;
      }
    }

    /** The anchor that every file starts with. */
    method ReadFirst() returns (ok: bool)
      requires pos == 0 && crc == 0
      modifies this
      ensures ok == ReadAnchor(codec, bytes).Some? && pos <= |bytes|
      ensures ok ==> pos == ReadAnchor(codec, bytes).value.next && crc == ReadAnchor(codec, bytes).value.crc
    {
      var o := Read();
      ok := o.Got? && o.record.kind.CrcAnchor?;
    }

    static method Absorb(r: Record, items0: seq<Bytes>, mark0: nat, index: nat) returns (items: seq<Bytes>, mark: nat)
      ensures items == Collect(items0, r) && mark == Mark(mark0, r, index)
    {
      items, mark := items0, mark0;
      if r.truncateTo {
        items, mark := [], index;
      }
      if r.kind.Entry? {
        items := items + [r.data];
      }
    }

    /** Reads on to the first failure, collecting entries and remembering the last marked file; end is the position
        after the last good record. */
    method ReadToEnd(index: nat, items0: seq<Bytes>, mark0: nat)
        returns (items: seq<Bytes>, mark: nat, end: nat, why: Outcome)
      requires pos <= |bytes|
      modifies this
      ensures (Cursor(end, crc, items, mark), why)
              == ReadOn(codec, bytes, index, Cursor(old(pos), old(crc), items0, mark0))
    {
      items, mark, end := items0, mark0, pos;
      ghost var cur := Cursor(pos, crc, items0, mark0);
      why := Read();
      while why.Got?
        invariant cur.pos == end <= |bytes| && cur.items == items && cur.mark == mark && pos <= |bytes|
        invariant why == ReadRecord(codec, bytes, end, cur.crc)
        invariant if why.Got? then pos == why.next && crc == why.crc else crc == cur.crc
        invariant ReadOn(codec, bytes, index, cur)
                  == ReadOn(codec, bytes, index, Cursor(old(pos), old(crc), items0, mark0))
        decreases |bytes| - end
      {
        items, mark := Absorb(why.record, items, mark, index);
        end := pos;
        cur := Cursor(pos, crc, items, mark);
        why := Read();
      }
    }
  }

  /** What every reachable handle meets: no remembered index is past the last active file, which is the one being
      written. */
  predicate Bounded(w: Wal) {
    && w.active != []
    && w.mark <= w.active[|w.active| - 1]
    && (forall i :: 0 <= i < |w.active| ==> w.active[i] <= w.active[|w.active| - 1])
    && (w.mode.Writing? ==> w.index == w.active[|w.active| - 1])
  }

  lemma {:induction false} ValidIsBounded(c: Codec, w: Wal, parts: seq<Part>)
    requires Valid(c, w, parts)
    ensures Bounded(w)
  {
  }

  lemma {:induction false} MarkIsKeptOrThisFile(c: Codec, b: Bytes, index: nat, cur: Cursor)
    requires cur.pos <= |b|
    ensures var mark := ReadOn(c, b, index, cur).0.mark; mark == cur.mark || mark == index
    decreases |b| - cur.pos
  {
    var r := ReadRecord(c, b, cur.pos, cur.crc);
    if r.Got? {
      MarkIsKeptOrThisFile(c, b, index, Cursor(r.next, r.crc, Collect(cur.items, r.record),
          Mark(cur.mark, r.record, index)));
    }
  }

  lemma {:induction false} ReadFileMark(c: Codec, b: Bytes, index: nat, first: bool, last: bool, p: Progress)
    ensures var q := ReadFile(c, b, index, first, last, p); q.index == index && (q.mark == p.mark || q.mark == index)
  {
    var a := ReadAnchor(c, b);
    if a.Some? {
      MarkIsKeptOrThisFile(c, b, index, Cursor(a.value.next, a.value.crc, p.items, p.mark));
    }
  }

  lemma {:induction false} NextProgress(c: Codec, disk: Disk, active: seq<nat>, k: nat, p: Progress)
      returns (q: Progress)
    requires k < |active|
    ensures q.index == active[k] && (q.mark == p.mark || q.mark == active[k])
    ensures ReadFiles(c, disk, active, k, p) == if q.error.Some? then q else ReadFiles(c, disk, active, k + 1, q)
  {
    q := ReadFile(c, Contents(disk, active[k]), active[k], k == 0, k == |active| - 1, p);
    ReadFileMark(c, Contents(disk, active[k]), active[k], k == 0, k == |active| - 1, p);
  }

  /** Reading all files ends on the last one, with a truncation index among the indexes seen. */
  lemma {:induction false} ReadFilesBounded(c: Codec, disk: Disk, active: seq<nat>, k: nat, p: Progress)
      returns (end: Progress)
    requires k <= |active| && active != [] && p.mark <= active[|active| - 1]
    requires forall i :: 0 <= i < |active| ==> active[i] <= active[|active| - 1]
    ensures end == ReadFiles(c, disk, active, k, p)
    ensures end.mark <= active[|active| - 1] && (end.error.None? && k < |active| ==> end.index == active[|active| - 1])
    decreases |active| - k
  {
    if k == |active| {
      end := p;
    } else {
      end := NextProgress(c, disk, active, k, p);
      if end.error.None? {
        assert k + 1 == |active| ==> end.index == active[|active| - 1];
        end := ReadFilesBounded(c, disk, active, k + 1, end);
      }
    }
  }

  lemma {:induction false} WithoutNext(disk: Disk, gone: seq<nat>, i: nat)
    requires i < |gone|
    ensures Without(disk, gone[..i]) - {gone[i]} == Without(disk, gone[..i + 1])
  {
  }

  class WriteAheadLogFile {
    const codec: Codec
    const fileSizeBytes: int
    var files: Disk
    var index: nat
    var crc: Word
    var readMode: bool
    var isOpen: bool
    var truncateIndex: nat
    var activeIndexes: seq<nat>

    ghost function Value(): Wal
      reads this
    {
      Wal(files, activeIndexes, index, crc, truncateIndex, if !isOpen then Closed else if readMode then Reading
          else Writing)
    }

    constructor Create(codec: Codec, fileSizeBytes: int)
      ensures Value() == WalModel.Create(codec) && this.codec == codec && this.fileSizeBytes == fileSizeBytes
    {
      this.codec, this.fileSizeBytes := codec, fileSizeBytes;
      files, index, crc, readMode, isOpen := map[1 := Frame(codec, CRC_SEED, ANCHOR)], 1, CRC_SEED, false, true;
      truncateIndex, activeIndexes := 1, [1];
    }

    /** A handle on existing files, once they passed the checks of Open. */
    constructor Opened(codec: Codec, fileSizeBytes: int, files: Disk, names: seq<nat>)
      requires names != []
      ensures Value() == Wal(files, names, names[0], 0, 0, Reading) && this.codec == codec
      ensures this.fileSizeBytes == fileSizeBytes
    {
      this.codec, this.fileSizeBytes := codec, fileSizeBytes;
      this.files, index, crc, readMode, isOpen := files, names[0], 0, true, true;
      truncateIndex, activeIndexes := 0, names;
    }

    method CloseLog()
      modifies this
      ensures Value() == old(Value()).(mode := Closed)
    {
      isOpen := false;
    }

    /** The deletion loop: it stops within the active files, having removed those before the truncation index. */
    method DeleteOldFiles()
      requires activeIndexes != [] && truncateIndex <= activeIndexes[|activeIndexes| - 1]
      modifies this`files, this`activeIndexes
      ensures var j := FirstKept(old(activeIndexes), truncateIndex, 0);
              activeIndexes == old(activeIndexes)[j..] && files == Without(old(files), old(activeIndexes)[..j])
    {
      assert files == Without(files, activeIndexes[..0]);
      if activeIndexes[0] < truncateIndex {
        var i := 0;
        while activeIndexes[i] < truncateIndex
          invariant i < |activeIndexes| && activeIndexes == old(activeIndexes)
          invariant FirstKept(activeIndexes, truncateIndex, i) == FirstKept(activeIndexes, truncateIndex, 0)
          invariant files == Without(old(files), activeIndexes[..i])
          decreases |activeIndexes| - i
        {
          WithoutNext(old(files), activeIndexes, i);
          files := files - {activeIndexes[i]};
          i := i + 1;
        }
        activeIndexes := activeIndexes[i..];
      }
    }

    method DeleteAndCreateFile()
      requires activeIndexes != [] && truncateIndex <= activeIndexes[|activeIndexes| - 1]
      modifies this
      ensures Value() == DeleteAndCreate(codec, old(Value()))
    {
      DeleteOldFiles();
      index := index + 1;
      var was := if index in files then files[index] else [];
      files := files[index := Overwrite(was, Frame(codec, crc, ANCHOR))];
      activeIndexes := activeIndexes + [index];
    }

    method WriteRecord(r: Record)
      modifies this
      ensures Value() == Extend(codec, old(Value()), r)
    {
      var payload := codec.marshal(r);
      var padded := payload + seq(PadSize(|payload|), _ => 0);
      var dataCRC := if r.kind.CrcAnchor? then crc else codec.update(crc, padded);
      var was := if index in files then files[index] else [];
      files := files[index := was + (Header(|payload|, dataCRC) + padded)];
      crc := dataCRC;
      if r.truncateTo {
        truncateIndex := index;
      }
    }

    method AddRecord(r: Record) returns (result: Result)
      requires Bounded(Value())
      modifies this
      ensures AppendRecord(codec, fileSizeBytes, old(Value()), r) == Answer(Value(), result)
      ensures Bounded(Value())
    {
      if !isOpen {
        return Err(IsClosed);
      }
      if readMode {
        return Err(IsReadOnly);
      }
      if |codec.marshal(r)| >= TWO_32 {
        return Err(TooBig);
      }
      WriteRecord(r);
      var offset := if index in files then |files[index]| else 0;
      if offset > fileSizeBytes - 16 {
        DeleteAndCreateFile();
      }
      return Done;
    }

    method Append(data: Bytes, truncateTo: bool) returns (result: Result)
      requires Bounded(Value())
      modifies this
      ensures Step(codec, fileSizeBytes, old(Value()), Op.Append(data, truncateTo)) == Answer(Value(), result)
      ensures Bounded(Value())
    {
      if data == [] {
        return Err(EmptyData);
      }
      result := AddRecord(Record(Entry, truncateTo, data));
    }

    method TruncateTo() returns (result: Result)
      requires Bounded(Value())
      modifies this
      ensures Step(codec, fileSizeBytes, old(Value()), Op.TruncateTo) == Answer(Value(), result)
      ensures Bounded(Value())
    {
      result := AddRecord(TRUNCATE);
    }

    /** One file of ReadAll. */
    method ReadOne(k: nat, items0: seq<Bytes>) returns (items: seq<Bytes>, error: Option<Error>)
      requires k < |activeIndexes|
      modifies this`index, this`crc, this`truncateIndex
      ensures Progress(items, crc, truncateIndex, index, error)
              == ReadFile(codec, Contents(files, activeIndexes[k]), activeIndexes[k], k == 0, k == |activeIndexes| - 1,
                          Progress(items0, old(crc), old(truncateIndex), old(index), None))
    {
      index := activeIndexes[k];
      var r := new LogRecordReader(codec, if index in files then files[index] else []);
      var ok := r.ReadFirst();
      if !ok || (k != 0 && r.crc != crc) {
        return items0, Some(Failed);
      }
      var end, why;
      items, truncateIndex, end, why := r.ReadToEnd(index, items0, truncateIndex);
      if why.End? {
        crc := r.crc;
        return items, None;
      }
      if k == |activeIndexes| - 1 && (why.Torn? || why.BadCrc? || why.BadPayload?) {
        return items, Some(UnexpectedEnd);
      }
      return items, Some(Failed);
    }

    method ReadEach() returns (items: seq<Bytes>, error: Option<Error>)
      modifies this`index, this`crc, this`truncateIndex
      ensures Progress(items, crc, truncateIndex, index, error)
              == ReadFiles(codec, files, activeIndexes, 0, Progress([], old(crc), old(truncateIndex), old(index), None))
    {
      items, error := [], None;
      var k := 0;
      while k < |activeIndexes| && error.None?
        invariant k <= |activeIndexes|
        invariant var p := Progress(items, crc, truncateIndex, index, error);
                  (if error.Some? then p else ReadFiles(codec, files, activeIndexes, k, p))
                  == ReadFiles(codec, files, activeIndexes, 0,
                      Progress([], old(crc), old(truncateIndex), old(index), None))
        decreases |activeIndexes| - k, error.None?
      {
        items, error := ReadOne(k, items);
        if error.None? {
          k := k + 1;
        }
      }
    }

    /** The end of ReadAll: write mode on a new file, or the error. */
    method MoveToWriting(items: seq<Bytes>, error: Option<Error>) returns (result: Result)
      requires activeIndexes != [] && truncateIndex <= activeIndexes[|activeIndexes| - 1] && isOpen && readMode
      modifies this
      ensures result == if error.Some? then Err(error.value) else Items(items)
      ensures Value() == if error.Some? then old(Value()) else DeleteAndCreate(codec, old(Value()).(mode := Writing))
    {
      if error.Some? {
        return Err(error.value);
      }
      readMode := false;
      DeleteAndCreateFile();
      return Items(items);
    }

    method ReadAllEntries() returns (result: Result)
      requires Bounded(Value())
      modifies this
      ensures ReadAll(codec, old(Value())) == Answer(Value(), result)
      ensures Bounded(Value())
    {
      if !isOpen {
        return Err(IsClosed);
      }
      if !readMode {
        return Err(IsWriteOnly);
      }
      ghost var end := ReadFilesBounded(codec, files, activeIndexes, 0, Progress([], crc, truncateIndex, index, None));
      var items, error := ReadEach();
      result := MoveToWriting(items, error);
    }
  }

  method HasAnchor(c: Codec, disk: Disk, names: seq<nat>, i: nat) returns (ok: bool)
    requires i < |names|
    ensures ok == (names[i] in Readable(c, disk, names))
  {
    var r := new LogRecordReader(c, if names[i] in disk then disk[names[i]] else []);
    ok := r.ReadFirst();
  }

  /** Every file has an anchor and the names have no gaps. */
  method CheckWalFiles(c: Codec, disk: Disk, names: seq<nat>) returns (error: Option<Error>)
    ensures error == CheckFiles(names, Readable(c, disk, names), 0)
  {
    ghost var readable := Readable(c, disk, names);
    var i := 0;
    while i < |names|
      invariant i <= |names| && CheckFiles(names, readable, i) == CheckFiles(names, readable, 0)
      decreases |names| - i
    {
      var ok := HasAnchor(c, disk, names, i);
      if !ok {
        return Some(if i == |names| - 1 then UnexpectedEnd else Failed);
      }
      if i > 0 && names[i] != names[i - 1] + 1 {
        return Some(NotInSequence);
      }
      i := i + 1;
    }
    return None;
  }

  method ScanVerifyFiles(c: Codec, disk: Disk, names: seq<nat>) returns (ok: bool)
    ensures ok == Verified(c, disk, names)
  {
    var i, crc: Word := 0, 0;
    ok := true;
    ghost var p := Progress([], 0, 0, 0, None);
    while i < |names| && ok
      invariant i <= |names| && ok == p.error.None? && (ok ==> p.crc == crc)
      invariant (if !ok then p else ReadFiles(c, disk, names, i, p))
                == ReadFiles(c, disk, names, 0, Progress([], 0, 0, 0, None))
      decreases |names| - i, ok
    {
      ok, crc, p := VerifyFile(c, disk, names, i, crc, p);
      if ok {
        i := i + 1;
      }
    }
  }

  method VerifyFile(c: Codec, disk: Disk, names: seq<nat>, i: nat, crc: Word, ghost p: Progress)
    returns (good: bool, next: Word, ghost q: Progress)
    requires i < |names| && p.crc == crc
    ensures good == q.error.None? && (good ==> next == q.crc)
    ensures ReadFiles(c, disk, names, i, p) == if q.error.Some? then q else ReadFiles(c, disk, names, i + 1, q)
  {
    var b := if names[i] in disk then disk[names[i]] else [];
    q := ReadFile(c, b, names[i], i == 0, i == |names| - 1, p);
    var r := new LogRecordReader(c, b);
    var ok := r.ReadFirst();
    if !ok || (i > 0 && crc != r.crc) {
      good, next := false, crc;
      return;
    }
    ghost var start := Cursor(r.pos, r.crc, p.items, p.mark);
    var items, mark, end, why := r.ReadToEnd(0, [], 0);
    SameReading(c, b, 0, names[i], Cursor(start.pos, start.crc, [], 0), start);
    good, next := why.End?, r.crc;
  }

  /** What a caller collects does not change where reading stops. */
  lemma {:induction false} SameReading(c: Codec, b: Bytes, index: nat, index': nat, cur: Cursor, cur': Cursor)
    requires cur.pos == cur'.pos <= |b| && cur.crc == cur'.crc
    ensures var x, y := ReadOn(c, b, index, cur), ReadOn(c, b, index', cur');
            x.1 == y.1 && x.0.pos == y.0.pos && x.0.crc == y.0.crc
    decreases |b| - cur.pos
  {
    var r := ReadRecord(c, b, cur.pos, cur.crc);
    if r.Got? {
      SameReading(c, b, index, index',
                  Cursor(r.next, r.crc, Collect(cur.items, r.record), Mark(cur.mark, r.record, index)),
                  Cursor(r.next, r.crc, Collect(cur'.items, r.record), Mark(cur'.mark, r.record, index')));
    }
  }

  method ScanRepairFile(c: Codec, b: Bytes) returns (fixed: Option<Bytes>)
    ensures fixed == RepairedFile(c, b)
  {
    var r := new LogRecordReader(c, b);
    var ok := r.ReadFirst();
    if !ok {
      return None;
    }
    var items, mark, end, why := r.ReadToEnd(0, [], 0);
    fixed := Some(if why.End? then b else b[..end]);
  }

  method RepairLog(c: Codec, disk: Disk, names: seq<nat>) returns (repaired: Option<Disk>)
    requires names != []
    ensures repaired == Repair(c, disk, names)
  {
    var last := names[|names| - 1];
    var ok := ScanVerifyFiles(c, disk, names[..|names| - 1]);
    if !ok {
      return None;
    }
    var fixed := ScanRepairFile(c, if last in disk then disk[last] else []);
    repaired := Some(if fixed.None? then disk - {last} else disk[last := fixed.value]);
  }

  lemma {:induction false} CheckedHaveNoGaps(names: seq<nat>, readable: set<nat>, i: nat, k: nat)
    requires i <= k < |names| && CheckFiles(names, readable, i).None?
    requires i > 0 ==> names[i - 1] == names[0] + i - 1
    ensures names[k] == names[0] + k
    decreases |names| - i
  {
    if i < k {
      CheckedHaveNoGaps(names, readable, i + 1, k);
    }
  }

  /** Open: a handle in read mode when the files pass the checks. */
  method OpenLog(c: Codec, fileSizeBytes: int, disk: Disk, names: seq<nat>)
      returns (log: WriteAheadLogFile?, result: Result)
    requires names != []
    ensures result == OpenNamed(c, disk, names).result
    ensures result.Done? <==> log != null
    ensures log != null ==> && fresh(log) && log.codec == c && log.fileSizeBytes == fileSizeBytes
                            && log.Value() == OpenNamed(c, disk, names).wal && Bounded(log.Value())
  {
    var error := CheckWalFiles(c, disk, names);
    if error.Some? {
      return null, Err(error.value);
    }
    forall k | 0 <= k < |names| ensures names[k] == names[0] + k {
      CheckedHaveNoGaps(names, Readable(c, disk, names), 0, k);
    }
    log := new WriteAheadLogFile.Opened(c, fileSizeBytes, disk, names);
    result := Done;
  }

  /** Create, or open and read, repairing once when the end of the last file is damaged; names is the directory
      listing. */
  method InitializeAndReadAll(c: Codec, fileSizeBytes: int, disk: Disk, names: seq<nat>)
    returns (log: WriteAheadLogFile?, result: Result)
    requires names == Listing(disk.Keys)
    ensures result == Initialize(c, disk).result
    ensures result.Items? ==>
              && log != null && fresh(log) && log.Value() == Initialize(c, disk).wal && log.codec == c
              && log.fileSizeBytes == fileSizeBytes
  {
    if names == [] {
      log := new WriteAheadLogFile.Create(c, fileSizeBytes);
      return log, Items([]);
    }
    log, result := OpenLog(c, fileSizeBytes, disk, names);
    if log == null {
      return;
    }
    result := log.ReadAllEntries();
    if result == Err(UnexpectedEnd) {
      var repaired := RepairLog(c, disk, names);
      if repaired.None? {
        return log, Err(Failed);
      }
      log.files := repaired.value;
      result := log.ReadAllEntries();
    }
  }
}
