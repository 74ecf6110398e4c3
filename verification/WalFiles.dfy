/** The files of a log after any operations: how large they get, and which of them are left. */
module WalFiles {
  import opened Messages
  import opened WalFormat
  import opened WalModel
  import opened WalLog

  // ---- which files are left ----

  /** Only the first and the last file may hold a truncation mark: those before the first were deleted. */
  ghost predicate Trimmed(parts: seq<Part>) {
    forall i :: 1 <= i < |parts| - 1 ==> !HasMark(parts[i].records)
  }

  /** No file after the remembered one holds a mark. */
  ghost predicate MarkIsLast(mark: nat, active: seq<nat>, parts: seq<Part>)
    requires |active| == |parts|
  {
    forall i :: 0 <= i < |parts| && HasMark(parts[i].records) ==> active[i] <= mark
  }

  /** A log in order, with no file left that could have been deleted. */
  ghost predicate Tidy(c: Codec, w: Wal, parts: seq<Part>) {
    && Valid(c, w, parts) && Trimmed(parts)
    && (w.mode.Writing? ==> MarkIsLast(w.mark, w.active, parts))
  }

  /** After moving to a new file only the first of the files holds a mark. */
  lemma {:induction false} MovedIsTrimmed(active: seq<nat>, mark: nat, parts: seq<Part>, last: Part)
    requires |active| == |parts| > 0 && forall i :: 0 <= i < |active| ==> active[i] == active[0] + i
    requires MarkIsLast(mark, active, parts) && Dropped(active, mark) < |parts| && last.records == []
    ensures var parts' := parts[Dropped(active, mark)..] + [last];
            forall i :: 1 <= i < |parts'| ==> !HasMark(parts'[i].records)
  {
    var j := Dropped(active, mark);
    var parts' := parts[j..] + [last];
    forall i | 1 <= i < |parts'| ensures !HasMark(parts'[i].records) {
      if i < |parts'| - 1 {
        assert parts'[i] == parts[j + i] && active[j + i] > mark;
      }
    }
  }

  lemma {:induction false} MovedMarkIsLast(active: seq<nat>, mark: nat, parts: seq<Part>, next: nat, last: Part)
    requires |active| == |parts| > 0 && MarkIsLast(mark, active, parts) && Dropped(active, mark) < |parts|
    requires last.records == []
    ensures MarkIsLast(mark, active[Dropped(active, mark)..] + [next], parts[Dropped(active, mark)..] + [last])
  {
    var j := Dropped(active, mark);
    var active', parts' := active[j..] + [next], parts[j..] + [last];
    forall i | 0 <= i < |parts'| && HasMark(parts'[i].records) ensures active'[i] <= mark {
      assert i < |parts'| - 1 && parts'[i] == parts[j + i] && active'[i] == active[j + i];
    }
  }

  lemma {:induction false} SwitchIsTidy(c: Codec, w: Wal, parts: seq<Part>) returns (parts': seq<Part>)
    requires Lawful(c) && Laid(c, w.disk, w.active, parts) && Marked(w.mark, w.active, parts)
    requires w.index == w.active[|w.active| - 1] && w.crc == EndCrc(c, parts[|parts| - 1])
    requires MarkIsLast(w.mark, w.active, parts)
    ensures Tidy(c, DeleteAndCreate(c, w), parts')
    ensures forall i :: 1 <= i < |parts'| ==> !HasMark(parts'[i].records)
  {
    parts' := SwitchKeepsValid(c, w, parts);
    DropsUpToMark(w.active, w.mark, 0);
    MovedIsTrimmed(w.active, w.mark, parts, Part(w.crc, [], []));
    MovedMarkIsLast(w.active, w.mark, parts, w.index + 1, Part(w.crc, [], []));
  }

  lemma {:induction false} LongerIsTidy(w: Wal, parts: seq<Part>, r: Record)
    requires |w.active| == |parts| > 0 && Trimmed(parts) && MarkIsLast(w.mark, w.active, parts)
    requires w.index == w.active[|w.active| - 1] && forall i :: 0 <= i < |w.active| ==> w.active[i] == w.active[0] + i
    ensures Trimmed(Longer(parts, r)) && MarkIsLast(Mark(w.mark, r, w.index), w.active, Longer(parts, r))
  {
    var parts' := Longer(parts, r);
    forall i | 0 <= i < |parts'| && HasMark(parts'[i].records) ensures w.active[i] <= Mark(w.mark, r, w.index) {
      if i == |parts| - 1 && !r.truncateTo {
        var k :| 0 <= k < |parts'[i].records| && parts'[i].records[k].truncateTo;
        assert parts[i].records[k].truncateTo;
      }
    }
  }

  lemma {:induction false} AppendIsTidy(c: Codec, limit: int, w: Wal, parts: seq<Part>, r: Record)
    returns (parts': seq<Part>)
    requires Lawful(c) && Tidy(c, w, parts) && w.mode.Writing? && Fits(c, r)
    ensures Tidy(c, SwitchIfFull(c, limit, Extend(c, w, r)), parts')
  {
    var w1 := Extend(c, w, r);
    ExtendKeeps(c, w, parts, r);
    LongerIsTidy(w, parts, r);
    parts' := Longer(parts, r);
    if |Contents(w1.disk, w1.index)| > limit - 16 {
      parts' := SwitchIsTidy(c, w1, parts');
    }
  }

  lemma {:induction false} MarkFilesIsLast(mark: nat, active: seq<nat>, parts: seq<Part>, m: nat, i: nat)
    requires i < m <= |active| == |parts| && HasMark(parts[i].records)
    requires forall j, k :: 0 <= j < k < |active| ==> active[j] < active[k]
    ensures active[i] <= MarkFiles(mark, active, parts, m)
  {
    MarkIsOldOrHere(MarkFiles(mark, active, parts, m - 1), parts[m - 1].records, active[m - 1]);
    if i < m - 1 {
      MarkFilesIsLast(mark, active, parts, m - 1, i);
    }
  }

  lemma {:induction false} ReadIsTidy(c: Codec, w: Wal, parts: seq<Part>) returns (parts': seq<Part>)
    requires Lawful(c) && Tidy(c, w, parts) && w.mode.Reading?
    ensures Tidy(c, ReadAll(c, w).wal, parts')
    ensures forall i :: 1 <= i < |parts'| ==> !HasMark(parts'[i].records)
  {
    LoopReads(c, w, parts);
    var start := Progress([], w.crc, w.mark, w.index, None);
    var p := ReadFiles(c, w.disk, w.active, 0, start);
    FilesRead(c, w.disk, w.active, parts, |w.active|, start);
    forall i | 0 <= i < |parts| && HasMark(parts[i].records) ensures w.active[i] <= p.mark {
      MarkFilesIsLast(w.mark, w.active, parts, |w.active|, i);
    }
    parts' := SwitchIsTidy(c, w.(crc := p.crc, mark := p.mark, index := p.index, mode := Writing), parts);
  }

  lemma {:induction false} StepIsTidy(c: Codec, limit: int, w: Wal, parts: seq<Part>, op: Op)
      returns (parts': seq<Part>)
    requires Lawful(c) && Tidy(c, w, parts)
    ensures Tidy(c, Step(c, limit, w, op).wal, parts')
  {
    parts' := parts;
    match op {
      case Append(data, truncateTo) =>
        var r := Record(Entry, truncateTo, data);
        if data != [] && w.mode.Writing? && |c.marshal(r)| < TWO_32 {
          parts' := AppendIsTidy(c, limit, w, parts, r);
        }
      case TruncateTo =>
        if w.mode.Writing? && |c.marshal(TRUNCATE)| < TWO_32 {
          parts' := AppendIsTidy(c, limit, w, parts, TRUNCATE);
        }
      case Close =>
      case Open => OpenKeeps(c, limit, w, parts);
      case ReadEntries =>
        if w.mode.Reading? {
          parts' := ReadIsTidy(c, w, parts);
        }
    }
  }

  /** After any operations the directory holds exactly the active files, and of these only the first and the last can
      hold a truncation mark: whatever came before the mark was deleted when the last file was started. */
  lemma {:induction false} OldFilesAreGone(c: Codec, limit: int, ops: seq<Op>) returns (parts: seq<Part>)
    requires Lawful(c)
    ensures Tidy(c, Files(c, limit, ops), parts)
  {
    if ops == [] {
      NewFile(c, CRC_SEED);
      parts := [Part(CRC_SEED, [], [])];
    } else {
      var before := OldFilesAreGone(c, limit, ops[..|ops| - 1]);
      parts := StepIsTidy(c, limit, Files(c, limit, ops[..|ops| - 1]), before, ops[|ops| - 1]);
    }
  }

  // ---- how large they get ----

  function Max(a: int, b: int): int {
    if a > b then a else b
  }

  /** Sixteen bytes below the limit, or the size of a file nothing was written to. */
  function Threshold(c: Codec, limit: int): int {
    Max(limit - 16, FrameSize(c, ANCHOR))
  }

  /** The largest frame of some records. */
  function Largest(c: Codec, rs: seq<Record>): nat {
    if rs == [] then 0 else Max(Largest(c, rs[..|rs| - 1]), FrameSize(c, rs[|rs| - 1]))
  }

  /** No file is larger than the threshold by more than one frame, and the one being written is not larger at all. */
  ghost predicate Small(c: Codec, limit: int, largest: nat, w: Wal) {
    && (forall x :: x in w.disk ==> |w.disk[x]| <= Threshold(c, limit) + largest)
    && (w.mode.Writing? ==> |Contents(w.disk, w.index)| <= Threshold(c, limit))
  }

  lemma {:induction false} SwitchStaysSmall(c: Codec, limit: int, largest: nat, w: Wal)
    requires Lawful(c) && Numbered(w.disk, w.active) && w.index == w.active[|w.active| - 1]
    requires forall x :: x in w.disk ==> |w.disk[x]| <= Threshold(c, limit) + largest
    ensures Small(c, limit, largest, DeleteAndCreate(c, w))
  {
    FrameShape(c, w.crc, ANCHOR);
    PaddedShape(c.marshal(ANCHOR));
    assert w.index + 1 !in w.disk;
  }

  lemma {:induction false} AppendStaysSmall(c: Codec, limit: int, largest: nat, w: Wal, r: Record)
    requires Lawful(c) && Numbered(w.disk, w.active) && w.index == w.active[|w.active| - 1]
    requires w.mode.Writing? && Fits(c, r) && Small(c, limit, largest, w)
    ensures Small(c, limit, Max(largest, FrameSize(c, r)), SwitchIfFull(c, limit, Extend(c, w, r)))
  {
    ExtendedSizes(c, limit, largest, w, r);
    var w1 := Extend(c, w, r);
    if |Contents(w1.disk, w1.index)| > limit - 16 {
      SwitchStaysSmall(c, limit, Max(largest, FrameSize(c, r)), w1);
    }
  }

  lemma {:induction false} ExtendedSizes(c: Codec, limit: int, largest: nat, w: Wal, r: Record)
    requires Lawful(c) && Fits(c, r) && w.mode.Writing? && Small(c, limit, largest, w)
    requires Numbered(w.disk, w.active) && w.index == w.active[|w.active| - 1]
    ensures var disk := Extend(c, w, r).disk;
            forall x :: x in disk ==> |disk[x]| <= Threshold(c, limit) + Max(largest, FrameSize(c, r))
    ensures Numbered(Extend(c, w, r).disk, w.active)
  {
    FrameShape(c, w.crc, r);
    PaddedShape(c.marshal(r));
  }

  lemma {:induction false} ReadStaysSmall(c: Codec, limit: int, largest: nat, w: Wal, parts: seq<Part>)
    requires Lawful(c) && Valid(c, w, parts) && w.mode.Reading? && Small(c, limit, largest, w)
    ensures Small(c, limit, largest, ReadAll(c, w).wal)
  {
    LoopReads(c, w, parts);
    var p := ReadFiles(c, w.disk, w.active, 0, Progress([], w.crc, w.mark, w.index, None));
    SwitchStaysSmall(c, limit, largest, w.(crc := p.crc, mark := p.mark, index := p.index, mode := Writing));
  }

  lemma {:induction false} StepStaysSmall(c: Codec, limit: int, largest: nat, w: Wal, parts: seq<Part>, op: Op)
    requires Lawful(c) && Valid(c, w, parts) && Small(c, limit, largest, w)
    ensures var added := Added(c, w.mode, op);
            var largest' := if added == [] then largest else Max(largest, FrameSize(c, added[0]));
            Small(c, limit, largest', Step(c, limit, w, op).wal)
  {
    match op {
      case Append(data, truncateTo) =>
        var r := Record(Entry, truncateTo, data);
        if data != [] && w.mode.Writing? && |c.marshal(r)| < TWO_32 {
          AppendStaysSmall(c, limit, largest, w, r);
        }
      case TruncateTo =>
        if w.mode.Writing? && |c.marshal(TRUNCATE)| < TWO_32 {
          AppendStaysSmall(c, limit, largest, w, TRUNCATE);
        }
      case Close =>
      case Open => OpenKeeps(c, limit, w, parts);
      case ReadEntries =>
        if w.mode.Reading? {
          ReadStaysSmall(c, limit, largest, w, parts);
        }
    }
  }

  /** After any operations no file is larger than the threshold by more than the largest frame written, and a file
      that is being written is at most that threshold. */
  lemma {:induction false} FilesStaySmall(c: Codec, limit: int, ops: seq<Op>)
    requires Lawful(c)
    ensures Small(c, limit, Largest(c, Accepted(c, ops)), Files(c, limit, ops))
  {
    if ops == [] {
      FrameShape(c, CRC_SEED, ANCHOR);
      PaddedShape(c.marshal(ANCHOR));
    } else {
      var init, op := ops[..|ops| - 1], ops[|ops| - 1];
      FilesStaySmall(c, limit, init);
      var parts := RunIsKept(c, limit, init);
      StepStaysSmall(c, limit, Largest(c, Accepted(c, init)), Files(c, limit, init), parts, op);
      OneMoreLargest(c, init, op);
    }
  }

  lemma {:induction false} OneMoreLargest(c: Codec, ops: seq<Op>, op: Op)
    ensures var before, added := Largest(c, Accepted(c, ops)), Added(c, Entries(c, ops).mode, op);
            Largest(c, Accepted(c, ops + [op])) == if added == [] then before else Max(before, FrameSize(c, added[0]))
  {
    var added := Added(c, Entries(c, ops).mode, op);
    assert (ops + [op])[..|ops|] == ops;
    assert Accepted(c, ops) + [] == Accepted(c, ops);
    if added != [] {
      assert (Accepted(c, ops) + added)[..|Accepted(c, ops)|] == Accepted(c, ops);
    }
  }
}
