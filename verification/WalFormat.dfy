/** Bytes of a write-ahead log file: frames of an 8-byte little-endian header (record length in the low half, checksum
    in the high half) and a payload padded with zeros to 8 bytes. The record encoding and the checksum are parameters:
    the checksum is the CRC-32C of section 12.1 of RFC 3720 as an update function on 32-bit words. */
module WalFormat {
  import opened Messages

  const TWO_32: int := 0x1_0000_0000
  const HEADER_SIZE: nat := 8
  const CRC_SEED: Word := 0xDEED0001

  type Word = x: int | 0 <= x < 0x1_0000_0000

  datatype Kind = Entry | Control | CrcAnchor | UnknownKind
  datatype Record = Record(kind: Kind, truncateTo: bool, data: Bytes)

  const ANCHOR := Record(CrcAnchor, false, [])

  datatype Codec = Codec(marshal: Record -> Bytes, unmarshal: Bytes -> Option<Record>, update: (Word, Bytes) -> Word)

  /** A record the log writes: an anchor, a control record, or an entry with some data. */
  predicate Writable(r: Record) {
    !r.kind.UnknownKind? && (r.kind.Entry? ==> r.data != [])
  }

  /** Encodings decode back, a record the log writes does not encode to nothing, and an anchor is short. */
  ghost predicate Lawful(c: Codec) {
    && |c.marshal(ANCHOR)| < TWO_32
    && forall r :: c.unmarshal(c.marshal(r)) == Some(r) && (Writable(r) ==> c.marshal(r) != [])
  }

  // ---- little-endian numbers ----

  function Power(k: nat): nat {
    if k == 0 then 1 else 256 * Power(k - 1)
  }

  function LittleEndian(n: nat, k: nat): Bytes {
    if k == 0 then [] else [(n % 256) as byte] + LittleEndian(n / 256, k - 1)
  }

  function FromLittleEndian(b: Bytes): nat {
    if b == [] then 0 else b[0] as int + 256 * FromLittleEndian(b[1..])
  }

  lemma {:induction false} LittleEndianRoundTrip(n: nat, k: nat)
    requires n < Power(k)
    ensures |LittleEndian(n, k)| == k && FromLittleEndian(LittleEndian(n, k)) == n
  {
    if k > 0 {
      LittleEndianRoundTrip(n / 256, k - 1);
    }
  }

  // ---- frames ----

  function PadSize(n: nat): nat {
    (8 - n % 8) % 8
  }

  function Padded(m: Bytes): Bytes {
    m + seq(PadSize(|m|), _ => 0)
  }

  function Header(length: nat, crc: Word): Bytes {
    LittleEndian(length + TWO_32 * crc, HEADER_SIZE)
  }

  /** The checksum after a record: an anchor repeats the running one, any other record moves it over the padded
      payload. */
  function Chain(c: Codec, crc: Word, r: Record): Word {
    if r.kind.CrcAnchor? then crc else c.update(crc, Padded(c.marshal(r)))
  }

  function Frame(c: Codec, crc: Word, r: Record): Bytes {
    Header(|c.marshal(r)|, Chain(c, crc, r)) + Padded(c.marshal(r))
  }

  function ChainAll(c: Codec, crc: Word, rs: seq<Record>): Word {
    if rs == [] then crc else Chain(c, ChainAll(c, crc, rs[..|rs| - 1]), rs[|rs| - 1])
  }

  function Frames(c: Codec, crc: Word, rs: seq<Record>): Bytes {
    if rs == [] then []
    else Frames(c, crc, rs[..|rs| - 1]) + Frame(c, ChainAll(c, crc, rs[..|rs| - 1]), rs[|rs| - 1])
  }

  predicate Fits(c: Codec, r: Record) {
    Writable(r) && |c.marshal(r)| < TWO_32
  }

  predicate AllFit(c: Codec, rs: seq<Record>) {
    forall i :: 0 <= i < |rs| ==> Fits(c, rs[i])
  }

  // ---- reading ----

  datatype Chunk = Full(bytes: Bytes) | Nothing | Partial

  /** io.ReadFull: all of it, or an end of file when not one byte is left, or an unexpected end. */
  function ReadFull(b: Bytes, pos: nat, n: nat): Chunk
    requires pos <= |b|
  {
    if n <= |b| - pos then Full(b[pos..pos + n]) else if pos == |b| then Nothing else Partial
  }

  datatype Outcome =
    | Got(record: Record, next: nat, crc: Word)
    | End
    | Torn
    | BadPayload
    | BadCrc
    | BadType

  function LengthIn(header: Bytes): Word {
    FromLittleEndian(header) % TWO_32
  }

  function CrcIn(header: Bytes): Word {
    FromLittleEndian(header) / TWO_32 % TWO_32
  }

  /** The type switch of Read, on a decoded record. */
  function Accept(c: Codec, running: Word, written: Word, payload: Bytes, record: Record, next: nat): Outcome {
    if record.kind.UnknownKind? then BadType
    else if !record.kind.CrcAnchor? && c.update(running, payload) != written then BadCrc
    else Got(record, next, written)
  }

  /** LogRecordReader.Read at a file position, with the running checksum. */
  function ReadRecord(c: Codec, b: Bytes, pos: nat, crc: Word): (r: Outcome)
    requires pos <= |b|
    ensures r.Got? ==> pos < r.next <= |b|
  {
    match ReadFull(b, pos, HEADER_SIZE)
    case Nothing => End
    case Partial => Torn
    case Full(header) =>
      var n := LengthIn(header);
      match ReadFull(b, pos + HEADER_SIZE, n + PadSize(n))
      case Nothing => End
      case Partial => Torn
      case Full(payload) =>
        match c.unmarshal(payload[..n])
        case None => BadPayload
        case Some(record) => Accept(c, crc, CrcIn(header), payload, record, pos + HEADER_SIZE + n + PadSize(n))
  }

  /** NewLogRecordReader: the first record must be an anchor, whose checksum is taken as it is. */
  function ReadAnchor(c: Codec, b: Bytes): (r: Option<Outcome>)
    ensures r.Some? ==> r.value.Got? && r.value.next <= |b|
  {
    var first := ReadRecord(c, b, 0, 0);
    if first.Got? && first.record.kind.CrcAnchor? then Some(first) else None
  }

  /** Where reading a file stands: position, running checksum, and the caller's collected items and last marked file. */
  datatype Cursor = Cursor(pos: nat, crc: Word, items: seq<Bytes>, mark: nat)

  /** What the caller of Read does with a record of the file with the given index. */
  function Collect(items: seq<Bytes>, r: Record): seq<Bytes> {
    (if r.truncateTo then [] else items) + if r.kind.Entry? then [r.data] else []
  }

  function Mark(mark: nat, r: Record, index: nat): nat {
    if r.truncateTo then index else mark
  }

  /** Reading on until the first failure, which is returned. */
  function ReadOn(c: Codec, b: Bytes, index: nat, cur: Cursor): (r: (Cursor, Outcome))
    requires cur.pos <= |b|
    ensures cur.pos <= r.0.pos <= |b| && !r.1.Got?
    decreases |b| - cur.pos
  {
    var r := ReadRecord(c, b, cur.pos, cur.crc);
    if r.Got? then ReadOn(c, b, index, Cursor(r.next, r.crc, Collect(cur.items, r.record),
        Mark(cur.mark, r.record, index)))
    else (cur, r)
  }

  // ---- what is written reads back ----

  lemma {:induction false} HeaderRoundTrip(n: Word, crc: Word)
    ensures |Header(n, crc)| == HEADER_SIZE
    ensures LengthIn(Header(n, crc)) == n && CrcIn(Header(n, crc)) == crc
  {
    assert Power(8) == 256 * 256 * 256 * 256 * TWO_32;
    LittleEndianRoundTrip(n + TWO_32 * crc, HEADER_SIZE);
  }

  lemma {:induction false} PaddedShape(m: Bytes)
    ensures |Padded(m)| == |m| + PadSize(|m|) && Padded(m)[..|m|] == m && |Padded(m)| % 8 == 0
    ensures m != [] ==> |Padded(m)| >= 8
  {
  }

  /** The bytes at a position are (at least) the given ones. */
  ghost predicate At(b: Bytes, pos: nat, part: Bytes) {
    pos + |part| <= |b| && b[pos..pos + |part|] == part
  }

  lemma {:induction false} AtStays(b: Bytes, pos: nat, part: Bytes, more: Bytes)
    requires At(b, pos, part)
    ensures At(b + more, pos, part)
  {
  }

  lemma {:induction false} TakeIntoPart(b: Bytes, front: Bytes, part: Bytes, n: nat)
    requires front <= b && At(b, |front|, part) && |front| <= n <= |front| + |part|
    ensures b[..n] == front + part[..n - |front|]
  {
  }

  lemma {:induction false} FrameShape(c: Codec, crc: Word, r: Record)
    requires Fits(c, r) && Lawful(c)
    ensures |Frame(c, crc, r)| == HEADER_SIZE + |Padded(c.marshal(r))| && |Padded(c.marshal(r))| >= 8
    ensures Frame(c, crc, r)[..HEADER_SIZE] == Header(|c.marshal(r)|, Chain(c, crc, r))
    ensures Frame(c, crc, r)[HEADER_SIZE..] == Padded(c.marshal(r))
  {
    HeaderRoundTrip(|c.marshal(r)|, Chain(c, crc, r));
    PaddedShape(c.marshal(r));
  }

  /** A whole frame reads back as its record. */
  lemma {:induction false} FrameReadsBack(c: Codec, b: Bytes, pos: nat, crc: Word, r: Record)
    requires Fits(c, r) && Lawful(c) && At(b, pos, Frame(c, crc, r))
    ensures ReadRecord(c, b, pos, crc) == Got(r, pos + |Frame(c, crc, r)|, Chain(c, crc, r))
  {
    var frame := Frame(c, crc, r);
    FrameShape(c, crc, r);
    assert b[pos..pos + HEADER_SIZE] == frame[..HEADER_SIZE];
    assert b[pos + HEADER_SIZE..pos + |frame|] == frame[HEADER_SIZE..];
    HeaderRoundTrip(|c.marshal(r)|, Chain(c, crc, r));
    PaddedShape(c.marshal(r));
  }

  /** A frame cut short reads as an end of file when nothing is left of it or of its payload, and as torn otherwise. */
  lemma {:induction false} CutFrameDoesNotRead(c: Codec, b: Bytes, pos: nat, crc: Word, r: Record)
    requires Fits(c, r) && Lawful(c)
    requires pos <= |b| < pos + |Frame(c, crc, r)| && b[pos..] == Frame(c, crc, r)[..|b| - pos]
    ensures ReadRecord(c, b, pos, crc) == if |b| == pos || |b| == pos + HEADER_SIZE then End else Torn
    ensures |b| == pos + HEADER_SIZE ==> LengthIn(b[pos..]) > 0
  {
    FrameShape(c, crc, r);
    if |b| >= pos + HEADER_SIZE {
      assert b[pos..pos + HEADER_SIZE] == b[pos..][..HEADER_SIZE] == Frame(c, crc, r)[..HEADER_SIZE];
      HeaderRoundTrip(|c.marshal(r)|, Chain(c, crc, r));
      PaddedShape(c.marshal(r));
      assert |b| == pos + HEADER_SIZE ==> b[pos..] == b[pos..pos + HEADER_SIZE];
    }
  }

  function CollectAll(items: seq<Bytes>, rs: seq<Record>): seq<Bytes> {
    if rs == [] then items else Collect(CollectAll(items, rs[..|rs| - 1]), rs[|rs| - 1])
  }

  function MarkAll(mark: nat, rs: seq<Record>, index: nat): nat {
    if rs == [] then mark else Mark(MarkAll(mark, rs[..|rs| - 1], index), rs[|rs| - 1], index)
  }

  lemma {:induction false} FramesSnoc(c: Codec, crc: Word, rs: seq<Record>, k: nat)
    requires k < |rs|
    ensures Frames(c, crc, rs[..k + 1]) == Frames(c, crc, rs[..k]) + Frame(c, ChainAll(c, crc, rs[..k]), rs[k])
    ensures ChainAll(c, crc, rs[..k + 1]) == Chain(c, ChainAll(c, crc, rs[..k]), rs[k])
  {
    assert rs[..k + 1][..k] == rs[..k];
  }

  /** The frames of the first k records come first. */
  lemma {:induction false} FramesOfPrefix(c: Codec, crc: Word, rs: seq<Record>, k: nat)
    requires k <= |rs|
    ensures Frames(c, crc, rs[..k]) <= Frames(c, crc, rs)
    decreases |rs| - k
  {
    if k == |rs| {
      assert rs[..k] == rs;
    } else {
      FramesSnoc(c, crc, rs, k);
      FramesOfPrefix(c, crc, rs, k + 1);
    }
  }

  /** ... and the next frame follows them. */
  lemma {:induction false} NextFrame(c: Codec, crc: Word, rs: seq<Record>, k: nat)
    requires k < |rs|
    ensures At(Frames(c, crc, rs), |Frames(c, crc, rs[..k])|, Frame(c, ChainAll(c, crc, rs[..k]), rs[k]))
    ensures |Frames(c, crc, rs[..k + 1])| == |Frames(c, crc, rs[..k])| + |Frame(c, ChainAll(c, crc, rs[..k]), rs[k])|
  {
    FramesSnoc(c, crc, rs, k);
    FramesOfPrefix(c, crc, rs, k + 1);
    PartOfPrefix(Frames(c, crc, rs), Frames(c, crc, rs[..k]), Frame(c, ChainAll(c, crc, rs[..k]), rs[k]));
  }

  lemma {:induction false} PartOfPrefix(b: Bytes, front: Bytes, part: Bytes)
    requires front + part <= b
    ensures At(b, |front|, part)
  {
  }

  /** Where a reader stands after the given records. */
  function After(c: Codec, crc: Word, rs: seq<Record>, index: nat, items: seq<Bytes>, mark: nat): Cursor {
    Cursor(|Frames(c, crc, rs)|, ChainAll(c, crc, rs), CollectAll(items, rs), MarkAll(mark, rs, index))
  }

  lemma {:induction false} NextRecordReadsBack(c: Codec, crc: Word, rs: seq<Record>, tail: Bytes, k: nat)
    requires Lawful(c) && AllFit(c, rs) && k < |rs|
    ensures |Frames(c, crc, rs[..k])| <= |Frames(c, crc, rs) + tail|
    ensures ReadRecord(c, Frames(c, crc, rs) + tail, |Frames(c, crc, rs[..k])|, ChainAll(c, crc, rs[..k]))
            == Got(rs[k], |Frames(c, crc, rs[..k + 1])|, Chain(c, ChainAll(c, crc, rs[..k]), rs[k]))
  {
    var p, prev := |Frames(c, crc, rs[..k])|, ChainAll(c, crc, rs[..k]);
    NextFrame(c, crc, rs, k);
    AtStays(Frames(c, crc, rs), p, Frame(c, prev, rs[k]), tail);
    FrameReadsBack(c, Frames(c, crc, rs) + tail, p, prev, rs[k]);
  }

  lemma {:induction false} AfterNext(c: Codec, crc: Word, rs: seq<Record>, k: nat, index: nat, items: seq<Bytes>,
      mark: nat)
    requires k < |rs|
    ensures var cur := After(c, crc, rs[..k], index, items, mark);
            After(c, crc, rs[..k + 1], index, items, mark)
            == Cursor(|Frames(c, crc, rs[..k + 1])|, Chain(c, cur.crc, rs[k]), Collect(cur.items, rs[k]),
                Mark(cur.mark, rs[k], index))
  {
    assert rs[..k + 1][..k] == rs[..k];
  }

  /** Reading a file from its k-th record on passes every later whole record and stops where the records stop. */
  lemma {:induction false} WholeRecordsReadBack(c: Codec, crc: Word, rs: seq<Record>, tail: Bytes, k: nat,
      index: nat, items: seq<Bytes>, mark: nat)
    requires Lawful(c) && AllFit(c, rs) && k <= |rs|
    requires !ReadRecord(c, Frames(c, crc, rs) + tail, |Frames(c, crc, rs)|, ChainAll(c, crc, rs)).Got?
    ensures |Frames(c, crc, rs[..k])| <= |Frames(c, crc, rs) + tail|
    ensures ReadOn(c, Frames(c, crc, rs) + tail, index, After(c, crc, rs[..k], index, items, mark))
            == (After(c, crc, rs, index, items, mark),
                ReadRecord(c, Frames(c, crc, rs) + tail, |Frames(c, crc, rs)|, ChainAll(c, crc, rs)))
    decreases |rs| - k
  {
    if k == |rs| {
      assert rs[..k] == rs;
    } else {
      NextRecordReadsBack(c, crc, rs, tail, k);
      AfterNext(c, crc, rs, k, index, items, mark);
      WholeRecordsReadBack(c, crc, rs, tail, k + 1, index, items, mark);
    }
  }

  function FrameSize(c: Codec, r: Record): nat {
    HEADER_SIZE + |c.marshal(r)| + PadSize(|c.marshal(r)|)
  }

  /** The bytes the first k records take. */
  function Size(c: Codec, rs: seq<Record>, k: nat): nat
    requires k <= |rs|
  {
    if k == 0 then 0 else Size(c, rs, k - 1) + FrameSize(c, rs[k - 1])
  }

  lemma {:induction false} SizeOfFrames(c: Codec, crc: Word, rs: seq<Record>, k: nat)
    requires Lawful(c) && AllFit(c, rs) && k <= |rs|
    ensures |Frames(c, crc, rs[..k])| == Size(c, rs, k)
  {
    if k > 0 {
      SizeOfFrames(c, crc, rs, k - 1);
      FramesSnoc(c, crc, rs, k - 1);
      FrameShape(c, ChainAll(c, crc, rs[..k - 1]), rs[k - 1]);
    }
  }

  /** How many whole frames a cut to n bytes leaves, counting on from the first k. */
  function WholeFrom(c: Codec, rs: seq<Record>, n: nat, k: nat): (m: nat)
    requires k <= |rs| && Size(c, rs, k) <= n
    ensures k <= m <= |rs| && Size(c, rs, m) <= n
    ensures m < |rs| ==> n < Size(c, rs, m + 1)
    decreases |rs| - k
  {
    if k < |rs| && Size(c, rs, k + 1) <= n then WholeFrom(c, rs, n, k + 1) else k
  }

  function Whole(c: Codec, rs: seq<Record>, n: nat): (m: nat)
    ensures m <= |rs| && Size(c, rs, m) <= n
    ensures m < |rs| ==> n < Size(c, rs, m + 1)
  {
    WholeFrom(c, rs, n, 0)
  }

  /** What the end of a readable file may look like after its last whole record: nothing, or the header of a frame whose
      payload is missing altogether. */
  predicate CleanTail(tail: Bytes) {
    tail == [] || (|tail| == HEADER_SIZE && LengthIn(tail) > 0)
  }

  lemma {:induction false} CleanTailReadsAsEnd(c: Codec, body: Bytes, tail: Bytes, crc: Word)
    requires CleanTail(tail)
    ensures ReadRecord(c, body + tail, |body|, crc) == End
  {
    if tail != [] {
      assert (body + tail)[|body|..|body| + HEADER_SIZE] == tail;
    }
  }

  /** What is left of a cut frame reads as an end of file exactly when it is a clean tail, and as torn otherwise. */
  lemma {:induction false} CutFrameEnds(c: Codec, body: Bytes, crc: Word, r: Record, j: nat)
    requires Lawful(c) && Fits(c, r) && j < |Frame(c, crc, r)|
    ensures var tail := Frame(c, crc, r)[..j];
            ReadRecord(c, body + tail, |body|, crc) == if CleanTail(tail) then End else Torn
  {
    var b := body + Frame(c, crc, r)[..j];
    assert b[|body|..] == Frame(c, crc, r)[..j];
    CutFrameDoesNotRead(c, b, |body|, crc, r);
  }

  /** The bytes a cut to n leaves after the last whole frame. */
  function Rest(c: Codec, crc: Word, rs: seq<Record>, n: nat): (tail: Bytes) {
    var k := Whole(c, rs, n);
    if k == |rs| then []
    else
      var frame, j := Frame(c, ChainAll(c, crc, rs[..k]), rs[k]), n - Size(c, rs, k);
      if j <= |frame| then frame[..j] else frame
  }

  lemma {:induction false} RestIsCutFrame(c: Codec, crc: Word, rs: seq<Record>, n: nat, k: nat)
    requires Lawful(c) && AllFit(c, rs) && k == Whole(c, rs, n) < |rs|
    ensures var frame := Frame(c, ChainAll(c, crc, rs[..k]), rs[k]);
            n - Size(c, rs, k) < |frame| && Rest(c, crc, rs, n) == frame[..n - Size(c, rs, k)]
  {
    FrameShape(c, ChainAll(c, crc, rs[..k]), rs[k]);
  }

  lemma {:induction false} CutIsWholeAndRest(c: Codec, crc: Word, rs: seq<Record>, n: nat)
    requires Lawful(c) && AllFit(c, rs) && n <= |Frames(c, crc, rs)|
    ensures Frames(c, crc, rs)[..n] == Frames(c, crc, rs[..Whole(c, rs, n)]) + Rest(c, crc, rs, n)
  {
    var k := Whole(c, rs, n);
    SizeOfFrames(c, crc, rs, k);
    if k == |rs| {
      assert rs[..k] == rs;
    } else {
      RestIsCutFrame(c, crc, rs, n, k);
      FramesOfPrefix(c, crc, rs, k);
      NextFrame(c, crc, rs, k);
      TakeIntoPart(Frames(c, crc, rs), Frames(c, crc, rs[..k]), Frame(c, ChainAll(c, crc, rs[..k]), rs[k]), n);
    }
  }

  /** Cutting a file of frames at any byte: the rest after the whole frames reads as an end of file exactly when it is
      a clean tail, and as torn otherwise. */
  lemma {:induction false} CutReads(c: Codec, crc: Word, rs: seq<Record>, n: nat)
    requires Lawful(c) && AllFit(c, rs)
    ensures var whole, rest := rs[..Whole(c, rs, n)], Rest(c, crc, rs, n);
            ReadRecord(c, Frames(c, crc, whole) + rest, |Frames(c, crc, whole)|, ChainAll(c, crc, whole))
            == if CleanTail(rest) then End else Torn
  {
    var k := Whole(c, rs, n);
    if k == |rs| {
      CleanTailReadsAsEnd(c, Frames(c, crc, rs[..k]), [], ChainAll(c, crc, rs[..k]));
    } else {
      RestIsCutFrame(c, crc, rs, n, k);
      CutFrameEnds(c, Frames(c, crc, rs[..k]), ChainAll(c, crc, rs[..k]), rs[k], n - Size(c, rs, k));
    }
  }
}
