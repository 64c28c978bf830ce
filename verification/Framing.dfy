/** Journal records on disk: how one is framed, and how a run of them is scanned. */
module Framing {
  import opened Ints
  import opened Canonical
  import Crc

  // ---- Records --------------------------------------------------------------

  datatype RecordType =
    | Boot
    | DefinitionRecord
    | PolicyRecord
    | CommittedPlan
    | Infeasibility
    | FenceRecord
    | Attempt
    | EvidenceLineage

  function TypeCode(t: RecordType): U16 {
    match t
    case Boot => 1
    case DefinitionRecord => 2
    case PolicyRecord => 3
    case CommittedPlan => 4
    case Infeasibility => 5
    case FenceRecord => 6
    case Attempt => 7
    case EvidenceLineage => 8
  }

  function TypeOf(code: nat): (r: Option<RecordType>)
    ensures r.Some? ==> TypeCode(r.value) == code
    ensures r.None? <==> code == 0 || code >= 9
  {
    match code
    case 1 => Some(Boot)
    case 2 => Some(DefinitionRecord)
    case 3 => Some(PolicyRecord)
    case 4 => Some(CommittedPlan)
    case 5 => Some(Infeasibility)
    case 6 => Some(FenceRecord)
    case 7 => Some(Attempt)
    case 8 => Some(EvidenceLineage)
    case _ => None
  }

  datatype Record = Record(kind: RecordType, sequence: U64, payload: Bytes)

  datatype StoreLimits = StoreLimits(maxRecords: U32, maxRecordBytes: U32, maxJournalBytes: U64)

  const RECORD_MAGIC: U32 := 0x4E52_5044
  const FORMAT_VERSION: U16 := 1
  const HEADER_SIZE: nat := 40

  // A record as it was framed: with the epoch of the incarnation that wrote it.
  datatype Framed = Framed(record: Record, epoch: U64)

  // ---- One frame ------------------------------------------------------------

  function Opening(r: Record): (b: Bytes)
    ensures |b| == 12
  {
    U32Bytes(RECORD_MAGIC) + (U16Bytes(FORMAT_VERSION) + (U16Bytes(TypeCode(r.kind)) + (U16Bytes(0) + U16Bytes(0))))
  }

  function Closing(r: Record): (b: Bytes)
    ensures |b| == 8
  {
    U32Bytes(Count(|r.payload|)) + U32Bytes(Crc.Checksum(r.payload))
  }

  // The part of the header that its checksum covers.
  function Covered(f: Framed): (b: Bytes)
    ensures |b| == 36
  {
    Opening(f.record) + ((U64Bytes(f.record.sequence) + U64Bytes(f.epoch)) + Closing(f.record))
  }

  function Header(f: Framed): (b: Bytes)
    ensures |b| == HEADER_SIZE
  {
    Covered(f) + U32Bytes(Crc.Checksum(Covered(f)))
  }

  function Frame(f: Framed): (b: Bytes)
    ensures |b| == HEADER_SIZE + |f.record.payload|
  {
    Header(f) + f.record.payload
  }

  function Journal(frames: seq<Framed>): Bytes {
    if |frames| == 0 then [] else Frame(frames[0]) + Journal(frames[1..])
  }

  // ---- Reading fields -------------------------------------------------------

  function FieldAt(b: Bytes, at: nat, n: nat): nat
    requires at + n <= |b|
  {
    Value(b[at..at + n])
  }

  lemma FieldIn(pre: Bytes, x: nat, n: nat, post: Bytes)
    requires x < Pow256(n)
    ensures |pre + (LittleEndian(x, n) + post)| == |pre| + n + |post|
    ensures FieldAt(pre + (LittleEndian(x, n) + post), |pre|, n) == x
  {
    var b := pre + (LittleEndian(x, n) + post);
    assert b[|pre|..|pre| + n] == LittleEndian(x, n);
    ValueOfLittleEndian(x, n);
  }

  // A field within a part of a longer text is that field of the part.
  lemma FieldWithin(pre: Bytes, part: Bytes, post: Bytes, at: nat, n: nat)
    requires at + n <= |part|
    ensures FieldAt(pre + (part + post), |pre| + at, n) == FieldAt(part, at, n)
  {
    assert (pre + (part + post))[|pre| + at..|pre| + at + n] == part[at..at + n];
  }

  lemma OpeningFields(r: Record)
    ensures FieldAt(Opening(r), 0, 4) == RECORD_MAGIC
    ensures FieldAt(Opening(r), 4, 2) == FORMAT_VERSION
    ensures FieldAt(Opening(r), 6, 2) == TypeCode(r.kind)
  {
    hide LittleEndian, FieldAt;
    Widths();
    var reserved := U16Bytes(0) + U16Bytes(0);
    var kind := U16Bytes(TypeCode(r.kind));
    FieldIn([], RECORD_MAGIC, 4, U16Bytes(FORMAT_VERSION) + (kind + reserved));
    assert [] + Opening(r) == Opening(r);
    FieldIn(U32Bytes(RECORD_MAGIC), FORMAT_VERSION, 2, kind + reserved);
    FieldIn(U32Bytes(RECORD_MAGIC) + U16Bytes(FORMAT_VERSION), TypeCode(r.kind), 2, reserved);
    assert (U32Bytes(RECORD_MAGIC) + U16Bytes(FORMAT_VERSION)) + (kind + reserved) == Opening(r);
  }

  lemma ClosingFields(r: Record)
    requires |r.payload| < TWO_32
    ensures FieldAt(Closing(r), 0, 4) == |r.payload|
    ensures FieldAt(Closing(r), 4, 4) == Crc.Checksum(r.payload)
  {
    hide LittleEndian, FieldAt, Crc.Checksum;
    Widths();
    FieldIn([], Count(|r.payload|), 4, U32Bytes(Crc.Checksum(r.payload)));
    assert [] + Closing(r) == Closing(r);
    FieldIn(U32Bytes(Count(|r.payload|)), Crc.Checksum(r.payload), 4, []);
    assert U32Bytes(Count(|r.payload|)) + (U32Bytes(Crc.Checksum(r.payload)) + []) == Closing(r);
  }

  /** What each field of a frame reads as, whatever follows the frame's header. */
  lemma HeaderFields(f: Framed, rest: Bytes)
    requires |f.record.payload| < TWO_32
    ensures var b := Header(f) + rest;
            && FieldAt(b, 0, 4) == RECORD_MAGIC && FieldAt(b, 4, 2) == FORMAT_VERSION
            && FieldAt(b, 6, 2) == TypeCode(f.record.kind) && FieldAt(b, 12, 8) == f.record.sequence
            && FieldAt(b, 28, 4) == |f.record.payload| && FieldAt(b, 32, 4) == Crc.Checksum(f.record.payload)
            && FieldAt(b, 36, 4) == Crc.Checksum(Covered(f)) && b[..36] == Covered(f)
  {
    hide LittleEndian, FieldAt, Crc.Checksum, Opening, Closing;
    Widths();
    var b := Header(f) + rest;
    var opening, closing := Opening(f.record), Closing(f.record);
    var sequence, epoch := U64Bytes(f.record.sequence), U64Bytes(f.epoch);
    var crc := U32Bytes(Crc.Checksum(Covered(f)));
    OpeningFields(f.record);
    ClosingFields(f.record);
    var afterOpening := ((sequence + epoch) + closing) + crc + rest;
    assert b == [] + (opening + afterOpening);
    FieldWithin([], opening, afterOpening, 0, 4);
    FieldWithin([], opening, afterOpening, 4, 2);
    FieldWithin([], opening, afterOpening, 6, 2);
    assert b == opening + (sequence + (epoch + closing + crc + rest));
    FieldIn(opening, f.record.sequence, 8, epoch + closing + crc + rest);
    var beforeClosing := opening + (sequence + epoch);
    assert b == beforeClosing + (closing + (crc + rest));
    FieldWithin(beforeClosing, closing, crc + rest, 0, 4);
    FieldWithin(beforeClosing, closing, crc + rest, 4, 4);
    assert b == Covered(f) + (crc + rest);
    FieldIn(Covered(f), Crc.Checksum(Covered(f)), 4, rest);
  }

  // ---- Parsing one frame ----------------------------------------------------

  datatype Refusal = TrailingBytes | BadMagic | UnsupportedVersion | BadType | BadHeader | TooLong | BadPayload
                   | Unordered

  // What stands at the beginning of some bytes: a whole record of the given size, the
  // beginning of one that the bytes end inside of, or something else.
  datatype Parsed = Whole(record: Record, size: nat) | Torn | Bad(refusal: Refusal)

  // The bytes agree with the beginning of the magic as far as they go.
  predicate OpensLikeMagic(b: Bytes) {
    var magic := U32Bytes(RECORD_MAGIC);
    forall i :: 0 <= i < |b| && i < 4 ==> b[i] == magic[i]
  }

  function ParseWhole(b: Bytes, limits: StoreLimits): Parsed
    requires |b| >= HEADER_SIZE
  {
    var length := FieldAt(b, 28, 4);
    var kind := TypeOf(FieldAt(b, 6, 2));
    if FieldAt(b, 0, 4) != RECORD_MAGIC then Bad(BadMagic)
    else if FieldAt(b, 4, 2) != FORMAT_VERSION then Bad(UnsupportedVersion)
    else if kind.None? then Bad(BadType)
    else if FieldAt(b, 36, 4) != Crc.Checksum(b[..36]) then Bad(BadHeader)
    else if length > limits.maxRecordBytes then Bad(TooLong)
    else if |b| < HEADER_SIZE + length then Torn
    else if Crc.Checksum(b[HEADER_SIZE..HEADER_SIZE + length]) != FieldAt(b, 32, 4) then Bad(BadPayload)
    else Whole(Record(kind.value, SequenceAt(b), b[HEADER_SIZE..HEADER_SIZE + length]), HEADER_SIZE + length)
  }

  function SequenceAt(b: Bytes): U64
    requires |b| >= HEADER_SIZE
  {
    Widths();
    LittleEndianOfValue(b[12..20]);
    FieldAt(b, 12, 8)
  }

  function ParseOne(b: Bytes, limits: StoreLimits): Parsed {
    if |b| >= HEADER_SIZE then ParseWhole(b, limits)
    else if OpensLikeMagic(b) then Torn
    else Bad(TrailingBytes)
  }

  lemma ParsedSize(b: Bytes, limits: StoreLimits)
    requires ParseOne(b, limits).Whole?
    ensures HEADER_SIZE <= ParseOne(b, limits).size <= |b|
  {
    hide FieldAt, Crc.Checksum;
  }

  predicate Storable(r: Record, limits: StoreLimits) {
    |r.payload| <= limits.maxRecordBytes && r.sequence > 0
  }

  /** A frame is read back whole, whatever follows it. */
  lemma FrameParses(f: Framed, rest: Bytes, limits: StoreLimits)
    requires Storable(f.record, limits)
    ensures ParseOne(Frame(f) + rest, limits) == Whole(f.record, |Frame(f)|)
  {
    hide FieldAt, Crc.Checksum, Covered, LittleEndian;
    var b := Frame(f) + rest;
    assert b == Header(f) + (f.record.payload + rest);
    HeaderFields(f, f.record.payload + rest);
    KindIsRead(f.record.kind);
    assert b[HEADER_SIZE..HEADER_SIZE + |f.record.payload|] == f.record.payload;
    assert SequenceAt(b) == FieldAt(b, 12, 8);
  }

  lemma KindIsRead(kind: RecordType)
    ensures TypeOf(TypeCode(kind)) == Some(kind)
  {
  }

  /** Any strict, non-empty beginning of a frame is read as torn. */
  lemma PartialIsTorn(f: Framed, n: nat, limits: StoreLimits)
    requires Storable(f.record, limits) && 0 < n < |Frame(f)|
    ensures ParseOne(Frame(f)[..n], limits) == Torn
  {
    hide FieldAt, Crc.Checksum, LittleEndian;
    var b := Frame(f)[..n];
    if n < HEADER_SIZE {
      FrameOpens(f);
      assert forall i :: 0 <= i < n && i < 4 ==> b[i] == Frame(f)[i];
    } else {
      var part := f.record.payload[..n - HEADER_SIZE];
      assert b == Header(f) + part;
      HeaderFields(f, part);
      KindIsRead(f.record.kind);
    }
  }

  lemma FrameOpens(f: Framed)
    ensures forall i :: 0 <= i < 4 ==> Frame(f)[i] == U32Bytes(RECORD_MAGIC)[i]
  {
    hide LittleEndian, Crc.Checksum;
    assert Frame(f)[..4] == U32Bytes(RECORD_MAGIC);
    assert forall i :: 0 <= i < 4 ==> Frame(f)[i] == Frame(f)[..4][i];
  }

  lemma ValueInjective(a: Bytes, b: Bytes)
    requires |a| == |b| && Value(a) == Value(b)
    ensures a == b
  {
    LittleEndianOfValue(a);
    LittleEndianOfValue(b);
  }

  /** Changing any one byte of a frame makes it unreadable, and never a torn one. */
  lemma CorruptFrameIsBad(f: Framed, rest: Bytes, i: nat, x: U8, limits: StoreLimits)
    requires Storable(f.record, limits) && i < |Frame(f)| && x != Frame(f)[i]
    ensures ParseOne(Frame(f)[i := x] + rest, limits).Bad?
  {
    hide Crc.Checksum, Covered, LittleEndian, Value;
    var b := Frame(f) + rest;
    var c := Frame(f)[i := x] + rest;
    assert b == Header(f) + (f.record.payload + rest);
    HeaderFields(f, f.record.payload + rest);
    if i < 36 {
      assert c[..36] == b[..36][i := x];
      assert c[36..40] == b[36..40];
      Crc.ByteChangeDetected(Covered(f), i, x);
    } else if i < 40 {
      assert c[..36] == b[..36];
      assert c[36..40] == b[36..40][i - 36 := x];
      if Value(c[36..40]) == Value(b[36..40]) {
        ValueInjective(c[36..40], b[36..40]);
      }
    } else {
      assert c[..40] == b[..40];
      SameHeaderFields(b, c);
      var payload := f.record.payload;
      assert c[HEADER_SIZE..HEADER_SIZE + |payload|] == payload[i - HEADER_SIZE := x];
      Crc.ByteChangeDetected(payload, i - HEADER_SIZE, x);
    }
  }

  lemma SameHeaderFields(b: Bytes, c: Bytes)
    requires |b| == |c| >= HEADER_SIZE && b[..40] == c[..40]
    ensures FieldAt(b, 28, 4) == FieldAt(c, 28, 4) && FieldAt(b, 32, 4) == FieldAt(c, 32, 4)
    ensures FieldAt(b, 36, 4) == FieldAt(c, 36, 4) && b[..36] == c[..36]
    ensures FieldAt(b, 0, 4) == FieldAt(c, 0, 4) && FieldAt(b, 4, 2) == FieldAt(c, 4, 2)
    ensures FieldAt(b, 6, 2) == FieldAt(c, 6, 2)
  {
    hide Value;
    assert b[..36] == b[..40][..36] && c[..36] == c[..40][..36];
    assert b[28..32] == b[..40][28..32] && c[28..32] == c[..40][28..32];
    assert b[32..36] == b[..40][32..36] && c[32..36] == c[..40][32..36];
    assert b[36..40] == b[..40][36..40] && c[36..40] == c[..40][36..40];
    assert b[0..4] == b[..40][0..4] && c[0..4] == c[..40][0..4];
    assert b[4..6] == b[..40][4..6] && c[4..6] == c[..40][4..6];
    assert b[6..8] == b[..40][6..8] && c[6..8] == c[..40][6..8];
  }

  // ---- Scanning a run of frames ---------------------------------------------

  datatype Scan = Scanned(records: seq<Record>, goodBytes: nat, torn: bool) | Refused(refusal: Refusal)

  // What scanning a tail adds to what was read before it.
  function Prepended(records: seq<Record>, size: nat, tail: Scan): Scan {
    match tail
    case Refused(refusal) => tail
    case Scanned(more, goodBytes, torn) => Scanned(records + more, size + goodBytes, torn)
  }

  function Kept(record: Record, minimum: U64): seq<Record> {
    if record.sequence > minimum then [record] else []
  }

  // The records of a journal after the given sequence, given the last one already seen.
  function ScanFrom(b: Bytes, limits: StoreLimits, minimum: U64, last: U64): Scan
    decreases |b|
  {
    if |b| == 0 then Scanned([], 0, false)
    else
      match ParseOne(b, limits)
      case Bad(refusal) => Refused(refusal)
      case Torn => Scanned([], 0, true)
      case Whole(record, size) =>
        ParsedSize(b, limits);
        if last != 0 && record.sequence <= last then Refused(Unordered)
        else Prepended(Kept(record, minimum), size, ScanFrom(b[size..], limits, minimum, record.sequence))
  }

  // Frames that can be stored, in strictly increasing order after a given sequence.
  predicate Ordered(frames: seq<Framed>, limits: StoreLimits, last: U64) {
    |frames| == 0
    || (Storable(frames[0].record, limits) && frames[0].record.sequence > last
        && Ordered(frames[1..], limits, frames[0].record.sequence))
  }

  // The records of the frames that come after a given sequence.
  function RecordsAfter(frames: seq<Framed>, minimum: U64): seq<Record> {
    if |frames| == 0 then []
    else Kept(frames[0].record, minimum) + RecordsAfter(frames[1..], minimum)
  }

  function LastOf(frames: seq<Framed>, last: U64): U64 {
    if |frames| == 0 then last else frames[|frames| - 1].record.sequence
  }

  lemma PrependedTwice(a: seq<Record>, n: nat, b: seq<Record>, m: nat, tail: Scan)
    ensures Prepended(a, n, Prepended(b, m, tail)) == Prepended(a + b, n + m, tail)
  {
    if tail.Scanned? {
      assert a + (b + tail.records) == (a + b) + tail.records;
    }
  }

  lemma ScanOne(b: Bytes, limits: StoreLimits, minimum: U64, last: U64)
    requires |b| > 0 && ParseOne(b, limits).Whole?
    requires last == 0 || ParseOne(b, limits).record.sequence > last
    ensures var p := ParseOne(b, limits);
            && p.size <= |b|
            && ScanFrom(b, limits, minimum, last)
               == Prepended(Kept(p.record, minimum), p.size,
                            ScanFrom(b[p.size..], limits, minimum, p.record.sequence))
  {
    hide ParseOne;
    ParsedSize(b, limits);
  }

  // Whole frames are read one after the other; what follows them decides the rest.
  lemma {:induction false} ScanPastFrames(frames: seq<Framed>, tail: Bytes, limits: StoreLimits, minimum: U64,
                                          last: U64)
    requires Ordered(frames, limits, last)
    ensures ScanFrom(Journal(frames) + tail, limits, minimum, last)
         == Prepended(RecordsAfter(frames, minimum), |Journal(frames)|,
                      ScanFrom(tail, limits, minimum, LastOf(frames, last)))
    decreases |frames|
  {
    hide ParseOne, Frame, ScanFrom, Prepended;
    if |frames| == 0 {
      assert Journal(frames) + tail == tail;
      PrependedNothing(ScanFrom(tail, limits, minimum, last));
    } else {
      var f, rest := frames[0], frames[1..];
      var b := Journal(frames) + tail;
      var next := Journal(rest) + tail;
      assert b == Frame(f) + next;
      FrameParses(f, next, limits);
      assert b[|Frame(f)|..] == next;
      ScanOne(b, limits, minimum, last);
      ScanPastFrames(rest, tail, limits, minimum, f.record.sequence);
      LastOfRest(frames, last);
      PrependedTwice(Kept(f.record, minimum), |Frame(f)|, RecordsAfter(rest, minimum), |Journal(rest)|,
                     ScanFrom(tail, limits, minimum, LastOf(frames, last)));
    }
  }

  lemma PrependedNothing(tail: Scan)
    ensures Prepended([], 0, tail) == tail
  {
  }

  lemma LastOfRest(frames: seq<Framed>, last: U64)
    requires |frames| > 0
    ensures LastOf(frames[1..], frames[0].record.sequence) == LastOf(frames, last)
  {
  }

  lemma {:induction false} JournalAppend(x: seq<Framed>, y: seq<Framed>)
    ensures Journal(x + y) == Journal(x) + Journal(y)
  {
    hide Frame;
    if |x| == 0 {
      assert x + y == y;
    } else {
      assert (x + y)[1..] == x[1..] + y;
      JournalAppend(x[1..], y);
    }
  }

  lemma {:induction false} OrderedPrefix(frames: seq<Framed>, limits: StoreLimits, last: U64, k: nat)
    requires Ordered(frames, limits, last) && k <= |frames|
    ensures Ordered(frames[..k], limits, last)
    ensures k < |frames| ==> Storable(frames[k].record, limits)
    ensures k < |frames| ==> frames[k].record.sequence > LastOf(frames[..k], last)
    decreases k
  {
    if k > 0 {
      OrderedPrefix(frames[1..], limits, frames[0].record.sequence, k - 1);
      assert frames[..k][1..] == frames[1..][..k - 1];
      assert frames[1..][k - 1..] == frames[k..];
      if k > 1 {
        assert frames[..k][k - 1] == frames[1..][..k - 1][k - 2];
      }
    }
  }

  lemma SplitJournal(frames: seq<Framed>, k: nat)
    requires k < |frames|
    ensures Journal(frames) == Journal(frames[..k]) + (Frame(frames[k]) + Journal(frames[k + 1..]))
  {
    hide Frame;
    assert frames == frames[..k] + frames[k..];
    JournalAppend(frames[..k], frames[k..]);
    assert frames[k..][1..] == frames[k + 1..];
  }

  /** Cutting a journal anywhere leaves exactly the records before the cut: the scan succeeds,
      stops at the last boundary, and calls the rest torn just when the cut is inside a record. */
  lemma CutJournal(frames: seq<Framed>, limits: StoreLimits, minimum: U64, k: nat, cut: nat)
    requires Ordered(frames, limits, 0) && k <= |frames| && cut <= |Journal(frames)|
    requires |Journal(frames[..k])| <= cut
    requires k < |frames| ==> cut < |Journal(frames[..k])| + |Frame(frames[k])|
    ensures ScanFrom(Journal(frames)[..cut], limits, minimum, 0)
         == Scanned(RecordsAfter(frames[..k], minimum), |Journal(frames[..k])|, cut > |Journal(frames[..k])|)
  {
    hide Frame, ParseOne;
    OrderedPrefix(frames, limits, 0, k);
    var whole := Journal(frames[..k]);
    var n := cut - |whole|;
    if k == |frames| {
      assert frames[..k] == frames;
      assert Journal(frames)[..cut] == whole + [];
      ScanPastFrames(frames[..k], [], limits, minimum, 0);
    } else {
      SplitJournal(frames, k);
      var part := Frame(frames[k])[..n];
      assert Journal(frames)[..cut] == whole + part;
      ScanPastFrames(frames[..k], part, limits, minimum, 0);
      if n > 0 {
        PartialIsTorn(frames[k], n, limits);
      }
    }
  }

  // Where every cut falls.
  lemma {:induction false} CutFalls(frames: seq<Framed>, cut: nat) returns (k: nat)
    requires cut <= |Journal(frames)|
    ensures k <= |frames| && |Journal(frames[..k])| <= cut
    ensures k < |frames| ==> cut < |Journal(frames[..k])| + |Frame(frames[k])|
  {
    hide Frame;
    if |frames| == 0 || cut < |Frame(frames[0])| {
      k := 0;
    } else {
      var j := CutFalls(frames[1..], cut - |Frame(frames[0])|);
      k := j + 1;
      assert frames[..k][1..] == frames[1..][..j];
      if k < |frames| {
        assert frames[1..][j] == frames[k];
      }
    }
  }

  /** Every corruption of a single byte of a well-formed journal is refused. */
  lemma SingleByteRefused(frames: seq<Framed>, limits: StoreLimits, minimum: U64, i: nat, x: U8)
    requires Ordered(frames, limits, 0) && i < |Journal(frames)| && x != Journal(frames)[i]
    ensures ScanFrom(Journal(frames)[i := x], limits, minimum, 0).Refused?
  {
    hide Frame, ParseOne;
    var k := CutFalls(frames, i);
    assert frames[..|frames|] == frames;
    OrderedPrefix(frames, limits, 0, k);
    SplitJournal(frames, k);
    var whole := Journal(frames[..k]);
    var frame, rest := Frame(frames[k]), Journal(frames[k + 1..]);
    var j := i - |whole|;
    assert Journal(frames)[i := x] == whole + (frame[j := x] + rest);
    ScanPastFrames(frames[..k], frame[j := x] + rest, limits, minimum, 0);
    CorruptFrameIsBad(frames[k], rest, j, x, limits);
  }

  /** The scan as it runs: offset by offset, refusing the first thing that is not a record. */
  method ScanRecords(table: array<bv32>, bytes: Bytes, limits: StoreLimits, minimum: U64) returns (result: Scan)
    requires table.Length == 256 && forall i :: 0 <= i < 256 ==> table[i] == Crc.Shifts(Crc.Low(i), 8)
    ensures result == ScanFrom(bytes, limits, minimum, 0)
  {
    hide FieldAt, Crc.Checksum, Crc.Shifts, Crc.Low, OpensLikeMagic, SequenceAt, Prepended, ScanFrom, ParseOne;
    var offset, lastSeen: U64 := 0, 0;
    var records: seq<Record> := [];
    assert bytes[0..] == bytes;
    PrependedNothing(ScanFrom(bytes, limits, minimum, 0));
    while offset < |bytes|
      invariant offset <= |bytes|
      invariant ScanFrom(bytes, limits, minimum, 0)
             == Prepended(records, offset, ScanFrom(bytes[offset..], limits, minimum, lastSeen))
      decreases |bytes| - offset
    {
      var rest := bytes[offset..];
      var parsed := ParseNext(table, rest, limits);
      ScanStops(rest, limits, minimum, lastSeen, records, offset);
      if parsed.Bad? {
        return Refused(parsed.refusal);
      }
      if parsed.Torn? {
        return Scanned(records, offset, true);
      }
      if lastSeen != 0 && parsed.record.sequence <= lastSeen {
        return Refused(Unordered);
      }
      ScanOne(rest, limits, minimum, lastSeen);
      PrependedTwice(records, offset, Kept(parsed.record, minimum), parsed.size,
                     ScanFrom(rest[parsed.size..], limits, minimum, parsed.record.sequence));
      ParsedSize(rest, limits);
      assert rest[parsed.size..] == bytes[offset + parsed.size..];
      assert records + [] == records;
      lastSeen := parsed.record.sequence;
      if parsed.record.sequence > minimum {
        records := records + [parsed.record];
      }
      offset := offset + parsed.size;
    }
    NothingLeft(bytes[offset..], limits, minimum, lastSeen, records, offset);
    result := Scanned(records, offset, false);
  }

  lemma NothingLeft(rest: Bytes, limits: StoreLimits, minimum: U64, last: U64, records: seq<Record>, offset: nat)
    requires |rest| == 0
    ensures Prepended(records, offset, ScanFrom(rest, limits, minimum, last)) == Scanned(records, offset, false)
  {
    assert records + [] == records;
  }

  lemma ScanStops(rest: Bytes, limits: StoreLimits, minimum: U64, last: U64, records: seq<Record>, offset: nat)
    requires |rest| > 0
    ensures var parsed := ParseOne(rest, limits);
            var scan := Prepended(records, offset, ScanFrom(rest, limits, minimum, last));
            && (parsed.Bad? ==> scan == Refused(parsed.refusal))
            && (parsed.Torn? ==> scan == Scanned(records, offset, true))
            && (parsed.Whole? && last != 0 && parsed.record.sequence <= last ==> scan == Refused(Unordered))
  {
    hide ParseOne;
    assert records + [] == records;
  }

  /** The checks on one header and payload, in order. */
  method ParseNext(table: array<bv32>, b: Bytes, limits: StoreLimits) returns (parsed: Parsed)
    requires table.Length == 256 && forall i :: 0 <= i < 256 ==> table[i] == Crc.Shifts(Crc.Low(i), 8)
    ensures parsed == ParseOne(b, limits)
  {
    hide FieldAt, Crc.Checksum, Crc.Shifts, Crc.Low, SequenceAt;
    if |b| < HEADER_SIZE {
      var magic := U32Bytes(RECORD_MAGIC);
      var prefix := true;
      var checked := if |b| < 4 then |b| else 4;
      for i := 0 to checked
        invariant prefix <==> forall j :: 0 <= j < i ==> b[j] == magic[j]
      {
        if b[i] != magic[i] {
          prefix := false;
        }
      }
      return if prefix then Torn else Bad(TrailingBytes);
    }
    if FieldAt(b, 0, 4) != RECORD_MAGIC {
      return Bad(BadMagic);
    }
    if FieldAt(b, 4, 2) != FORMAT_VERSION {
      return Bad(UnsupportedVersion);
    }
    var kind := TypeOf(FieldAt(b, 6, 2));
    if kind.None? {
      return Bad(BadType);
    }
    var computed := Crc.ComputeChecksum(table, b[..36]);
    if FieldAt(b, 36, 4) != computed {
      return Bad(BadHeader);
    }
    var length := FieldAt(b, 28, 4);
    if length > limits.maxRecordBytes {
      return Bad(TooLong);
    }
    if |b| < HEADER_SIZE + length {
      return Torn;
    }
    var payload := b[HEADER_SIZE..HEADER_SIZE + length];
    var check := Crc.ComputeChecksum(table, payload);
    if check != FieldAt(b, 32, 4) {
      return Bad(BadPayload);
    }
    parsed := Whole(Record(kind.value, SequenceAt(b), payload), HEADER_SIZE + length);
  }

  // ---- Writing a frame ------------------------------------------------------

  /** Writes the low bytes of a value, least significant first, over a stretch of a buffer. */
  method WriteField(buffer: array<U8>, at: nat, width: nat, value: nat)
    requires at + width <= buffer.Length
    modifies buffer
    ensures buffer[..] == old(buffer[..at]) + LittleEndian(value, width) + old(buffer[at + width..])
  {
    ghost var before := buffer[..];
    ghost var done: Bytes := [];
    var rest := value;
    assert before == before[..at] + done + before[at..];
    for i := 0 to width
      invariant |done| == i && buffer[..] == before[..at] + done + before[at + i..]
      invariant done + LittleEndian(rest, width - i) == LittleEndian(value, width)
    {
      OverwriteNext(before, done, at, i, rest % 256);
      LittleEndianNext(done, rest, width - i);
      ghost var now := buffer[..];
      buffer[at + i] := rest % 256;
      assert buffer[..] == now[at + i := rest % 256];
      done := done + [rest % 256];
      rest := rest / 256;
    }
    assert done + LittleEndian(rest, 0) == done;
  }

  lemma OverwriteNext(before: Bytes, done: Bytes, at: nat, i: nat, x: U8)
    requires at + i < |before| && |done| == i
    ensures (before[..at] + done + before[at + i..])[at + i := x]
         == before[..at] + (done + [x]) + before[at + i + 1..]
  {
  }

  lemma LittleEndianNext(done: Bytes, rest: nat, width: nat)
    requires width > 0
    ensures done + LittleEndian(rest, width) == (done + [rest % 256]) + LittleEndian(rest / 256, width - 1)
  {
  }

  /** Writes the next field after what stands at the beginning of the buffer. */
  method WriteNext(buffer: array<U8>, ghost done: Bytes, at: nat, width: nat, value: nat) returns (ghost now: Bytes)
    requires at + width <= buffer.Length && buffer[..at] == done
    modifies buffer
    ensures buffer[..at + width] == now == done + LittleEndian(value, width)
  {
    WriteField(buffer, at, width, value);
    now := done + LittleEndian(value, width);
    assert buffer[..at + width] == buffer[..][..at + width];
  }

  method WritePayload(buffer: array<U8>, ghost done: Bytes, at: nat, payload: Bytes)
    requires at + |payload| == buffer.Length && buffer[..at] == done
    modifies buffer
    ensures buffer[..] == done + payload
  {
    for i := 0 to |payload|
      invariant buffer[..at + i] == done + payload[..i]
    {
      buffer[at + i] := payload[i];
      assert buffer[..at + i + 1] == buffer[..at + i] + [payload[i]];
    }
    assert buffer[..] == buffer[..at + |payload|];
  }

  lemma CoveredFields(f: Framed, a: Bytes, b: Bytes, c: Bytes, d: Bytes, e: Bytes)
    requires a == U32Bytes(RECORD_MAGIC) && b == U16Bytes(FORMAT_VERSION) && c == U16Bytes(TypeCode(f.record.kind))
    requires d == U16Bytes(0) && e == U16Bytes(0)
    ensures a + b + c + d + e + U64Bytes(f.record.sequence) + U64Bytes(f.epoch) + U32Bytes(Count(|f.record.payload|))
            + U32Bytes(Crc.Checksum(f.record.payload)) == Covered(f)
  {
    hide LittleEndian, Crc.Checksum;
    assert a + b + c + d + e == Opening(f.record);
  }

  /** Writes the header fields up to the payload checksum, at their offsets. */
  method WriteCovered(buffer: array<U8>, f: Framed, payloadCrc: U32) returns (ghost done: Bytes)
    requires |f.record.payload| < TWO_32 && payloadCrc == Crc.Checksum(f.record.payload)
    requires buffer.Length >= 36
    modifies buffer
    ensures buffer[..36] == done == Covered(f)
  {
    hide LittleEndian, Crc.Checksum, Covered;
    var r := f.record;
    done := [];
    done := WriteNext(buffer, done, 0, 4, RECORD_MAGIC);
    done := WriteNext(buffer, done, 4, 2, FORMAT_VERSION);
    done := WriteNext(buffer, done, 6, 2, TypeCode(r.kind));
    done := WriteNext(buffer, done, 8, 2, 0);
    done := WriteNext(buffer, done, 10, 2, 0);
    done := WriteNext(buffer, done, 12, 8, r.sequence);
    done := WriteNext(buffer, done, 20, 8, f.epoch);
    done := WriteNext(buffer, done, 28, 4, |r.payload|);
    done := WriteNext(buffer, done, 32, 4, payloadCrc);
    CoveredFields(f, U32Bytes(RECORD_MAGIC), U16Bytes(FORMAT_VERSION), U16Bytes(TypeCode(r.kind)), U16Bytes(0),
                  U16Bytes(0));
    assert [] + U32Bytes(RECORD_MAGIC) == U32Bytes(RECORD_MAGIC);
  }

  /** Writes the header of a frame into a buffer of the frame's size, each checksum after what it
      covers. */
  method WriteHeader(table: array<bv32>, f: Framed) returns (buffer: array<U8>, ghost done: Bytes)
    requires table.Length == 256 && forall i :: 0 <= i < 256 ==> table[i] == Crc.Shifts(Crc.Low(i), 8)
    requires |f.record.payload| < TWO_32
    ensures fresh(buffer) && buffer.Length == HEADER_SIZE + |f.record.payload|
    ensures buffer[..HEADER_SIZE] == done == Header(f)
  {
    hide LittleEndian, Crc.Checksum, Crc.Shifts, Crc.Low, Covered;
    var payloadCrc := Crc.ComputeChecksum(table, f.record.payload);
    buffer := new U8[HEADER_SIZE + |f.record.payload|](_ => 0);
    done := WriteCovered(buffer, f, payloadCrc);
    var headerCrc := Crc.ComputeChecksum(table, buffer[..36]);
    done := WriteNext(buffer, done, 36, 4, headerCrc);
  }

  /** Frames a record in a buffer of its exact size: the header, then the payload. */
  method FrameRecord(table: array<bv32>, f: Framed) returns (bytes: Bytes)
    requires table.Length == 256 && forall i :: 0 <= i < 256 ==> table[i] == Crc.Shifts(Crc.Low(i), 8)
    requires |f.record.payload| < TWO_32
    ensures bytes == Frame(f)
  {
    hide Header;
    var buffer;
    ghost var done;
    buffer, done := WriteHeader(table, f);
    WritePayload(buffer, done, HEADER_SIZE, f.record.payload);
    bytes := buffer[..];
  }
}
