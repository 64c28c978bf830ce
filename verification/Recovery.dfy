/** The durable store as a machine over its disk: appends, snapshots, crashes between any two
    steps, and what the next opening finds. */
module Recovery {
  import opened Ints
  import opened Canonical
  import Crc
  import opened Framing

  // ---- Snapshots ------------------------------------------------------------

  const SNAPSHOT_MAGIC: U32 := 0x4E52_5053

  // The records as one incarnation frames them.
  function FramesOf(records: seq<Record>, epoch: U64): (frames: seq<Framed>)
    ensures |frames| == |records|
    ensures forall i :: 0 <= i < |frames| ==> frames[i] == Framed(records[i], epoch)
  {
    seq(|records|, i requires 0 <= i < |records| => Framed(records[i], epoch))
  }

  function LastSequence(records: seq<Record>): U64 {
    if |records| == 0 then 0 else records[|records| - 1].sequence
  }

  function SnapshotOpening(records: seq<Record>): (b: Bytes)
    ensures |b| == 12
  {
    U32Bytes(SNAPSHOT_MAGIC) + (U16Bytes(FORMAT_VERSION) + (U16Bytes(0) + U32Bytes(Count(|records|))))
  }

  function SnapshotCovered(records: seq<Record>, epoch: U64, payload: Bytes): (b: Bytes)
    ensures |b| == 36
  {
    SnapshotOpening(records)
    + ((U32Bytes(Count(|payload|)) + U32Bytes(Crc.Checksum(payload)))
       + (U64Bytes(LastSequence(records)) + U64Bytes(epoch)))
  }

  function SnapshotBytes(records: seq<Record>, epoch: U64): Bytes {
    var payload := Journal(FramesOf(records, epoch));
    SnapshotCovered(records, epoch, payload)
    + U32Bytes(Crc.Checksum(SnapshotCovered(records, epoch, payload))) + payload
  }

  datatype Snapshot = Snapshot(records: seq<Record>, last: U64)

  function LastAt(b: Bytes): U64
    requires |b| >= HEADER_SIZE
  {
    Widths();
    LittleEndianOfValue(b[20..28]);
    FieldAt(b, 20, 8)
  }

  // A snapshot is whole or it is refused: it may not even end inside a record.
  function ReadSnapshot(b: Bytes, limits: StoreLimits): Option<Snapshot> {
    if |b| < HEADER_SIZE || FieldAt(b, 0, 4) != SNAPSHOT_MAGIC || FieldAt(b, 4, 2) != FORMAT_VERSION
       || FieldAt(b, 36, 4) != Crc.Checksum(b[..36]) || |b| != HEADER_SIZE + FieldAt(b, 12, 4)
       || Crc.Checksum(b[HEADER_SIZE..]) != FieldAt(b, 16, 4)
    then None
    else
      match ScanFrom(b[HEADER_SIZE..], limits, 0, 0)
      case Refused(_) => None
      case Scanned(records, _, torn) => if torn then None else Some(Snapshot(records, LastAt(b)))
  }

  lemma SnapshotSize(records: seq<Record>, epoch: U64)
    ensures |SnapshotBytes(records, epoch)| == HEADER_SIZE + |Journal(FramesOf(records, epoch))|
  {
    hide Journal, FramesOf, Crc.Checksum;
  }

  lemma SnapshotFields(records: seq<Record>, epoch: U64)
    requires |Journal(FramesOf(records, epoch))| < TWO_32
    ensures var b := SnapshotBytes(records, epoch);
            var payload := Journal(FramesOf(records, epoch));
            && |b| == HEADER_SIZE + |payload|
            && FieldAt(b, 0, 4) == SNAPSHOT_MAGIC && FieldAt(b, 4, 2) == FORMAT_VERSION
            && FieldAt(b, 12, 4) == |payload| && FieldAt(b, 16, 4) == Crc.Checksum(payload)
            && FieldAt(b, 20, 8) == LastSequence(records)
            && FieldAt(b, 36, 4) == Crc.Checksum(b[..36]) && b[HEADER_SIZE..] == payload
  {
    hide LittleEndian, FieldAt, Crc.Checksum, Journal, FramesOf;
    Widths();
    var payload := Journal(FramesOf(records, epoch));
    var covered := SnapshotCovered(records, epoch, payload);
    var crc := U32Bytes(Crc.Checksum(covered));
    var b := SnapshotBytes(records, epoch);
    var opening := SnapshotOpening(records);
    var magic, version := U32Bytes(SNAPSHOT_MAGIC), U16Bytes(FORMAT_VERSION);
    var length, check := U32Bytes(Count(|payload|)), U32Bytes(Crc.Checksum(payload));
    var last, era := U64Bytes(LastSequence(records)), U64Bytes(epoch);
    var tail := crc + payload;
    assert b == covered + tail;
    var counted := U16Bytes(0) + U32Bytes(Count(|records|));
    var afterOpening := ((length + check) + (last + era)) + tail;
    assert b == opening + afterOpening;
    assert b == [] + (magic + (version + (counted + afterOpening)));
    FieldIn([], SNAPSHOT_MAGIC, 4, version + (counted + afterOpening));
    assert b == magic + (version + (counted + afterOpening));
    FieldIn(magic, FORMAT_VERSION, 2, counted + afterOpening);
    assert b == opening + (length + (check + (last + era) + tail));
    FieldIn(opening, Count(|payload|), 4, check + (last + era) + tail);
    assert b == (opening + length) + (check + ((last + era) + tail));
    FieldIn(opening + length, Crc.Checksum(payload), 4, (last + era) + tail);
    assert b == (opening + length + check) + (last + (era + tail));
    FieldIn(opening + length + check, LastSequence(records), 8, era + tail);
    assert b == covered + (crc + payload);
    FieldIn(covered, Crc.Checksum(covered), 4, payload);
    assert b[..36] == covered;
    assert b[HEADER_SIZE..] == payload;
  }

  /** A snapshot whose records take four gigabytes or more is written with a length that has
      wrapped around, and is refused when it is read. */
  lemma OversizedSnapshotRefused(records: seq<Record>, epoch: U64, limits: StoreLimits)
    requires |Journal(FramesOf(records, epoch))| >= TWO_32
    ensures ReadSnapshot(SnapshotBytes(records, epoch), limits) == None
  {
    hide Crc.Checksum, Journal, LittleEndian, ScanFrom;
    var b := SnapshotBytes(records, epoch);
    Widths();
    LittleEndianOfValue(b[12..16]);
  }

  // ---- Ledgers --------------------------------------------------------------

  // Records numbered from one without a gap, each within the size limit.
  predicate Numbered(records: seq<Record>, limits: StoreLimits) {
    forall i :: 0 <= i < |records| ==> records[i].sequence == i + 1 && Storable(records[i], limits)
  }

  // Frames of consecutive records of a ledger, from position j on.
  predicate FramesFrom(frames: seq<Framed>, ledger: seq<Record>, j: nat) {
    j + |frames| <= |ledger| && forall i :: 0 <= i < |frames| ==> frames[i].record == ledger[j + i]
  }

  lemma {:induction false} NumberedFramesOrdered(frames: seq<Framed>, ledger: seq<Record>, j: nat, limits: StoreLimits,
                                                 last: U64)
    requires Numbered(ledger, limits) && FramesFrom(frames, ledger, j) && last <= j
    ensures Ordered(frames, limits, last)
    decreases |frames|
  {
    if |frames| > 0 {
      assert frames[0].record == ledger[j];
      assert FramesFrom(frames[1..], ledger, j + 1) by {
        forall i | 0 <= i < |frames[1..]|
          ensures frames[1..][i].record == ledger[j + 1 + i]
        {
          assert frames[1 + i].record == ledger[j + (1 + i)];
        }
      }
      NumberedFramesOrdered(frames[1..], ledger, j + 1, limits, frames[0].record.sequence);
    }
  }

  // Of consecutive frames, those after sequence k are the records from position k on.
  lemma {:induction false} RecordsAfterAre(frames: seq<Framed>, ledger: seq<Record>, j: nat, k: U64,
                                           limits: StoreLimits)
    requires Numbered(ledger, limits) && FramesFrom(frames, ledger, j) && j <= k <= j + |frames|
    ensures RecordsAfter(frames, k) == ledger[k..j + |frames|]
    decreases |frames|
  {
    if |frames| > 0 {
      var rest := frames[1..];
      assert frames[0].record == ledger[j];
      forall i | 0 <= i < |rest|
        ensures rest[i].record == ledger[j + 1 + i]
      {
        assert frames[1 + i].record == ledger[j + (1 + i)];
      }
      if j == k {
        NoneSkipped(rest, ledger, j + 1, k, limits);
        assert ledger[k..j + |frames|] == [ledger[j]] + ledger[j + 1..j + |frames|];
      } else {
        RecordsAfterAre(rest, ledger, j + 1, k, limits);
      }
    }
  }

  lemma {:induction false} NoneSkipped(frames: seq<Framed>, ledger: seq<Record>, j: nat, k: U64, limits: StoreLimits)
    requires Numbered(ledger, limits) && FramesFrom(frames, ledger, j) && k <= j
    ensures RecordsAfter(frames, k) == ledger[j..j + |frames|]
    decreases |frames|
  {
    if |frames| > 0 {
      var rest := frames[1..];
      assert frames[0].record == ledger[j];
      forall i | 0 <= i < |rest|
        ensures rest[i].record == ledger[j + 1 + i]
      {
        assert frames[1 + i].record == ledger[j + (1 + i)];
      }
      NoneSkipped(rest, ledger, j + 1, k, limits);
      assert ledger[j..j + |frames|] == [ledger[j]] + ledger[j + 1..j + |frames|];
    }
  }

  /** What a snapshot of a ledger holds is read back whole. */
  lemma SnapshotReads(ledger: seq<Record>, epoch: U64, limits: StoreLimits)
    requires Numbered(ledger, limits) && |Journal(FramesOf(ledger, epoch))| < TWO_32
    ensures ReadSnapshot(SnapshotBytes(ledger, epoch), limits) == Some(Snapshot(ledger, LastSequence(ledger)))
  {
    hide FieldAt, Crc.Checksum, SnapshotBytes, Journal, ScanFrom;
    var frames := FramesOf(ledger, epoch);
    SnapshotFields(ledger, epoch);
    NumberedFramesOrdered(frames, ledger, 0, limits, 0);
    ScanPastFrames(frames, [], limits, 0, 0);
    assert Journal(frames) + [] == Journal(frames);
    NothingToScan(limits, LastOf(frames, 0));
    NoneSkipped(frames, ledger, 0, 0, limits);
    assert ledger[0..|frames|] == ledger;
    assert RecordsAfter(frames, 0) + [] == RecordsAfter(frames, 0);
  }

  lemma NothingToScan(limits: StoreLimits, last: U64)
    ensures forall minimum: U64 :: ScanFrom([], limits, minimum, last) == Scanned([], 0, false)
  {
  }

  // ---- Opening --------------------------------------------------------------

  datatype Recovered = Recovered(records: seq<Record>, goodBytes: nat, torn: bool)

  predicate Increasing(records: seq<Record>) {
    forall i :: 0 <= i < |records| - 1 ==> records[i].sequence < records[i + 1].sequence
  }

  // The snapshot on the disk, or none.
  function BaseOf(snapshot: Option<Bytes>, limits: StoreLimits): Option<Snapshot> {
    match snapshot case None => Some(Snapshot([], 0)) case Some(b) => ReadSnapshot(b, limits)
  }

  // What is read off the disk, or None when it is refused.
  function ReadDisk(snapshot: Option<Bytes>, journal: Bytes, limits: StoreLimits): Option<Recovered> {
    if snapshot.Some? && |snapshot.value| > limits.maxJournalBytes then None
    else if BaseOf(snapshot, limits).None? || |journal| > limits.maxJournalBytes then None
    else
      var base := BaseOf(snapshot, limits).value;
      match ScanFrom(journal, limits, base.last, 0)
      case Refused(_) => None
      case Scanned(records, goodBytes, torn) => Some(Recovered(base.records + records, goodBytes, torn))
  }

  // What opening accepts of that.
  function Recover(snapshot: Option<Bytes>, journal: Bytes, limits: StoreLimits): Option<Recovered> {
    match ReadDisk(snapshot, journal, limits)
    case None => None
    case Some(r) => if |r.records| > limits.maxRecords || !Increasing(r.records) then None else Some(r)
  }

  // ---- The machine ----------------------------------------------------------

  // The disk, what has been written but not flushed, the records whose writing has begun and
  // may survive, how many of them are acknowledged, and whether a process holds the store.
  datatype World = World(
    snapshot: Option<Bytes>,
    journal: Bytes,
    pending: Bytes,
    ledger: seq<Record>,
    acked: nat,
    live: bool)

  const EMPTY: World := World(None, [], [], [], 0, false)

  datatype Move =
    | Write(record: Record, epoch: U64)
    | Flush
    | Install(epoch: U64)
    | Reset(epoch: U64)
    | Crash(kept: nat)
    | Reopen(goodBytes: nat)

  // The sizes that opening insists on, and the one up to which a snapshot states its own
  // length; nothing else keeps the files within them.
  predicate Readable(w: World, limits: StoreLimits) {
    && |w.journal| <= limits.maxJournalBytes
    && (w.snapshot.Some? ==>
          |w.snapshot.value| <= limits.maxJournalBytes && |w.snapshot.value| < HEADER_SIZE + TWO_32)
  }

  predicate Openable(w: World, limits: StoreLimits) {
    Readable(w, limits) && |w.ledger| <= limits.maxRecords
  }

  ghost predicate CanMove(w: World, limits: StoreLimits, m: Move) {
    match m
    case Write(record, _) =>
      w.live && w.acked == |w.ledger| && record.sequence == |w.ledger| + 1 && Storable(record, limits)
    case Flush => w.live && |w.ledger| == w.acked + 1
    case Install(_) => w.live && w.acked == |w.ledger|
    case Reset(epoch) =>
      w.live && w.acked == |w.ledger| && w.snapshot == Some(SnapshotBytes(w.ledger, epoch))
    case Crash(kept) => w.live && kept <= |w.pending|
    case Reopen(goodBytes) =>
      !w.live && goodBytes <= |w.journal|
      && ReadDisk(w.snapshot, w.journal, limits).Some?
      && ReadDisk(w.snapshot, w.journal, limits).value.goodBytes == goodBytes
  }

  // A crash keeps some of the unflushed bytes.  The record being written survives when all
  // of them are kept, and is gone otherwise.
  function Moved(w: World, m: Move): World
    requires m.Crash? ==> m.kept <= |w.pending|
    requires m.Crash? ==> w.acked <= |w.ledger|
    requires m.Reopen? ==> m.goodBytes <= |w.journal|
  {
    match m
    case Write(record, epoch) => w.(pending := Frame(Framed(record, epoch)), ledger := w.ledger + [record])
    case Flush => w.(journal := w.journal + w.pending, pending := [], acked := w.acked + 1)
    case Install(epoch) => w.(snapshot := Some(SnapshotBytes(w.ledger, epoch)))
    case Reset(_) => w.(journal := [])
    case Crash(kept) =>
      var survivors := if kept == |w.pending| then w.ledger else w.ledger[..w.acked];
      World(w.snapshot, w.journal + w.pending[..kept], [], survivors, |survivors|, false)
    case Reopen(goodBytes) => w.(journal := w.journal[..goodBytes], live := true)
  }

  // How the disk is laid out: the whole frames of the journal, how many records the snapshot
  // holds and under which epoch, the epoch of the frame being written, and a torn frame.
  datatype Layout = Layout(frames: seq<Framed>, base: nat, epoch: U64, nextEpoch: U64, torn: Option<(Framed, nat)>)

  ghost predicate SnapshotFits(w: World, l: Layout)
    requires l.base <= |w.ledger|
  {
    match w.snapshot
    case None => l.base == 0
    case Some(b) => b == SnapshotBytes(w.ledger[..l.base], l.epoch)
  }

  ghost function TornPart(l: Layout): Bytes
    requires l.torn.Some? ==> l.torn.value.1 <= |Frame(l.torn.value.0)|
  {
    match l.torn case None => [] case Some(t) => Frame(t.0)[..t.1]
  }

  ghost predicate TornFits(l: Layout, limits: StoreLimits) {
    l.torn.Some? ==> Storable(l.torn.value.0.record, limits) && 0 < l.torn.value.1 < |Frame(l.torn.value.0)|
  }

  ghost predicate PendingFits(w: World, l: Layout)
    requires w.acked <= |w.ledger|
  {
    w.pending == if w.acked == |w.ledger| then [] else Frame(Framed(w.ledger[w.acked], l.nextEpoch))
  }

  ghost predicate Fits(w: World, limits: StoreLimits, l: Layout) {
    && Numbered(w.ledger, limits)
    && l.base <= w.acked <= |w.ledger| <= w.acked + 1
    && |l.frames| <= w.acked && w.acked - |l.frames| <= l.base
    && FramesFrom(l.frames, w.ledger, w.acked - |l.frames|)
    && SnapshotFits(w, l)
    && TornFits(l, limits)
    && w.journal == Journal(l.frames) + TornPart(l)
    && PendingFits(w, l)
    && (w.live ==> l.torn.None?)
    && (!w.live ==> w.acked == |w.ledger|)
  }

  ghost predicate Sound(w: World, limits: StoreLimits) {
    exists l :: Fits(w, limits, l)
  }

  lemma EmptyIsSound(limits: StoreLimits)
    ensures Sound(EMPTY, limits)
  {
    assert Fits(EMPTY, limits, Layout([], 0, 0, 0, None));
  }

  lemma BaseIsPrefix(w: World, limits: StoreLimits, l: Layout)
    requires Numbered(w.ledger, limits) && l.base <= |w.ledger| && SnapshotFits(w, l)
    ensures BaseOf(w.snapshot, limits)
         == if w.snapshot.Some? && |w.snapshot.value| >= HEADER_SIZE + TWO_32 then None
            else Some(Snapshot(w.ledger[..l.base], l.base))
  {
    hide SnapshotBytes, ReadSnapshot, Journal, Storable;
    NumberedPrefix(w.ledger, limits, l.base);
    if w.snapshot.Some? {
      var prefix := w.ledger[..l.base];
      SnapshotSize(prefix, l.epoch);
      if |w.snapshot.value| < HEADER_SIZE + TWO_32 {
        SnapshotReads(prefix, l.epoch, limits);
      } else {
        OversizedSnapshotRefused(prefix, l.epoch, limits);
      }
    }
  }

  lemma JournalIsRest(w: World, limits: StoreLimits, l: Layout)
    requires Fits(w, limits, l) && l.base < TWO_64
    ensures ScanFrom(w.journal, limits, l.base, 0)
         == Scanned(w.ledger[l.base..w.acked], |Journal(l.frames)|, l.torn.Some?)
  {
    hide Frame, Journal, ScanFrom, SnapshotFits, PendingFits, Storable;
    var j := w.acked - |l.frames|;
    NumberedFramesOrdered(l.frames, w.ledger, j, limits, 0);
    ScanPastFrames(l.frames, TornPart(l), limits, l.base, 0);
    TornScan(l, limits, l.base, LastOf(l.frames, 0));
    RecordsAfterAre(l.frames, w.ledger, j, l.base, limits);
    var records := RecordsAfter(l.frames, l.base);
    assert records + [] == records;
  }

  lemma NumberedIncreasing(ledger: seq<Record>, limits: StoreLimits)
    requires Numbered(ledger, limits)
    ensures Increasing(ledger) && |ledger| < TWO_64
  {
    assert |ledger| > 0 ==> ledger[|ledger| - 1].sequence == |ledger|;
  }

  lemma ReadDiskIs(snapshot: Option<Bytes>, journal: Bytes, limits: StoreLimits, base: Snapshot, rest: seq<Record>,
                   goodBytes: nat, torn: bool)
    requires (snapshot.Some? ==> |snapshot.value| <= limits.maxJournalBytes) && |journal| <= limits.maxJournalBytes
    requires BaseOf(snapshot, limits) == Some(base)
    requires ScanFrom(journal, limits, base.last, 0) == Scanned(rest, goodBytes, torn)
    ensures ReadDisk(snapshot, journal, limits) == Some(Recovered(base.records + rest, goodBytes, torn))
  {
    hide BaseOf, ScanFrom;
  }

  // What is read after the process is gone is the ledger, unless the files are too large.
  lemma DiskIsLedger(w: World, limits: StoreLimits, l: Layout)
    requires Fits(w, limits, l) && !w.live
    ensures ReadDisk(w.snapshot, w.journal, limits)
         == if Readable(w, limits) then Some(Recovered(w.ledger, |Journal(l.frames)|, l.torn.Some?)) else None
  {
    hide Frame, Journal, ScanFrom, BaseOf, SnapshotFits, PendingFits, Numbered, TornFits, TornPart;
    hide FramesFrom, Increasing, SnapshotBytes;
    if Readable(w, limits) {
      NumberedIncreasing(w.ledger, limits);
      BaseIsPrefix(w, limits, l);
      JournalIsRest(w, limits, l);
      var base := Snapshot(w.ledger[..l.base], l.base);
      var rest := w.ledger[l.base..w.acked];
      assert base.records + rest == w.ledger;
      ReadDiskIs(w.snapshot, w.journal, limits, base, rest, |Journal(l.frames)|, l.torn.Some?);
    } else {
      BaseIsPrefix(w, limits, l);
    }
  }

  /** What opening finds after the process is gone is the ledger: every acknowledged record
      once, in order, and nothing else but the record that survived the crash.  It finds this
      exactly when the files and the ledger are within the sizes it insists on, and the records
      of the snapshot take less than four gigabytes. */
  lemma RecoveryIsLedger(w: World, limits: StoreLimits, l: Layout)
    requires Fits(w, limits, l) && !w.live
    ensures Recover(w.snapshot, w.journal, limits)
         == if Openable(w, limits) then Some(Recovered(w.ledger, |Journal(l.frames)|, l.torn.Some?)) else None
  {
    hide Journal, ReadDisk, Increasing, Numbered, FramesFrom, SnapshotFits, TornFits, PendingFits, TornPart;
    DiskIsLedger(w, limits, l);
    NumberedIncreasing(w.ledger, limits);
  }

  lemma TornScan(l: Layout, limits: StoreLimits, minimum: U64, last: U64)
    requires TornFits(l, limits)
    ensures ScanFrom(TornPart(l), limits, minimum, last) == Scanned([], 0, l.torn.Some?)
  {
    hide ParseOne, Frame;
    if l.torn.Some? {
      PartialIsTorn(l.torn.value.0, l.torn.value.1, limits);
    }
  }

  lemma NumberedPrefix(ledger: seq<Record>, limits: StoreLimits, k: nat)
    requires Numbered(ledger, limits) && k <= |ledger|
    ensures Numbered(ledger[..k], limits) && LastSequence(ledger[..k]) == k
  {
  }

  // ---- Every move keeps the layout ------------------------------------------

  lemma WriteKeeps(w: World, limits: StoreLimits, l: Layout, record: Record, epoch: U64)
    requires Fits(w, limits, l) && CanMove(w, limits, Write(record, epoch))
    ensures Fits(Moved(w, Write(record, epoch)), limits, l.(nextEpoch := epoch))
  {
    hide Frame, Journal, SnapshotBytes;
    var next := w.ledger + [record];
    assert next[..l.base] == w.ledger[..l.base];
  }

  lemma FlushKeeps(w: World, limits: StoreLimits, l: Layout)
    requires Fits(w, limits, l) && CanMove(w, limits, Flush)
    ensures Fits(Moved(w, Flush), limits, l.(frames := l.frames + [Framed(w.ledger[w.acked], l.nextEpoch)]))
  {
    hide Frame, SnapshotBytes;
    var f := Framed(w.ledger[w.acked], l.nextEpoch);
    JournalAppend(l.frames, [f]);
    JournalOfOne(f);
    assert Journal(l.frames) + [] == Journal(l.frames);
    assert Journal(l.frames + [f]) + [] == Journal(l.frames + [f]);
  }

  lemma JournalOfOne(f: Framed)
    ensures Journal([f]) == Frame(f)
  {
    hide Frame;
    assert [f][1..] == [];
    assert Frame(f) + [] == Frame(f);
  }

  lemma InstallKeeps(w: World, limits: StoreLimits, l: Layout, epoch: U64)
    requires Fits(w, limits, l) && CanMove(w, limits, Install(epoch))
    ensures Fits(Moved(w, Install(epoch)), limits, l.(base := |w.ledger|, epoch := epoch))
  {
    hide Frame, Journal, SnapshotBytes;
    assert w.ledger[..|w.ledger|] == w.ledger;
  }

  lemma ResetKeeps(w: World, limits: StoreLimits, l: Layout, epoch: U64)
    requires Fits(w, limits, l) && CanMove(w, limits, Reset(epoch))
    ensures Fits(Moved(w, Reset(epoch)), limits, Layout([], |w.ledger|, epoch, l.nextEpoch, None))
  {
    hide Frame, SnapshotBytes;
    assert w.ledger[..|w.ledger|] == w.ledger;
    assert Journal([]) == [];
  }

  // The record being written survives with all of its bytes.
  lemma CrashKeepsAll(w: World, limits: StoreLimits, l: Layout)
    requires Fits(w, limits, l) && w.live && w.acked < |w.ledger|
    ensures Fits(Moved(w, Crash(|w.pending|)), limits,
                 l.(frames := l.frames + [Framed(w.ledger[w.acked], l.nextEpoch)]))
  {
    hide Frame, SnapshotBytes, Journal, Storable;
    var f := Framed(w.ledger[w.acked], l.nextEpoch);
    JournalAppend(l.frames, [f]);
    JournalOfOne(f);
    assert w.pending[..|w.pending|] == w.pending;
    assert Journal(l.frames) + [] == Journal(l.frames);
    assert Journal(l.frames + [f]) + [] == Journal(l.frames + [f]);
  }

  // Only a part of them is left, which is a torn frame unless it is empty.
  lemma CrashKeepsPart(w: World, limits: StoreLimits, l: Layout, kept: nat)
    requires Fits(w, limits, l) && w.live && w.acked < |w.ledger| && kept < |w.pending|
    ensures Fits(Moved(w, Crash(kept)), limits,
                 if kept == 0 then l else l.(torn := Some((Framed(w.ledger[w.acked], l.nextEpoch), kept))))
  {
    hide Frame, SnapshotBytes, Journal;
    assert Journal(l.frames) + [] == Journal(l.frames);
    assert w.pending[..0] == [];
    assert w.ledger[..w.acked][..l.base] == w.ledger[..l.base];
    NumberedPrefix(w.ledger, limits, w.acked);
  }

  lemma CrashKeeps(w: World, limits: StoreLimits, l: Layout, kept: nat)
    requires Fits(w, limits, l) && w.live && kept <= |w.pending|
    ensures Sound(Moved(w, Crash(kept)), limits)
  {
    hide Frame, SnapshotBytes, Journal, Storable;
    if w.acked == |w.ledger| {
      assert w.pending[..kept] == [];
      assert Journal(l.frames) + [] == Journal(l.frames);
      assert Fits(Moved(w, Crash(kept)), limits, l);
    } else if kept == |w.pending| {
      CrashKeepsAll(w, limits, l);
    } else {
      CrashKeepsPart(w, limits, l, kept);
    }
  }

  lemma ReopenKeeps(w: World, limits: StoreLimits, l: Layout, goodBytes: nat)
    requires goodBytes <= |w.journal|
    requires Fits(w, limits, l) && CanMove(w, limits, Reopen(goodBytes))
    ensures Fits(Moved(w, Reopen(goodBytes)), limits, l.(torn := None))
  {
    hide Frame, SnapshotBytes, Journal, ReadDisk;
    DiskIsLedger(w, limits, l);
    assert w.journal[..goodBytes] == Journal(l.frames);
    assert Journal(l.frames) + [] == Journal(l.frames);
  }

  lemma FitsAcked(w: World, limits: StoreLimits, l: Layout)
    requires Fits(w, limits, l)
    ensures w.acked <= |w.ledger|
  {
  }

  ghost predicate Next(w: World, limits: StoreLimits, t: World) {
    w.acked <= |w.ledger| && exists m :: CanMove(w, limits, m) && t == Moved(w, m)
  }

  lemma NextKeeps(w: World, limits: StoreLimits, t: World)
    requires Sound(w, limits) && Next(w, limits, t)
    ensures Sound(t, limits)
  {
    hide Fits, Moved, ReadDisk, SnapshotBytes, Storable;
    var l :| Fits(w, limits, l);
    var m :| CanMove(w, limits, m) && t == Moved(w, m);
    match m
    case Write(record, epoch) => WriteKeeps(w, limits, l, record, epoch);
    case Flush => FlushMoves(w, limits, l);
    case Install(epoch) => InstallKeeps(w, limits, l, epoch);
    case Reset(epoch) => ResetKeeps(w, limits, l, epoch);
    case Crash(kept) => CrashKeeps(w, limits, l, kept);
    case Reopen(goodBytes) => ReopenKeeps(w, limits, l, goodBytes);
  }

  lemma FlushMoves(w: World, limits: StoreLimits, l: Layout)
    requires Fits(w, limits, l) && CanMove(w, limits, Flush)
    ensures Sound(Moved(w, Flush), limits)
  {
    hide Fits, Moved;
    FlushKeeps(w, limits, l);
  }

  // ---- Whole runs -----------------------------------------------------------

  ghost predicate IsRun(run: seq<World>, limits: StoreLimits) {
    && |run| > 0 && run[0] == EMPTY
    && forall i :: 0 <= i < |run| - 1 ==> Next(run[i], limits, run[i + 1])
  }

  lemma {:induction false} RunIsSound(run: seq<World>, limits: StoreLimits, i: nat)
    requires IsRun(run, limits) && i < |run|
    ensures Sound(run[i], limits)
    decreases i
  {
    hide Next, Sound;
    if i == 0 {
      EmptyIsSound(limits);
    } else {
      RunIsSound(run, limits, i - 1);
      assert Next(run[i - 1], limits, run[i - 1 + 1]);
      NextKeeps(run[i - 1], limits, run[i]);
    }
  }

  lemma NextKeepsAcknowledged(w: World, limits: StoreLimits, t: World)
    requires Sound(w, limits) && Next(w, limits, t)
    ensures w.acked <= t.acked <= |t.ledger| && w.acked <= |w.ledger|
    ensures t.ledger[..w.acked] == w.ledger[..w.acked]
  {
    hide Frame, Journal, SnapshotBytes, ReadDisk;
    var l :| Fits(w, limits, l);
  }

  /** What has once been acknowledged stays at its place in the ledger for good. */
  lemma {:induction false} AcknowledgedForGood(run: seq<World>, limits: StoreLimits, i: nat, j: nat)
    requires IsRun(run, limits) && i <= j < |run|
    ensures run[i].acked <= |run[i].ledger| && run[i].acked <= run[j].acked <= |run[j].ledger|
    ensures run[j].ledger[..run[i].acked] == run[i].ledger[..run[i].acked]
    decreases j - i
  {
    hide Next, Sound;
    RunIsSound(run, limits, i);
    if i == j {
      AckedWithin(run[i], limits);
    } else {
      AcknowledgedForGood(run, limits, i, j - 1);
      RunIsSound(run, limits, j - 1);
      assert Next(run[j - 1], limits, run[j - 1 + 1]);
      NextKeepsAcknowledged(run[j - 1], limits, run[j]);
      var n := run[i].acked;
      assert run[j].ledger[..n] == run[j].ledger[..run[j - 1].acked][..n];
      assert run[j - 1].ledger[..n] == run[j - 1].ledger[..run[j - 1].acked][..n];
    }
  }

  lemma AckedWithin(w: World, limits: StoreLimits)
    requires Sound(w, limits)
    ensures w.acked <= |w.ledger| <= w.acked + 1
  {
  }

  /** Crash safety over whole runs.  Let the process die at any point of any run, keeping any
      part of what was not flushed.  The next opening finds every record that was ever
      acknowledged, once and in order, followed by at most one more, which is the one that was
      being written; it succeeds exactly when that ledger is openable. */
  lemma CrashSafety(run: seq<World>, limits: StoreLimits, i: nat, j: nat, kept: nat)
    requires IsRun(run, limits) && i <= j < |run|
    requires run[j].live && kept <= |run[j].pending| && run[j].acked <= |run[j].ledger|
    ensures var w := Moved(run[j], Crash(kept));
            var found := Recover(w.snapshot, w.journal, limits);
            && (found.Some? <==> Openable(w, limits))
            && run[i].acked <= |run[i].ledger|
            && (found.Some? ==>
                  && found.value.records <= run[j].ledger
                  && run[i].acked <= run[j].acked <= |found.value.records| <= run[j].acked + 1
                  && run[i].ledger[..run[i].acked] == found.value.records[..run[i].acked])
  {
    hide Next, Sound, Recover, Frame, Journal, SnapshotBytes, Readable;
    RunIsSound(run, limits, j);
    AcknowledgedForGood(run, limits, i, j);
    AckedWithin(run[j], limits);
    SoundCrash(run[j], limits, kept);
    var w := Moved(run[j], Crash(kept));
    var l := LayoutOf(w, limits);
    RecoveryIsLedger(w, limits, l);
    assert run[j].ledger[..run[j].acked][..run[i].acked] == run[j].ledger[..run[i].acked];
  }

  lemma SoundCrash(w: World, limits: StoreLimits, kept: nat)
    requires Sound(w, limits) && w.live && kept <= |w.pending| && w.acked <= |w.ledger|
    ensures Sound(Moved(w, Crash(kept)), limits)
  {
    hide Fits, Moved;
    var l :| Fits(w, limits, l);
    CrashKeeps(w, limits, l, kept);
  }

  lemma LayoutOf(w: World, limits: StoreLimits) returns (l: Layout)
    requires Sound(w, limits)
    ensures Fits(w, limits, l)
  {
    hide Fits;
    l :| Fits(w, limits, l);
  }
}
