/** The durable store: the files it keeps, and how it appends to them, snapshots them and
    opens them again. */
module Store {
  import opened Ints
  import opened Canonical
  import opened Codecs
  import opened Domain
  import opened Requests
  import opened Formats
  import opened Reading
  import opened Encoding
  import opened Framing
  import opened Recovery
  import opened Incarnations
  import Crc

  // ---- Facts about runs -----------------------------------------------------

  lemma Extended(run: seq<World>, limits: StoreLimits, m: Move)
    requires IsRun(run, limits)
    requires var w := run[|run| - 1]; w.acked <= |w.ledger| && CanMove(w, limits, m)
    ensures |run| > 0 && IsRun(run + [Moved(run[|run| - 1], m)], limits)
  {
    hide ReadDisk, SnapshotBytes, Journal, Storable;
    var w := run[|run| - 1];
    var t := Moved(w, m);
    hide CanMove, Moved;
    var longer := run + [t];
    assert Next(w, limits, t);
    forall i | 0 <= i < |longer| - 1
      ensures Next(longer[i], limits, longer[i + 1])
    {
      if i < |run| - 1 {
        assert Next(run[i], limits, run[i + 1]);
      }
    }
  }

  // A store that is neither writing nor crashing has nothing unflushed.
  predicate AtRest(w: World) {
    w.acked == |w.ledger| && w.pending == []
  }

  lemma RunsRest(run: seq<World>, limits: StoreLimits)
    requires IsRun(run, limits)
    ensures |run| > 0
    ensures var w := run[|run| - 1];
            && w.acked <= |w.ledger| && Numbered(w.ledger, limits)
            && (w.acked == |w.ledger| ==> AtRest(w)) && (!w.live ==> w.acked == |w.ledger|)
  {
    RunIsSound(run, limits, |run| - 1);
    hide IsRun;
    SoundRests(run[|run| - 1], limits);
  }

  lemma SoundRests(w: World, limits: StoreLimits)
    requires Sound(w, limits)
    ensures w.acked <= |w.ledger| && Numbered(w.ledger, limits)
    ensures (w.acked == |w.ledger| ==> AtRest(w)) && (!w.live ==> w.acked == |w.ledger|)
  {
    hide Numbered, SnapshotFits, TornFits, Frame, Journal, FramesFrom;
    var l :| Fits(w, limits, l);
  }

  lemma LastIsLength(records: seq<Record>, limits: StoreLimits)
    requires Numbered(records, limits)
    ensures LastSequence(records) == |records|
  {
  }

  // The openings that have returned are behind what the acknowledged records say.
  ghost predicate Ascending(w: World, returned: seq<Incarnation>) {
    && w.acked <= |w.ledger| && Orderly(w.ledger)
    && forall i :: 0 <= i < |returned| ==> AtLeast(LastBoot(w.ledger[..w.acked]), returned[i])
  }

  lemma AscendingCrash(w: World, returned: seq<Incarnation>, kept: nat)
    requires Ascending(w, returned) && kept <= |w.pending|
    ensures Ascending(Moved(w, Crash(kept)), returned)
  {
    hide Orderly, LastBoot;
    var after := Moved(w, Crash(kept));
    OrderlyPrefix(w.ledger, w.acked);
    LastBootGrows(w.ledger, w.acked);
    assert w.ledger[..|w.ledger|] == w.ledger;
    assert after.ledger[..after.acked] == after.ledger;
  }

  lemma AscendingAppend(w: World, t: World, returned: seq<Incarnation>, kind: RecordType, payload: Bytes)
    requires Ascending(w, returned) && w.acked == |w.ledger|
    requires t.ledger == Appended(w.ledger, kind, payload) && t.acked == |t.ledger|
    requires Follows(Record(kind, Wrap64(LastSequence(w.ledger) + 1), payload), LastBoot(w.ledger))
    ensures Ascending(t, returned)
  {
    hide Orderly, LastBoot, Follows;
    AppendedOrderly(w.ledger, kind, payload);
    LastBootGrows(t.ledger, |w.ledger|);
    assert t.ledger[..|w.ledger|] == w.ledger == w.ledger[..w.acked];
    assert t.ledger[..t.acked] == t.ledger;
  }

  // ---- The disk -------------------------------------------------------------

  // The two files, and what has been written to the journal but not flushed.  Every state the
  // disk has been in is remembered, and so is every opening that has returned.
  class Disk {
    var snapshot: Option<Bytes>
    var journal: Bytes
    var pending: Bytes
    ghost const limits: StoreLimits
    ghost var run: seq<World>
    ghost var returned: seq<Incarnation>

    constructor (ghost limits: StoreLimits)
      ensures Traced() && this.limits == limits && run == [EMPTY] && Ascending(Now(), returned) && returned == []
    {
      snapshot, journal, pending := None, [], [];
      this.limits := limits;
      run, returned := [EMPTY], [];
    }

    ghost predicate Traced()
      reads this
    {
      && IsRun(run, limits)
      && snapshot == Now().snapshot && journal == Now().journal && pending == Now().pending
    }

    ghost function Now(): World
      requires |run| > 0
      reads this`run
    {
      run[|run| - 1]
    }

    method Write(bytes: Bytes, ghost record: Record, ghost epoch: U64)
      requires Traced() && CanMove(Now(), limits, Move.Write(record, epoch))
      requires bytes == Frame(Framed(record, epoch))
      modifies this`pending, this`run
      ensures Traced() && run == old(run) + [Moved(old(Now()), Move.Write(record, epoch))]
    {
      hide IsRun, Frame;
      RunsRest(run, limits);
      Extended(run, limits, Move.Write(record, epoch));
      run := run + [Moved(Now(), Move.Write(record, epoch))];
      assert pending + bytes == bytes;
      pending := pending + bytes;
    }

    method Flush()
      requires Traced() && CanMove(Now(), limits, Move.Flush)
      modifies this`journal, this`pending, this`run
      ensures Traced() && run == old(run) + [Moved(old(Now()), Move.Flush)]
    {
      hide IsRun;
      Extended(run, limits, Move.Flush);
      run := run + [Moved(Now(), Move.Flush)];
      journal, pending := journal + pending, [];
    }

    method Install(bytes: Bytes, ghost epoch: U64)
      requires Traced() && CanMove(Now(), limits, Move.Install(epoch))
      requires bytes == SnapshotBytes(Now().ledger, epoch)
      modifies this`snapshot, this`run
      ensures Traced() && run == old(run) + [Moved(old(Now()), Move.Install(epoch))]
    {
      hide IsRun, SnapshotBytes, Journal;
      Extended(run, limits, Move.Install(epoch));
      run := run + [Moved(Now(), Move.Install(epoch))];
      snapshot := Some(bytes);
    }

    method Reset(ghost epoch: U64)
      requires Traced() && CanMove(Now(), limits, Move.Reset(epoch))
      modifies this`journal, this`run
      ensures Traced() && run == old(run) + [Moved(old(Now()), Move.Reset(epoch))]
    {
      hide IsRun, SnapshotBytes, Journal;
      Extended(run, limits, Move.Reset(epoch));
      run := run + [Moved(Now(), Move.Reset(epoch))];
      journal := [];
    }

    /** The process that opens the store cuts off a torn tail. */
    method Truncate(goodBytes: nat)
      requires Traced() && CanMove(Now(), limits, Reopen(goodBytes))
      modifies this`journal, this`run
      ensures Traced() && run == old(run) + [Moved(old(Now()), Reopen(goodBytes))]
    {
      hide IsRun, ReadDisk;
      RunsRest(run, limits);
      Extended(run, limits, Reopen(goodBytes));
      run := run + [Moved(Now(), Reopen(goodBytes))];
      journal := journal[..goodBytes];
    }

    /** The process dies; any part of what it had not flushed may have reached the disk. */
    method Crash(kept: nat)
      requires Traced() && CanMove(Now(), limits, Move.Crash(kept))
      modifies this`journal, this`pending, this`run
      ensures Traced() && old(Now()).acked <= |old(Now()).ledger|
      ensures run == old(run) + [Moved(old(Now()), Move.Crash(kept))]
      ensures old(Ascending(Now(), returned)) ==> Ascending(Now(), returned)
    {
      hide IsRun, Ascending;
      RunsRest(run, limits);
      Extended(run, limits, Move.Crash(kept));
      if old(Ascending(Now(), returned)) {
        AscendingCrash(old(Now()), returned, kept);
      }
      run := run + [Moved(Now(), Move.Crash(kept))];
      journal, pending := journal + pending[..kept], [];
    }
  }

  // ---- Payloads -------------------------------------------------------------

  method ReadBootRecord(payload: Bytes) returns (boot: Option<Incarnation>)
    ensures boot == ReadBoot(payload)
  {
    hide U32_CODEC, U64_CODEC;
    var r := new CanonicalReader(payload);
    ghost var s0 := r.State();
    var version := r.ReadU32();
    ghost var s1 := r.State();
    var oldEpoch := r.ReadU64();
    ghost var s2 := r.State();
    var oldBoot := r.ReadU64();
    ghost var s3 := r.State();
    var epoch := r.ReadU64();
    ghost var s4 := r.State();
    var number := r.ReadU64();
    ghost var s5 := r.State();
    hide Took;
    TookPair(U64_CODEC, U64_CODEC, s3, s4, s5, epoch, number);
    var last := Pair(U64_CODEC, U64_CODEC);
    TookPair(U64_CODEC, last, s2, s3, s5, oldBoot, (epoch, number));
    TookPair(U64_CODEC, Pair(U64_CODEC, last), s1, s2, s5, oldEpoch, (oldBoot, (epoch, number)));
    var tail := Pair(U64_CODEC, Pair(U64_CODEC, last));
    TookPair(U32_CODEC, tail, s0, s1, s5, version, (oldEpoch, (oldBoot, (epoch, number))));
    boot := if r.failed then None else Some(Incarnation(epoch, number));
    TookBoot(payload, s5, (version, (oldEpoch, (oldBoot, (epoch, number)))));
  }

  lemma TookBoot(payload: Bytes, after: Option<Bytes>, parts: BootParts)
    requires Took(BOOT, Some(payload), after, parts)
    ensures ReadBoot(payload) == if after.None? then None else Some(Incarnation(parts.1.1.1.0, parts.1.1.1.1))
  {
    hide BOOT;
  }

  method ReadFenceRecord(payload: Bytes) returns (fence: Option<Fence>)
    ensures fence == ReadFence(payload)
  {
    hide FENCE;
    var r := new CanonicalReader(payload);
    var f := DecodeFence(r);
    fence := if r.failed then None else Some(f);
  }

  method EncodeBoot(before: Incarnation, now: Incarnation) returns (payload: Bytes)
    ensures payload == BootPayload(before, now)
  {
    hide U32Bytes, U64Bytes, Pair;
    var w := new CanonicalWriter();
    w.WriteU32(FORMAT_VERSION);
    w.WriteU64(before.epoch);
    w.WriteU64(before.boot);
    w.WriteU64(now.epoch);
    w.WriteU64(now.boot);
    payload := w.buffer;
    BootIs(before, now);
  }

  lemma BootIs(before: Incarnation, now: Incarnation)
    ensures BootPayload(before, now)
         == [] + U32Bytes(FORMAT_VERSION) + U64Bytes(before.epoch) + U64Bytes(before.boot) + U64Bytes(now.epoch)
            + U64Bytes(now.boot)
  {
    hide LittleEndian, Pair;
    var tail := Pair(U64_CODEC, Pair(U64_CODEC, U64_CODEC));
    PairParts(U64_CODEC, U64_CODEC, now.epoch, now.boot);
    PairParts(U64_CODEC, Pair(U64_CODEC, U64_CODEC), before.boot, (now.epoch, now.boot));
    PairParts(U64_CODEC, tail, before.epoch, (before.boot, (now.epoch, now.boot)));
    PairParts(U32_CODEC, Pair(U64_CODEC, tail), FORMAT_VERSION,
              (before.epoch, (before.boot, (now.epoch, now.boot))));
  }

  method FencePayload(fence: Fence) returns (payload: Bytes)
    ensures payload == FENCE.encode(fence)
  {
    hide FENCE;
    var w := new CanonicalWriter();
    EncodeFence(w, fence);
    payload := w.buffer;
    assert [] + FENCE.encode(fence) == FENCE.encode(fence);
  }

  /** What the records say, read in order.  It refuses records out of order and boots and
      fences it cannot read, and nothing else. */
  method Recall(records: seq<Record>) returns (r: Option<(Incarnation, seq<Fence>)>)
    requires forall i :: 0 <= i < |records| ==> records[i].sequence > 0
    ensures r == if Increasing(records) && AllLegible(records) then Some((LastBoot(records), FencesIn(records)))
                 else None
  {
    hide ReadBoot, ReadFence;
    var last: U64 := 0;
    var durable := NOBODY;
    var fences: seq<Fence> := [];
    for i := 0 to |records|
      invariant last == LastSequence(records[..i])
      invariant Increasing(records[..i]) && AllLegible(records[..i])
      invariant durable == LastBoot(records[..i]) && fences == FencesIn(records[..i])
    {
      var record := records[i];
      assert records[..i + 1][..i] == records[..i];
      if record.sequence <= last && last != 0 {
        assert records[i - 1].sequence >= records[i - 1 + 1].sequence;
        return None;
      }
      last := record.sequence;
      if record.kind.Boot? {
        var boot := ReadBootRecord(record.payload);
        if boot.None? {
          assert !Legible(records[i]);
          return None;
        }
        durable := boot.value;
      }
      if record.kind.FenceRecord? {
        var fence := ReadFenceRecord(record.payload);
        if fence.None? {
          assert !Legible(records[i]);
          return None;
        }
        fences := fences + [fence.value];
      }
    }
    assert records[..|records|] == records;
    r := Some((durable, fences));
  }

  // ---- Reading the disk -----------------------------------------------------

  ghost predicate Tabled(table: array<bv32>)
    reads table
  {
    table.Length == 256 && forall i :: 0 <= i < 256 ==> table[i] == Crc.Shifts(Crc.Low(i), 8)
  }

  /** The checks on a snapshot, in order. */
  method LoadSnapshot(table: array<bv32>, bytes: Bytes, limits: StoreLimits) returns (r: Option<Snapshot>)
    requires Tabled(table)
    ensures r == ReadSnapshot(bytes, limits)
  {
    hide FieldAt, Crc.Checksum, Crc.Shifts, Crc.Low, ScanFrom, LastAt;
    if |bytes| < HEADER_SIZE {
      return None;
    }
    if FieldAt(bytes, 0, 4) != SNAPSHOT_MAGIC || FieldAt(bytes, 4, 2) != FORMAT_VERSION {
      return None;
    }
    var headerCrc := Crc.ComputeChecksum(table, bytes[..36]);
    if FieldAt(bytes, 36, 4) != headerCrc {
      return None;
    }
    if |bytes| != HEADER_SIZE + FieldAt(bytes, 12, 4) {
      return None;
    }
    var payload := bytes[HEADER_SIZE..];
    var payloadCrc := Crc.ComputeChecksum(table, payload);
    if payloadCrc != FieldAt(bytes, 16, 4) {
      return None;
    }
    var scan := ScanRecords(table, payload, limits, 0);
    if scan.Refused? || scan.torn {
      return None;
    }
    r := Some(Snapshot(scan.records, LastAt(bytes)));
  }

  method ReadFiles(disk: Disk, table: array<bv32>, limits: StoreLimits) returns (r: Option<Recovered>)
    requires Tabled(table)
    ensures r == ReadDisk(disk.snapshot, disk.journal, limits)
  {
    hide Tabled, ReadSnapshot, ScanFrom;
    var base := Snapshot([], 0);
    if disk.snapshot.Some? {
      if |disk.snapshot.value| > limits.maxJournalBytes {
        return None;
      }
      var loaded := LoadSnapshot(table, disk.snapshot.value, limits);
      if loaded.None? {
        return None;
      }
      base := loaded.value;
    }
    if |disk.journal| > limits.maxJournalBytes {
      return None;
    }
    var scan := ScanTable(table, disk.journal, limits, base.last);
    if scan.Refused? {
      return None;
    }
    r := Some(Recovered(base.records + scan.records, scan.goodBytes, scan.torn));
  }

  method ScanTable(table: array<bv32>, bytes: Bytes, limits: StoreLimits, minimum: U64) returns (scan: Scan)
    requires Tabled(table)
    ensures scan == ScanFrom(bytes, limits, minimum, 0)
  {
    scan := ScanRecords(table, bytes, limits, minimum);
  }

  method DynamicRecords(records: seq<Record>) returns (dynamics: seq<Record>)
    ensures dynamics == Dynamics(records)
  {
    dynamics := [];
    for i := 0 to |records|
      invariant dynamics == Dynamics(records[..i])
    {
      assert records[..i + 1][..i] == records[..i];
      if IsDynamic(records[i].kind) {
        dynamics := dynamics + [records[i]];
      }
    }
    assert records[..|records|] == records;
  }

  // ---- The store ------------------------------------------------------------

  // Everything is flushed, and the records are those of the disk.
  predicate Holding(w: World, records: seq<Record>) {
    w.live && AtRest(w) && w.ledger == records
  }

  // The records from a position on are within the limits.
  predicate Takes(limits: StoreLimits, records: seq<Record>, from: nat) {
    |records| <= limits.maxRecords
    && forall i :: from <= i < |records| ==> |records[i].payload| <= limits.maxRecordBytes
  }

  lemma TakesNext(limits: StoreLimits, records: seq<Record>, dynamics: seq<Record>, before: Incarnation)
    requires |dynamics| > 0
    ensures var payload := FENCE.encode(RestartFence(dynamics[0].sequence, before));
            var all := Refenced(records, dynamics, before);
            Takes(limits, all, |records|) <==>
              && |payload| <= limits.maxRecordBytes && |records| < limits.maxRecords
              && Takes(limits, all, |records| + 1)
  {
    hide FENCE, RestartFence;
    RefencedHas(records, dynamics, before, 0);
  }

  lemma TakesBoot(limits: StoreLimits, found: seq<Record>, fenced: seq<Record>, payload: Bytes)
    requires |found| <= |fenced|
    ensures Takes(limits, Appended(fenced, Boot, payload), |found|) <==>
              && Takes(limits, fenced, |found|)
              && |payload| <= limits.maxRecordBytes && |fenced| < limits.maxRecords
  {
    var all := Appended(fenced, Boot, payload);
    assert all[|fenced|].payload == payload;
    assert forall i :: 0 <= i < |fenced| ==> all[i] == fenced[i];
  }

  class DurableStore {
    const disk: Disk
    const limits: StoreLimits
    const table: array<bv32>
    const now: Incarnation
    var records: seq<Record>
    var fences: seq<Fence>
    var lastSequence: U64

    constructor (disk: Disk, limits: StoreLimits, table: array<bv32>, now: Incarnation, records: seq<Record>,
                 fences: seq<Fence>)
      requires Tabled(table) && disk.Traced() && disk.limits == limits
      requires Holding(disk.Now(), records) && |records| <= limits.maxRecords
      ensures Valid() && this.disk == disk && this.limits == limits && this.now == now
      ensures this.records == records && this.fences == fences
    {
      this.disk, this.limits, this.table, this.now := disk, limits, table, now;
      this.records, this.fences := records, fences;
      lastSequence := LastSequence(records);
    }

    ghost predicate Valid()
      reads this, disk, table
    {
      && Tabled(table) && disk.Traced() && disk.limits == limits
      && Holding(disk.Now(), records)
      && lastSequence == LastSequence(records) && |records| <= limits.maxRecords
    }

    // The fences are those of the records.
    ghost predicate Mirrored()
      reads this
    {
      fences == FencesIn(records)
    }

    /** Appends a record and flushes it.  Once this has returned its sequence, the record is
        acknowledged. */
    method Append(kind: RecordType, payload: Bytes) returns (sequence: Option<U64>)
      requires Valid()
      modifies this`records, this`lastSequence, disk
      ensures Valid() && disk.returned == old(disk.returned) && disk.snapshot == old(disk.snapshot)
      ensures sequence.Some? <==> |payload| <= limits.maxRecordBytes && |old(records)| < limits.maxRecords
      ensures sequence.None? ==> records == old(records) && disk.run == old(disk.run)
      ensures sequence.Some? ==>
                && sequence.value == |old(records)| + 1
                && records == old(records) + [Record(kind, sequence.value, payload)]
                && records == Appended(old(records), kind, payload)
                && old(disk.run) <= disk.run && |disk.run| == |old(disk.run)| + 2
      ensures old(Ascending(disk.Now(), disk.returned))
              && Follows(Record(kind, Wrap64(LastSequence(old(records)) + 1), payload), LastBoot(old(records)))
              ==> Ascending(disk.Now(), disk.returned)
    {
      hide IsRun, Frame, Tabled, Numbered, Ascending, Follows, LastBoot;
      if |payload| > limits.maxRecordBytes {
        return None;
      }
      if |records| >= limits.maxRecords {
        return None;
      }
      RunsRest(disk.run, limits);
      LastIsLength(records, limits);
      var next := Wrap64(lastSequence + 1);
      var record := Record(kind, next, payload);
      var bytes := FrameTable(table, Framed(record, now.epoch));
      disk.Write(bytes, record, now.epoch);
      disk.Flush();
      records := records + [record];
      lastSequence := next;
      sequence := Some(next);
      if old(Ascending(disk.Now(), disk.returned))
         && Follows(Record(kind, next, payload), LastBoot(old(records))) {
        AscendingAppend(old(disk.Now()), disk.Now(), disk.returned, kind, payload);
      }
    }

    /** Appends a fence.  What the records say of fences stays what the store knows of them as
        long as the fence can be read back. */
    method RecordFence(fence: Fence) returns (sequence: Option<U64>)
      requires Valid()
      modifies this`records, this`lastSequence, this`fences, disk
      ensures Valid() && disk.returned == old(disk.returned) && old(disk.run) <= disk.run
      ensures disk.snapshot == old(disk.snapshot)
      ensures sequence.Some? <==>
                |FENCE.encode(fence)| <= limits.maxRecordBytes && |old(records)| < limits.maxRecords
      ensures sequence.None? ==> records == old(records) && fences == old(fences) && disk.run == old(disk.run)
      ensures sequence.Some? ==>
                && records == Appended(old(records), FenceRecord, FENCE.encode(fence))
                && fences == old(fences) + [fence]
                && (old(Mirrored()) && |fence.reason| <= REASON_LENGTH ==> Mirrored())
    {
      hide FENCE, IsRun, FencesIn, Tabled;
      var payload := FencePayload(fence);
      sequence := Append(FenceRecord, payload);
      if sequence.Some? {
        fences := fences + [fence];
        AppendedBoot(old(records), FenceRecord, payload);
        if |fence.reason| <= REASON_LENGTH {
          FenceIsRead(fence);
        }
      }
    }

    /** Fences every dynamic record that was recovered. */
    method FenceAll(dynamics: seq<Record>, before: Incarnation) returns (ok: bool)
      requires Valid() && Mirrored()
      modifies this`records, this`lastSequence, this`fences, disk
      ensures Valid() && Mirrored() && disk.returned == old(disk.returned) && old(disk.run) <= disk.run
      ensures disk.snapshot == old(disk.snapshot)
      ensures ok <==> Takes(limits, Refenced(old(records), dynamics, before), |old(records)|)
      ensures old(records) <= records <= Refenced(old(records), dynamics, before)
      ensures ok ==> records == Refenced(old(records), dynamics, before)
    {
      hide FENCE, RestartFence, Holding, LastSequence, Tabled, IsRun, FencesIn;
      RefencedExtends(records, dynamics, before);
      for i := 0 to |dynamics|
        invariant Valid() && Mirrored() && disk.returned == old(disk.returned) && old(disk.run) <= disk.run
        invariant disk.snapshot == old(disk.snapshot)
        invariant Refenced(records, dynamics[i..], before) == Refenced(old(records), dynamics, before)
        invariant |records| == |old(records)| + i && old(records) <= records
        invariant records <= Refenced(old(records), dynamics, before)
        invariant Takes(limits, Refenced(old(records), dynamics, before), |old(records)|)
             <==> Takes(limits, Refenced(old(records), dynamics, before), |records|)
      {
        TakesNext(limits, records, dynamics[i..], before);
        var fence := RestartFence(dynamics[i].sequence, before);
        RestartFenceShort(dynamics[i].sequence, before);
        var sequence := RecordFence(fence);
        if sequence.None? {
          return false;
        }
        assert dynamics[i..][1..] == dynamics[i + 1..];
        RefencedExtends(records, dynamics[i + 1..], before);
      }
      ok := true;
    }

    /** What every opening does once it knows what it has found: it fences every dynamic record
        and publishes its own incarnation. */
    method Restart(before: Incarnation, advance: bool) returns (ok: bool)
      requires Valid() && Mirrored()
      requires before == LastBoot(records) && now == Successor(before, advance)
      modifies this`records, this`lastSequence, this`fences, disk
      ensures Valid() && disk.returned == old(disk.returned) && old(disk.run) <= disk.run
      ensures disk.snapshot == old(disk.snapshot)
      ensures ok <==> Takes(limits, Booted(old(records), advance), |old(records)|)
      ensures old(records) <= records <= Booted(old(records), advance)
      ensures ok ==> records == Booted(old(records), advance) && Mirrored()
    {
      hide IsRun, FencesIn, Tabled, Holding, LastSequence, LastBoot, Dynamics, Refenced, BootPayload, Takes;
      var dynamics := DynamicRecords(records);
      ok := FenceAll(dynamics, before);
      var payload := EncodeBoot(before, now);
      ghost var fenced := Refenced(old(records), dynamics, before);
      RefencedExtends(old(records), dynamics, before);
      TakesBoot(limits, old(records), fenced, payload);
      if !ok {
        return;
      }
      var sequence := Append(Boot, payload);
      AppendedBoot(fenced, Boot, payload);
      ok := sequence.Some?;
    }

    /** Installs a snapshot of everything and then, only then, resets the journal. */
    method CommitSnapshot()
      requires Valid()
      modifies disk
      ensures Valid() && disk.returned == old(disk.returned)
      ensures disk.snapshot == Some(SnapshotBytes(records, now.epoch)) && disk.journal == []
      ensures old(disk.run) <= disk.run && |disk.run| == |old(disk.run)| + 2
      ensures disk.run[|old(disk.run)|].snapshot == disk.snapshot
      ensures disk.run[|old(disk.run)|].journal == old(disk.journal)
      ensures old(Ascending(disk.Now(), disk.returned)) ==> Ascending(disk.Now(), disk.returned)
    {
      hide IsRun, Tabled, SnapshotBytes, Journal, Ascending, Numbered;
      RunsRest(disk.run, limits);
      NumberedSizes(records, limits);
      var bytes := SnapshotOf(table, records, now.epoch);
      disk.Install(bytes, now.epoch);
      disk.Reset(now.epoch);
      AscendingSame(old(disk.Now()), disk.Now(), disk.returned);
    }
  }

  lemma AscendingSame(w: World, t: World, returned: seq<Incarnation>)
    requires t.ledger == w.ledger && t.acked == w.acked
    ensures Ascending(w, returned) ==> Ascending(t, returned)
  {
  }

  lemma RestartFenceShort(sequence: U64, before: Incarnation)
    ensures |RestartFence(sequence, before).reason| <= REASON_LENGTH
  {
    DigitsBounded(sequence);
    assert |RESTARTED| == 64;
  }

  method FrameTable(table: array<bv32>, f: Framed) returns (bytes: Bytes)
    requires Tabled(table) && |f.record.payload| < TWO_32
    ensures bytes == Frame(f)
  {
    hide Frame;
    bytes := FrameRecord(table, f);
  }

  /** A snapshot in a buffer: the framed records one after the other behind their header. */
  method SnapshotOf(table: array<bv32>, records: seq<Record>, epoch: U64) returns (bytes: Bytes)
    requires Tabled(table) && forall i :: 0 <= i < |records| ==> |records[i].payload| < TWO_32
    ensures bytes == SnapshotBytes(records, epoch)
  {
    hide LittleEndian, Crc.Checksum, Frame, Journal, SnapshotCovered, Tabled;
    var payload: Bytes := [];
    assert Journal(FramesOf([], epoch)) == [] by {
      NoFrames();
    }
    for i := 0 to |records|
      invariant payload == Journal(FramesOf(records[..i], epoch))
    {
      var framed := FrameTable(table, Framed(records[i], epoch));
      FramesSnoc(records, epoch, i);
      payload := payload + framed;
    }
    assert records[..|records|] == records;
    var header := SnapshotHeader(table, records, epoch, payload);
    bytes := header + payload;
  }

  method SnapshotHeader(table: array<bv32>, records: seq<Record>, epoch: U64, payload: Bytes) returns (bytes: Bytes)
    requires Tabled(table)
    ensures bytes == SnapshotCovered(records, epoch, payload)
                     + U32Bytes(Crc.Checksum(SnapshotCovered(records, epoch, payload)))
  {
    hide LittleEndian, Crc.Checksum, SnapshotCovered, Tabled;
    var header := new U8[HEADER_SIZE](_ => 0);
    ghost var done: Bytes := [];
    done := WriteNext(header, done, 0, 4, SNAPSHOT_MAGIC);
    done := WriteNext(header, done, 4, 2, FORMAT_VERSION);
    done := WriteNext(header, done, 6, 2, 0);
    done := WriteNext(header, done, 8, 4, Count(|records|));
    done := WriteNext(header, done, 12, 4, Count(|payload|));
    var payloadCrc := ChecksumOf(table, payload);
    done := WriteNext(header, done, 16, 4, payloadCrc);
    done := WriteNext(header, done, 20, 8, LastSequence(records));
    done := WriteNext(header, done, 28, 8, epoch);
    SnapshotFieldsCovered(records, epoch, payload);
    assert done == SnapshotCovered(records, epoch, payload);
    var headerCrc := ChecksumOf(table, header[..36]);
    done := WriteNext(header, done, 36, 4, headerCrc);
    assert header[..] == header[..40];
    bytes := header[..];
  }

  lemma SnapshotFieldsCovered(records: seq<Record>, epoch: U64, payload: Bytes)
    ensures [] + U32Bytes(SNAPSHOT_MAGIC) + U16Bytes(FORMAT_VERSION) + U16Bytes(0) + U32Bytes(Count(|records|))
            + U32Bytes(Count(|payload|)) + U32Bytes(Crc.Checksum(payload)) + U64Bytes(LastSequence(records))
            + U64Bytes(epoch) == SnapshotCovered(records, epoch, payload)
  {
    hide LittleEndian, Crc.Checksum;
    assert [] + U32Bytes(SNAPSHOT_MAGIC) + U16Bytes(FORMAT_VERSION) + U16Bytes(0) + U32Bytes(Count(|records|))
        == SnapshotOpening(records);
  }

  lemma NoFrames()
    ensures Journal([]) == []
  {
  }

  lemma FramesSnoc(records: seq<Record>, epoch: U64, i: nat)
    requires i < |records|
    ensures Journal(FramesOf(records[..i + 1], epoch))
         == Journal(FramesOf(records[..i], epoch)) + Frame(Framed(records[i], epoch))
  {
    hide Frame, Journal;
    var f := Framed(records[i], epoch);
    assert FramesOf(records[..i + 1], epoch) == FramesOf(records[..i], epoch) + [f];
    JournalAppend(FramesOf(records[..i], epoch), [f]);
    JournalOfOne(f);
  }

  method ChecksumOf(table: array<bv32>, data: Bytes) returns (crc: U32)
    requires Tabled(table)
    ensures crc == Crc.Checksum(data)
  {
    hide Crc.Checksum;
    crc := Crc.ComputeChecksum(table, data);
  }

  // ---- Opening --------------------------------------------------------------

  // When an opening returns a store.
  ghost predicate CanOpen(w: World, limits: StoreLimits, advance: bool) {
    && Openable(w, limits) && AllLegible(w.ledger)
    && Takes(limits, Booted(w.ledger, advance), |w.ledger|)
  }

  lemma AscendingWithin(w: World, t: World, returned: seq<Incarnation>, all: seq<Record>)
    requires Ascending(w, returned) && w.acked == |w.ledger|
    requires Orderly(all) && w.ledger <= t.ledger <= all && t.acked == |t.ledger|
    ensures Ascending(t, returned)
  {
    hide Orderly, LastBoot;
    OrderlyPrefix(all, |t.ledger|);
    assert all[..|t.ledger|] == t.ledger;
    LastBootGrows(t.ledger, |w.ledger|);
    assert t.ledger[..|w.ledger|] == w.ledger == w.ledger[..w.acked];
    assert t.ledger[..t.acked] == t.ledger;
  }

  lemma RestFound(run: seq<World>, limits: StoreLimits)
    requires IsRun(run, limits) && !run[|run| - 1].live
    ensures |run| > 0
    ensures var w := run[|run| - 1];
            var read := ReadDisk(w.snapshot, w.journal, limits);
            && (read.Some? <==> Readable(w, limits))
            && (read.Some? ==> read.value.records == w.ledger && read.value.goodBytes <= |w.journal|)
  {
    RunIsSound(run, limits, |run| - 1);
    hide IsRun, ReadDisk, Readable;
    var l := LayoutOf(run[|run| - 1], limits);
    hide Journal;
    DiskIsLedger(run[|run| - 1], limits, l);
    JournalWithin(run[|run| - 1], limits, l);
  }

  lemma JournalWithin(w: World, limits: StoreLimits, l: Layout)
    requires Fits(w, limits, l)
    ensures |Journal(l.frames)| <= |w.journal|
  {
    hide Journal, Numbered, FramesFrom, SnapshotFits, PendingFits, Frame;
  }

  /** Opens the store.  It returns one exactly when the files and the records are within the
      limits, every boot and every fence can be read, and there is room for what it has to
      write itself.  The store then holds every record that had been acknowledged, the fences
      of the dynamic ones, and its own boot, whose incarnation is strictly above that of every
      opening that ever returned. */
  method Open(disk: Disk, table: array<bv32>, limits: StoreLimits, advance: bool) returns (store: DurableStore?)
    requires Tabled(table) && disk.Traced() && disk.limits == limits && !disk.Now().live
    modifies disk
    ensures disk.Traced() && old(disk.run) <= disk.run && disk.snapshot == old(disk.snapshot)
    ensures store != null <==> CanOpen(old(disk.Now()), limits, advance)
    ensures store == null ==> !disk.Now().live && disk.returned == old(disk.returned)
    ensures store != null ==>
              && fresh(store) && store.Valid() && store.disk == disk && store.Mirrored()
              && store.records == Booted(old(disk.Now()).ledger, advance)
              && store.now == Successor(LastBoot(old(disk.Now()).ledger), advance)
              && disk.returned == old(disk.returned) + [store.now]
    ensures old(Ascending(disk.Now(), disk.returned)) ==>
              && Ascending(disk.Now(), disk.returned)
              && (store != null && advance ==>
                    forall i :: 0 <= i < |old(disk.returned)| ==> Above(store.now, old(disk.returned)[i]))
  {
    hide IsRun, Tabled, ReadDisk, Booted, LastBoot, FencesIn, Ascending, Readable, Takes, Numbered, Orderly;
    hide AllLegible, Increasing;
    RunsRest(disk.run, limits);
    ghost var w := disk.Now();
    RestFound(disk.run, limits);
    var read := ReadFiles(disk, table, limits);
    if read.None? {
      return null;
    }
    disk.Truncate(read.value.goodBytes);
    var found := read.value.records;
    assert found == w.ledger;
    AscendingSame(w, disk.Now(), disk.returned);
    if |found| > limits.maxRecords {
      disk.Crash(0);
      return null;
    }
    NumberedSizes(found, limits);
    NumberedIncreasing(found, limits);
    var recalled := Recall(found);
    if recalled.None? {
      disk.Crash(0);
      return null;
    }
    var (before, fences) := recalled.value;
    var heir := new DurableStore(disk, limits, table, Successor(before, advance), found, fences);
    var ok := heir.Restart(before, advance);
    ghost var all := Booted(found, advance);
    if Ascending(w, disk.returned) {
      RestartAscends(w, disk.Now(), disk.returned, advance);
    }
    if !ok {
      disk.Crash(0);
      return null;
    }
    disk.returned := disk.returned + [heir.now];
    store := heir;
  }

  lemma NumberedSizes(records: seq<Record>, limits: StoreLimits)
    requires Numbered(records, limits)
    ensures forall i :: 0 <= i < |records| ==> records[i].sequence > 0 && |records[i].payload| < TWO_32
  {
  }

  lemma RestartAscends(w: World, t: World, returned: seq<Incarnation>, advance: bool)
    requires w.acked == |w.ledger| && |w.ledger| < TWO_32 && t.acked == |t.ledger|
    requires w.ledger <= t.ledger <= Booted(w.ledger, advance)
    requires Ascending(w, returned)
    ensures Ascending(t, returned)
    ensures t.ledger == Booted(w.ledger, advance) ==>
              && Ascending(t, returned + [Successor(LastBoot(w.ledger), advance)])
              && (advance ==>
                    forall i :: 0 <= i < |returned| ==> Above(Successor(LastBoot(w.ledger), advance), returned[i]))
  {
    hide Orderly, LastBoot, Booted;
    BootedIsAbove(w.ledger, advance);
    AscendingWithin(w, t, returned, Booted(w.ledger, advance));
    assert w.ledger[..w.acked] == w.ledger;
    assert t.ledger[..t.acked] == t.ledger;
  }
}
