/** When a store locks itself out: what it was willing to write and then refuses to read, or has
    no room left to open again. */
module Lockout {
  import opened Ints
  import opened Canonical
  import opened Codecs
  import opened Domain
  import opened Requests
  import opened Formats
  import opened Framing
  import opened Recovery
  import opened Incarnations
  import opened Store
  import opened Sessions

  // ---- Sizes ----------------------------------------------------------------

  // The bytes that the frames of some records take.
  function Weight(records: seq<Record>): nat {
    if |records| == 0 then 0 else HEADER_SIZE + |records[0].payload| + Weight(records[1..])
  }

  lemma {:induction false} JournalWeight(frames: seq<Framed>, records: seq<Record>)
    requires |frames| == |records| && forall i :: 0 <= i < |frames| ==> frames[i].record == records[i]
    ensures |Journal(frames)| == Weight(records)
  {
    hide Header;
    if |frames| > 0 {
      JournalWeight(frames[1..], records[1..]);
    }
  }

  lemma {:induction false} WeightSplit(records: seq<Record>, k: nat)
    requires k <= |records|
    ensures Weight(records) == Weight(records[..k]) + Weight(records[k..])
  {
    if k == 0 {
      assert records[0..] == records;
    } else {
      WeightSplit(records[1..], k - 1);
      assert records[1..][..k - 1] == records[..k][1..];
      assert records[1..][k - 1..] == records[k..];
    }
  }

  function FrameLimit(limits: StoreLimits): nat {
    HEADER_SIZE + limits.maxRecordBytes
  }

  lemma OneMoreTimes(n: nat, x: nat)
    ensures (n + 1) * x == n * x + x
  {
  }

  lemma TimesGrows(m: nat, n: nat, x: nat)
    requires m <= n
    ensures m * x <= n * x
  {
  }

  lemma {:induction false} WeightBounded(records: seq<Record>, limits: StoreLimits)
    requires forall i :: 0 <= i < |records| ==> |records[i].payload| <= limits.maxRecordBytes
    ensures Weight(records) <= |records| * FrameLimit(limits)
  {
    if |records| > 0 {
      WeightBounded(records[1..], limits);
      OneMoreTimes(|records| - 1, FrameLimit(limits));
    }
  }

  // The most that a store may come to hold: its first boot, and the largest records after it.
  function Fullest(limits: StoreLimits): nat
    requires limits.maxRecords >= 1
  {
    HEADER_SIZE + BOOT_SIZE + (limits.maxRecords - 1) * FrameLimit(limits)
  }

  lemma WithinFullest(records: seq<Record>, limits: StoreLimits)
    requires 0 < |records| <= limits.maxRecords && |records[0].payload| == BOOT_SIZE
    requires forall i :: 0 <= i < |records| ==> |records[i].payload| <= limits.maxRecordBytes
    ensures Weight(records) <= Fullest(limits)
  {
    WeightBounded(records[1..], limits);
    TimesGrows(|records| - 1, limits.maxRecords - 1, FrameLimit(limits));
  }

  // Whatever is on the disk of a live store are frames of what it holds.
  lemma SizesOf(w: World, limits: StoreLimits, l: Layout)
    requires Fits(w, limits, l) && w.live
    ensures |w.journal| + |w.pending| <= Weight(w.ledger)
    ensures w.snapshot.Some? ==> |w.snapshot.value| <= HEADER_SIZE + Weight(w.ledger)
  {
    JournalPart(w, limits, l);
    if w.snapshot.Some? {
      SnapshotPart(w, limits, l);
    }
  }

  lemma JournalPart(w: World, limits: StoreLimits, l: Layout)
    requires Fits(w, limits, l) && w.live
    ensures |w.journal| + |w.pending| <= Weight(w.ledger)
  {
    hide Journal, Header, SnapshotFits, TornFits, Weight, Numbered;
    var j := w.acked - |l.frames|;
    var written := w.ledger[j..w.acked];
    JournalWeight(l.frames, written);
    WeightSplit(w.ledger, w.acked);
    WeightSplit(w.ledger[..w.acked], j);
    assert w.ledger[..w.acked][j..] == written;
    PendingWeight(w, limits, l);
  }

  lemma PendingWeight(w: World, limits: StoreLimits, l: Layout)
    requires Fits(w, limits, l)
    ensures |w.pending| == Weight(w.ledger[w.acked..])
  {
    hide Header, SnapshotFits, TornFits, TornPart, FramesFrom, Numbered, Journal;
    if w.acked < |w.ledger| {
      assert w.ledger[w.acked..] == [w.ledger[w.acked]];
    }
  }

  lemma SnapshotPart(w: World, limits: StoreLimits, l: Layout)
    requires Fits(w, limits, l) && w.snapshot.Some?
    ensures |w.snapshot.value| <= HEADER_SIZE + Weight(w.ledger)
  {
    hide Journal, TornFits, PendingFits, TornPart, SnapshotBytes, FramesFrom, Weight, Numbered;
    var prefix := w.ledger[..l.base];
    SnapshotSize(prefix, l.epoch);
    JournalWeight(FramesOf(prefix, l.epoch), prefix);
    WeightSplit(w.ledger, l.base);
  }

  // ---- Stores that cannot be read -------------------------------------------

  // The process dies at the end of the run, and what it held is not recovered.
  ghost predicate LocksOut(run: seq<Session>, limits: StoreLimits, kept: nat) {
    && IsHistory(run, limits)
    && var w := run[|run| - 1].w;
    && w.live && w.acked <= |w.ledger| && kept <= |w.pending|
    && var t := Moved(w, Crash(kept));
    && Recover(t.snapshot, t.journal, limits).None?
  }

  // The files have room for the most that a store may come to hold, and a snapshot of it can
  // state its length.
  predicate Roomy(limits: StoreLimits)
    requires limits.maxRecords >= 1
  {
    HEADER_SIZE + Fullest(limits) <= limits.maxJournalBytes && Fullest(limits) < TWO_32
  }

  lemma SessionFits(run: seq<Session>, limits: StoreLimits, i: nat) returns (l: Layout)
    requires IsHistory(run, limits) && i < |run|
    ensures BootsFirst(run[i], limits) && Fits(run[i].w, limits, l)
  {
    hide Fits, Sound, IsHistory, IsRun, BootsFirst;
    HistoryBootsFirst(run, limits, i);
    HistoryIsRun(run, limits);
    assert i < |Worlds(run)|;
    RunIsSound(Worlds(run), limits, i);
    l := LayoutOf(run[i].w, limits);
  }

  // The sizes in which a live store leaves the disk behind.
  lemma SizesKept(s: Session, limits: StoreLimits, l: Layout)
    requires BootsFirst(s, limits) && Fits(s.w, limits, l) && s.w.live && CanStart(limits)
    ensures |s.w.journal| + |s.w.pending| <= Fullest(limits)
    ensures s.w.snapshot.Some? ==> |s.w.snapshot.value| <= HEADER_SIZE + Fullest(limits)
  {
    hide Fullest, SnapshotFits, PendingFits, TornFits, TornPart, Journal, FramesFrom;
    SizesOf(s.w, limits, l);
    if |s.w.ledger| > 0 {
      WithinFullest(s.w.ledger, limits);
    }
  }

  lemma EmptySizes(s: Session, limits: StoreLimits, l: Layout)
    requires BootsFirst(s, limits) && Fits(s.w, limits, l) && s.w.live && s.w.ledger == []
    ensures s.w.journal == [] && s.w.pending == [] && s.w.snapshot.None?
  {
    hide SnapshotFits, PendingFits, TornFits, TornPart, Journal, FramesFrom;
    SizesOf(s.w, limits, l);
  }

  lemma FitsIsSound(w: World, limits: StoreLimits, l: Layout)
    requires Fits(w, limits, l)
    ensures Sound(w, limits)
  {
  }

  lemma StaysOpenable(s: Session, limits: StoreLimits, l: Layout, kept: nat)
    requires BootsFirst(s, limits) && Fits(s.w, limits, l) && s.w.live && kept <= |s.w.pending|
    requires CanStart(limits) ==> Roomy(limits)
    requires CanStart(limits) || s.w.ledger == []
    ensures var t := Moved(s.w, Crash(kept)); Recover(t.snapshot, t.journal, limits).Some?
  {
    hide Recover, Fits, Sound, Fullest;
    if CanStart(limits) {
      SizesKept(s, limits, l);
    } else {
      EmptySizes(s, limits, l);
    }
    var t := Moved(s.w, Crash(kept));
    FitsIsSound(s.w, limits, l);
    SoundCrash(s.w, limits, kept);
    var after := LayoutOf(t, limits);
    RecoveryIsLedger(t, limits, after);
  }

  /** What a store holds is always recovered when its files have room for all that it may come to
      hold, and when it cannot hold anything. */
  lemma RoomyNeverLocksOut(run: seq<Session>, limits: StoreLimits, kept: nat)
    requires CanStart(limits) ==> Roomy(limits)
    ensures !LocksOut(run, limits, kept)
  {
    hide Recover, Fits, Continues, Roomy, BootsFirst;
    if LocksOut(run, limits, kept) {
      var last := |run| - 1;
      var l := SessionFits(run, limits, last);
      if !CanStart(limits) {
        NothingIsHeld(run, limits, last);
      }
      StaysOpenable(run[last], limits, l, kept);
    }
  }

  // ---- Filling the store ----------------------------------------------------

  function Zeros(n: nat): (b: Bytes)
    ensures |b| == n
  {
    seq(n, i => 0)
  }

  function FirstBoot(): Record {
    Record(Boot, 1, BootPayload(NOBODY, Successor(NOBODY, true)))
  }

  // A store whose first opening has returned, and that has written the given records since,
  // all of them acknowledged.
  ghost predicate Holds(run: seq<Session>, limits: StoreLimits, records: seq<Record>) {
    && IsHistory(run, limits)
    && var s := run[|run| - 1];
    && s.due == [] && s.epoch == 1
    && s.w.live && s.w.snapshot == None && s.w.pending == [] && s.w.acked == |s.w.ledger|
    && s.w.ledger == [FirstBoot()] + records
  }

  // The store is opened for the first time.
  lemma Opening(limits: StoreLimits) returns (run: seq<Session>)
    ensures IsHistory(run, limits) && run[|run| - 1] == Session(EMPTY.(live := true), [FirstBoot()], 1)
  {
    NothingToScan(limits, 0);
    assert ReadDisk(None, [], limits) == Some(Recovered([] + [], 0, false));
    var start: seq<Session> := [FRESH];
    assert IsHistory(start, limits);
    assert CanMove(EMPTY, limits, Reopen(0));
    assert LastBoot([]) == NOBODY;
    FirstDue(true);
    hide ReadDisk, CanMove, Dues, BootPayload, LastBoot;
    Prolonged(start, limits, Reopen(0), true);
    run := start + [After(FRESH, Reopen(0), true)];
    assert EMPTY.journal[..0] == [];
  }

  // One more record is written and acknowledged.
  lemma Appends(run: seq<Session>, limits: StoreLimits, record: Record) returns (longer: seq<Session>)
    requires IsHistory(run, limits)
    requires var s := run[|run| - 1];
             && s.w.live && s.w.acked == |s.w.ledger| < limits.maxRecords && s.w.pending == []
             && record.sequence == |s.w.ledger| + 1 && Storable(record, limits)
             && (s.due != [] ==> AllLegible(s.w.ledger) && record == s.due[0])
    ensures IsHistory(longer, limits)
    ensures var s, t := run[|run| - 1], longer[|longer| - 1];
            && t.epoch == s.epoch && t.due == (if s.due == [] then [] else s.due[1..])
            && t.w == s.w.(journal := t.w.journal, ledger := s.w.ledger + [record], acked := s.w.acked + 1)
  {
    hide Continues, Frame, AllLegible;
    var s := run[|run| - 1];
    var write := Write(record, s.epoch);
    Prolonged(run, limits, write, false);
    var written := After(s, write, false);
    var halfway := run + [written];
    Prolonged(halfway, limits, Flush, false);
    longer := halfway + [After(written, Flush, false)];
  }

  lemma Starts(limits: StoreLimits) returns (run: seq<Session>)
    requires CanStart(limits)
    ensures Holds(run, limits, [])
  {
    hide Continues, BootPayload;
    BootSize(NOBODY, Successor(NOBODY, true));
    var open := Opening(limits);
    run := Appends(open, limits, FirstBoot());
    assert [FirstBoot()][1..] == [];
  }

  lemma HoldsOneMore(run: seq<Session>, limits: StoreLimits, records: seq<Record>, record: Record)
    returns (longer: seq<Session>)
    requires Holds(run, limits, records) && |records| + 1 < limits.maxRecords
    requires record.sequence == |records| + 2 && Storable(record, limits)
    ensures Holds(longer, limits, records + [record])
  {
    hide Continues, FirstBoot;
    longer := Appends(run, limits, record);
    assert [FirstBoot()] + records + [record] == [FirstBoot()] + (records + [record]);
  }

  function Largest(i: nat, limits: StoreLimits): Record
    requires i + 2 < TWO_64
  {
    Record(DefinitionRecord, i + 2, Zeros(limits.maxRecordBytes))
  }

  function AllLargest(n: nat, limits: StoreLimits): (records: seq<Record>)
    requires n + 2 < TWO_64
    ensures |records| == n && forall i :: 0 <= i < n ==> records[i] == Largest(i, limits)
  {
    seq(n, i requires 0 <= i < n => Largest(i, limits))
  }

  lemma {:induction false} Fill(limits: StoreLimits, n: nat) returns (run: seq<Session>)
    requires CanStart(limits) && n < limits.maxRecords
    ensures Holds(run, limits, AllLargest(n, limits))
  {
    hide Holds;
    if n == 0 {
      run := Starts(limits);
    } else {
      var before := Fill(limits, n - 1);
      run := HoldsOneMore(before, limits, AllLargest(n - 1, limits), Largest(n - 1, limits));
      assert AllLargest(n, limits) == AllLargest(n - 1, limits) + [Largest(n - 1, limits)];
    }
  }

  // As much as a store may come to hold.
  function Everything(limits: StoreLimits): (records: seq<Record>)
    requires limits.maxRecords >= 1
    ensures |records| == limits.maxRecords
  {
    [FirstBoot()] + AllLargest(limits.maxRecords - 1, limits)
  }

  lemma {:induction false} LargestWeight(records: seq<Record>, limits: StoreLimits)
    requires forall i :: 0 <= i < |records| ==> |records[i].payload| == limits.maxRecordBytes
    ensures Weight(records) == |records| * FrameLimit(limits)
  {
    if |records| > 0 {
      LargestWeight(records[1..], limits);
      OneMoreTimes(|records| - 1, FrameLimit(limits));
    }
  }

  lemma FilledWeight(limits: StoreLimits, n: nat)
    requires n + 2 < TWO_64
    ensures Weight([FirstBoot()] + AllLargest(n, limits)) == HEADER_SIZE + BOOT_SIZE + n * FrameLimit(limits)
  {
    hide BootPayload;
    BootSize(NOBODY, Successor(NOBODY, true));
    var all := [FirstBoot()] + AllLargest(n, limits);
    assert all[1..] == AllLargest(n, limits);
    LargestWeight(all[1..], limits);
  }

  lemma EverythingWeighs(limits: StoreLimits, epoch: U64)
    requires limits.maxRecords >= 1
    ensures |Journal(FramesOf(Everything(limits), epoch))| == Fullest(limits)
    ensures |SnapshotBytes(Everything(limits), epoch)| == HEADER_SIZE + Fullest(limits)
  {
    hide Journal, SnapshotBytes, FirstBoot;
    var all := Everything(limits);
    FilledWeight(limits, limits.maxRecords - 1);
    JournalWeight(FramesOf(all, epoch), all);
    SnapshotSize(all, epoch);
  }

  lemma LargeSnapshotRefused(w: World, limits: StoreLimits, epoch: U64)
    requires w.live && w.acked == |w.ledger| && w.snapshot == Some(SnapshotBytes(w.ledger, epoch))
    requires |w.snapshot.value| > limits.maxJournalBytes || |Journal(FramesOf(w.ledger, epoch))| >= TWO_32
    ensures var t := Moved(w, Crash(0)); Recover(t.snapshot, t.journal, limits).None?
  {
    hide ScanFrom, ReadSnapshot, SnapshotBytes, Journal;
    if |Journal(FramesOf(w.ledger, epoch))| >= TWO_32 {
      OversizedSnapshotRefused(w.ledger, epoch, limits);
    }
  }

  // A snapshot of everything is installed.
  lemma Snapshots(limits: StoreLimits) returns (run: seq<Session>)
    requires CanStart(limits)
    ensures IsHistory(run, limits)
    ensures run[|run| - 1].w.live && run[|run| - 1].w.ledger == Everything(limits)
    ensures run[|run| - 1].w.acked == |Everything(limits)| && run[|run| - 1].w.pending == []
    ensures run[|run| - 1].w.snapshot == Some(SnapshotBytes(Everything(limits), 1))
  {
    hide Continues, SnapshotBytes, FirstBoot;
    var filled := Fill(limits, limits.maxRecords - 1);
    var s := filled[|filled| - 1];
    Prolonged(filled, limits, Install(1), false);
    run := filled + [After(s, Install(1), false)];
  }

  /** Whether appending and snapshotting within its own limits can make a store unreadable is a
      matter of those limits alone: it can exactly when it can be opened at all and a snapshot of
      the most that it may come to hold exceeds the size that opening insists on, or the length
      that a snapshot can state. */
  lemma LocksOutIff(limits: StoreLimits)
    ensures (exists run, kept :: LocksOut(run, limits, kept)) <==> CanStart(limits) && !Roomy(limits)
  {
    hide LocksOut, Roomy;
    if CanStart(limits) && !Roomy(limits) {
      var run := TooLarge(limits);
    } else {
      forall run: seq<Session>, kept: nat
        ensures !LocksOut(run, limits, kept)
      {
        RoomyNeverLocksOut(run, limits, kept);
      }
    }
  }

  lemma TooLarge(limits: StoreLimits) returns (run: seq<Session>)
    requires CanStart(limits) && !Roomy(limits)
    ensures LocksOut(run, limits, 0)
    ensures var w := run[|run| - 1].w; w.acked == |w.ledger| > 0 && w.pending == []
  {
    hide Continues, Recover, Everything, SnapshotBytes, Journal;
    EverythingWeighs(limits, 1);
    run := Snapshots(limits);
    LargeSnapshotRefused(run[|run| - 1].w, limits, 1);
  }

  // Without a snapshot everything is in the journal.
  lemma JournalHolds(run: seq<Session>, limits: StoreLimits, records: seq<Record>)
    requires Holds(run, limits, records)
    ensures |run[|run| - 1].w.journal| == Weight(run[|run| - 1].w.ledger)
  {
    hide Fits, BootsFirst, Continues, Weight, FirstBoot;
    var w := run[|run| - 1].w;
    var l := SessionFits(run, limits, |run| - 1);
    WholeJournal(w, limits, l);
    JournalWeight(l.frames, w.ledger);
  }

  lemma WholeJournal(w: World, limits: StoreLimits, l: Layout)
    requires Fits(w, limits, l) && w.live && w.snapshot.None? && w.acked == |w.ledger|
    ensures w.journal == Journal(l.frames) && |l.frames| == |w.ledger|
    ensures forall i :: 0 <= i < |l.frames| ==> l.frames[i].record == w.ledger[i]
  {
    hide Journal, Numbered, PendingFits;
    assert Journal(l.frames) + [] == Journal(l.frames);
  }

  lemma LargeJournalRefused(w: World, limits: StoreLimits)
    requires w.live && w.acked == |w.ledger| && |w.journal| > limits.maxJournalBytes
    ensures var t := Moved(w, Crash(0)); Recover(t.snapshot, t.journal, limits).None?
  {
    hide ScanFrom, BaseOf;
    assert (w.journal + w.pending[..0])[..|w.journal|] == w.journal;
  }

  const DEFAULT_STORE: StoreLimits := StoreLimits(4096, 0x10_0000, 0x400_0000)

  /** With the default limits, 64 of the largest records, each of them acknowledged, are enough:
      the store that holds them is not recovered. */
  lemma DefaultsLockOut() returns (run: seq<Session>)
    ensures LocksOut(run, DEFAULT_STORE, 0) && Holds(run, DEFAULT_STORE, AllLargest(64, DEFAULT_STORE))
  {
    hide Continues, Recover, Weight, BootPayload;
    run := Fill(DEFAULT_STORE, 64);
    JournalHolds(run, DEFAULT_STORE, AllLargest(64, DEFAULT_STORE));
    FilledWeight(DEFAULT_STORE, 64);
    LargeJournalRefused(run[|run| - 1].w, DEFAULT_STORE);
  }

  const WIDE_STORE: StoreLimits := StoreLimits(8192, 0x10_0000, 0x100_0000_0000)

  /** Limits that allow files of any useful size do not help: here every file is within them, and
      what locks the store out is the length of the snapshot, which has wrapped around. */
  lemma WrappedLengthLocksOut() returns (run: seq<Session>)
    ensures LocksOut(run, WIDE_STORE, 0)
    ensures var w := run[|run| - 1].w;
            && w.acked == |w.ledger| > 0 && |Journal(FramesOf(w.ledger, 1))| >= TWO_32
            && w.snapshot == Some(SnapshotBytes(w.ledger, 1))
            && |w.snapshot.value| <= WIDE_STORE.maxJournalBytes
  {
    hide Continues, Recover, Everything, SnapshotBytes, Journal;
    EverythingWeighs(WIDE_STORE, 1);
    run := Snapshots(WIDE_STORE);
    LargeSnapshotRefused(run[|run| - 1].w, WIDE_STORE, 1);
  }

  // ---- Stores that are full -------------------------------------------------

  /** Every opening needs room for its own boot record.  Once as many records as a store may hold
      are acknowledged, no later state of it can be opened. */
  lemma FullNeverOpens(run: seq<World>, limits: StoreLimits, i: nat, j: nat, advance: bool)
    requires IsRun(run, limits) && i <= j < |run| && run[i].acked >= limits.maxRecords
    ensures !CanOpen(run[j], limits, advance)
  {
    hide IsRun, Readable, AllLegible, Dynamics, BootPayload, LastBoot;
    AcknowledgedForGood(run, limits, i, j);
  }

  // The opening has returned, and the store has acknowledged as many records as it may hold.
  ghost predicate IsFull(run: seq<Session>, limits: StoreLimits) {
    IsHistory(run, limits) && var s := run[|run| - 1]; s.w.live && s.due == [] && s.w.acked == limits.maxRecords
  }

  /** A store can fill itself up like that exactly when it can be opened at all. */
  lemma FullIsReachedIff(limits: StoreLimits)
    ensures (exists run :: IsFull(run, limits)) <==> CanStart(limits)
  {
    hide Continues;
    if CanStart(limits) {
      var run := Fill(limits, limits.maxRecords - 1);
      assert IsFull(run, limits);
    } else {
      forall run | IsHistory(run, limits)
        ensures !IsFull(run, limits)
      {
        NothingIsHeld(run, limits, |run| - 1);
        HistoryBootsFirst(run, limits, |run| - 1);
      }
    }
  }

  // ---- Fences that cannot be read -------------------------------------------

  /** One acknowledged fence with a reason of more than 128 bytes keeps the store shut for good:
      no later state of any run can be opened. */
  lemma LongFenceLocksOut(run: seq<World>, limits: StoreLimits, i: nat, j: nat, k: nat, fence: Fence, advance: bool)
    requires IsRun(run, limits) && i <= j < |run|
    requires k < run[i].acked <= |run[i].ledger|
    requires run[i].ledger[k].kind.FenceRecord? && run[i].ledger[k].payload == FENCE.encode(fence)
    requires REASON_LENGTH < |fence.reason| < TWO_32
    ensures !CanOpen(run[j], limits, advance)
  {
    hide FENCE, IsRun, Readable, Takes, Booted, ReadFence, ReadBoot;
    AcknowledgedForGood(run, limits, i, j);
    FenceIsRead(fence);
    assert run[j].ledger[k] == run[j].ledger[..run[i].acked][k];
    assert run[i].ledger[k] == run[i].ledger[..run[i].acked][k];
    assert !Legible(run[j].ledger[k]);
  }

  lemma FenceSize(fence: Fence)
    ensures |FENCE.encode(fence)| == 37 + |fence.reason|
  {
    hide LittleEndian, FENCE;
    FenceIs(fence);
  }

  const LONG_FENCE: Fence := Fence(1, 1, FabricStateDomain, 0, 0, Zeros(REASON_LENGTH + 1))

  /** A single fence whose reason has 129 bytes, written and acknowledged after the first opening,
      is enough. */
  lemma LongFenceIsWritten(advance: bool) returns (run: seq<Session>)
    ensures IsHistory(run, DEFAULT_STORE)
    ensures var w := run[|run| - 1].w;
            && w.live && w.acked == 2
            && w.ledger == [FirstBoot(), Record(FenceRecord, 2, FENCE.encode(LONG_FENCE))]
            && !CanOpen(Moved(w, Crash(0)), DEFAULT_STORE, advance)
  {
    hide FENCE, Continues, CanOpen, FirstBoot;
    FenceSize(LONG_FENCE);
    var record := Record(FenceRecord, 2, FENCE.encode(LONG_FENCE));
    var start := Starts(DEFAULT_STORE);
    run := HoldsOneMore(start, DEFAULT_STORE, [], record);
    assert [] + [record] == [record];
    assert [FirstBoot()] + [record] == [FirstBoot(), record];
    CrashedLongFence(run, LONG_FENCE, advance);
  }

  lemma CrashedLongFence(run: seq<Session>, fence: Fence, advance: bool)
    requires Holds(run, DEFAULT_STORE, [Record(FenceRecord, 2, FENCE.encode(fence))])
    requires REASON_LENGTH < |fence.reason| < TWO_32
    ensures !CanOpen(Moved(run[|run| - 1].w, Crash(0)), DEFAULT_STORE, advance)
  {
    hide FENCE, Continues, CanOpen, FirstBoot, Next;
    HistoryIsRun(run, DEFAULT_STORE);
    var worlds := Worlds(run);
    var w := worlds[|worlds| - 1];
    Extended(worlds, DEFAULT_STORE, Crash(0));
    var crashed := worlds + [Moved(w, Crash(0))];
    LongFenceLocksOut(crashed, DEFAULT_STORE, |run| - 1, |run|, 1, fence, advance);
  }
}
