/** A store that is opened, filled, killed and opened again, by its own operations. */
module Reopening {
  import opened Ints
  import opened Canonical
  import opened Codecs
  import opened Framing
  import opened Recovery
  import opened Incarnations
  import opened Store
  import opened Sessions
  import opened Lockout
  import Crc

  lemma FirstBooted()
    ensures Booted([], true) == [FirstBoot()]
  {
    hide BootPayload;
    assert Dynamics([]) == [] && LastBoot([]) == NOBODY;
  }

  lemma EmptyOpens(limits: StoreLimits)
    requires CanStart(limits)
    ensures CanOpen(EMPTY, limits, true)
  {
    hide BootPayload, Booted;
    FirstBooted();
    BootSize(NOBODY, Successor(NOBODY, true));
  }

  // What the store holds after n of the largest records.
  function Filled(limits: StoreLimits, n: nat): seq<Record>
    requires n + 2 < TWO_64
  {
    [FirstBoot()] + AllLargest(n, limits)
  }

  lemma FilledSnoc(limits: StoreLimits, n: nat)
    requires n + 3 < TWO_64
    ensures Filled(limits, n + 1) == Filled(limits, n) + [Largest(n, limits)]
  {
    hide FirstBoot;
    assert AllLargest(n + 1, limits) == AllLargest(n, limits) + [Largest(n, limits)];
  }

  lemma {:induction false} NothingDynamic(records: seq<Record>)
    requires forall i :: 0 <= i < |records| ==> records[i].kind.Boot? || records[i].kind.DefinitionRecord?
    ensures Dynamics(records) == []
  {
    if |records| > 0 {
      NothingDynamic(records[..|records| - 1]);
    }
  }

  lemma FilledIsPlain(limits: StoreLimits, n: nat)
    requires n + 2 < TWO_64
    ensures Dynamics(Filled(limits, n)) == [] && AllLegible(Filled(limits, n))
  {
    hide BootPayload, ReadBoot, ReadFence;
    NothingDynamic(Filled(limits, n));
    BootIsRead(NOBODY, Successor(NOBODY, true));
  }

  lemma JournalIsWhole(run: seq<World>, limits: StoreLimits)
    requires IsRun(run, limits)
    requires var w := run[|run| - 1]; w.live && w.snapshot.None? && w.acked == |w.ledger|
    ensures |run| > 0 && |run[|run| - 1].journal| == Weight(run[|run| - 1].ledger)
  {
    hide Fits, Next, Weight, Sound;
    var w := run[|run| - 1];
    RunIsSound(run, limits, |run| - 1);
    var l := LayoutOf(w, limits);
    WholeJournal(w, limits, l);
    JournalWeight(l.frames, w.ledger);
  }

  // When a killed store that held these records can be opened again.
  lemma FilledOpens(w: World, limits: StoreLimits, n: nat)
    requires CanStart(limits) && n < limits.maxRecords
    requires w.ledger == Filled(limits, n) && w.snapshot.None? && |w.journal| == Weight(w.ledger)
    ensures CanOpen(w, limits, true) <==>
              n + 2 <= limits.maxRecords && HEADER_SIZE + BOOT_SIZE + n * FrameLimit(limits) <= limits.maxJournalBytes
  {
    hide BootPayload, LastBoot, AllLegible, Dynamics, Weight;
    FilledIsPlain(limits, n);
    FilledWeight(limits, n);
    var before := LastBoot(w.ledger);
    BootSize(before, Successor(before, true));
  }

  /** Appends n of the largest records to a store that has just been opened for the first time. */
  method FillUp(store: DurableStore, n: nat)
    requires store.Valid() && store.disk.snapshot.None? && store.records == [FirstBoot()]
    requires n < store.limits.maxRecords
    modifies store, store.disk
    ensures store.Valid() && store.disk.snapshot.None? && store.records == Filled(store.limits, n)
  {
    hide IsRun, Tabled, FirstBoot, Filled, AllLargest, Ascending, LastBoot;
    NoneFilled(store.limits);
    for i := 0 to n
      invariant store.Valid() && store.disk.snapshot.None?
      invariant store.records == Filled(store.limits, i) && |store.records| == i + 1
    {
      var sequence := store.Append(DefinitionRecord, Zeros(store.limits.maxRecordBytes));
      FilledSnoc(store.limits, i);
    }
  }

  /** Opens a new store, appends n of the largest records, lets the process die and opens the
      store again.  The second opening returns one exactly when the journal is still within its
      limit and there is room for another boot record, although every append has succeeded. */
  method FillAndReopen(limits: StoreLimits, n: nat) returns (reopened: bool)
    requires CanStart(limits) && n < limits.maxRecords
    ensures reopened <==>
              n + 2 <= limits.maxRecords && HEADER_SIZE + BOOT_SIZE + n * FrameLimit(limits) <= limits.maxJournalBytes
  {
    hide IsRun, Tabled, CanOpen, FirstBoot, Filled, Weight, Ascending, Booted, LastBoot;
    var table := Crc.BuildTable();
    TableIsBuilt(table);
    var disk := new Disk(limits);
    EmptyOpens(limits);
    var store := Open(disk, table, limits, true);
    FirstBooted();
    FillUp(store, n);
    JournalIsWhole(disk.run, limits);
    disk.Crash(0);
    FilledOpens(disk.Now(), limits, n);
    var again := Open(disk, table, limits, true);
    reopened := again != null;
  }

  lemma NoneFilled(limits: StoreLimits)
    ensures Filled(limits, 0) == [FirstBoot()]
  {
    assert AllLargest(0, limits) == [];
  }

  lemma TableIsBuilt(table: array<bv32>)
    requires table.Length == 256 && forall i :: 0 <= i < 256 ==> table[i] == Crc.Shifts(Crc.Low(i), 8)
    ensures Tabled(table)
  {
  }
}
