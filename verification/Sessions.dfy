/** Runs of a disk as a store makes them: every opening writes its fences and its own boot record
    before anything else is written. */
module Sessions {
  import opened Ints
  import opened Canonical
  import opened Framing
  import opened Recovery
  import opened Incarnations
  import Store

  // The disk, what an opening under way still has to write, and the epoch it writes under.
  datatype Session = Session(w: World, due: seq<Record>, epoch: U64)

  const FRESH: Session := Session(EMPTY, [], 0)

  // What the next opening adds to the records it finds.
  function Dues(found: seq<Record>, advance: bool): seq<Record> {
    if |found| <= |Booted(found, advance)| then Booted(found, advance)[|found|..] else []
  }

  // Nothing goes beyond the number of records, an opening goes on only when it can read what it
  // has found, and writes what is due; a snapshot has to wait until it has returned.
  ghost predicate May(s: Session, limits: StoreLimits, m: Move) {
    && s.w.acked <= |s.w.ledger| && CanMove(s.w, limits, m)
    && match m
       case Write(record, epoch) =>
         && epoch == s.epoch && |s.w.ledger| < limits.maxRecords
         && (s.due != [] ==> AllLegible(s.w.ledger) && record == s.due[0])
       case Install(epoch) => s.due == [] && epoch == s.epoch
       case Reset(epoch) => s.due == [] && epoch == s.epoch
       case Flush => true
       case Crash(_) => true
       case Reopen(_) => true
  }

  function After(s: Session, m: Move, advance: bool): Session
    requires m.Crash? ==> m.kept <= |s.w.pending|
    requires m.Crash? ==> s.w.acked <= |s.w.ledger|
    requires m.Reopen? ==> m.goodBytes <= |s.w.journal|
  {
    var t := Moved(s.w, m);
    match m
    case Write(_, _) => Session(t, if s.due == [] then [] else s.due[1..], s.epoch)
    case Flush => Session(t, s.due, s.epoch)
    case Install(_) => Session(t, s.due, s.epoch)
    case Reset(_) => Session(t, s.due, s.epoch)
    case Crash(_) => Session(t, [], s.epoch)
    case Reopen(_) =>
      Session(t, Dues(s.w.ledger, advance), Successor(LastBoot(s.w.ledger), advance).epoch)
  }

  ghost predicate Continues(s: Session, limits: StoreLimits, t: Session) {
    exists m, advance :: May(s, limits, m) && t == After(s, m, advance)
  }

  ghost predicate IsHistory(run: seq<Session>, limits: StoreLimits) {
    && |run| > 0 && run[0] == FRESH
    && forall i :: 0 <= i < |run| - 1 ==> Continues(run[i], limits, run[i + 1])
  }

  function Worlds(run: seq<Session>): (worlds: seq<World>)
    ensures |worlds| == |run| && forall i :: 0 <= i < |run| ==> worlds[i] == run[i].w
  {
    seq(|run|, i requires 0 <= i < |run| => run[i].w)
  }

  lemma StepsInWorld(s: Session, limits: StoreLimits, t: Session)
    requires Continues(s, limits, t)
    ensures Next(s.w, limits, t.w)
  {
    hide CanMove, Moved, Dues, LastBoot, AllLegible;
  }

  /** What is proved of every run of a disk holds of every run that a store makes. */
  lemma HistoryIsRun(run: seq<Session>, limits: StoreLimits)
    requires IsHistory(run, limits)
    ensures IsRun(Worlds(run), limits)
  {
    hide Next, Continues;
    var worlds := Worlds(run);
    forall i | 0 <= i < |worlds| - 1
      ensures Next(worlds[i], limits, worlds[i + 1])
    {
      assert Continues(run[i], limits, run[i + 1]);
      StepsInWorld(run[i], limits, run[i + 1]);
    }
  }

  lemma Prolonged(run: seq<Session>, limits: StoreLimits, m: Move, advance: bool)
    requires IsHistory(run, limits) && May(run[|run| - 1], limits, m)
    ensures |run| > 0 && IsHistory(run + [After(run[|run| - 1], m, advance)], limits)
  {
    var s := run[|run| - 1];
    var t := After(s, m, advance);
    hide May, After;
    assert Continues(s, limits, t);
    hide Continues;
    var longer := run + [t];
    forall i | 0 <= i < |longer| - 1
      ensures Continues(longer[i], limits, longer[i + 1])
    {
      if i < |run| - 1 {
        assert Continues(run[i], limits, run[i + 1]);
      }
    }
  }

  // ---- The first record -----------------------------------------------------

  const BOOT_SIZE: nat := 36

  lemma BootSize(before: Incarnation, now: Incarnation)
    ensures |BootPayload(before, now)| == BOOT_SIZE
  {
    hide LittleEndian, BOOT;
    Store.BootIs(before, now);
  }

  lemma FirstDue(advance: bool)
    ensures Dues([], advance)
         == [Record(Boot, 1, BootPayload(NOBODY, Successor(NOBODY, advance)))]
  {
    hide BootPayload;
    assert Dynamics([]) == [] && LastBoot([]) == NOBODY;
  }

  // The first record is the first boot, and no snapshot is older than it.
  predicate BootsFirst(s: Session, limits: StoreLimits) {
    && |s.w.ledger| <= limits.maxRecords && s.w.acked <= |s.w.ledger|
    && (|s.w.ledger| > 0 ==> IsFirstBoot(s.w.ledger[0], limits))
    && (s.w.acked == 0 ==> s.w.snapshot.None?)
    && (s.w.live && |s.w.ledger| == 0 ==> |s.due| == 1 && s.due[0].kind.Boot? && |s.due[0].payload| == BOOT_SIZE)
  }

  predicate IsFirstBoot(r: Record, limits: StoreLimits) {
    r.kind.Boot? && |r.payload| == BOOT_SIZE <= limits.maxRecordBytes
  }

  lemma StepBootsFirst(s: Session, limits: StoreLimits, m: Move, advance: bool)
    requires BootsFirst(s, limits) && May(s, limits, m)
    ensures BootsFirst(After(s, m, advance), limits)
  {
    hide AllLegible, ReadDisk, SnapshotBytes, Journal, Frame, Dues, LastBoot;
    if m.Reopen? && s.w.ledger == [] {
      FirstDue(advance);
      BootSize(NOBODY, Successor(NOBODY, advance));
    }
  }

  lemma {:induction false} HistoryBootsFirst(run: seq<Session>, limits: StoreLimits, i: nat)
    requires IsHistory(run, limits) && i < |run|
    ensures BootsFirst(run[i], limits)
    decreases i
  {
    if i > 0 {
      HistoryBootsFirst(run, limits, i - 1);
      assert Continues(run[i - 1], limits, run[i - 1 + 1]);
      hide IsHistory, BootsFirst, May, After;
      var m, advance :| May(run[i - 1], limits, m) && run[i] == After(run[i - 1], m, advance);
      StepBootsFirst(run[i - 1], limits, m, advance);
    }
  }

  // Room for the boot record that an opening cannot do without.
  predicate CanStart(limits: StoreLimits) {
    limits.maxRecords >= 1 && limits.maxRecordBytes >= BOOT_SIZE
  }

  /** A store that has no room for a boot record never holds anything. */
  lemma NothingIsHeld(run: seq<Session>, limits: StoreLimits, i: nat)
    requires IsHistory(run, limits) && i < |run| && !CanStart(limits)
    ensures run[i].w.ledger == []
  {
    HistoryBootsFirst(run, limits, i);
  }
}
