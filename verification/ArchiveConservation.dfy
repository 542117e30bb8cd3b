/** No log entry is lost between the live log, the data file and the archive
    (board.go:370-399, archive.go), in every interleaving and across crashes. */
module ArchiveConservation {
  import opened Basics
  import opened Model
  import opened BoardSpec
  import opened BoardInvariants
  import opened BoardEffects
  import opened ArchiveFiles
  import opened Persistence
  import Durability
  import WakeUp

  /** The log of s holds the entries of the ledger that follow the archived ones. */
  ghost predicate Tail(s: State, ledger: seq<Activity>) {
    && 0 <= s.archivedThrough <= s.nextActivityID <= |ledger|
    && s.activity == ledger[s.archivedThrough..s.nextActivityID]
  }

  ghost predicate ArchivedUpTo(archive: Files, ledger: seq<Activity>, n: int) {
    forall i :: 0 <= i < n && i < |ledger| ==> Stored(archive, ledger[i])
  }

  /** Every entry of the batch is archived, except those whose file is still to be written. */
  ghost predicate BatchStored(archive: Files, batch: seq<Activity>, left: seq<int>) {
    forall e :: e in batch ==> Stored(archive, e) || FileOf(e) in left
  }

  ghost predicate SaveOk(m: Machine) {
    m.save.Busy? ==>
      match m.save.phase
      case Appending(batch, left) => batch != [] && batch <= m.mem.activity && BatchStored(m.archive, batch, left)
      case Dropping(cutID) => m.mem.archivedThrough < cutID <= |m.ledger| && ArchivedUpTo(m.archive, m.ledger, cutID)
      case Storing(snap, _) =>
        Tail(snap, m.ledger) && m.disk.nextActivityID <= snap.nextActivityID
          && snap.archivedThrough <= m.mem.archivedThrough
      case _ => true
  }

  ghost predicate Conserved(m: Machine) {
    && Numbered(m.ledger)
    && Tail(m.mem, m.ledger) && m.mem.nextActivityID == |m.ledger|
    && Tail(m.disk, m.ledger) && m.disk.archivedThrough <= m.mem.archivedThrough
    && ArchivedUpTo(m.archive, m.ledger, m.mem.archivedThrough)
    && SaveOk(m)
  }

  // ----- every step keeps it -------------------------------------------------------

  ghost predicate Grows(before: Files, after: Files) {
    forall e :: Stored(before, e) ==> Stored(after, e)
  }

  lemma MemberGrows(files: Files, entries: seq<Activity>, m: int)
    ensures Grows(files, Appended(files, entries, [m]))
    ensures forall e :: e in entries && FileOf(e) == m ==> Stored(Appended(files, entries, [m]), e)
    ensures forall e :: Stored(Appended(files, entries, [m]), e) ==> Stored(files, e) || e in entries
  {
    hide Appended, FileOf, Stored;
    forall e: Activity {
      MemberAdds(files, entries, m, e);
    }
  }

  lemma GrownArchive(before: Files, after: Files, ledger: seq<Activity>, n: int)
    requires Grows(before, after) && ArchivedUpTo(before, ledger, n)
    ensures ArchivedUpTo(after, ledger, n)
  {
    hide Stored;
  }

  lemma LedgerGrows(s: State, s': State, ledger: seq<Activity>)
    requires WellFormed(s') && LogExtends(s, s') && Tail(s, ledger) && s.nextActivityID == |ledger| && Numbered(ledger)
    ensures var ledger' := LedgerAfter(ledger, s, s');
      ledger <= ledger' && Numbered(ledger') && Tail(s', ledger') && s'.nextActivityID == |ledger'|
  {
    hide WellFormed;
    var more := s'.activity[|s.activity|..];
    LogOfWellFormed(s');
    assert s'.activity == s.activity + more;
    var ledger' := ledger + more;
    forall i | 0 <= i < |ledger'|
      ensures ledger'[i].id == i + 1
    {
      if i >= |ledger| { assert ledger'[i] == s'.activity[|s.activity| + (i - |ledger|)]; }
    }
    assert s'.activity == ledger'[s'.archivedThrough..];
  }

  lemma LogOfWellFormed(s: State)
    requires WellFormed(s)
    ensures LogOk(s.activity, s.archivedThrough, s.nextActivityID)
  {
  }

  lemma TailOfMore(s: State, ledger: seq<Activity>, more: seq<Activity>)
    requires Tail(s, ledger) && ledger <= more
    ensures Tail(s, more)
  {
  }

  lemma ArchivedOfMore(archive: Files, ledger: seq<Activity>, more: seq<Activity>, n: int)
    requires n <= |ledger| && ledger <= more && ArchivedUpTo(archive, ledger, n)
    ensures ArchivedUpTo(archive, more, n)
  {
    hide Stored;
  }

  lemma MutateConserves(cfg: Settings, m: Machine, c: Call)
    requires WellFormed(m.mem) && Conserved(m) && Enabled(cfg, m, Mutate(c))
    ensures Conserved(Fire(cfg, m, Mutate(c)))
  {
    hide WellFormed, Do, Stored, Tail, ArchivedUpTo, BatchStored;
    DoWellFormed(cfg.board, m.mem, c);
    DoLogs(cfg.board, m.mem, c);
    var r := Do(cfg.board, m.mem, c).state;
    LedgerGrows(m.mem, r, m.ledger);
    var more := LedgerAfter(m.ledger, m.mem, r);
    TailOfMore(m.disk, m.ledger, more);
    assert m.mem.archivedThrough <= |m.ledger| by { TailBounds(m.mem, m.ledger); }
    ArchivedOfMore(m.archive, m.ledger, more, m.mem.archivedThrough);
    if m.save.Busy? && m.save.phase.Storing? { TailOfMore(m.save.phase.snap, m.ledger, more); }
    if m.save.Busy? && m.save.phase.Dropping? { ArchivedOfMore(m.archive, m.ledger, more, m.save.phase.cutID); }
  }

  lemma TailBounds(s: State, ledger: seq<Activity>)
    requires Tail(s, ledger)
    ensures 0 <= s.archivedThrough <= s.nextActivityID <= |ledger|
  {
  }

  lemma LookConserves(cfg: Settings, m: Machine, months: seq<int>)
    requires Conserved(m) && Enabled(cfg, m, Look(months))
    ensures Conserved(Fire(cfg, m, Look(months)))
  {
    hide Stored, Tail, ArchivedUpTo, FileOf;
    if TooLong(cfg, m.mem) {
      var batch := m.mem.activity[..Cut(cfg, m.mem)];
      forall e | e in batch
        ensures FileOf(e) in months
      {
        assert HasMonth(batch, FileOf(e));
      }
    }
  }

  lemma WriteConserves(cfg: Settings, m: Machine)
    requires Conserved(m) && Enabled(cfg, m, WriteMember)
    ensures Conserved(Fire(cfg, m, WriteMember))
  {
    hide Stored, Tail, FileOf, Appended;
    var p := m.save.phase;
    MemberGrows(m.archive, p.batch, p.left[0]);
    var after := Appended(m.archive, p.batch, [p.left[0]]);
    GrownArchive(m.archive, after, m.ledger, m.mem.archivedThrough);
    forall e | e in p.batch
      ensures Stored(after, e) || FileOf(e) in p.left[1..]
    {
      assert Stored(m.archive, e) || FileOf(e) in p.left;
    }
  }

  lemma FinishConserves(cfg: Settings, m: Machine)
    requires Conserved(m) && Enabled(cfg, m, FinishArchive)
    ensures Conserved(Fire(cfg, m, FinishArchive))
  {
    hide Stored, FileOf;
    var batch := m.save.phase.batch;
    assert batch[|batch| - 1] == m.mem.activity[|batch| - 1] == m.ledger[m.mem.archivedThrough + |batch| - 1];
    forall i | 0 <= i < m.mem.archivedThrough + |batch|
      ensures Stored(m.archive, m.ledger[i])
    {
      if i >= m.mem.archivedThrough {
        assert m.ledger[i] == m.mem.activity[i - m.mem.archivedThrough] == batch[i - m.mem.archivedThrough];
      }
    }
  }

  lemma {:induction false} DropCountOf(log: seq<Activity>, from: int, cutID: int)
    requires forall i :: 0 <= i < |log| ==> log[i].id == from + 1 + i
    requires from <= cutID <= from + |log|
    ensures DropCount(log, cutID) == cutID - from
  {
    if log != [] && from < cutID { DropCountOf(log[1..], from + 1, cutID); }
  }

  lemma DropConserves(cfg: Settings, m: Machine)
    requires Conserved(m) && Enabled(cfg, m, Drop)
    ensures Conserved(Fire(cfg, m, Drop))
  {
    hide Stored, DropCount;
    DropCountOf(m.mem.activity, m.mem.archivedThrough, m.save.phase.cutID);
  }

  lemma CrashConserves(cfg: Settings, m: Machine)
    requires Conserved(m) && Enabled(cfg, m, Crash)
    ensures Conserved(Fire(cfg, m, Crash))
  {
    hide Stored;
  }

  lemma SavingConserves(cfg: Settings, m: Machine, step: Step)
    requires Conserved(m) && Enabled(cfg, m, step) && (step.Snap? || step.Store?)
    ensures Conserved(Fire(cfg, m, step))
  {
    hide Stored, Tail, ArchivedUpTo, BatchStored, Numbered;
    TailBounds(m.mem, m.ledger);
    TailBounds(m.disk, m.ledger);
  }

  predicate Resting(step: Step) {
    !step.Mutate? && !step.Look? && !step.WriteMember? && !step.FinishArchive? && !step.Drop? && !step.Crash?
    && !step.Snap? && !step.Store?
  }

  /** The phases that SaveOk asks nothing of. */
  predicate Idles(save: Save) {
    save.Busy? ==> !save.phase.Appending? && !save.phase.Dropping? && !save.phase.Storing?
  }

  ghost predicate MovesNothing(m: Machine, after: Machine) {
    && after.ledger == m.ledger && after.mem == m.mem && after.disk == m.disk && after.archive == m.archive
    && (after.save == m.save || Idles(after.save))
  }

  lemma LeaveMovesNothing(m: Machine, ok: bool)
    requires m.save.Busy?
    ensures MovesNothing(m, Leave(m, ok))
  {
  }

  lemma RestMovesNothing(cfg: Settings, m: Machine, step: Step)
    requires Enabled(cfg, m, step) && Resting(step)
    ensures MovesNothing(m, Fire(cfg, m, step))
  {
    hide Do, Dropped, Appended, LedgerAfter, Cut, TooLong, Legal, Leave;
    if step.ReportArchiveError? {
      LeaveMovesNothing(m, false);
    } else if step.Record? {
      var ok := m.save.phase.ok;
      LeaveMovesNothing(if ok then m.(kick := m.kick || m.dirty) else m.(dirty := true), ok);
    }
  }

  lemma RestConserves(cfg: Settings, m: Machine, step: Step)
    requires Conserved(m) && Enabled(cfg, m, step) && Resting(step)
    ensures Conserved(Fire(cfg, m, step))
  {
    RestMovesNothing(cfg, m, step);
    hide Resting, Fire, Enabled, Stored, Tail, ArchivedUpTo, BatchStored, Numbered;
  }

  lemma StepConserves(cfg: Settings, m: Machine, step: Step)
    requires WellFormed(m.mem) && Conserved(m) && Enabled(cfg, m, step)
    ensures Conserved(Fire(cfg, m, step))
  {
    hide Conserved, WellFormed, Fire;
    match step
    case Mutate(c) => MutateConserves(cfg, m, c);
    case Look(months) => LookConserves(cfg, m, months);
    case WriteMember => WriteConserves(cfg, m);
    case FinishArchive => FinishConserves(cfg, m);
    case Drop => DropConserves(cfg, m);
    case Crash => CrashConserves(cfg, m);
    case Snap => SavingConserves(cfg, m, step);
    case Store(_, _) => SavingConserves(cfg, m, step);
    case _ => RestConserves(cfg, m, step);
  }

  lemma {:induction false} TraceConserves(cfg: Settings, m: Machine, steps: seq<Step>)
    requires Durability.Healthy(m) && Conserved(m) && Trace(cfg, m, steps)
    ensures Durability.Healthy(After(cfg, m, steps)) && Conserved(After(cfg, m, steps))
    decreases |steps|
  {
    hide Conserved, Enabled, Fire;
    if steps != [] {
      Durability.MemoryIsWell(m);
      hide Durability.Healthy;
      Durability.HealthyStep(cfg, m, steps[0]);
      StepConserves(cfg, m, steps[0]);
      TraceConserves(cfg, Fire(cfg, m, steps[0]), steps[1..]);
    }
  }

  function Fresh(clock: Time): Machine { Start(NEW_STATE, map[], [], clock) }

  lemma FreshConserved(clock: Time)
    ensures Durability.Healthy(Fresh(clock)) && Conserved(Fresh(clock)) && OnlyLedger(Fresh(clock).archive, [])
    ensures WithinSaved(Fresh(clock))
  {
    assert forall e :: !Stored(map[], e);
  }

  /** The archive or the data file holds the entry. */
  ghost predicate OnDisk(m: Machine, e: Activity) { Stored(m.archive, e) || e in m.disk.activity }

  /** Whatever fails and crashes in whatever order, every identifier up to the
      counter in the data file has its entry in the archive or in the data file. */
  lemma NothingLost(cfg: Settings, clock: Time, steps: seq<Step>, id: int)
    requires Trace(cfg, Fresh(clock), steps)
    requires 1 <= id <= After(cfg, Fresh(clock), steps).disk.nextActivityID
    ensures var m := After(cfg, Fresh(clock), steps);
      id <= |m.ledger| && m.ledger[id - 1].id == id && OnDisk(m, m.ledger[id - 1])
  {
    hide Stored;
    FreshConserved(clock);
    TraceConserves(cfg, Fresh(clock), steps);
    var m := After(cfg, Fresh(clock), steps);
    if id > m.disk.archivedThrough {
      assert m.disk.activity[id - 1 - m.disk.archivedThrough] == m.ledger[id - 1];
    }
  }

  // ----- the merged log -------------------------------------------------------------

  /** The archive holds nothing but entries of the ledger. */
  ghost predicate OnlyLedger(archive: Files, ledger: seq<Activity>) {
    forall e :: Stored(archive, e) ==> 1 <= e.id <= |ledger| && ledger[e.id - 1] == e
  }

  /** What a reader of the whole log gets: it reads the archive files in some order and
      merges what it found with the live log. */
  ghost predicate Merges(m: Machine, order: seq<int>, archived: seq<Activity>, out: seq<Activity>) {
    && (forall k :: k in order <==> k in m.archive)
    && IsMerge(archived, AllEntries(m.archive, order)) && IsMerge(out, archived + m.mem.activity)
  }

  lemma MergedIsLedger(m: Machine, order: seq<int>, archived: seq<Activity>, out: seq<Activity>)
    requires Conserved(m) && OnlyLedger(m.archive, m.ledger) && Merges(m, order, archived, out)
    ensures out == m.ledger && Numbered(out) && |out| == m.mem.nextActivityID
  {
    hide IsMerge, Stored;
    var all, live, list := AllEntries(m.archive, order), m.mem.activity, archived + m.mem.activity;
    forall k | 0 <= k < |list|
      ensures 1 <= list[k].id <= |m.ledger| && list[k] == m.ledger[list[k].id - 1]
    {
      if k < |archived| {
        MergeTakes(archived, all, k);
        ReadStored(m.archive, order, archived[k]);
      } else {
        assert list[k] == m.ledger[m.mem.archivedThrough + (k - |archived|)];
      }
    }
    forall id | 1 <= id <= |m.ledger|
      ensures HasId(list, id)
    {
      if id <= m.mem.archivedThrough {
        ReadStored(m.archive, order, m.ledger[id - 1]);
        MergeHas(archived, all, m.ledger[id - 1]);
        var e :| e in archived && e.id == id;
        assert e in list;
      } else {
        assert live[id - 1 - m.mem.archivedThrough] == m.ledger[id - 1];
        assert m.ledger[id - 1] in list;
      }
    }
    MergeRestores(out, list, m.ledger);
  }

  lemma MergeTakes(out: seq<Activity>, list: seq<Activity>, k: int)
    requires IsMerge(out, list) && 0 <= k < |out|
    ensures out[k] in list
  {
    assert IsFirst(list, out[k]);
  }

  lemma MergeHas(out: seq<Activity>, list: seq<Activity>, e: Activity)
    requires IsMerge(out, list) && e in list
    ensures HasId(out, e.id)
  {
    var k :| 0 <= k < |list| && list[k] == e;
    assert HasId(out, list[k].id);
  }

  lemma ReadStored(archive: Files, order: seq<int>, e: Activity)
    requires forall k :: k in order <==> k in archive
    ensures e in AllEntries(archive, order) <==> Stored(archive, e)
  {
    InAllEntries(archive, order, e);
    if Stored(archive, e) {
      var m :| InFile(archive, m, e);
      assert m in order && InFile(archive, m, e);
    }
  }

  // ----- the archive never runs ahead of the ledger ----------------------------------

  lemma OnlyOfMore(archive: Files, ledger: seq<Activity>, more: seq<Activity>)
    requires OnlyLedger(archive, ledger) && ledger <= more
    ensures OnlyLedger(archive, more)
  {
    hide Stored;
  }

  lemma WriteKeepsOnly(cfg: Settings, m: Machine)
    requires Conserved(m) && OnlyLedger(m.archive, m.ledger) && Enabled(cfg, m, WriteMember)
    ensures OnlyLedger(Fire(cfg, m, WriteMember).archive, m.ledger)
  {
    hide Stored, FileOf, Appended;
    var p := m.save.phase;
    MemberGrows(m.archive, p.batch, p.left[0]);
    forall e | e in p.batch
      ensures 1 <= e.id <= |m.ledger| && m.ledger[e.id - 1] == e
    {
      var i :| 0 <= i < |p.batch| && p.batch[i] == e;
      assert e == m.mem.activity[i] == m.ledger[m.mem.archivedThrough + i];
    }
  }

  lemma StepKeepsOnly(cfg: Settings, m: Machine, step: Step)
    requires WellFormed(m.mem) && Conserved(m) && OnlyLedger(m.archive, m.ledger) && Enabled(cfg, m, step)
    requires !step.Crash?
    ensures OnlyLedger(Fire(cfg, m, step).archive, Fire(cfg, m, step).ledger)
  {
    hide WellFormed, Stored, FileOf, Appended, OnlyLedger, Do, Dropped;
    match step
    case Mutate(c) => OnlyOfMore(m.archive, m.ledger, Fire(cfg, m, step).ledger);
    case WriteMember => WriteKeepsOnly(cfg, m);
    case _ =>
  }

  /** Everything archived, or about to be, lies behind the counter in the data file. */
  ghost predicate WithinSaved(m: Machine) {
    && (forall e :: Stored(m.archive, e) ==> e.id <= m.disk.nextActivityID)
    && (m.save.Busy? && m.save.phase.Appending? ==>
          forall e :: e in m.save.phase.batch ==> e.id <= m.disk.nextActivityID)
  }

  /** A batch is cut only when at most half the limit was logged since the last save. */
  predicate Gentle(cfg: Settings, m: Machine, step: Step) {
    step.Look? && TooLong(cfg, m.mem) ==> m.mem.nextActivityID - m.disk.nextActivityID <= cfg.maxActivity / 2
  }

  lemma GentleLook(cfg: Settings, m: Machine, months: seq<int>)
    requires Conserved(m) && WithinSaved(m) && Enabled(cfg, m, Look(months)) && Gentle(cfg, m, Look(months))
    ensures WithinSaved(Fire(cfg, m, Look(months)))
  {
    hide Stored, MonthsOf;
    if TooLong(cfg, m.mem) {
      var batch := m.mem.activity[..Cut(cfg, m.mem)];
      forall e | e in batch
        ensures e.id <= m.disk.nextActivityID
      {
        var i :| 0 <= i < |batch| && batch[i] == e;
        assert e == m.mem.activity[i] == m.ledger[m.mem.archivedThrough + i];
      }
    }
  }

  lemma GentleWrite(cfg: Settings, m: Machine)
    requires WithinSaved(m) && Enabled(cfg, m, WriteMember)
    ensures WithinSaved(Fire(cfg, m, WriteMember))
  {
    hide Stored, FileOf, Appended;
    MemberGrows(m.archive, m.save.phase.batch, m.save.phase.left[0]);
  }

  lemma GentleStep(cfg: Settings, m: Machine, step: Step)
    requires Conserved(m) && WithinSaved(m) && Enabled(cfg, m, step) && Gentle(cfg, m, step)
    ensures WithinSaved(Fire(cfg, m, step))
  {
    hide Stored, Appended, Do, Dropped, LedgerAfter, Legal, Leave, Tail, Numbered, ArchivedUpTo, BatchStored;
    match step
    case Look(months) => GentleLook(cfg, m, months);
    case WriteMember => GentleWrite(cfg, m);
    case Snap => if !m.dirty { LeaveMovesNothing(m, true); }
    case _ => if Resting(step) { RestMovesNothing(cfg, m, step); }
  }

  lemma CrashKeepsOnly(cfg: Settings, m: Machine)
    requires Conserved(m) && WithinSaved(m) && OnlyLedger(m.archive, m.ledger) && Enabled(cfg, m, Crash)
    ensures OnlyLedger(Fire(cfg, m, Crash).archive, Fire(cfg, m, Crash).ledger)
  {
    hide Stored;
  }

  ghost predicate AllGentle(cfg: Settings, m: Machine, steps: seq<Step>)
    requires Trace(cfg, m, steps)
    decreases |steps|
  {
    steps == [] || (Gentle(cfg, m, steps[0]) && AllGentle(cfg, Fire(cfg, m, steps[0]), steps[1..]))
  }

  ghost predicate NoCrash(steps: seq<Step>) { forall i :: 0 <= i < |steps| ==> !steps[i].Crash? }

  ghost predicate Faithful(m: Machine) {
    Durability.Healthy(m) && Conserved(m) && OnlyLedger(m.archive, m.ledger)
  }

  lemma {:induction false} RunKeepsFaithful(cfg: Settings, m: Machine, steps: seq<Step>)
    requires Faithful(m) && Trace(cfg, m, steps) && NoCrash(steps)
    ensures Faithful(After(cfg, m, steps))
    decreases |steps|
  {
    hide Conserved, Enabled, Fire, OnlyLedger;
    if steps != [] {
      Durability.MemoryIsWell(m);
      hide Durability.Healthy;
      Durability.HealthyStep(cfg, m, steps[0]);
      StepConserves(cfg, m, steps[0]);
      StepKeepsOnly(cfg, m, steps[0]);
      RunKeepsFaithful(cfg, Fire(cfg, m, steps[0]), steps[1..]);
    }
  }

  lemma {:induction false} GentleKeepsFaithful(cfg: Settings, m: Machine, steps: seq<Step>)
    requires Faithful(m) && WithinSaved(m) && Trace(cfg, m, steps) && AllGentle(cfg, m, steps)
    ensures Faithful(After(cfg, m, steps)) && WithinSaved(After(cfg, m, steps))
    decreases |steps|
  {
    hide Conserved, Enabled, Fire, OnlyLedger, WithinSaved, Gentle;
    if steps != [] {
      Durability.MemoryIsWell(m);
      hide Durability.Healthy;
      Durability.HealthyStep(cfg, m, steps[0]);
      StepConserves(cfg, m, steps[0]);
      if steps[0].Crash? { CrashKeepsOnly(cfg, m); } else { StepKeepsOnly(cfg, m, steps[0]); }
      GentleStep(cfg, m, steps[0]);
      GentleKeepsFaithful(cfg, Fire(cfg, m, steps[0]), steps[1..]);
    }
  }

  /** Reading the archive and merging it with the live log gives back every entry
      ever logged, each once and in order: at any moment of a run that starts on an
      empty board, and across any crashes as long as every batch was cut gently. */
  lemma MergeRestoresLog(cfg: Settings, clock: Time, gentle: seq<Step>, last: seq<Step>, order: seq<int>,
                         archived: seq<Activity>, out: seq<Activity>)
    requires Trace(cfg, Fresh(clock), gentle) && AllGentle(cfg, Fresh(clock), gentle)
    requires Trace(cfg, After(cfg, Fresh(clock), gentle), last) && NoCrash(last)
    requires Merges(After(cfg, After(cfg, Fresh(clock), gentle), last), order, archived, out)
    ensures var m := After(cfg, After(cfg, Fresh(clock), gentle), last);
      out == m.ledger && Numbered(out) && |out| == m.mem.nextActivityID
  {
    hide Merges, Conserved, OnlyLedger, Enabled, Fire, Trace, AllGentle, NoCrash;
    FreshConserved(clock);
    GentleKeepsFaithful(cfg, Fresh(clock), gentle);
    var m1 := After(cfg, Fresh(clock), gentle);
    RunKeepsFaithful(cfg, m1, last);
    MergedIsLedger(After(cfg, m1, last), order, archived, out);
  }
}
