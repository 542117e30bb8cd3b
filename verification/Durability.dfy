/** What is on disk, in every interleaving of calls, saves, flushes, failures and crashes. */
module Durability {
  import opened Basics
  import opened Model
  import opened BoardSpec
  import opened BoardInvariants
  import opened BoardEffects
  import opened ArchiveFiles
  import opened SweepOptional
  import opened Persistence

  // ----- the invariant ----------------------------------------------------------

  /** No change between the two positions of the history was marked as unsaved. */
  ghost predicate NoneMarked(history: seq<Version>, after: int, upTo: int) {
    forall i :: after < i <= upTo && 0 <= i < |history| ==> !history[i].marked
  }

  /** A version follows from the one before: unmarked, it is the same board or a
      sweep that was not meant to be saved. */
  ghost predicate Follows(prev: Version, next: Version) {
    && prev.at <= next.at
    && (next.marked || next.board == prev.board
        || exists order ::
             SweepOrder(prev.board.tasks, next.at, order) && next.board == Swept(prev.board, next.at, order))
  }

  ghost predicate HistoryOk(history: seq<Version>, clock: Time) {
    && (forall i :: 0 <= i < |history| ==> history[i].at <= clock)
    && (forall i :: 0 < i < |history| ==> Follows(history[i - 1], history[i]))
  }

  /** The position up to which the history is on disk, once a save in flight succeeds. */
  function Covered(m: Machine): int {
    if m.save.Busy? && (m.save.phase.Storing? || m.save.phase.Returned?) then m.save.phase.of else m.stored
  }

  ghost predicate PhaseOk(m: Machine) {
    m.save.Busy? ==>
      match m.save.phase
      case Storing(snap, of) => m.stored <= of < |m.history| && m.history[of].board == snap
      case Returned(ok, of) => m.stored <= of < |m.history| && (ok ==> m.stored == of)
      case Appending(batch, _) => 0 < |batch| && batch <= m.mem.activity
      case _ => true
  }

  ghost predicate FlusherOk(m: Machine, n: nat, f: FlushAt) {
    && 0 <= f.since < |m.history|
    && (f.Running? <==> m.save.Busy? && m.save.who == Flusher(n))
    && (f.Running? && (m.save.phase.Storing? || m.save.phase.Returned?) ==> f.since <= m.save.phase.of)
    && (f.Answered? && f.ok ==> NoneMarked(m.history, m.stored, f.since))
  }

  ghost predicate Durable(m: Machine) {
    && m.stored < |m.history| && m.history[|m.history| - 1].board == m.mem && m.disk == m.history[m.stored].board
    && HistoryOk(m.history, m.clock)
    && PhaseOk(m)
    && (!m.dirty ==> NoneMarked(m.history, Covered(m), |m.history| - 1))
    && (m.writer.Saving? <==> m.save.Busy? && m.save.who == Writer)
    && (m.save.Busy? && m.save.who.Flusher? ==> m.save.who.n in m.flushers)
    && (forall n :: n in m.flushers ==> FlusherOk(m, n, m.flushers[n]))
  }

  // ----- every step keeps it -------------------------------------------------------

  lemma HistoryGrows(history: seq<Version>, clock: Time, v: Version)
    requires HistoryOk(history, clock) && history != [] && clock <= v.at
    requires Follows(history[|history| - 1], v)
    ensures HistoryOk(history + [v], v.at)
  {
    hide Follows;
  }

  lemma CallFollows(cfg: Config, prev: Version, c: Call)
    requires prev.at <= c.now && Legal(prev.board, c)
    ensures Follows(prev, Version(Do(cfg, prev.board, c).state, Do(cfg, prev.board, c).marked, c.now))
  {
    hide Do, Swept, WellFormed;
    if !Do(cfg, prev.board, c).marked { UnmarkedCallChangesNothing(cfg, prev.board, c); }
  }

  lemma MutateKeeps(cfg: Settings, m: Machine, c: Call)
    requires Durable(m) && Enabled(cfg, m, Mutate(c))
    ensures Durable(Fire(cfg, m, Mutate(c)))
  {
    hide Do, Swept, Follows, HistoryOk;
    var last := m.history[|m.history| - 1];
    assert last.at <= m.clock by { LastAt(m.history, m.clock); }
    CallFollows(cfg.board, last, c);
    DoLogs(cfg.board, m.mem, c);
    var r := Do(cfg.board, m.mem, c);
    HistoryGrows(m.history, m.clock, Version(r.state, r.marked, c.now));
  }

  lemma LastAt(history: seq<Version>, clock: Time)
    requires HistoryOk(history, clock) && history != []
    ensures history[|history| - 1].at <= clock
  {
  }

  lemma DropKeeps(cfg: Settings, m: Machine)
    requires Durable(m) && Enabled(cfg, m, Drop)
    ensures Durable(Fire(cfg, m, Drop))
  {
    hide Dropped, HistoryOk;
    LastAt(m.history, m.clock);
    HistoryGrows(m.history, m.clock, Version(Dropped(m.mem, m.save.phase.cutID), true, m.clock));
  }

  lemma CrashKeeps(cfg: Settings, m: Machine)
    requires Durable(m)
    ensures Durable(Fire(cfg, m, Crash))
  {
    hide Follows;
  }

  predicate Early(phase: Phase) { !phase.Storing? && !phase.Returned? }

  /** A save that has not taken its snapshot yet can move on freely. */
  lemma AtKeeps(m: Machine, phase: Phase)
    requires Durable(m) && m.save.Busy? && Early(m.save.phase) && Early(phase) && PhaseOk(At(m, phase))
    ensures Durable(At(m, phase))
  {
    hide HistoryOk, PhaseOk, NoneMarked;
  }

  lemma FinishArchiveKeeps(cfg: Settings, m: Machine)
    requires Durable(m) && Enabled(cfg, m, FinishArchive)
    ensures Durable(Fire(cfg, m, FinishArchive))
  {
    assert m.save.phase.Appending?;
    hide Durable;
    AtKeeps(m, Dropping(m.save.phase.batch[|m.save.phase.batch| - 1].id));
  }

  lemma LeaveKeeps(m: Machine, ok: bool)
    requires Durable(m) && m.save.Busy?
    requires m.save.phase.Returned? ==> ok == m.save.phase.ok
    requires m.save.phase.Storing? || m.save.phase.Returned? ==> m.dirty || ok
    requires ok && !m.save.phase.Returned? ==> !m.dirty && !m.save.phase.Storing?
    ensures Durable(Leave(m, ok))
  {
    hide HistoryOk;
  }

  lemma SnapKeeps(cfg: Settings, m: Machine)
    requires Durable(m) && Enabled(cfg, m, Snap)
    ensures Durable(Fire(cfg, m, Snap))
  {
    hide HistoryOk;
    if !m.dirty { LeaveKeeps(m, true); }
  }

  lemma StoreKeeps(cfg: Settings, m: Machine, ok: bool, written: bool)
    requires Durable(m) && Enabled(cfg, m, Store(ok, written))
    ensures Durable(Fire(cfg, m, Store(ok, written)))
  {
    hide HistoryOk;
  }

  lemma RecordKeeps(cfg: Settings, m: Machine)
    requires Durable(m) && Enabled(cfg, m, Record)
    ensures Durable(Fire(cfg, m, Record))
  {
    hide HistoryOk;
    var ok := m.save.phase.ok;
    LeaveKeeps(if ok then m.(kick := m.kick || m.dirty) else m.(dirty := true), ok);
  }

  lemma WriterStepsKeep(cfg: Settings, m: Machine, step: Step)
    requires Durable(m) && Enabled(cfg, m, step)
    requires step.TakeKick? || step.AbsorbKick? || step.Settle? || step.WriterEnters? || step.Retry?
    ensures Durable(Fire(cfg, m, step))
  {
    hide HistoryOk;
  }

  lemma FlushStepsKeep(cfg: Settings, m: Machine, step: Step)
    requires Durable(m) && Enabled(cfg, m, step)
    requires step.AskFlush? || step.FlushEnters?
    ensures Durable(Fire(cfg, m, step))
  {
    hide HistoryOk;
  }

  lemma LookKeeps(cfg: Settings, m: Machine, months: seq<int>)
    requires Durable(m) && Enabled(cfg, m, Look(months))
    ensures Durable(Fire(cfg, m, Look(months)))
  {
    hide Durable, MonthsOf;
    if TooLong(cfg, m.mem) {
      AtKeeps(m, Appending(m.mem.activity[..Cut(cfg, m.mem)], months));
    } else {
      AtKeeps(m, Snapping);
    }
  }

  lemma ArchiveStepsKeep(cfg: Settings, m: Machine, step: Step)
    requires Durable(m) && Enabled(cfg, m, step) && (step.WriteMember? || step.FailMember?)
    ensures Durable(Fire(cfg, m, step))
  {
    hide HistoryOk, Appended, MonthsOf;
  }

  lemma StepKeeps(cfg: Settings, m: Machine, step: Step)
    requires Durable(m) && Enabled(cfg, m, step)
    ensures Durable(Fire(cfg, m, step))
  {
    hide Durable;
    match step
    case Mutate(c) => MutateKeeps(cfg, m, c);
    case Drop => DropKeeps(cfg, m);
    case FinishArchive => FinishArchiveKeeps(cfg, m);
    case Crash => CrashKeeps(cfg, m);
    case Snap => SnapKeeps(cfg, m);
    case Store(ok, written) => StoreKeeps(cfg, m, ok, written);
    case Record => RecordKeeps(cfg, m);
    case AskFlush(_) => FlushStepsKeep(cfg, m, step);
    case FlushEnters(_) => FlushStepsKeep(cfg, m, step);
    case Look(months) => LookKeeps(cfg, m, months);
    case WriteMember => ArchiveStepsKeep(cfg, m, step);
    case FailMember => ArchiveStepsKeep(cfg, m, step);
    case ReportArchiveError => LeaveKeeps(m, false);
    case _ => WriterStepsKeep(cfg, m, step);
  }

  lemma StartDurable(st: State, archive: Files, ledger: seq<Activity>, clock: Time)
    ensures Durable(Start(st, archive, ledger, clock))
  {
  }

  lemma {:induction false} TraceKeeps(cfg: Settings, m: Machine, steps: seq<Step>)
    requires Durable(m) && Trace(cfg, m, steps)
    ensures Durable(After(cfg, m, steps))
    decreases |steps|
  {
    hide Durable;
    if steps != [] {
      StepKeeps(cfg, m, steps[0]);
      TraceKeeps(cfg, Fire(cfg, m, steps[0]), steps[1..]);
    }
  }

  // ----- the boards that are held -----------------------------------------------------

  /** Every board of the history is well-formed, and what is about to be dropped is
      behind the counter. */
  ghost predicate WellBoards(m: Machine) {
    && (forall i :: 0 <= i < |m.history| ==> WellFormed(m.history[i].board))
    && (m.save.Busy? && m.save.phase.Dropping? ==> m.save.phase.cutID <= m.mem.nextActivityID)
  }

  ghost predicate Healthy(m: Machine) { Durable(m) && WellBoards(m) }

  lemma MemoryIsWell(m: Machine)
    requires Healthy(m)
    ensures WellFormed(m.mem) && WellFormed(m.disk)
  {
    hide WellFormed, HistoryOk, FlusherOk, PhaseOk, NoneMarked;
  }

  lemma {:induction false} DropCountIds(log: seq<Activity>, from: int, cutID: int)
    requires forall i :: 0 <= i < |log| ==> log[i].id == from + 1 + i
    ensures DropCount(log, cutID) <= |log|
    ensures DropCount(log, cutID) == if cutID <= from then 0 else if cutID - from > |log| then |log| else cutID - from
  {
    if log != [] { DropCountIds(log[1..], from + 1, cutID); }
  }

  /** Dropping what was archived keeps the numbering of the log. */
  lemma DroppedWellFormed(s: State, cutID: int)
    requires WellFormed(s) && cutID <= s.nextActivityID
    ensures WellFormed(Dropped(s, cutID))
  {
    DropCountIds(s.activity, s.archivedThrough, cutID);
  }

  lemma MutateIsWell(cfg: Settings, m: Machine, c: Call)
    requires Healthy(m) && Enabled(cfg, m, Mutate(c))
    ensures WellBoards(Fire(cfg, m, Mutate(c)))
  {
    MemoryIsWell(m);
    DoWellFormed(cfg.board, m.mem, c);
    DoLogs(cfg.board, m.mem, c);
    LogGrowth(m.mem, Do(cfg.board, m.mem, c).state);
    hide WellFormed, Do, Durable;
  }

  lemma LogGrowth(s: State, s': State)
    requires WellFormed(s) && WellFormed(s') && LogExtends(s, s')
    ensures s.nextActivityID <= s'.nextActivityID
  {
  }

  lemma DropIsWell(cfg: Settings, m: Machine)
    requires Healthy(m) && Enabled(cfg, m, Drop)
    ensures WellBoards(Fire(cfg, m, Drop))
  {
    MemoryIsWell(m);
    DroppedWellFormed(m.mem, m.save.phase.cutID);
    hide WellFormed, Dropped, Durable;
  }

  lemma BatchEnds(m: Machine)
    requires Healthy(m) && m.save.Busy? && m.save.phase.Appending?
    ensures var batch := m.save.phase.batch;
      0 < |batch| && m.mem.archivedThrough < batch[|batch| - 1].id <= m.mem.nextActivityID
  {
    MemoryIsWell(m);
    var batch := m.save.phase.batch;
    assert batch[|batch| - 1] == m.mem.activity[|batch| - 1];
    hide HistoryOk, FlusherOk, WellBoards;
  }

  lemma RestIsWell(cfg: Settings, m: Machine, step: Step)
    requires WellBoards(m) && Enabled(cfg, m, step)
    requires !step.Mutate? && !step.Drop? && !step.Crash? && !step.FinishArchive?
    ensures WellBoards(Fire(cfg, m, step))
  {
    hide WellFormed, Leave, Appended, MonthsOf, Cut, TooLong;
    if m.save.Busy? {
      LeaveLeaves(m, true);
      LeaveLeaves(m, false);
      LeaveLeaves(m.(dirty := true), false);
      LeaveLeaves(m.(kick := m.kick || m.dirty), true);
    }
  }

  lemma HealthyStep(cfg: Settings, m: Machine, step: Step)
    requires Healthy(m) && Enabled(cfg, m, step)
    ensures Healthy(Fire(cfg, m, step))
  {
    hide Durable, WellBoards, Fire;
    StepKeeps(cfg, m, step);
    match step
    case Mutate(c) => MutateIsWell(cfg, m, c);
    case Drop => DropIsWell(cfg, m);
    case FinishArchive => FinishIsWell(cfg, m);
    case Crash => CrashIsWell(cfg, m);
    case _ => RestIsWell(cfg, m, step);
  }

  lemma FinishIsWell(cfg: Settings, m: Machine)
    requires Healthy(m) && Enabled(cfg, m, FinishArchive)
    ensures WellBoards(Fire(cfg, m, FinishArchive))
  {
    BatchEnds(m);
    hide WellFormed, Durable;
  }

  lemma CrashIsWell(cfg: Settings, m: Machine)
    requires Healthy(m)
    ensures WellBoards(Fire(cfg, m, Crash))
  {
    hide WellFormed, HistoryOk, FlusherOk, PhaseOk, NoneMarked;
  }

  lemma {:induction false} TraceIsHealthy(cfg: Settings, m: Machine, steps: seq<Step>)
    requires Healthy(m) && Trace(cfg, m, steps)
    ensures Healthy(After(cfg, m, steps))
    decreases |steps|
  {
    hide Healthy, Enabled, Fire;
    if steps != [] {
      HealthyStep(cfg, m, steps[0]);
      TraceIsHealthy(cfg, Fire(cfg, m, steps[0]), steps[1..]);
    }
  }

  // ----- what it means ----------------------------------------------------------------

  /** After any interleaving from any board, failures and crashes included, the disk
      holds one of the boards of the history; from a well-formed board on it passes
      ValidateState. */
  lemma DiskHoldsPastBoard(cfg: Settings, st: State, archive: Files, ledger: seq<Activity>, clock: Time,
                           steps: seq<Step>)
    requires Trace(cfg, Start(st, archive, ledger, clock), steps)
    ensures var m := After(cfg, Start(st, archive, ledger, clock), steps);
      && m.stored < |m.history| && m.disk == m.history[m.stored].board
      && m.mem == m.history[|m.history| - 1].board
      && (WellFormed(st) ==> ValidState(m.disk))
  {
    var m0 := Start(st, archive, ledger, clock);
    StartDurable(st, archive, ledger, clock);
    TraceKeeps(cfg, m0, steps);
    var m := After(cfg, m0, steps);
    if WellFormed(st) {
      assert WellBoards(m0);
      TraceIsHealthy(cfg, m0, steps);
      MemoryIsWell(m);
      WellFormedIsValid(m.disk);
    }
    hide HistoryOk, FlusherOk, PhaseOk, NoneMarked, WellFormed, ValidState, Healthy;
  }

  lemma LeaveLeaves(m: Machine, ok: bool)
    requires m.save.Busy?
    ensures Leave(m, ok) == m.(save := Idle, writer := Leave(m, ok).writer, flushers := Leave(m, ok).flushers)
  {
  }

  /** The history is only ever extended, or cut back to what is on disk by a crash. */
  lemma HistoryOnlyGrows(cfg: Settings, m: Machine, step: Step)
    requires Enabled(cfg, m, step)
    ensures if step.Crash? then Fire(cfg, m, step).history == m.history[..m.stored + 1]
            else m.history <= Fire(cfg, m, step).history
  {
    hide Leave, Appended, MonthsOf, Do, Dropped, LedgerAfter, Legal, Cut, TooLong;
    if m.save.Busy? {
      LeaveLeaves(m, true);
      LeaveLeaves(m, false);
      LeaveLeaves(m.(dirty := true), false);
      LeaveLeaves(m.(kick := m.kick || m.dirty), true);
    }
  }

  /** The disk changes only by a save, and never goes back in the history. */
  lemma DiskNeverGoesBack(cfg: Settings, m: Machine, step: Step)
    requires Durable(m) && Enabled(cfg, m, step)
    ensures m.stored <= Fire(cfg, m, step).stored
    ensures !step.Store? ==> Fire(cfg, m, step).disk == m.disk && Fire(cfg, m, step).stored == m.stored
  {
    match step
    case Store(ok, written) => StoreAdvances(cfg, m, ok, written);
    case _ => OnlyStoreWrites(cfg, m, step);
  }

  lemma StoreAdvances(cfg: Settings, m: Machine, ok: bool, written: bool)
    requires Durable(m) && Enabled(cfg, m, Store(ok, written))
    ensures m.stored <= Fire(cfg, m, Store(ok, written)).stored
  {
    assert m.stored <= m.save.phase.of;
    hide Durable, HistoryOk;
  }

  lemma OnlyStoreWrites(cfg: Settings, m: Machine, step: Step)
    requires Enabled(cfg, m, step) && !step.Store?
    ensures Fire(cfg, m, step).disk == m.disk && Fire(cfg, m, step).stored == m.stored
  {
    hide Leave, Appended, MonthsOf, Do, Dropped, LedgerAfter;
    if m.save.Busy? {
      LeaveLeaves(m, true);
      LeaveLeaves(m, false);
      LeaveLeaves(m.(dirty := true), false);
      LeaveLeaves(m.(kick := m.kick || m.dirty), true);
    }
  }

  /** Boards between which nothing was marked look the same to every later reader. */
  lemma {:induction false} UnmarkedAgree(history: seq<Version>, clock: Time, i: nat, j: nat, t: Time)
    requires HistoryOk(history, clock) && i <= j < |history| && NoneMarked(history, i, j) && clock <= t
    ensures Agree(history[i].board, history[j].board, t)
    decreases j - i
  {
    hide WellFormed, Swept;
    var a, b := history[i].board, history[j].board;
    if i == j {
      SameCoreAgree(a, a, t);
    } else {
      var prev := history[j - 1];
      UnmarkedAgree(history, clock, i, j - 1, t);
      assert Follows(prev, history[j]) && !history[j].marked;
      if b != prev.board {
        var order :| SweepOrder(prev.board.tasks, history[j].at, order) && b == Swept(prev.board, history[j].at, order);
        AgreeSymmetric(a, prev.board, t);
        AgreeAfterSweep(prev.board, a, t, history[j].at, order);
        AgreeSymmetric(b, a, t);
      }
    }
  }

  /** "Not dirty and no save in flight" means that the disk and the memory show
      every reader the same board. */
  lemma CleanMeansSaved(cfg: Settings, m: Machine, t: Time)
    requires Durable(m) && !m.dirty && m.save.Idle? && m.clock <= t
    ensures Agree(m.disk, m.mem, t)
  {
    hide HistoryOk, FlusherOk, Agree;
    UnmarkedAgree(m.history, m.clock, m.stored, |m.history| - 1, t);
  }

  /** The change between two versions was the release of some task by a sweep. */
  ghost predicate BySweep(prev: Version, next: Version) {
    exists order :: order != [] && SweepOrder(prev.board.tasks, next.at, order)
                    && next.board == Swept(prev.board, next.at, order)
  }

  /** No sweep went unsaved since the save. */
  ghost predicate NoUnsavedSweep(m: Machine) {
    forall i :: m.stored < i < |m.history| ==> !BySweep(m.history[i - 1], m.history[i])
  }

  lemma UnmarkedChange(prev: Version, next: Version)
    requires Follows(prev, next) && !next.marked
    ensures next.board == prev.board || BySweep(prev, next)
    ensures BySweep(prev, next) ==> |next.board.activity| > |prev.board.activity|
  {
    hide Swept;
    if next.board != prev.board {
      var order :| SweepOrder(prev.board.tasks, next.at, order) && next.board == Swept(prev.board, next.at, order);
      EmptySweep(prev.board, next.at, order);
    }
    if BySweep(prev, next) { SweepLogs(prev, next); }
  }

  lemma SweepLogs(prev: Version, next: Version)
    requires BySweep(prev, next)
    ensures |next.board.activity| > |prev.board.activity|
  {
  }

  lemma {:induction false} LogLongerAlong(history: seq<Version>, clock: Time, i: nat, j: nat)
    requires HistoryOk(history, clock) && i <= j < |history| && NoneMarked(history, i, j)
    ensures |history[j].board.activity| >= |history[i].board.activity|
    ensures (exists k :: i < k <= j && BySweep(history[k - 1], history[k]))
            ==> |history[j].board.activity| > |history[i].board.activity|
    decreases j - i
  {
    hide BySweep, Follows;
    if i < j {
      LogLongerAlong(history, clock, i, j - 1);
      assert Follows(history[j - 1], history[j]);
      UnmarkedChange(history[j - 1], history[j]);
    }
  }

  /** And they are equal exactly when no sweep went unsaved in between. */
  lemma CleanMeansEqual(cfg: Settings, m: Machine)
    requires Durable(m) && !m.dirty && m.save.Idle?
    ensures m.disk == m.mem <==> NoUnsavedSweep(m)
  {
    hide FlusherOk, BySweep, Follows;
    var last := |m.history| - 1;
    if NoUnsavedSweep(m) {
      forall i | m.stored < i < |m.history|
        ensures m.history[i].board == m.history[i - 1].board
      {
        UnmarkedChange(m.history[i - 1], m.history[i]);
      }
      SameAlong(m.history, m.stored, last);
    } else {
      LogLongerAlong(m.history, m.clock, m.stored, last);
    }
  }

  lemma EmptySweep(s: State, now: Time, order: seq<string>)
    requires SweepOrder(s.tasks, now, order)
    ensures order == [] ==> Swept(s, now, order) == s
  {
    if order == [] {
      assert forall id :: id in ExpiredIds(s.tasks, now) ==> id in order;
      SweptNothing(s, now);
    }
  }

  lemma {:induction false} SameAlong(history: seq<Version>, i: nat, j: nat)
    requires i <= j < |history| && forall k :: i < k < |history| ==> history[k].board == history[k - 1].board
    ensures history[j].board == history[i].board
    decreases j - i
  {
    if i < j { SameAlong(history, i, j - 1); }
  }

  /** A Flush that returned nil has left on disk a board at least as new as the
      one in memory when it was called: that board or a later one, or an earlier
      one that no reader can tell from it. This stays true until a crash. */
  lemma FlushMeansSaved(cfg: Settings, m: Machine, n: nat, t: Time)
    requires Durable(m) && n in m.flushers && m.flushers[n].Answered? && m.flushers[n].ok && m.clock <= t
    ensures var since := m.flushers[n].since;
      && since < |m.history|
      && (m.stored >= since || Agree(m.disk, m.history[since].board, t))
  {
    var since := m.flushers[n].since;
    assert FlusherOk(m, n, m.flushers[n]);
    if m.stored < since { UnmarkedAgree(m.history, m.clock, m.stored, since, t); }
  }

  /** A call of Flush keeps the position of the board it was made on. */
  lemma SinceKept(cfg: Settings, m: Machine, step: Step, n: nat)
    requires Enabled(cfg, m, step) && !step.Crash? && n in m.flushers
    ensures var m' := Fire(cfg, m, step); n in m'.flushers && m'.flushers[n].since == m.flushers[n].since
  {
    hide Appended, MonthsOf, Do, Dropped, LedgerAfter, Legal, Cut, TooLong;
    if m.save.Busy? {
      LeaveKeepsSince(m, true, n);
      LeaveKeepsSince(m, false, n);
      LeaveKeepsSince(m.(dirty := true), false, n);
      LeaveKeepsSince(m.(kick := m.kick || m.dirty), true, n);
    }
    hide Leave;
  }

  lemma LeaveKeepsSince(m: Machine, ok: bool, n: nat)
    requires m.save.Busy? && n in m.flushers
    ensures var m' := Leave(m, ok); n in m'.flushers && m'.flushers[n].since == m.flushers[n].since
  {
  }

  lemma {:induction false} SinceKeptAlong(cfg: Settings, m: Machine, steps: seq<Step>, n: nat)
    requires Trace(cfg, m, steps) && n in m.flushers && forall i :: 0 <= i < |steps| ==> !steps[i].Crash?
    ensures var m' := After(cfg, m, steps);
      n in m'.flushers && m'.flushers[n].since == m.flushers[n].since && m.history <= m'.history
    decreases |steps|
  {
    hide Enabled, Fire;
    if steps != [] {
      SinceKept(cfg, m, steps[0], n);
      HistoryOnlyGrows(cfg, m, steps[0]);
      SinceKeptAlong(cfg, Fire(cfg, m, steps[0]), steps[1..], n);
    }
  }

  lemma Asking(cfg: Settings, m: Machine, n: nat)
    requires Durable(m) && Enabled(cfg, m, AskFlush(n))
    ensures var m1 := Fire(cfg, m, AskFlush(n));
      && m.history != [] && m.history[|m.history| - 1].board == m.mem
      && m1.history == m.history && n in m1.flushers && m1.flushers[n].since == |m.history| - 1
  {
    hide HistoryOk, FlusherOk, PhaseOk, NoneMarked;
  }

  /** A Flush called on the board m.mem: when it has returned nil, whatever else was called,
      failed or was saved meanwhile, the disk holds that board or a later one, or one that no
      reader can tell from it. */
  lemma FlushCoversItsCall(cfg: Settings, m: Machine, n: nat, steps: seq<Step>, t: Time)
    requires Durable(m) && Enabled(cfg, m, AskFlush(n)) && Trace(cfg, Fire(cfg, m, AskFlush(n)), steps)
    requires forall i :: 0 <= i < |steps| ==> !steps[i].Crash?
    requires var m' := After(cfg, Fire(cfg, m, AskFlush(n)), steps);
      n in m'.flushers && m'.flushers[n].Answered? && m'.flushers[n].ok && m'.clock <= t
    ensures var m' := After(cfg, Fire(cfg, m, AskFlush(n)), steps);
      m.history <= m'.history && (m'.stored >= |m.history| - 1 || Agree(m'.disk, m.mem, t))
  {
    hide Durable, Agree, Trace, After, Fire, Enabled;
    var m1 := Fire(cfg, m, AskFlush(n));
    Asking(cfg, m, n);
    StepKeeps(cfg, m, AskFlush(n));
    TraceKeeps(cfg, m1, steps);
    SinceKeptAlong(cfg, m1, steps, n);
    FlushMeansSaved(cfg, After(cfg, m1, steps), n, t);
  }
}
