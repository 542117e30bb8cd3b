/** What is changed is saved (board.go:282-361): as long as the disk works and nobody calls,
    every step of the writer brings it closer to a board that is on disk, and a Flush
    that enters saveNow comes back without an error. */
module SaveProgress {
  import opened Basics
  import opened Model
  import opened BoardSpec
  import BoardInvariants
  import opened ArchiveFiles
  import opened Persistence
  import opened Durability
  import opened WakeUp

  /** A step of a save on a disk that works. */
  predicate SaveStep(step: Step) {
    step.Look? || step.WriteMember? || step.FinishArchive? || step.Drop? || step.Snap?
    || step == Store(true, true) || step.Record?
  }

  /** A step of the writer on a disk that works, and what it does about an earlier failure. */
  predicate WorkingStep(step: Step) { SaveStep(step) || OfWriter(step) || step.ReportArchiveError? }

  /** Nothing is left to save and nobody is at it. */
  predicate Saved(m: Machine) { m.disk == m.mem && !m.dirty && m.save.Idle? && m.writer.Asleep? }

  /** The save that is under way will not fail, and leaves nothing unsaved. */
  predicate OnCourse(m: Machine) {
    m.save.Busy? &&
      match m.save.phase
      case AppendFailed => false
      case Storing(snap, _) => !m.dirty && snap == m.mem
      case Returned(ok, _) => ok && !m.dirty && m.disk == m.mem
      case _ => true
  }

  /** It saves the board as it is now. */
  predicate Saves(m: Machine) { OnCourse(m) && (m.dirty || m.save.phase.Storing? || m.save.phase.Returned?) }

  /** The only thing a save does to the board: old entries leave the log. */
  predicate Trimmed(s: State, s': State) {
    && s' == s.(activity := s'.activity, archivedThrough := s'.archivedThrough)
    && |s'.activity| <= |s.activity| && s'.activity == s.activity[|s.activity| - |s'.activity|..]
  }

  /** How many steps are left at most. */
  function Rank(m: Machine): nat {
    if m.save.Busy? then
      match m.save.phase
      case Looking => 6 + |m.mem.activity|
      case Appending(_, left) => 5 + |left|
      case AppendFailed => 10 + |m.mem.activity|
      case Dropping(_) => 4
      case Snapping => 3
      case Storing(_, _) => if m.dirty then 11 + |m.mem.activity| else 2
      case Returned(ok, _) => if m.dirty || !ok then 10 + |m.mem.activity| else 1
    else
      match m.writer
      case Asleep => if m.dirty then 9 + |m.mem.activity| else 0
      case Settling => 8 + |m.mem.activity| + (if m.kick then 1 else 0)
      case Waiting => 7 + |m.mem.activity|
      case BackingOff => 8 + |m.mem.activity|
      case Saving => 0
  }

  // ----- one save ---------------------------------------------------------------------

  lemma DroppedTrims(s: State, cutID: int)
    ensures Trimmed(s, Dropped(s, cutID))
  {
    DropCountBound(s.activity, cutID);
  }

  lemma Untrimmed(s: State)
    ensures Trimmed(s, s)
  {
  }

  lemma LookGoesOn(cfg: Settings, m: Machine, months: seq<int>)
    requires m.save.Busy? && Enabled(cfg, m, Look(months))
    ensures var m' := Fire(cfg, m, Look(months));
      && m' == m.(save := m'.save) && m'.save.Busy? && m'.save.who == m.save.who && Rank(m') < Rank(m)
      && (m'.save.phase.Appending? || m'.save.phase.Snapping?)
  {
    hide MonthsOf;
    if TooLong(cfg, m.mem) { FewMonths(months, m.mem.activity[..Cut(cfg, m.mem)]); }
  }

  /** Where saveNow leaves the machine when all went well. */
  predicate Left(m: Machine, m': Machine)
    requires m.save.Busy?
  {
    && m'.save.Idle? && !m'.dirty
    && match m.save.who
       case Writer => m'.writer.Asleep? && m'.flushers == m.flushers
       case Flusher(n) =>
         n in m.flushers && m'.writer == m.writer && m'.flushers == m.flushers[n := Answered(true, m.flushers[n].since)]
  }

  /** The save is one step further, or over. */
  predicate GoesOn(m: Machine, m': Machine) {
    && m.save.Busy? && Trimmed(m.mem, m'.mem) && m'.kick == m.kick
    && if m'.save.Busy? then
         && OnCourse(m') && m'.save.who == m.save.who && m'.writer == m.writer && m'.flushers == m.flushers
         && (Saves(m) ==> Saves(m')) && Rank(m') < Rank(m)
       else Left(m, m') && m'.mem == m.mem && (Saves(m) ==> m'.disk == m'.mem)
  }

  lemma ArchiveGoesOn(cfg: Settings, m: Machine, step: Step)
    requires OnCourse(m) && Enabled(cfg, m, step)
    requires step.WriteMember? || step.FinishArchive? || step.Drop?
    ensures GoesOn(m, Fire(cfg, m, step))
  {
    Untrimmed(m.mem);
    hide Appended, MonthsOf, Dropped, Left, Trimmed;
    if step.Drop? { DroppedTrims(m.mem, m.save.phase.cutID); }
  }

  predicate Listed(m: Machine) { m.save.Busy? && m.save.who.Flusher? ==> m.save.who.n in m.flushers }

  lemma LeaveGoesOn(m: Machine)
    requires m.save.Busy? && !m.dirty && Listed(m) && (Saves(m) ==> m.disk == m.mem)
    ensures GoesOn(m, Leave(m, true))
  {
    Untrimmed(m.mem);
    hide Rank, OnCourse, Trimmed;
  }

  lemma SnapGoesOn(cfg: Settings, m: Machine)
    requires Listed(m) && OnCourse(m) && Enabled(cfg, m, Snap)
    ensures GoesOn(m, Fire(cfg, m, Snap))
  {
    Untrimmed(m.mem);
    hide Leave, Trimmed;
    if !m.dirty { LeaveGoesOn(m); }
  }

  lemma StoreGoesOn(cfg: Settings, m: Machine)
    requires OnCourse(m) && Enabled(cfg, m, Store(true, true))
    ensures GoesOn(m, Fire(cfg, m, Store(true, true)))
  {
    Untrimmed(m.mem);
    hide Leave, Left, Trimmed;
  }

  lemma RecordGoesOn(cfg: Settings, m: Machine)
    requires Listed(m) && OnCourse(m) && Enabled(cfg, m, Record)
    ensures GoesOn(m, Fire(cfg, m, Record))
  {
    LeaveGoesOn(m);
    assert m.(kick := m.kick || m.dirty) == m;
    hide Leave, GoesOn;
  }

  lemma LookedGoesOn(m: Machine, m': Machine)
    requires OnCourse(m) && m.save.phase.Looking? && m' == m.(save := m'.save) && m'.save.Busy?
    requires m'.save.who == m.save.who && Rank(m') < Rank(m) && (m'.save.phase.Appending? || m'.save.phase.Snapping?)
    ensures GoesOn(m, m')
  {
    Untrimmed(m.mem);
    hide Rank, Trimmed;
  }

  /** One step of a save that is on course. */
  lemma SaveGoesOn(cfg: Settings, m: Machine, step: Step)
    requires Durable(m) && OnCourse(m) && SaveStep(step) && Enabled(cfg, m, step)
    ensures GoesOn(m, Fire(cfg, m, step))
  {
    assert Listed(m) by { hide HistoryOk, PhaseOk, FlusherOk, NoneMarked; }
    match step
    case Look(months) =>
      LookGoesOn(cfg, m, months);
      LookedGoesOn(m, Fire(cfg, m, step));
    case WriteMember => ArchiveGoesOn(cfg, m, step);
    case FinishArchive => ArchiveGoesOn(cfg, m, step);
    case Drop => ArchiveGoesOn(cfg, m, step);
    case Snap => SnapGoesOn(cfg, m);
    case Store(_, _) => StoreGoesOn(cfg, m);
    case Record => RecordGoesOn(cfg, m);
    hide Durable, Fire, GoesOn, Enabled;
  }

  /** A save that is on course always has a next step. */
  lemma SaveHasNext(cfg: Settings, m: Machine) returns (step: Step)
    requires Durable(m) && OnCourse(m)
    ensures SaveStep(step) && Enabled(cfg, m, step)
  {
    hide HistoryOk, FlusherOk, NoneMarked, MonthsOf;
    match m.save.phase
    case Looking =>
      var months := [];
      if TooLong(cfg, m.mem) { months := SomeMonths(m.mem.activity[..Cut(cfg, m.mem)]); }
      step := Look(months);
    case Appending(_, left) => step := if left == [] then FinishArchive else WriteMember;
    case Dropping(_) => step := Drop;
    case Snapping => step := Snap;
    case Storing(_, _) => step := Store(true, true);
    case Returned(_, _) => step := Record;
  }

  lemma TrimmedTwice(a: State, b: State, c: State)
    requires Trimmed(a, b) && Trimmed(b, c)
    ensures Trimmed(a, c)
  {
  }

  /** Such a save comes to its end. */
  lemma {:induction false} SaveEnds(cfg: Settings, m: Machine) returns (steps: seq<Step>)
    requires Durable(m) && OnCourse(m)
    ensures Trace(cfg, m, steps) && |steps| <= Rank(m) && (forall i :: 0 <= i < |steps| ==> SaveStep(steps[i]))
    ensures var m' := After(cfg, m, steps);
      && Left(m, m') && Trimmed(m.mem, m'.mem) && m'.kick == m.kick && (Saves(m) ==> m'.disk == m'.mem)
    decreases Rank(m)
  {
    var step := SaveHasNext(cfg, m);
    SaveGoesOn(cfg, m, step);
    StepKeeps(cfg, m, step);
    var m1 := Fire(cfg, m, step);
    hide Durable, Fire, Enabled, Rank, OnCourse, SaveStep;
    if m1.save.Busy? {
      var rest := SaveEnds(cfg, m1);
      steps := [step] + rest;
      assert steps[1..] == rest;
      TrimmedTwice(m.mem, m1.mem, After(cfg, m1, rest).mem);
    } else {
      steps := [step];
      assert steps[1..] == [];
    }
  }

  /** A Flush that enters saveNow on a disk that works is answered without an error: the
      board is saved as it is then, up to old entries that leave the log. */
  lemma FlushSaves(cfg: Settings, m: Machine, n: nat) returns (steps: seq<Step>)
    requires Durable(m) && Enabled(cfg, m, FlushEnters(n))
    ensures Trace(cfg, m, steps) && steps != [] && steps[0] == FlushEnters(n)
    ensures forall i :: 1 <= i < |steps| ==> SaveStep(steps[i])
    ensures var m' := After(cfg, m, steps);
      && m'.flushers == m.flushers[n := Answered(true, m.flushers[n].since)]
      && m'.save.Idle? && !m'.dirty && m'.kick == m.kick && Trimmed(m.mem, m'.mem)
      && (m.dirty ==> m'.disk == m'.mem)
  {
    StepKeeps(cfg, m, FlushEnters(n));
    var m1 := Fire(cfg, m, FlushEnters(n));
    hide Durable;
    var rest := SaveEnds(cfg, m1);
    steps := [FlushEnters(n)] + rest;
    assert steps[1..] == rest;
  }

  // ----- when the disk does not work ------------------------------------------------------

  /** Where saveNow leaves the machine when it failed: the board is not changed, its
      changes stay unsaved, and whoever called learns of it. */
  predicate LeftFailed(m: Machine, m': Machine)
    requires m.save.Busy?
  {
    && m'.mem == m.mem && m'.save.Idle? && m'.kick == m.kick && m'.history == m.history
    && match m.save.who
       case Writer => m'.writer.BackingOff? && m'.flushers == m.flushers
       case Flusher(n) =>
         && m'.writer == m.writer
         && (n in m.flushers ==> m'.flushers == m.flushers[n := Answered(false, m.flushers[n].since)])
  }

  /** An archive file that cannot be written ends the save with an error: nothing has
      left the log, and nothing was saved. */
  lemma ArchiveFailureIsReported(cfg: Settings, m: Machine)
    requires m.save.Busy? && m.save.phase.Appending? && m.save.phase.left != []
    ensures Enabled(cfg, m, FailMember) && Enabled(cfg, Fire(cfg, m, FailMember), ReportArchiveError)
    ensures var m' := Fire(cfg, Fire(cfg, m, FailMember), ReportArchiveError);
      LeftFailed(m, m') && m'.dirty == m.dirty && m'.disk == m.disk && m'.archive == m.archive
  {
  }

  /** So does a store that fails, whether the file was replaced or not. */
  lemma StoreFailureIsReported(cfg: Settings, m: Machine, written: bool)
    requires m.save.Busy? && m.save.phase.Storing?
    ensures Enabled(cfg, m, Store(false, written)) && Enabled(cfg, Fire(cfg, m, Store(false, written)), Record)
    ensures var m' := Fire(cfg, Fire(cfg, m, Store(false, written)), Record);
      LeftFailed(m, m') && m'.dirty && m'.disk == (if written then m.save.phase.snap else m.disk)
  {
  }

  /** A crash loses what is not on disk, and nothing else. */
  lemma CrashLeavesDisk(cfg: Settings, m: Machine)
    requires m.stored < |m.history|
    ensures Enabled(cfg, m, Crash)
    ensures var m' := Fire(cfg, m, Crash);
      && m'.mem == m'.disk == m.disk && m'.archive == m.archive && !m'.dirty && !m'.kick
      && m'.save.Idle? && m'.writer.Asleep? && m'.flushers == map[]
  {
  }

  // ----- the writer --------------------------------------------------------------------

  /** The writer is going to save the board, or is about to have saved it; no Flush is
      inside saveNow. */
  predicate OnTheWay(m: Machine) {
    && !ByFlusher(m)
    && if m.dirty then Awake(m) || m.writer.Saving?
       else m.save.Busy? && (m.save.phase.Storing? || m.save.phase.Returned?) && (OnCourse(m) || FailedSave(m))
  }

  predicate FailedSave(m: Machine) { m.save.Busy? && m.save.phase.Returned? && !m.save.phase.ok }

  /** One step nearer, or there. */
  predicate Nearer(m: Machine, m': Machine) {
    && Trimmed(m.mem, m'.mem) && m'.flushers == m.flushers && Rank(m') < Rank(m) && (OnTheWay(m') || Saved(m'))
  }

  lemma WriterNearer(cfg: Settings, m: Machine, step: Step)
    requires Durable(m) && OnTheWay(m) && Enabled(cfg, m, step) && OfWriter(step)
    ensures Nearer(m, Fire(cfg, m, step))
  {
    Untrimmed(m.mem);
    hide HistoryOk, PhaseOk, FlusherOk, NoneMarked, Trimmed;
  }

  /** The writer is inside saveNow and its save is not, or no longer, on course. */
  lemma OffCourseNearer(cfg: Settings, m: Machine, step: Step)
    requires Durable(m) && OnTheWay(m) && Enabled(cfg, m, step) && m.save.Busy? && !OnCourse(m)
    requires step.ReportArchiveError? || step == Store(true, true) || step.Record?
    ensures Nearer(m, Fire(cfg, m, step))
  {
    Untrimmed(m.mem);
    hide HistoryOk, PhaseOk, FlusherOk, NoneMarked, Trimmed;
  }

  lemma GoneIsNearer(m: Machine, m': Machine)
    requires OnTheWay(m) && OnCourse(m) && m.save.who == Writer && m.writer.Saving? && GoesOn(m, m')
    ensures Nearer(m, m')
  {
    hide Trimmed, Awake, OnCourse;
    assert Rank(m') < Rank(m) by { hide OnTheWay, Nearer; if m'.save.Idle? { RankOnCourse(m); } }
    hide Rank;
  }

  lemma RankOnCourse(m: Machine)
    requires OnCourse(m)
    ensures 0 < Rank(m)
  {
  }

  lemma OnCourseNearer(cfg: Settings, m: Machine, step: Step)
    requires Durable(m) && OnTheWay(m) && Enabled(cfg, m, step) && m.save.Busy? && OnCourse(m) && SaveStep(step)
    ensures Nearer(m, Fire(cfg, m, step))
  {
    SaveGoesOn(cfg, m, step);
    assert m.save.who == Writer && m.writer.Saving? by { hide HistoryOk, PhaseOk, FlusherOk, NoneMarked, GoesOn, Fire; }
    hide Durable, Fire, Enabled, GoesOn, Nearer;
    GoneIsNearer(m, Fire(cfg, m, step));
  }

  /** Every step of the writer brings it nearer. */
  lemma StepNearer(cfg: Settings, m: Machine, step: Step)
    requires Durable(m) && OnTheWay(m) && Enabled(cfg, m, step) && WorkingStep(step)
    ensures Durable(Fire(cfg, m, step)) && Nearer(m, Fire(cfg, m, step))
  {
    StepKeeps(cfg, m, step);
    if OfWriter(step) {
      WriterNearer(cfg, m, step);
    } else if OnCourse(m) {
      OnCourseOnly(cfg, m, step);
      OnCourseNearer(cfg, m, step);
    } else {
      OffCourseOnly(cfg, m, step);
      OffCourseNearer(cfg, m, step);
    }
    hide Durable, Fire, Nearer, OnTheWay, OnCourse, Enabled;
  }

  lemma OnCourseOnly(cfg: Settings, m: Machine, step: Step)
    requires OnCourse(m) && Enabled(cfg, m, step) && WorkingStep(step) && !OfWriter(step)
    ensures SaveStep(step)
  {
    hide MonthsOf;
  }

  lemma OffCourseOnly(cfg: Settings, m: Machine, step: Step)
    requires !OnCourse(m) && Enabled(cfg, m, step) && WorkingStep(step) && !OfWriter(step)
    ensures m.save.Busy? && (step.ReportArchiveError? || step == Store(true, true) || step.Record?)
  {
    hide MonthsOf;
  }

  /** There always is one. */
  lemma HasNext(cfg: Settings, m: Machine) returns (step: Step)
    requires Durable(m) && OnTheWay(m)
    ensures WorkingStep(step) && Enabled(cfg, m, step)
  {
    if m.save.Busy? {
      if OnCourse(m) {
        step := SaveHasNext(cfg, m);
      } else {
        step := if m.save.phase.AppendFailed? then ReportArchiveError
                else if m.save.phase.Returned? then Record else Store(true, true);
      }
      hide Durable, MonthsOf;
    } else {
      assert !m.writer.Saving? by { hide HistoryOk, PhaseOk, FlusherOk, NoneMarked; }
      hide Durable, MonthsOf;
      step := if m.writer.Asleep? then TakeKick else if m.writer.Settling? then Settle
              else if m.writer.Waiting? then WriterEnters else Retry;
    }
  }

  /** Some board of the trace was saved. */
  ghost predicate SavedOnTheWay(cfg: Settings, m: Machine, steps: seq<Step>)
    requires Trace(cfg, m, steps)
    decreases |steps|
  {
    Saved(m) || (steps != [] && SavedOnTheWay(cfg, Fire(cfg, m, steps[0]), steps[1..]))
  }

  /** Whatever the order of the steps: as many as Rank says, and the board was saved. */
  lemma {:induction false} WorkIsSaved(cfg: Settings, m: Machine, steps: seq<Step>)
    requires Durable(m) && OnTheWay(m) && Trace(cfg, m, steps)
    requires (forall i :: 0 <= i < |steps| ==> WorkingStep(steps[i])) && Rank(m) <= |steps|
    ensures SavedOnTheWay(cfg, m, steps)
    decreases |steps|
  {
    RankOnTheWay(m);
    StepNearer(cfg, m, steps[0]);
    var m1 := Fire(cfg, m, steps[0]);
    hide Durable, OnTheWay, Rank, Fire, Enabled, WorkingStep, Saved;
    if !Saved(m1) { WorkIsSaved(cfg, m1, steps[1..]); }
  }

  lemma RankOnTheWay(m: Machine)
    requires Durable(m) && OnTheWay(m)
    ensures 0 < Rank(m)
  {
    hide HistoryOk, PhaseOk, FlusherOk, NoneMarked;
  }

  /** From every board with unsaved changes whose writer is awake, and inside whose saveNow
      there is no Flush, the writer alone gets to a board that is on disk: the one it had,
      up to old entries that have left the log. */
  lemma {:induction false} AwakeGetsSaved(cfg: Settings, m: Machine) returns (steps: seq<Step>)
    requires Durable(m) && OnTheWay(m)
    ensures Trace(cfg, m, steps) && |steps| <= Rank(m) && forall i :: 0 <= i < |steps| ==> WorkingStep(steps[i])
    ensures var m' := After(cfg, m, steps); Saved(m') && Trimmed(m.mem, m'.mem) && m'.flushers == m.flushers
    decreases Rank(m)
  {
    var step := HasNext(cfg, m);
    StepNearer(cfg, m, step);
    var m1 := Fire(cfg, m, step);
    hide Durable, OnTheWay, Rank, Fire, Enabled, WorkingStep, Saved, Trimmed;
    if Saved(m1) {
      steps := [step];
      assert steps[1..] == [];
    } else {
      var rest := AwakeGetsSaved(cfg, m1);
      steps := [step] + rest;
      assert steps[1..] == rest;
      TrimmedTwice(m.mem, m1.mem, After(cfg, m1, rest).mem);
    }
  }

  /** So nothing stays unsaved: after any guarded trace from a start, if there are unsaved
      changes and no Flush is inside saveNow. */
  lemma NothingStaysUnsaved(cfg: Settings, st: State, archive: Files, ledger: seq<Activity>, clock: Time,
                            before: seq<Step>) returns (steps: seq<Step>)
    requires var m0 := Start(st, archive, ledger, clock);
      Trace(cfg, m0, before) && AllGuarded(cfg, m0, before)
      && After(cfg, m0, before).dirty && !ByFlusher(After(cfg, m0, before))
    ensures Trace(cfg, Start(st, archive, ledger, clock), before + steps)
    ensures forall i :: 0 <= i < |steps| ==> WorkingStep(steps[i])
    ensures var m0 := Start(st, archive, ledger, clock);
      var m, m' := After(cfg, m0, before), After(cfg, m0, before + steps);
      Saved(m') && Trimmed(m.mem, m'.mem)
  {
    var m0 := Start(st, archive, ledger, clock);
    NoLostWakeUp(cfg, st, archive, ledger, clock, before);
    StartDurable(st, archive, ledger, clock);
    TraceKeeps(cfg, m0, before);
    hide Durable, Trace, After, AllGuarded, Saved, Trimmed, WorkingStep;
    steps := AwakeGetsSaved(cfg, After(cfg, m0, before));
    TraceConcat(cfg, m0, before, steps);
  }

  // ----- when and what is archived ----

  /** A log of at most the limit stays; a longer one gives up all but the newest half
      of the limit. */
  lemma LooksAtLimit(cfg: Settings, m: Machine, months: seq<int>)
    requires Enabled(cfg, m, Look(months))
    ensures var m', log := Fire(cfg, m, Look(months)), m.mem.activity;
      m' == m.(save := Busy(m.save.who,
        if !cfg.archiving || |log| <= cfg.maxActivity then Snapping
        else Appending(log[..|log| - cfg.maxActivity / 2], months)))
  {
    hide MonthsOf;
  }

  // ----- what an archive move leaves ------------------------------------------------------

  /** The log keeps what was logged since the batch was cut, and before that the newest
      half of the limit. */
  lemma MoveKeepsNewest(cfg: Settings, s: State, later: State)
    requires BoardInvariants.WellFormed(later) && TooLong(cfg, s) && s.activity <= later.activity
    requires later.archivedThrough == s.archivedThrough
    ensures var cutID := s.activity[Cut(cfg, s) - 1].id;
      && Dropped(later, cutID).activity == s.activity[|s.activity| - cfg.maxActivity / 2..]
                                           + later.activity[|s.activity|..]
      && Dropped(later, cutID).archivedThrough == cutID == s.archivedThrough + Cut(cfg, s)
  {
    var n := Cut(cfg, s);
    assert s.activity[n - 1] == later.activity[n - 1];
    DropCountIds(later.activity, later.archivedThrough, s.activity[n - 1].id);
    assert later.activity[n..] == s.activity[n..] + later.activity[|s.activity|..];
    assert n == |s.activity| - cfg.maxActivity / 2;
    hide Cut, TooLong;
  }
}
