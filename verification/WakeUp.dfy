/** No lost wake-up (board.go:257-262, 282-361): unsaved changes always find the
    writer awake or about to be woken, exactly as long as no Flush begins to trim
    the log while nobody is going to wake the writer. */
module WakeUp {
  import opened Basics
  import opened Model
  import opened BoardSpec
  import opened ArchiveFiles
  import opened Persistence

  /** A kick is pending, or the writer is past its kick and before its next snapshot. */
  predicate Awake(m: Machine) {
    || m.kick
    || m.writer.Settling? || m.writer.Waiting? || m.writer.BackingOff?
    || (m.writer.Saving? && m.save.Busy? && !m.save.phase.Storing? && !m.save.phase.Returned?)
  }

  predicate ByFlusher(m: Machine) { m.save.Busy? && m.save.who.Flusher? }

  predicate FlushInFlight(m: Machine) {
    ByFlusher(m) && (m.save.phase.Storing? || m.save.phase.Returned?)
  }

  predicate FlushTrimming(m: Machine) {
    ByFlusher(m) && (m.save.phase.Appending? || m.save.phase.Dropping?)
  }

  ghost predicate Woken(m: Machine) {
    && (m.writer.Saving? <==> m.save.Busy? && m.save.who == Writer)
    && (m.dirty || FlushInFlight(m) || FlushTrimming(m) ==> Awake(m))
  }

  /** The guard: a Flush that finds the log too long finds the writer awake. */
  predicate Guarded(cfg: Settings, m: Machine, step: Step) {
    step.Look? && ByFlusher(m) && TooLong(cfg, m.mem) ==> Awake(m)
  }

  lemma CallersWake(cfg: Settings, m: Machine, step: Step)
    requires Woken(m) && Enabled(cfg, m, step)
    requires step.Mutate? || step.AskFlush? || step.FlushEnters? || step.Crash?
    ensures Woken(Fire(cfg, m, step))
  {
    hide Do, TooLong;
  }

  lemma ArchiveStepsWake(cfg: Settings, m: Machine, step: Step)
    requires Woken(m) && Enabled(cfg, m, step) && Guarded(cfg, m, step)
    requires step.Look? || step.WriteMember? || step.FailMember? || step.FinishArchive? || step.ReportArchiveError?
             || step.Drop?
    ensures Woken(Fire(cfg, m, step))
  {
    hide DropCount, Appended, MonthsOf, Dropped;
  }

  lemma SaveStepsWake(cfg: Settings, m: Machine, step: Step)
    requires Woken(m) && Enabled(cfg, m, step)
    requires step.Snap? || step.Store? || step.Record?
    ensures Woken(Fire(cfg, m, step))
  {
  }

  lemma WriterStepsWake(cfg: Settings, m: Machine, step: Step)
    requires Woken(m) && Enabled(cfg, m, step) && OfWriter(step)
    ensures Woken(Fire(cfg, m, step))
  {
  }

  lemma StepWakes(cfg: Settings, m: Machine, step: Step)
    requires Woken(m) && Enabled(cfg, m, step) && Guarded(cfg, m, step)
    ensures Woken(Fire(cfg, m, step))
  {
    hide Woken, Guarded, Enabled, Fire;
    match step
    case Mutate(_) => CallersWake(cfg, m, step);
    case AskFlush(_) => CallersWake(cfg, m, step);
    case FlushEnters(_) => CallersWake(cfg, m, step);
    case Crash => CallersWake(cfg, m, step);
    case Snap => SaveStepsWake(cfg, m, step);
    case Store(_, _) => SaveStepsWake(cfg, m, step);
    case Record => SaveStepsWake(cfg, m, step);
    case TakeKick => WriterStepsWake(cfg, m, step);
    case AbsorbKick => WriterStepsWake(cfg, m, step);
    case Settle => WriterStepsWake(cfg, m, step);
    case WriterEnters => WriterStepsWake(cfg, m, step);
    case Retry => WriterStepsWake(cfg, m, step);
    case _ => ArchiveStepsWake(cfg, m, step);
  }

  ghost predicate AllGuarded(cfg: Settings, m: Machine, steps: seq<Step>)
    requires Trace(cfg, m, steps)
    decreases |steps|
  {
    steps == [] || (Guarded(cfg, m, steps[0]) && AllGuarded(cfg, Fire(cfg, m, steps[0]), steps[1..]))
  }

  lemma {:induction false} TraceWakes(cfg: Settings, m: Machine, steps: seq<Step>)
    requires Woken(m) && Trace(cfg, m, steps) && AllGuarded(cfg, m, steps)
    ensures Woken(After(cfg, m, steps))
    decreases |steps|
  {
    hide Woken, Enabled, Fire, Guarded;
    if steps != [] {
      StepWakes(cfg, m, steps[0]);
      TraceWakes(cfg, Fire(cfg, m, steps[0]), steps[1..]);
    }
  }

  /** No lost wake-up: from any board, whatever is called, whatever fails and
      crashes in whatever order, unsaved changes and a flush in flight find a kick
      pending or the writer awake, as long as every step met the guard. */
  lemma NoLostWakeUp(cfg: Settings, st: State, archive: Files, ledger: seq<Activity>, clock: Time, steps: seq<Step>)
    requires Trace(cfg, Start(st, archive, ledger, clock), steps)
    requires AllGuarded(cfg, Start(st, archive, ledger, clock), steps)
    ensures var m := After(cfg, Start(st, archive, ledger, clock), steps);
      m.dirty || FlushInFlight(m) ==> Awake(m)
  {
    TraceWakes(cfg, Start(st, archive, ledger, clock), steps);
  }

  /** Without an archive directory every step meets the guard. */
  lemma {:induction false} WithoutArchiveGuarded(cfg: Settings, m: Machine, steps: seq<Step>)
    requires !cfg.archiving && Trace(cfg, m, steps)
    ensures AllGuarded(cfg, m, steps)
    decreases |steps|
  {
    hide Enabled, Fire;
    if steps != [] { WithoutArchiveGuarded(cfg, Fire(cfg, m, steps[0]), steps[1..]); }
  }

  // ----- the guard is needed ---------------------------------------------------------

  lemma {:induction false} TraceConcat(cfg: Settings, m: Machine, a: seq<Step>, b: seq<Step>)
    requires Trace(cfg, m, a) && Trace(cfg, After(cfg, m, a), b)
    ensures Trace(cfg, m, a + b) && After(cfg, m, a + b) == After(cfg, After(cfg, m, a), b)
    decreases |a|
  {
    hide Enabled, Fire;
    if a == [] {
      assert a + b == b;
    } else {
      TraceConcat(cfg, Fire(cfg, m, a[0]), a[1..], b);
      assert (a + b)[1..] == a[1..] + b;
    }
  }

  /** One step more. */
  lemma Then(cfg: Settings, m: Machine, steps: seq<Step>, step: Step)
    requires Trace(cfg, m, steps) && Enabled(cfg, After(cfg, m, steps), step)
    ensures Trace(cfg, m, steps + [step])
    ensures After(cfg, m, steps + [step]) == Fire(cfg, After(cfg, m, steps), step)
  {
    hide Enabled, Fire;
    assert [step][1..] == [];
    TraceConcat(cfg, m, steps, [step]);
  }

  /** All files of the batch can be written. */
  lemma {:induction false} WriteAll(cfg: Settings, m: Machine) returns (steps: seq<Step>)
    requires m.save.Busy? && m.save.phase.Appending?
    ensures Trace(cfg, m, steps) && (forall i :: 0 <= i < |steps| ==> steps[i] == WriteMember)
    ensures var m' := After(cfg, m, steps);
      m' == m.(archive := m'.archive, save := Busy(m.save.who, Appending(m.save.phase.batch, [])))
    decreases |m.save.phase.left|
  {
    hide Appended;
    if m.save.phase.left == [] { return []; }
    var m1 := Fire(cfg, m, WriteMember);
    var rest := WriteAll(cfg, m1);
    steps := [WriteMember] + rest;
    assert steps[1..] == rest;
  }

  predicate OfWriter(step: Step) {
    step.TakeKick? || step.AbsorbKick? || step.Settle? || step.WriterEnters? || step.Retry?
  }

  /** Nothing of the writer can happen. */
  ghost predicate WriterStuck(cfg: Settings, m: Machine) {
    forall step: Step :: OfWriter(step) ==> !Enabled(cfg, m, step)
  }

  /** The trim of a Flush that breaks the guard: all files can be written. */
  lemma TrimUnguarded(cfg: Settings, m: Machine, months: seq<int>) returns (steps: seq<Step>)
    requires Enabled(cfg, m, Look(months)) && !Guarded(cfg, m, Look(months))
    ensures Trace(cfg, m, steps) && steps != [] && steps[0] == Look(months)
    ensures var m' := After(cfg, m, steps);
      m'.dirty && !Awake(m') && m'.save == Busy(m.save.who, Snapping) && m'.writer == m.writer && m'.history != []
  {
    hide Appended, MonthsOf, Dropped, Trace, After;
    assert After(cfg, m, []) == m && Trace(cfg, m, []) by { Nothing(cfg, m); }
    Then(cfg, m, [], Look(months));
    steps := [] + [Look(months)];
    var m1 := Fire(cfg, m, Look(months));
    var write := WriteAll(cfg, m1);
    TraceConcat(cfg, m, steps, write);
    Then(cfg, m, steps + write, FinishArchive);
    Then(cfg, m, steps + write + [FinishArchive], Drop);
    steps := steps + write + [FinishArchive] + [Drop];
  }

  lemma Nothing(cfg: Settings, m: Machine)
    ensures Trace(cfg, m, []) && After(cfg, m, []) == m
  {
  }

  /** The save then fails. */
  lemma SaveFails(cfg: Settings, m0: Machine, trim: seq<Step>) returns (steps: seq<Step>)
    requires Trace(cfg, m0, trim)
    requires var m := After(cfg, m0, trim);
      m.dirty && !Awake(m) && ByFlusher(m) && m.save.phase.Snapping? && !m.writer.Saving? && m.history != []
    ensures Trace(cfg, m0, steps) && trim <= steps
    ensures var m := After(cfg, m0, steps); m.dirty && !Awake(m) && m.save.Idle? && m.writer.Asleep?
  {
    hide Trace, After;
    Then(cfg, m0, trim, Snap);
    Then(cfg, m0, trim + [Snap], Store(false, false));
    Then(cfg, m0, trim + [Snap] + [Store(false, false)], Record);
    steps := trim + [Snap] + [Store(false, false)] + [Record];
  }

  /** The guard is exact: any step that breaks it, in any machine, can go on to a
      state with unsaved changes and nobody awake; and when the save then fails,
      nothing wakes the writer before the next call that marks the board. */
  lemma UnguardedLosesWakeUp(cfg: Settings, m: Machine, months: seq<int>) returns (trim: seq<Step>, steps: seq<Step>)
    requires m.writer.Saving? <==> m.save.Busy? && m.save.who == Writer
    requires Enabled(cfg, m, Look(months)) && !Guarded(cfg, m, Look(months))
    ensures Trace(cfg, m, trim) && trim != [] && trim[0] == Look(months)
    ensures var m' := After(cfg, m, trim); m'.dirty && !Awake(m')
    ensures Trace(cfg, m, steps) && trim <= steps
    ensures var m' := After(cfg, m, steps); m'.dirty && m'.save.Idle? && !Awake(m') && WriterStuck(cfg, m')
  {
    hide MonthsOf, Trace, After;
    trim := TrimUnguarded(cfg, m, months);
    steps := SaveFails(cfg, m, trim);
  }

  /** A machine after any trace, and a step that breaks the guard there: the
      guarantee fails on a longer trace. */
  lemma FlushCanLoseWakeUp(cfg: Settings, st: State, archive: Files, ledger: seq<Activity>, clock: Time,
                           before: seq<Step>, months: seq<int>) returns (steps: seq<Step>)
    requires var m0 := Start(st, archive, ledger, clock);
      Trace(cfg, m0, before) && AllGuarded(cfg, m0, before)
      && Enabled(cfg, After(cfg, m0, before), Look(months)) && !Guarded(cfg, After(cfg, m0, before), Look(months))
    ensures Trace(cfg, Start(st, archive, ledger, clock), steps) && before + [Look(months)] <= steps
    ensures var m := After(cfg, Start(st, archive, ledger, clock), steps);
      m.dirty && m.save.Idle? && !Awake(m) && WriterStuck(cfg, m)
  {
    var m0 := Start(st, archive, ledger, clock);
    TraceWakes(cfg, m0, before);
    hide MonthsOf, Trace, After, Guarded, WriterStuck;
    var m := After(cfg, m0, before);
    var trim, more := UnguardedLosesWakeUp(cfg, m, months);
    TraceConcat(cfg, m0, before, more);
    steps := before + more;
    assert more[0] == trim[0];
  }

  /** A process started on a log that is too long is such a machine as soon as a
      Flush looks at it: nobody has been kicked. */
  lemma StartThenFlush(cfg: Settings, st: State, archive: Files, ledger: seq<Activity>, clock: Time, months: seq<int>)
    returns (before: seq<Step>)
    requires TooLong(cfg, st) && MonthsOf(months, st.activity[..Cut(cfg, st)])
    ensures var m0 := Start(st, archive, ledger, clock);
      Trace(cfg, m0, before) && AllGuarded(cfg, m0, before)
      && Enabled(cfg, After(cfg, m0, before), Look(months)) && !Guarded(cfg, After(cfg, m0, before), Look(months))
  {
    hide MonthsOf;
    var m0 := Start(st, archive, ledger, clock);
    before := [AskFlush(0), FlushEnters(0)];
    var m1 := Fire(cfg, m0, AskFlush(0));
    assert m1 == m0.(flushers := map[0 := Asked(0)]);
    assert before[1..] == [FlushEnters(0)] && before[1..][1..] == [];
  }
}
