/** Write-behind saving as a state machine (board.go:221-442), in async mode
    before Close. One step is what happens under one holding of the board lock,
    or one effect on the disk; steps of the callers, the writer and the flushers
    interleave freely, and the process may crash between any two of them. */
module Persistence {
  import opened Basics
  import opened Model
  import opened BoardSpec
  import opened BoardInvariants
  import opened BoardEffects
  import opened ArchiveFiles

  type Positive = n: int | n > 0 witness 1

  datatype Settings = Settings(board: Config, archiving: bool, maxActivity: Positive)

  /** Who is inside saveNow: it holds saveMu, so there is at most one. */
  datatype Who = Writer | Flusher(n: nat)

  /** Where saveNow is. `of` is the position in the history of the snapshot being saved. */
  datatype Phase =
    | Looking
    | Appending(batch: seq<Activity>, left: seq<int>)
    | AppendFailed
    | Dropping(cutID: int)
    | Snapping
    | Storing(snap: State, of: nat)
    | Returned(ok: bool, of: nat)

  datatype Save = Idle | Busy(who: Who, phase: Phase)

  datatype WriterAt = Asleep | Settling | Waiting | Saving | BackingOff

  /** A call of Flush; `since` is the position in the history when it was made. */
  datatype FlushAt = Asked(since: nat) | Running(since: nat) | Answered(ok: bool, since: nat)

  /** A board the memory has held, when it came about, and whether that change was
      marked as unsaved. */
  datatype Version = Version(board: State, marked: bool, at: Time)

  /** `history`, `stored`, `ledger` and `clock` only observe: the boards of this
      lineage, which of them is on disk, all entries it ever logged, the last time. */
  datatype Machine = Machine(
    mem: State,
    dirty: bool,
    kick: bool,
    save: Save,
    writer: WriterAt,
    flushers: map<nat, FlushAt>,
    disk: State,
    archive: Files,
    history: seq<Version>,
    stored: nat,
    ledger: seq<Activity>,
    clock: Time)

  datatype Step =
    | Mutate(call: Call)         // any call on the board
    | TakeKick                   // the writer wakes up
    | AbsorbKick                 // and takes a further kick while settling
    | Settle                     // the burst is over
    | WriterEnters               // saveNow, called by the writer
    | AskFlush(n: nat)           // a call of Flush
    | FlushEnters(n: nat)        // saveNow, called by that Flush
    | Look(months: seq<int>)     // archiveOld decides, and cuts the batch
    | WriteMember                // one archive file gets its member
    | FailMember                 // or cannot be written
    | FinishArchive
    | ReportArchiveError
    | Drop                       // the archived entries leave the log
    | Snap                       // the snapshot, or nothing to save
    | Store(ok: bool, written: bool)
    | Record                     // saveNow notes the outcome and returns
    | Retry                      // the writer's backoff is over
    | Crash                      // the process dies, and a new one opens the store

  function Start(st: State, archive: Files, ledger: seq<Activity>, clock: Time): Machine {
    Machine(st, false, false, Idle, Asleep, map[], st, archive, [Version(st, false, clock)], 0, ledger, clock)
  }

  /** The entries of the log up to and including cutID have been archived. */
  function DropCount(log: seq<Activity>, cutID: int): nat {
    if log != [] && log[0].id <= cutID then 1 + DropCount(log[1..], cutID) else 0
  }

  lemma {:induction false} DropCountBound(log: seq<Activity>, cutID: int)
    ensures DropCount(log, cutID) <= |log|
  {
    if log != [] { DropCountBound(log[1..], cutID); }
  }

  function Dropped(s: State, cutID: int): State {
    DropCountBound(s.activity, cutID);
    s.(activity := s.activity[DropCount(s.activity, cutID)..],
       archivedThrough := if cutID > s.archivedThrough then cutID else s.archivedThrough)
  }

  predicate TooLong(cfg: Settings, s: State) { cfg.archiving && |s.activity| > cfg.maxActivity }

  /** How many entries archiveOld moves: all but the newest half of the limit. */
  function Cut(cfg: Settings, s: State): (n: nat)
    requires TooLong(cfg, s)
    ensures 0 < n <= |s.activity|
  {
    |s.activity| - cfg.maxActivity / 2
  }

  ghost predicate Enabled(cfg: Settings, m: Machine, step: Step) {
    match step
    case Mutate(c) => m.clock <= c.now && Legal(m.mem, c)
    case TakeKick => m.writer.Asleep? && m.kick
    case AbsorbKick => m.writer.Settling? && m.kick
    case Settle => m.writer.Settling?
    case WriterEnters => m.writer.Waiting? && m.save.Idle?
    case AskFlush(n) => n !in m.flushers
    case FlushEnters(n) => n in m.flushers && m.flushers[n].Asked? && m.save.Idle?
    case Look(months) =>
      m.save.Busy? && m.save.phase.Looking?
      && (TooLong(cfg, m.mem) ==> MonthsOf(months, m.mem.activity[..Cut(cfg, m.mem)]))
    case WriteMember => m.save.Busy? && m.save.phase.Appending? && m.save.phase.left != []
    case FailMember => m.save.Busy? && m.save.phase.Appending? && m.save.phase.left != []
    case FinishArchive => m.save.Busy? && m.save.phase.Appending? && m.save.phase.left == [] && m.save.phase.batch != []
    case ReportArchiveError => m.save.Busy? && m.save.phase.AppendFailed?
    case Drop => m.save.Busy? && m.save.phase.Dropping?
    case Snap => m.save.Busy? && m.save.phase.Snapping? && |m.history| > 0
    case Store(ok, written) => m.save.Busy? && m.save.phase.Storing? && (ok ==> written)
    case Record => m.save.Busy? && m.save.phase.Returned?
    case Retry => m.writer.BackingOff?
    case Crash => m.stored < |m.history|
  }

  function At(m: Machine, phase: Phase): Machine
    requires m.save.Busy?
  {
    m.(save := Busy(m.save.who, phase))
  }

  /** saveNow returns and releases saveMu. */
  function Leave(m: Machine, ok: bool): Machine
    requires m.save.Busy?
  {
    match m.save.who
    case Writer => m.(save := Idle, writer := if ok then Asleep else BackingOff)
    case Flusher(n) =>
      m.(save := Idle,
         flushers := if n in m.flushers then m.flushers[n := Answered(ok, m.flushers[n].since)] else m.flushers)
  }

  function LedgerAfter(ledger: seq<Activity>, before: State, after: State): seq<Activity> {
    ledger + (if |before.activity| <= |after.activity| then after.activity[|before.activity|..] else [])
  }

  function Fire(cfg: Settings, m: Machine, step: Step): Machine
    requires Enabled(cfg, m, step)
  {
    match step
    case Mutate(c) =>
      var r := Do(cfg.board, m.mem, c);
      m.(mem := r.state, dirty := m.dirty || r.marked, kick := m.kick || r.marked,
         history := m.history + [Version(r.state, r.marked, c.now)],
         ledger := LedgerAfter(m.ledger, m.mem, r.state), clock := c.now)
    case TakeKick => m.(kick := false, writer := Settling)
    case AbsorbKick => m.(kick := false)
    case Settle => m.(writer := Waiting)
    case WriterEnters => m.(save := Busy(Writer, Looking), writer := Saving)
    case AskFlush(n) => m.(flushers := m.flushers[n := Asked(if |m.history| == 0 then 0 else |m.history| - 1)])
    case FlushEnters(n) =>
      m.(save := Busy(Flusher(n), Looking), flushers := m.flushers[n := Running(m.flushers[n].since)])
    case Look(months) =>
      if TooLong(cfg, m.mem) then At(m, Appending(m.mem.activity[..Cut(cfg, m.mem)], months)) else At(m, Snapping)
    case WriteMember =>
      var p := m.save.phase;
      At(m.(archive := Appended(m.archive, p.batch, [p.left[0]])), Appending(p.batch, p.left[1..]))
    case FailMember => At(m, AppendFailed)
    case FinishArchive => At(m, Dropping(m.save.phase.batch[|m.save.phase.batch| - 1].id))
    case ReportArchiveError => Leave(m, false)
    case Drop =>
      var s := Dropped(m.mem, m.save.phase.cutID);
      At(m.(mem := s, dirty := true, history := m.history + [Version(s, true, m.clock)]), Snapping)
    case Snap => if m.dirty then At(m.(dirty := false), Storing(m.mem, |m.history| - 1)) else Leave(m, true)
    case Store(ok, written) =>
      var p := m.save.phase;
      At(if written then m.(disk := p.snap, stored := p.of) else m, Returned(ok, p.of))
    case Record =>
      if m.save.phase.ok then Leave(m.(kick := m.kick || m.dirty), true) else Leave(m.(dirty := true), false)
    case Retry => m.(writer := Waiting)
    case Crash =>
      Start(m.disk, m.archive,
            if 0 <= m.disk.nextActivityID <= |m.ledger| then m.ledger[..m.disk.nextActivityID] else m.ledger, m.clock)
      .(history := m.history[..m.stored + 1], stored := m.stored)
  }

  ghost predicate Trace(cfg: Settings, m: Machine, steps: seq<Step>)
    decreases |steps|
  {
    steps == [] || (Enabled(cfg, m, steps[0]) && Trace(cfg, Fire(cfg, m, steps[0]), steps[1..]))
  }

  ghost function After(cfg: Settings, m: Machine, steps: seq<Step>): Machine
    requires Trace(cfg, m, steps)
    decreases |steps|
  {
    if steps == [] then m else After(cfg, Fire(cfg, m, steps[0]), steps[1..])
  }
}
