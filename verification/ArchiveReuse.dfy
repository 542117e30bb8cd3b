/** When the merged log is wrong (board.go:376-378, archive.go:133-148): a crash after an
    archive move that ran ahead of the saves lets the board issue archived identifiers
    again, and the merged log then shows the archived entry in place of the new one. */
module ArchiveReuse {
  import opened Basics
  import opened Model
  import opened BoardSpec
  import opened BoardInvariants
  import opened BoardEffects
  import opened BoardOverwrites
  import opened ArchiveFiles
  import opened Persistence
  import opened ArchiveConservation
  import Durability
  import WakeUp

  // ----- a batch that runs ahead of the saves, and a crash ------------------------------

  lemma {:induction false} ThreeParts(cfg: Settings, m: Machine, first: Step, middle: seq<Step>, last: Step)
    requires Enabled(cfg, m, first) && Trace(cfg, Fire(cfg, m, first), middle)
    requires Enabled(cfg, After(cfg, Fire(cfg, m, first), middle), last)
    ensures Trace(cfg, m, [first] + middle + [last])
    ensures After(cfg, m, [first] + middle + [last]) == Fire(cfg, After(cfg, Fire(cfg, m, first), middle), last)
  {
    hide Enabled, Fire;
    assert ([first] + middle)[1..] == middle;
    WakeUp.Then(cfg, m, [first] + middle, last);
  }

  lemma ArchivedIsSaved(m: Machine)
    requires Conserved(m) && WithinSaved(m)
    ensures m.mem.archivedThrough <= m.disk.nextActivityID
  {
    hide Stored;
    if m.mem.archivedThrough > 0 { assert Stored(m.archive, m.ledger[m.mem.archivedThrough - 1]); }
  }

  lemma UngentleBatch(cfg: Settings, m: Machine) returns (e: Activity)
    requires Conserved(m) && WithinSaved(m) && TooLong(cfg, m.mem)
    requires m.mem.nextActivityID - m.disk.nextActivityID > cfg.maxActivity / 2
    ensures e in m.mem.activity[..Cut(cfg, m.mem)] && e.id == m.disk.nextActivityID + 1
  {
    hide Stored;
    ArchivedIsSaved(m);
    var k := m.disk.nextActivityID - m.mem.archivedThrough;
    e := m.mem.activity[k];
    assert e == m.ledger[m.disk.nextActivityID];
    assert m.mem.activity[..Cut(cfg, m.mem)][k] == e;
  }

  lemma AllWritten(m: Machine, batch: seq<Activity>)
    requires Conserved(m) && m.save.Busy? && m.save.phase == Appending(batch, [])
    ensures forall e :: e in batch ==> Stored(m.archive, e)
  {
    hide Stored, FileOf;
  }

  lemma LookAndWrite(cfg: Settings, m: Machine, months: seq<int>) returns (steps: seq<Step>)
    requires Faithful(m) && Enabled(cfg, m, Look(months)) && TooLong(cfg, m.mem)
    ensures Trace(cfg, m, [Look(months)] + steps) && Faithful(After(cfg, m, [Look(months)] + steps))
    ensures Trace(cfg, Fire(cfg, m, Look(months)), steps)
    ensures var m' := After(cfg, m, [Look(months)] + steps);
      && m' == After(cfg, Fire(cfg, m, Look(months)), steps)
      && m'.mem == m.mem && m'.disk == m.disk && m'.clock == m.clock
      && forall e :: e in m.mem.activity[..Cut(cfg, m.mem)] ==> Stored(m'.archive, e)
  {
    var batch := Looked(cfg, m, months);
    hide Faithful, MonthsOf, Stored, Enabled, Fire;
    var m1 := Fire(cfg, m, Look(months));
    steps := WakeUp.WriteAll(cfg, m1);
    assert ([Look(months)] + steps)[1..] == steps;
    var m2 := After(cfg, m1, steps);
    RunKeepsFaithful(cfg, m, [Look(months)] + steps);
    assert Conserved(m2) by { FaithfulParts(m2); }
    AllWritten(m2, batch);
  }

  lemma FaithfulParts(m: Machine)
    requires Faithful(m)
    ensures Durability.Healthy(m) && Conserved(m) && OnlyLedger(m.archive, m.ledger)
  {
  }

  /** The first batch that is not cut gently, archived and followed by a crash, leaves in
      the archive an entry, and only this one, with the identifier that the restarted
      board gives to its next entry. */
  lemma CrashReusesId(cfg: Settings, m: Machine, months: seq<int>) returns (steps: seq<Step>, e: Activity)
    requires Faithful(m) && WithinSaved(m) && Enabled(cfg, m, Look(months)) && !Gentle(cfg, m, Look(months))
    ensures Trace(cfg, m, steps) && steps != [] && steps[0] == Look(months)
    ensures var m' := After(cfg, m, steps);
      && m'.save.Idle? && m'.mem == m'.disk == m.disk && m'.clock == m.clock
      && Stored(m'.archive, e) && e.id == m'.mem.nextActivityID + 1
      && (forall x :: Stored(m'.archive, x) && x.id == e.id ==> x == e)
      && Durability.Healthy(m') && Conserved(m')
  {
    FaithfulParts(m);
    e := UngentleBatch(cfg, m);
    hide Faithful, Conserved, OnlyLedger, WithinSaved, MonthsOf, Trace, After, Stored, Enabled, Fire,
      Durability.Healthy;
    var write := LookAndWrite(cfg, m, months);
    var m2 := After(cfg, m, [Look(months)] + write);
    FaithfulParts(m2);
    OneOfEach(m2, e);
    Crashed(cfg, m2);
    ThreeParts(cfg, m, Look(months), write, Crash);
    steps := [Look(months)] + write + [Crash];
  }

  lemma OneOfEach(m: Machine, e: Activity)
    requires OnlyLedger(m.archive, m.ledger) && Stored(m.archive, e)
    ensures forall x :: Stored(m.archive, x) && x.id == e.id ==> x == e
  {
    hide Stored;
  }

  lemma Looked(cfg: Settings, m: Machine, months: seq<int>) returns (batch: seq<Activity>)
    requires Enabled(cfg, m, Look(months)) && TooLong(cfg, m.mem)
    ensures batch == m.mem.activity[..Cut(cfg, m.mem)]
    ensures Fire(cfg, m, Look(months)) == m.(save := Busy(m.save.who, Appending(batch, months)))
  {
    hide MonthsOf;
    batch := m.mem.activity[..Cut(cfg, m.mem)];
  }

  lemma Crashed(cfg: Settings, m: Machine)
    requires Durability.Healthy(m) && Conserved(m)
    ensures Enabled(cfg, m, Crash)
    ensures var m' := Fire(cfg, m, Crash);
      && m'.save.Idle? && m'.mem == m'.disk == m.disk && m'.archive == m.archive && m'.clock == m.clock
      && Durability.Healthy(m') && Conserved(m')
  {
    Durability.HealthyStep(cfg, m, Crash);
    CrashConserves(cfg, m);
    hide Durability.HistoryOk, Durability.PhaseOk, Durability.WellBoards, Conserved;
  }

  /** What the merge shows for an archived identifier is archived. */
  lemma FirstIsArchived(archived: seq<Activity>, live: seq<Activity>, x: Activity)
    requires IsFirst(archived + live, x) && HasId(archived, x.id)
    ensures x in archived
  {
    var list := archived + live;
    var y :| y in archived && y.id == x.id;
    var k :| 0 <= k < |archived| && archived[k] == y;
    var j :| FirstAt(list, j) && list[j] == x;
    assert list[k] == y;
    assert j <= k;
    assert archived[j] == x;
  }

  /** While the new entry with a reused identifier is in the live log, the merged
      log shows the archived one in its place. */
  lemma ReusedIdHidesEntry(m: Machine, order: seq<int>, archived: seq<Activity>, out: seq<Activity>, e: Activity)
    requires Conserved(m) && Stored(m.archive, e) && 1 <= e.id <= |m.ledger|
    requires !Stored(m.archive, m.ledger[e.id - 1]) && Merges(m, order, archived, out)
    ensures m.ledger[e.id - 1] !in out && out != m.ledger
  {
    hide Stored, FileOf, Tail, ArchivedUpTo, SaveOk;
    var all := AllEntries(m.archive, order);
    ReadStored(m.archive, order, e);
    MergeHas(archived, all, e);
    forall i | 0 <= i < |out| && out[i].id == e.id
      ensures Stored(m.archive, out[i])
    {
      FirstIsArchived(archived, m.mem.activity, out[i]);
      var k :| 0 <= k < |archived| && archived[k] == out[i];
      MergeTakes(archived, all, k);
      ReadStored(m.archive, order, out[i]);
    }
    assert m.ledger[e.id - 1].id == e.id;
    assert m.ledger[e.id - 1] in m.ledger;
  }

  // ----- the restarted board logs again --------------------------------------------------

  lemma {:induction false} ExpirationTimes(tasks: map<string, Task>, now: Time, next: int, order: seq<string>)
    requires forall id :: id in order ==> id in tasks
    ensures forall i :: 0 <= i < |order| ==> Expirations(tasks, now, next, order)[i].time == now
  {
    if order != [] { ExpirationTimes(tasks, now, next, order[..|order| - 1]); }
  }

  /** The entries that a shutdown logs, expirations first, bear its time. */
  lemma ShutdownLogs(cfg: Config, s: State, now: Time) returns (c: Call)
    ensures c.now == now && Legal(s, c)
    ensures var log := Do(cfg, s, c).state.activity;
      |s.activity| < |log| && s.activity <= log && forall i :: |s.activity| <= i < |log| ==> log[i].time == now
  {
    var order := SomeOrder(ExpiredIds(s.tasks, now));
    c := Call(Shutdown(""), now, order);
    assert Legal(s, c);
    ExpirationTimes(s.tasks, now, s.nextActivityID, order);
  }

  /** An entry of the live log that no reading of archive and log shows. */
  ghost predicate Hidden(m: Machine, lost: Activity) {
    lost in m.mem.activity && lost in m.ledger
    && forall order, archived, out :: Merges(m, order, archived, out) ==> lost !in out && out != m.ledger
  }

  lemma ReusedIdIsHidden(m: Machine, e: Activity)
    requires Conserved(m) && Stored(m.archive, e) && m.mem.archivedThrough < e.id <= |m.ledger|
    requires !Stored(m.archive, m.ledger[e.id - 1])
    ensures Hidden(m, m.ledger[e.id - 1])
  {
    var lost := m.ledger[e.id - 1];
    assert lost == m.mem.activity[e.id - 1 - m.mem.archivedThrough];
    hide Stored, Merges, Conserved;
    forall order, archived, out | Merges(m, order, archived, out)
      ensures lost !in out && out != m.ledger
    {
      ReusedIdHidesEntry(m, order, archived, out, e);
    }
  }

  lemma EntryLogged(cfg: Settings, m: Machine, c: Call)
    requires Enabled(cfg, m, Mutate(c)) && Conserved(m)
    requires |m.mem.activity| < |Do(cfg.board, m.mem, c).state.activity|
    ensures var m' := Fire(cfg, m, Mutate(c));
      && |m.ledger| < |m'.ledger| && m'.ledger[|m.ledger|] == m'.mem.activity[|m.mem.activity|]
      && m'.archive == m.archive && m'.mem.archivedThrough == m.mem.archivedThrough <= |m.ledger|
  {
    StillBehind(cfg.board, m.mem, c);
    hide Do, Stored, ArchivedUpTo, SaveOk, Numbered;
  }

  lemma NextIsHidden(cfg: Settings, m: Machine, e: Activity) returns (c: Call, lost: Activity)
    requires Durability.Healthy(m) && Conserved(m) && Stored(m.archive, e) && e.id == m.mem.nextActivityID + 1
    requires forall x :: Stored(m.archive, x) && x.id == e.id ==> x == e
    ensures Enabled(cfg, m, Mutate(c)) && Hidden(Fire(cfg, m, Mutate(c)), lost)
  {
    var now := 1 + if m.clock > e.time then m.clock else e.time;
    c := ShutdownLogs(cfg.board, m.mem, now);
    Durability.MemoryIsWell(m);
    MutateConserves(cfg, m, c);
    EntryLogged(cfg, m, c);
    var m' := Fire(cfg, m, Mutate(c));
    lost := m'.ledger[|m.ledger|];
    assert lost.time == now && lost.id == |m.ledger| + 1 == e.id;
    hide Stored, Do, WellFormed, Durability.Healthy, Hidden, Conserved, Fire;
    ReusedIdIsHidden(m', e);
  }

  lemma StillBehind(cfg: Config, s: State, c: Call)
    requires Legal(s, c)
    ensures Do(cfg, s, c).state.archivedThrough == s.archivedThrough
  {
    DoLogs(cfg, s, c);
  }

  /** The condition on the batches is exact: any batch that is not cut gently can go on
      to an entry of the live log that no merged log shows. */
  lemma UngentleHidesEntry(cfg: Settings, m: Machine, months: seq<int>) returns (steps: seq<Step>, lost: Activity)
    requires Faithful(m) && WithinSaved(m) && Enabled(cfg, m, Look(months)) && !Gentle(cfg, m, Look(months))
    ensures Trace(cfg, m, steps) && steps != [] && steps[0] == Look(months)
    ensures Hidden(After(cfg, m, steps), lost)
  {
    hide Faithful, WithinSaved, MonthsOf, Stored, Conserved, Hidden, Trace, After, Durability.Healthy, Fire, Gentle;
    var crash, e := CrashReusesId(cfg, m, months);
    var c;
    c, lost := NextIsHidden(cfg, After(cfg, m, crash), e);
    WakeUp.Then(cfg, m, crash, Mutate(c));
    steps := crash + [Mutate(c)];
  }

  /** Every gentle trace from an empty board whose next step would cut a batch that is
      not gentle can be continued to a wrong merged log. */
  lemma UngentleTraceHidesEntry(cfg: Settings, clock: Time, before: seq<Step>, months: seq<int>)
    returns (steps: seq<Step>, lost: Activity)
    requires Trace(cfg, Fresh(clock), before) && AllGentle(cfg, Fresh(clock), before)
    requires var m := After(cfg, Fresh(clock), before);
      Enabled(cfg, m, Look(months)) && !Gentle(cfg, m, Look(months))
    ensures Trace(cfg, Fresh(clock), steps) && before + [Look(months)] <= steps
    ensures Hidden(After(cfg, Fresh(clock), steps), lost)
  {
    hide Conserved, OnlyLedger, WithinSaved, MonthsOf, Hidden, Trace, After, Enabled, Gentle, AllGentle;
    FreshConserved(clock);
    GentleKeepsFaithful(cfg, Fresh(clock), before);
    var more;
    more, lost := UngentleHidesEntry(cfg, After(cfg, Fresh(clock), before), months);
    WakeUp.TraceConcat(cfg, Fresh(clock), before, more);
    steps := before + more;
  }

  // ----- such a batch is reached ----------------------------------------------------------

  lemma {:induction false} GentleConcat(cfg: Settings, m: Machine, a: seq<Step>, b: seq<Step>)
    requires Trace(cfg, m, a) && Trace(cfg, After(cfg, m, a), b)
    requires AllGentle(cfg, m, a) && AllGentle(cfg, After(cfg, m, a), b)
    ensures Trace(cfg, m, a + b) && After(cfg, m, a + b) == After(cfg, After(cfg, m, a), b)
    ensures AllGentle(cfg, m, a + b)
    decreases |a|
  {
    hide Enabled, Fire, Gentle;
    if a == [] {
      assert a + b == b;
    } else {
      GentleConcat(cfg, Fire(cfg, m, a[0]), a[1..], b);
      assert (a + b)[1..] == a[1..] + b;
    }
  }

  /** Calls alone make the log as long as wanted. */
  lemma {:induction false} LogUntil(cfg: Settings, m: Machine, n: nat) returns (steps: seq<Step>)
    ensures Trace(cfg, m, steps) && AllGentle(cfg, m, steps)
    ensures var m' := After(cfg, m, steps);
      && m'.save == m.save && m'.flushers == m.flushers && m'.disk == m.disk
      && |m'.mem.activity| >= |m.mem.activity| + n
    decreases n
  {
    hide Do;
    if n == 0 {
      steps := [];
    } else {
      var c := ShutdownLogs(cfg.board, m.mem, m.clock);
      var rest := LogUntil(cfg, Fire(cfg, m, Mutate(c)), n - 1);
      steps := [Mutate(c)] + rest;
      assert steps[1..] == rest;
    }
  }

  lemma FlushLooks(cfg: Settings, m: Machine) returns (months: seq<int>)
    requires m.save.Idle? && m.flushers == map[] && TooLong(cfg, m.mem)
    ensures var steps := [AskFlush(0), FlushEnters(0)];
      && Trace(cfg, m, steps) && AllGentle(cfg, m, steps) && Enabled(cfg, After(cfg, m, steps), Look(months))
      && After(cfg, m, steps).mem == m.mem && After(cfg, m, steps).disk == m.disk
  {
    months := SomeMonths(m.mem.activity[..Cut(cfg, m.mem)]);
    hide MonthsOf;
    var steps := [AskFlush(0), FlushEnters(0)];
    var m1 := Fire(cfg, m, AskFlush(0));
    assert steps[1..] == [FlushEnters(0)] && steps[1..][1..] == [];
    assert m1.flushers[0].Asked?;
  }

  /** With an archive directory, calls and one Flush lead from an empty board to a batch
      that is not gentle. */
  lemma FreshReachesUngentle(cfg: Settings, clock: Time) returns (before: seq<Step>, months: seq<int>)
    requires cfg.archiving
    ensures Trace(cfg, Fresh(clock), before) && AllGentle(cfg, Fresh(clock), before)
    ensures var m := After(cfg, Fresh(clock), before);
      Enabled(cfg, m, Look(months)) && !Gentle(cfg, m, Look(months))
  {
    var calls := LogUntil(cfg, Fresh(clock), cfg.maxActivity + 1);
    var m := After(cfg, Fresh(clock), calls);
    assert m.mem.nextActivityID >= |m.mem.activity| by {
      FreshConserved(clock);
      TraceConserves(cfg, Fresh(clock), calls);
      hide Stored, Numbered;
    }
    hide Trace, After, AllGentle, Enabled;
    months := FlushLooks(cfg, m);
    GentleConcat(cfg, Fresh(clock), calls, [AskFlush(0), FlushEnters(0)]);
    before := calls + [AskFlush(0), FlushEnters(0)];
  }

  // ----- every log can be merged ------------------------------------------------------------

  lemma {:induction false} InsertEntry(log: seq<Activity>, e: Activity) returns (more: seq<Activity>)
    requires Increasing(log) && !HasId(log, e.id)
    ensures Increasing(more) && forall x :: x in more <==> x in log || x == e
  {
    if log == [] || log[|log| - 1].id < e.id {
      more := log + [e];
    } else {
      var front, last := log[..|log| - 1], log[|log| - 1];
      assert log == front + [last];
      assert last.id != e.id;
      var rest := InsertEntry(front, e);
      more := rest + [last];
      forall i | 0 <= i < |rest| ensures rest[i].id < last.id { assert rest[i] in rest; }
    }
  }

  lemma MergeNext(out: seq<Activity>, list: seq<Activity>, e: Activity) returns (more: seq<Activity>)
    requires IsMerge(out, list)
    ensures IsMerge(more, list + [e])
  {
    var longer := list + [e];
    more := out;
    if !HasId(out, e.id) {
      more := InsertEntry(out, e);
      assert FirstAt(longer, |list|) by {
        forall j | 0 <= j < |list| ensures longer[j].id != e.id { assert HasId(out, list[j].id); }
      }
      assert longer[|list|] == e;
      assert e in more;
    }
    forall i | 0 <= i < |more|
      ensures IsFirst(longer, more[i])
    {
      assert more[i] in more;
      if more[i] in out { IsFirstGrows(list, more[i], e); }
    }
    forall k | 0 <= k < |longer|
      ensures HasId(more, longer[k].id)
    {
      if k < |list| {
        var x :| x in out && x.id == list[k].id;
        assert x in more;
      }
    }
  }

  lemma {:induction false} SomeMerge(list: seq<Activity>) returns (out: seq<Activity>)
    ensures IsMerge(out, list)
  {
    if list == [] {
      out := [];
    } else {
      var front := list[..|list| - 1];
      var rest := SomeMerge(front);
      assert list == front + [list[|list| - 1]];
      hide IsMerge;
      out := MergeNext(rest, front, list[|list| - 1]);
    }
  }

  lemma {:induction false} SomeListing(keys: set<int>) returns (order: seq<int>)
    ensures forall k :: k in order <==> k in keys
    decreases |keys|
  {
    order := [];
    if key :| key in keys {
      var rest := SomeListing(keys - {key});
      order := rest + [key];
    }
  }

  lemma SomeReading(m: Machine) returns (order: seq<int>, archived: seq<Activity>, out: seq<Activity>)
    ensures Merges(m, order, archived, out)
  {
    hide IsMerge;
    order := SomeListing(m.archive.Keys);
    archived := SomeMerge(AllEntries(m.archive, order));
    out := SomeMerge(archived + m.mem.activity);
  }

  /** At any moment of any run from an empty board, the merged log is the whole log. */
  ghost predicate AlwaysRestores(cfg: Settings) {
    forall clock, steps, order, archived, out ::
      Trace(cfg, Fresh(clock), steps) && Merges(After(cfg, Fresh(clock), steps), order, archived, out) ==>
        out == After(cfg, Fresh(clock), steps).ledger
  }

  lemma {:induction false} NoArchiveIsGentle(cfg: Settings, m: Machine, steps: seq<Step>)
    requires !cfg.archiving && Trace(cfg, m, steps)
    ensures AllGentle(cfg, m, steps)
    decreases |steps|
  {
    hide Enabled, Fire;
    if steps != [] { NoArchiveIsGentle(cfg, Fire(cfg, m, steps[0]), steps[1..]); }
  }

  /** That holds exactly when there is no archive directory. */
  lemma RestoresExactlyWithoutArchive(cfg: Settings)
    ensures AlwaysRestores(cfg) <==> !cfg.archiving
  {
    hide Merges, Enabled, Fire, Gentle, Trace, After, AllGentle;
    if cfg.archiving {
      var before, months := FreshReachesUngentle(cfg, 0);
      var steps, lost := UngentleTraceHidesEntry(cfg, 0, before, months);
      var m := After(cfg, Fresh(0), steps);
      var order, archived, out := SomeReading(m);
      assert out != m.ledger;
    } else {
      forall clock, steps, order, archived, out |
        Trace(cfg, Fresh(clock), steps) && Merges(After(cfg, Fresh(clock), steps), order, archived, out)
        ensures out == After(cfg, Fresh(clock), steps).ledger
      {
        NoArchiveIsGentle(cfg, Fresh(clock), steps);
        var m := After(cfg, Fresh(clock), steps);
        WakeUp.Nothing(cfg, m);
        MergeRestoresLog(cfg, clock, steps, [], order, archived, out);
      }
    }
  }
}
