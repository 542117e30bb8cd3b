/** Two things about sweeps that readers can see: the order in which one sweep logs
    its releases (board.go:510-527), and the one reader that does not sweep
    (board.go:1193-1205). */
module RecentActivity {
  import opened Model
  import opened TaskId
  import opened BoardSpec
  import opened BoardInvariants
  import opened BoardLeases
  import opened SweepLoop

  // ----- one sweep, one order -------------------------------------------------------------

  ghost predicate Strict(a: seq<string>) {
    forall i, j :: 0 <= i < j < |a| ==> IdLess(a[i], a[j])
  }

  lemma {:induction false} StrictUnique(a: seq<string>, b: seq<string>)
    requires Strict(a) && Strict(b) && forall id :: id in a <==> id in b
    ensures a == b
  {
    hide IdLess;
    if a != [] { assert a[0] in a; }
    if b != [] { assert b[0] in b; }
    if a != [] && b != [] {
      StrictHeads(a, b);
      forall id
        ensures id in a[1..] <==> id in b[1..]
      {
        StrictTail(a, id);
        StrictTail(b, id);
      }
      StrictUnique(a[1..], b[1..]);
      assert a == [a[0]] + a[1..] && b == [b[0]] + b[1..];
    }
  }

  lemma StrictHeads(a: seq<string>, b: seq<string>)
    requires Strict(a) && Strict(b) && (forall id :: id in a <==> id in b) && a != [] && b != []
    ensures a[0] == b[0]
  {
    hide IdLess;
    assert a[0] in b && b[0] in a;
    var j :| 0 <= j < |b| && b[j] == a[0];
    var k :| 0 <= k < |a| && a[k] == b[0];
    IdLessOneWay(a[0], b[0]);
  }

  lemma StrictTail(a: seq<string>, id: string)
    requires Strict(a) && a != []
    ensures id in a[1..] <==> id in a && id != a[0]
  {
    hide IdLess;
    assert a == [a[0]] + a[1..];
    if a[0] in a[1..] {
      var k :| 0 <= k < |a[1..]| && a[1..][k] == a[0];
      assert IdLess(a[0], a[k + 1]);
      IdLessOneWay(a[0], a[0]);
      assert false;
    }
  }

  lemma BoardIdsTotal(s: State, x: string, y: string)
    requires WellFormed(s) && x in s.tasks && y in s.tasks && x != y
    requires forall key :: key in s.projects ==> s.projects[key].nextSeq <= MAX_INT
    ensures IdLess(x, y) || IdLess(y, x)
  {
    hide IdLess, ValidTask, ValidParent, FormatId;
    assert TaskOk(s.projects, s.tasks, x, s.tasks[x]) && TaskOk(s.projects, s.tasks, y, s.tasks[y]);
    var p, q := s.tasks[x].project, s.tasks[y].project;
    var m: int :| 1 <= m <= s.projects[p].nextSeq && x == FormatId(p, m);
    var n: int :| 1 <= n <= s.projects[q].nextSeq && y == FormatId(q, n);
    KeyHasNoDash(p);
    KeyHasNoDash(q);
    IdLessTotal(p, m, q, n);
  }

  /** On a well-formed board a sweep has one order: `sort.Slice`, which is not
      stable, leaves no choice in what is logged. */
  lemma SweepOrderUnique(s: State, now: Time, a: seq<string>, b: seq<string>)
    requires WellFormed(s) && SweepOrder(s.tasks, now, a) && SweepOrder(s.tasks, now, b)
    requires forall key :: key in s.projects ==> s.projects[key].nextSeq <= MAX_INT
    ensures a == b
  {
    OrderIsStrict(s, now, a);
    OrderIsStrict(s, now, b);
    assert forall id :: id in a <==> id in ExpiredIds(s.tasks, now);
    assert forall id :: id in b <==> id in ExpiredIds(s.tasks, now);
    StrictUnique(a, b);
  }

  lemma OrderIsStrict(s: State, now: Time, order: seq<string>)
    requires WellFormed(s) && SweepOrder(s.tasks, now, order)
    requires forall key :: key in s.projects ==> s.projects[key].nextSeq <= MAX_INT
    ensures Strict(order)
  {
    hide IdLess, WellFormed, Expired;
    assert forall id :: id in order <==> id in ExpiredIds(s.tasks, now);
    forall i, j | 0 <= i < j < |order|
      ensures IdLess(order[i], order[j])
    {
      assert order[i] in order && order[j] in order;
      BoardIdsTotal(s, order[i], order[j]);
    }
  }

  /** A sweep goes through each project by number, and through the projects by key. */
  lemma SweepGoesByNumber(s: State, now: Time, order: seq<string>, i: int, j: int, p: string, m: nat, q: string, n: nat)
    requires WellFormed(s) && SweepOrder(s.tasks, now, order) && 0 <= i < j < |order|
    requires forall key :: key in s.projects ==> s.projects[key].nextSeq <= MAX_INT
    requires '-' !in p && '-' !in q && m <= MAX_INT && n <= MAX_INT
    requires order[i] == FormatId(p, m) && order[j] == FormatId(q, n)
    ensures if p == q then m < n else StringLess(p, q)
  {
    OrderIsStrict(s, now, order);
    IdLessIs(p, m, q, n);
    hide IdLess, FormatId, WellFormed, StringLess;
  }

  // ----- the newest entries -------------------------------------------------------------------

  const SNAPSHOT_ACTIVITY: nat := 100

  /** The last n entries of the log, newest first. */
  function Newest(log: seq<Activity>, n: nat): (r: seq<Activity>)
    ensures |r| == if n < |log| then n else |log|
    ensures forall i :: 0 <= i < |r| ==> r[i] == log[|log| - 1 - i]
  {
    if n == 0 || log == [] then [] else [log[|log| - 1]] + Newest(log[..|log| - 1], n - 1)
  }

  function Limit(limit: int): (n: nat)
    ensures n > 0
  {
    if limit <= 0 || limit > 1000 then SNAPSHOT_ACTIVITY else limit
  }

  method Recent(log: seq<Activity>, limit: int) returns (out: seq<Activity>)
    ensures out == Newest(log, Limit(limit))
    ensures |out| <= |log| && (|out| == |log| || |out| == if 1 <= limit <= 1000 then limit else 100)
    ensures |out| <= if 1 <= limit <= 1000 then limit else 100
  {
    out := [];
    var n := Limit(limit);
    var i := |log| - 1;
    while i >= 0 && |out| < n
      invariant -1 <= i < |log| && |out| == |log| - 1 - i <= n
      invariant forall k :: 0 <= k < |out| ==> out[k] == log[|log| - 1 - k]
    {
      out := out + [log[i]];
      i := i - 1;
    }
  }

  /** Recent does not sweep: it shows the same with and without a sweep before it
      exactly when no lease has expired. */
  lemma RecentSeesSweep(s: State, now: Time, order: seq<string>, limit: int)
    requires WellFormed(s) && SweepOrder(s.tasks, now, order)
    ensures forall id :: id in order ==> id in s.tasks
    ensures Newest(Swept(s, now, order).activity, Limit(limit)) == Newest(s.activity, Limit(limit)) <==>
      ExpiredIds(s.tasks, now) == {}
  {
    assert forall id :: id in order <==> id in ExpiredIds(s.tasks, now);
    hide IdLess, Expired;
    var log, swept, n := s.activity, Swept(s, now, order).activity, Limit(limit);
    if order == [] {
      assert swept == log;
      assert ExpiredIds(s.tasks, now) == {};
    } else {
      assert order[0] in order;
      LastEntry(s, now, order);
      if log != [] { assert Newest(swept, n)[0].id != Newest(log, n)[0].id; }
    }
  }

  lemma LastEntry(s: State, now: Time, order: seq<string>)
    requires WellFormed(s) && order != [] && forall id :: id in order ==> id in s.tasks
    ensures var swept := Swept(s, now, order).activity;
      swept != [] && swept[|swept| - 1].id == s.nextActivityID + |order|
      && (s.activity != [] ==> s.activity[|s.activity| - 1].id == s.nextActivityID)
  {
    hide TasksOk, AgentsOk, ProjectsOk, ValidUsers, SweptTasks, SweptAgents;
  }

  lemma OneExpired(s: State, now: Time, order: seq<string>)
    requires s.tasks.Keys == {ONE_ID} && Expired(s.tasks[ONE_ID], now) && order == [ONE_ID]
    ensures SweepOrder(s.tasks, now, order) && ExpiredIds(s.tasks, now) != {}
  {
    hide FormatId, IdLess, Expired;
    assert ONE_ID in ExpiredIds(s.tasks, now);
  }

  /** A board on which Recent shows less than after a sweep: a claimed task whose lease
      has run out. */
  lemma RecentMissesExpired(cfg: Config, lease: int, now: Time, limit: int) returns (s: State, order: seq<string>)
    requires MIN_LEASE <= lease <= MAX_LEASE && lease <= now
    ensures WellFormed(s) && SweepOrder(s.tasks, now, order) && (forall id :: id in order ==> id in s.tasks)
    ensures Newest(Swept(s, now, order).activity, Limit(limit)) != Newest(s.activity, Limit(limit))
  {
    hide FormatId, JustClaimed, WellFormed, SweepOrder, ExpiredIds, Newest, Swept, LeasesOk, Held, OfGrant;
    var claim;
    claim, s := OneTaskClaimed(cfg, lease);
    ClaimGrants(cfg, OneTask(), 0, claim, s);
    order := [ONE_ID];
    assert s.tasks.Keys == {ONE_ID};
    OneExpired(s, now, order);
    RecentSeesSweep(s, now, order, limit);
  }
}
