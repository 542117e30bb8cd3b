/** When a loaded board can lose a task to AddTask: ValidateState compares no
    identifier with the project that would issue it (store.go:367-415). */
module BoardOverwrites {
  import opened Basics
  import opened Model
  import opened TaskId
  import opened BoardSpec
  import opened BoardInvariants
  import opened BoardEffects

  // ----- identifiers of any keys ------------------------------------------------

  /** The number is what follows the last dash. */
  lemma LastDash(key: string, n: nat)
    ensures var id := FormatId(key, n);
      id[|key|] == '-' && forall i :: |key| < i < |id| ==> IsDigit(id[i])
  {
    ItoaParses(n);
    var id := FormatId(key, n);
    assert id[|key| + 1..] == Itoa(n);
    assert forall i :: |key| < i < |id| ==> id[i] == id[|key| + 1..][i - |key| - 1];
  }

  /** Identifiers of keys with dashes do not collide either. */
  lemma SameKeyAndNumber(k1: string, n1: nat, k2: string, n2: nat)
    requires FormatId(k1, n1) == FormatId(k2, n2)
    ensures k1 == k2 && n1 == n2
  {
    LastDash(k1, n1);
    LastDash(k2, n2);
    var s := FormatId(k1, n1);
    assert |k1| == |k2|;
    assert k1 == s[..|k1|] && k2 == s[..|k1|];
    assert Itoa(n1) == s[|k1| + 1..] && Itoa(n2) == s[|k1| + 1..];
    ItoaParses(n1);
    ItoaParses(n2);
  }

  // ----- identifiers ahead of the counter ---------------------------------------

  function Counter(projects: map<string, Project>, key: string): int {
    if key in projects then projects[key].nextSeq else 0
  }

  /** A task is filed under an identifier that the key has not issued yet, but can. */
  predicate Ahead(s: State, key: string, n: nat) {
    (key in s.projects || KeyOk(key)) && n > Counter(s.projects, key) && FormatId(key, n) in s.tasks
  }

  ghost predicate SomeAhead(s: State) { exists key, n :: Ahead(s, key, n) }

  ghost predicate Keyed(projects: map<string, Project>) {
    forall key :: key in projects ==> projects[key].key == key && projects[key].nextSeq >= 0
  }

  /** The call is an accepted AddTask, and the board has no more tasks than before. */
  ghost predicate Overwrites(cfg: Config, s: State, c: Call)
    requires Legal(s, c)
  {
    c.op.AddTask? && Do(cfg, s, c).outcome.Ok? && Do(cfg, s, c).state.tasks.Keys == s.tasks.Keys
  }

  ghost predicate SomeOverwrite(cfg: Config, s: State, from: Time, calls: seq<Call>)
    requires Run(cfg, s, from, calls)
    decreases |calls|
  {
    calls != []
    && (Overwrites(cfg, s, calls[0]) || SomeOverwrite(cfg, Do(cfg, s, calls[0]).state, calls[0].now, calls[1..]))
  }

  // ----- what a call does to keys and counters ----------------------------------

  ghost predicate Grown(s: State, op: Op, outcome: Outcome, after: State, now: Time) {
    if outcome.Ok? && op.AddTask? then
      op.project in s.projects
      && var p := s.projects[op.project];
      after.projects == s.projects[op.project := p.(nextSeq := p.nextSeq + 1)]
      && after.tasks.Keys == s.tasks.Keys + {NextId(p)}
    else if outcome.Ok? && op.CreateProject? then
      after.projects == s.projects[op.key := Project(op.key, op.name, 0, now)] && after.tasks.Keys == s.tasks.Keys
    else
      after.projects == s.projects && after.tasks.Keys == s.tasks.Keys
  }

  lemma AddTaskGrows(cfg: Config, s: State, now: Time, op: Op)
    requires Admissible(cfg, op) && op.AddTask?
    ensures Grown(s, op, Apply(cfg, s, now, op).outcome, Apply(cfg, s, now, op).state, now)
  {
    hide NewTask, NextId, CheckParent, DefaultKind, DefaultPriority;
    AddTaskEffect(s, now, op.project, DefaultKind(op.kind), op.parent, op.title, op.description,
                  DefaultPriority(op.priority), op.labels.value, op.actor);
  }

  lemma UpdateGrows(s: State, now: Time, id: string, p: Patch)
    ensures ApplyUpdate(s, now, id, p).state.tasks.Keys == s.tasks.Keys
    ensures ApplyUpdate(s, now, id, p).state.projects == s.projects
  {
    UpdateEffect(s, now, id, p);
  }

  lemma LeaseCallsGrow(cfg: Config, s: State, now: Time, op: Op)
    requires Admissible(cfg, op) && (op.Claim? || op.Release? || op.Complete? || op.Heartbeat?)
    ensures Grown(s, op, Apply(cfg, s, now, op).outcome, Apply(cfg, s, now, op).state, now)
  {
    hide ClaimedTask, ReleasedTask, CompletedTask, Touched, HeldBy, Renewed;
  }

  lemma ApplyGrows(cfg: Config, s: State, now: Time, op: Op)
    requires Admissible(cfg, op)
    ensures Grown(s, op, Apply(cfg, s, now, op).outcome, Apply(cfg, s, now, op).state, now)
    ensures op.CreateProject? && Apply(cfg, s, now, op).outcome.Ok? ==> op.key !in s.projects && KeyOk(op.key)
  {
    hide ApplyAddTask, ApplyUpdate, ApplyClaim, ApplyRelease, ApplyComplete, ApplyHeartbeat, NextId, KeyOk;
    if op.AddTask? {
      AddTaskGrows(cfg, s, now, op);
    } else if op.Update? {
      UpdateGrows(s, now, op.id, op.patch);
    } else if op.Claim? || op.Release? || op.Complete? || op.Heartbeat? {
      LeaseCallsGrow(cfg, s, now, op);
    }
  }

  lemma CallGrows(cfg: Config, s: State, c: Call)
    requires Legal(s, c)
    ensures Grown(s, c.op, Do(cfg, s, c).outcome, Do(cfg, s, c).state, c.now)
    ensures c.op.CreateProject? && Do(cfg, s, c).outcome.Ok? ==> c.op.key !in s.projects && KeyOk(c.op.key)
  {
    hide Apply, KeyOk, NextId;
    if Admissible(cfg, c.op) {
      var s1 := Swept(s, c.now, c.order);
      assert s1.projects == s.projects && s1.tasks.Keys == s.tasks.Keys;
      hide Swept;
      ApplyGrows(cfg, s1, c.now, c.op);
    }
    hide Admissible;
  }

  // ----- without such a task, no run overwrites any -----------------------------

  lemma NotAhead(s: State, op: Op, outcome: Outcome, after: State, now: Time, key: string, n: nat)
    requires Grown(s, op, outcome, after, now) && Keyed(s.projects) && !Ahead(s, key, n)
    requires op.CreateProject? && outcome.Ok? ==> op.key !in s.projects && KeyOk(op.key)
    ensures !Ahead(after, key, n)
  {
    hide KeyOk, FormatId;
    if outcome.Ok? && op.AddTask? {
      var p := s.projects[op.project];
      if FormatId(key, n) == NextId(p) { SameKeyAndNumber(key, n, p.key, p.nextSeq + 1); }
    }
  }

  lemma StaysKeyed(s: State, op: Op, outcome: Outcome, after: State, now: Time)
    requires Grown(s, op, outcome, after, now) && Keyed(s.projects)
    ensures Keyed(after.projects)
  {
    hide FormatId;
  }

  lemma AddsOne(s: State, op: Op, outcome: Outcome, after: State, now: Time)
    requires Grown(s, op, outcome, after, now) && Keyed(s.projects) && !SomeAhead(s) && op.AddTask? && outcome.Ok?
    ensures after.tasks.Keys != s.tasks.Keys
  {
    hide FormatId, KeyOk;
    var p := s.projects[op.project];
    assert !Ahead(s, p.key, p.nextSeq + 1);
    assert NextId(p) in after.tasks.Keys;
  }

  lemma NothingAhead(cfg: Config, s: State, c: Call)
    requires Legal(s, c) && Keyed(s.projects) && !SomeAhead(s)
    ensures !Overwrites(cfg, s, c)
    ensures Keyed(Do(cfg, s, c).state.projects) && !SomeAhead(Do(cfg, s, c).state)
  {
    CallGrows(cfg, s, c);
    hide Do, Ahead, Grown, Keyed, KeyOk;
    var r := Do(cfg, s, c);
    StaysKeyed(s, c.op, r.outcome, r.state, c.now);
    if c.op.AddTask? && r.outcome.Ok? { AddsOne(s, c.op, r.outcome, r.state, c.now); }
    forall key: string, n: nat
      ensures !Ahead(r.state, key, n)
    {
      assert !Ahead(s, key, n);
      NotAhead(s, c.op, r.outcome, r.state, c.now, key, n);
    }
  }

  lemma {:induction false} NoOverwrite(cfg: Config, s: State, from: Time, calls: seq<Call>)
    requires Run(cfg, s, from, calls) && Keyed(s.projects) && !SomeAhead(s)
    ensures !SomeOverwrite(cfg, s, from, calls)
    decreases |calls|
  {
    hide Do, SomeAhead, Overwrites, Keyed;
    if calls != [] {
      NothingAhead(cfg, s, calls[0]);
      NoOverwrite(cfg, Do(cfg, s, calls[0]).state, calls[0].now, calls[1..]);
    }
  }

  // ----- with one, some run does ------------------------------------------------

  ghost predicate Sorted(order: seq<string>) { forall i, j :: 0 <= i < j < |order| ==> !IdLess(order[j], order[i]) }

  lemma {:induction false} InsertSorted(sorted: seq<string>, id: string) returns (more: seq<string>)
    requires Distinct(sorted) && Sorted(sorted) && id !in sorted
    ensures Distinct(more) && Sorted(more) && (forall x :: x in more <==> x in sorted || x == id)
  {
    hide IdLess;
    var k := |sorted| - 1;
    if sorted == [] || !IdLess(id, sorted[k]) {
      more := sorted + [id];
      forall i | 0 <= i < |sorted| ensures !IdLess(id, sorted[i]) {
        if i < k { IdOrderTransitive(sorted[i], sorted[k], id); }
      }
    } else {
      var rest := InsertSorted(sorted[..k], id);
      more := rest + [sorted[k]];
      IdLessOneWay(id, sorted[k]);
      assert sorted == sorted[..k] + [sorted[k]];
      assert forall i :: 0 <= i < |rest| ==> rest[i] in rest;
    }
  }

  lemma {:induction false} SomeOrder(ids: set<string>) returns (order: seq<string>)
    ensures Distinct(order) && Sorted(order) && (forall id :: id in order <==> id in ids)
    decreases |ids|
  {
    if ids == {} {
      order := [];
    } else {
      var id :| id in ids;
      var rest := SomeOrder(ids - {id});
      order := InsertSorted(rest, id);
    }
  }

  const ANYONE := "anyone"

  lemma AnyoneActs()
    ensures ActorOk(ANYONE)
  {
  }

  lemma AnyoneAdds(cfg: Config, s: State, now: Time, key: string) returns (c: Call)
    requires key in s.projects || KeyOk(key)
    ensures c.now == now && Legal(s, c) && Do(cfg, s, c).outcome.Ok?
    ensures if key in s.projects then c.op.AddTask? && c.op.project == key else c.op.CreateProject? && c.op.key == key
  {
    AnyoneActs();
    hide KeyOk, ActorOk, Log, SweptTasks;
    var order := SomeOrder(ExpiredIds(s.tasks, now));
    c := Call(if key in s.projects then AddTask(key, Leaf, "", "t", "", Medium, Some([]), ANYONE)
              else CreateProject(key, "p", ANYONE), now, order);
  }

  lemma StillAhead(s: State, op: Op, after: State, now: Time, key: string, n: nat)
    requires Grown(s, op, Ok, after, now) && Ahead(s, key, n)
    requires if key in s.projects then op.AddTask? && op.project == key else op.CreateProject? && op.key == key
    requires Keyed(s.projects) && (op.AddTask? ==> after.tasks.Keys != s.tasks.Keys)
    ensures Ahead(after, key, n) && key in after.projects
    ensures Counter(after.projects, key) == Counter(s.projects, key) + (if key in s.projects then 1 else 0)
  {
    hide FormatId, KeyOk;
    if key in s.projects {
      assert NextId(s.projects[key]) !in s.tasks.Keys;
    }
    assert FormatId(key, n) in after.tasks.Keys;
  }

  /** Adding tasks to the project until the number is reached. */
  lemma {:induction false} SomeRunOverwrites(cfg: Config, s: State, from: Time, key: string, n: nat)
    returns (calls: seq<Call>)
    requires Keyed(s.projects) && Ahead(s, key, n)
    ensures Run(cfg, s, from, calls) && SomeOverwrite(cfg, s, from, calls)
    decreases n - Counter(s.projects, key), if key in s.projects then 0 else 1
  {
    assert (key in s.projects || KeyOk(key)) && n > Counter(s.projects, key);
    var c := AnyoneAdds(cfg, s, from, key);
    CallGrows(cfg, s, c);
    hide Do, Ahead, Grown, Keyed, KeyOk, Legal, Counter;
    var s1 := Do(cfg, s, c).state;
    if Overwrites(cfg, s, c) {
      calls := [c];
      assert Run(cfg, s1, from, calls[1..]);
    } else {
      StaysKeyed(s, c.op, Ok, s1, from);
      StillAhead(s, c.op, s1, from, key, n);
      var rest := SomeRunOverwrites(cfg, s1, from, key, n);
      calls := [c] + rest;
      assert calls[1..] == rest;
    }
  }

  /** Exactly when some run of calls on a valid board overwrites a task: when a task is
      filed under an identifier that a project, or a key fit for a new one, has yet to
      issue. */
  lemma OverwriteIffAhead(cfg: Config, s: State, from: Time)
    requires ValidState(s)
    ensures (exists calls :: Run(cfg, s, from, calls) && SomeOverwrite(cfg, s, from, calls)) <==> SomeAhead(s)
  {
    assert Keyed(s.projects);
    hide ValidState, Ahead, Run, SomeOverwrite;
    if SomeAhead(s) {
      var key: string, n: nat :| Ahead(s, key, n);
      var calls := SomeRunOverwrites(cfg, s, from, key, n);
    } else {
      forall calls | Run(cfg, s, from, calls)
        ensures !SomeOverwrite(cfg, s, from, calls)
      {
        NoOverwrite(cfg, s, from, calls);
      }
    }
  }
}
