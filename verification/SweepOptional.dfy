/** "Calling Sweep is optional" (board.go:529-531), over whole runs: extra sweeps
    change nothing that later calls can see, except when an expired task was
    written and how the log orders and numbers the expirations of one gap. */
module SweepOptional {
  import opened Basics
  import opened Model
  import opened BoardSpec
  import opened BoardEffects

  // ----- what a reader can see ----------------------------------------------

  /** An expiration, without its number and time. */
  datatype Lapse = Lapse(taskID: string, detail: Detail)

  /** The log as its entries other than expirations, each with the expirations
      logged since the one before; `open` holds the expirations after the last. */
  datatype Blocks = Blocks(closed: seq<(multiset<Lapse>, Activity)>, open: multiset<Lapse>)

  /** The board without the times of sweeps: `rest` is the state with an empty
      log, and with no update time on tasks as a sweep leaves them. */
  datatype Core = Core(rest: State, log: Blocks)

  predicate IsLapse(e: Activity) { e.action == LeaseExpired && e.actor == SYSTEM }

  function Append(b: Blocks, e: Activity): Blocks {
    if IsLapse(e) then b.(open := b.open + multiset{Lapse(e.taskID, e.detail)})
    else Blocks(b.closed + [(b.open, e)], multiset{})
  }

  function InBlocks(log: seq<Activity>): Blocks {
    if log == [] then Blocks([], multiset{}) else Append(InBlocks(log[..|log| - 1]), log[|log| - 1])
  }

  /** A task as a sweep leaves it. One that an agent of the name "system" released
      looks the same. */
  predicate LooksSwept(t: Task) {
    t.updatedBy == SYSTEM && t.status == Todo && t.assignee == "" && t.leaseExpires.None? && t.leaseSeconds == 0
  }

  function Timeless(t: Task): Task {
    if LooksSwept(t) then t.(updatedAt := 0) else t
  }

  function TimelessTasks(tasks: map<string, Task>): map<string, Task> {
    map id | id in tasks :: Timeless(tasks[id])
  }

  function CoreOf(s: State): Core {
    Core(s.(tasks := TimelessTasks(s.tasks), activity := []), InBlocks(s.activity))
  }

  // ----- what equal cores show ---------------------------------------------------

  predicate SweepWrote(e: Activity) { e.action == LeaseExpired && e.actor == "system" }

  /** The entries other than expirations, in order. */
  function Others(log: seq<Activity>): seq<Activity> {
    if log == [] then []
    else Others(log[..|log| - 1]) + (if SweepWrote(log[|log| - 1]) then [] else [log[|log| - 1]])
  }

  /** How often each task was released by a sweep, and from whom. */
  function Releases(log: seq<Activity>): multiset<(string, Detail)> {
    if log == [] then multiset{}
    else
      var e := log[|log| - 1];
      Releases(log[..|log| - 1]) + (if SweepWrote(e) then multiset{(e.taskID, e.detail)} else multiset{})
  }

  function Closing(closed: seq<(multiset<Lapse>, Activity)>): seq<Activity> {
    if closed == [] then [] else Closing(closed[..|closed| - 1]) + [closed[|closed| - 1].1]
  }

  function LapseSum(closed: seq<(multiset<Lapse>, Activity)>): multiset<Lapse> {
    if closed == [] then multiset{} else LapseSum(closed[..|closed| - 1]) + closed[|closed| - 1].0
  }

  lemma {:induction false} BlocksHold(log: seq<Activity>, id: string, d: Detail)
    ensures Others(log) == Closing(InBlocks(log).closed)
    ensures Releases(log)[(id, d)] == (LapseSum(InBlocks(log).closed) + InBlocks(log).open)[Lapse(id, d)]
  {
    if log != [] {
      var front, e := log[..|log| - 1], log[|log| - 1];
      BlocksHold(front, id, d);
      var b := InBlocks(front);
      if !IsLapse(e) {
        var closed := b.closed + [(b.open, e)];
        assert closed[..|closed| - 1] == b.closed;
      }
    }
  }

  /** A task as a sweep leaves it may bear another time; everything else is the same. */
  predicate SameTask(t: Task, u: Task) {
    || u == t
    || (u == t.(updatedAt := u.updatedAt) && t.updatedBy == "system" && t.status == Todo && t.assignee == ""
        && t.leaseExpires.None? && t.leaseSeconds == 0)
  }

  /** Boards with the same core have the same projects, agents, users and counters, the same
      tasks, and logs with the same entries in the same order, but for the expirations,
      which are as many, of the same tasks and assignees. */
  lemma SameCoreShows(s: State, s': State)
    requires CoreOf(s) == CoreOf(s')
    ensures s' == s.(tasks := s'.tasks, activity := s'.activity)
    ensures s'.tasks.Keys == s.tasks.Keys && forall id :: id in s.tasks ==> SameTask(s.tasks[id], s'.tasks[id])
    ensures Others(s.activity) == Others(s'.activity) && Releases(s.activity) == Releases(s'.activity)
  {
    assert TimelessTasks(s.tasks).Keys == s.tasks.Keys && TimelessTasks(s'.tasks).Keys == s'.tasks.Keys;
    forall id | id in s.tasks
      ensures SameTask(s.tasks[id], s'.tasks[id])
    {
      assert TimelessTasks(s.tasks)[id] == TimelessTasks(s'.tasks)[id];
    }
    BlocksHold(s.activity, "", NoDetail);
    BlocksHold(s'.activity, "", NoDetail);
    forall p: (string, Detail)
      ensures Releases(s.activity)[p] == Releases(s'.activity)[p]
    {
      BlocksHold(s.activity, p.0, p.1);
      BlocksHold(s'.activity, p.0, p.1);
    }
    hide InBlocks, Others, Releases, LapseSum, Closing;
  }

  // ----- the expirations of one sweep ------------------------------------------

  function LapseOf(tasks: map<string, Task>, id: string): Lapse
    requires id in tasks
  {
    Lapse(id, ReleasedFrom(tasks[id].assignee))
  }

  ghost function Lapses(tasks: map<string, Task>, now: Time): set<Lapse> {
    set id | id in ExpiredIds(tasks, now) :: LapseOf(tasks, id)
  }

  lemma InBlocksAppend(log: seq<Activity>, e: Activity)
    ensures InBlocks(log + [e]) == Append(InBlocks(log), e)
  {
    assert (log + [e])[..|log|] == log;
  }

  ghost function LapsesAlong(tasks: map<string, Task>, order: seq<string>): set<Lapse>
    requires forall id :: id in order ==> id in tasks
  {
    set id | id in order :: LapseOf(tasks, id)
  }

  lemma LapsesAlongOneMore(tasks: map<string, Task>, front: seq<string>, id: string)
    requires (forall i :: i in front ==> i in tasks) && id in tasks && id !in front
    ensures multiset(LapsesAlong(tasks, front + [id]))
         == multiset(LapsesAlong(tasks, front)) + multiset{LapseOf(tasks, id)}
    ensures |LapsesAlong(tasks, front + [id])| == |LapsesAlong(tasks, front)| + 1
  {
    assert LapsesAlong(tasks, front + [id]) == LapsesAlong(tasks, front) + {LapseOf(tasks, id)};
    assert LapseOf(tasks, id) !in LapsesAlong(tasks, front);
  }

  lemma OneMoreExpiration(log: seq<Activity>, tasks: map<string, Task>, now: Time, next: int, front: seq<string>,
                          id: string)
    requires (forall i :: i in front ==> i in tasks) && id in tasks
    ensures InBlocks(log + Expirations(tasks, now, next, front + [id]))
         == var b := InBlocks(log + Expirations(tasks, now, next, front));
            Blocks(b.closed, b.open + multiset{LapseOf(tasks, id)})
  {
    var order := front + [id];
    var e := Activity(next + |order|, now, SYSTEM, id, LeaseExpired, ReleasedFrom(tasks[id].assignee));
    assert order[..|order| - 1] == front;
    var before := log + Expirations(tasks, now, next, front);
    assert log + Expirations(tasks, now, next, order) == before + [e];
    InBlocksAppend(before, e);
  }

  lemma {:induction false} ExpirationsInBlocks(log: seq<Activity>, tasks: map<string, Task>, now: Time, next: int,
                                               order: seq<string>)
    requires (forall id :: id in order ==> id in tasks) && Distinct(order)
    ensures InBlocks(log + Expirations(tasks, now, next, order))
         == Blocks(InBlocks(log).closed, InBlocks(log).open + multiset(LapsesAlong(tasks, order)))
    ensures |LapsesAlong(tasks, order)| == |order|
  {
    if order == [] {
      assert log + [] == log;
    } else {
      var front, id := order[..|order| - 1], order[|order| - 1];
      assert order == front + [id];
      ExpirationsInBlocks(log, tasks, now, next, front);
      LapsesAlongOneMore(tasks, front, id);
      OneMoreExpiration(log, tasks, now, next, front, id);
    }
  }

  /** In which order a sweep visits the expired tasks cannot be seen afterwards. */
  lemma SweptCore(s: State, now: Time, order: seq<string>)
    requires Visits(s.tasks, now, order)
    ensures CoreOf(Swept(s, now, order)) ==
      Core(s.(tasks := TimelessTasks(SweptTasks(s.tasks, now)), agents := SweptAgents(s.tasks, s.agents, now),
              activity := [], nextActivityID := s.nextActivityID + |Lapses(s.tasks, now)|),
           Blocks(InBlocks(s.activity).closed, InBlocks(s.activity).open + multiset(Lapses(s.tasks, now))))
  {
    ExpirationsInBlocks(s.activity, s.tasks, now, s.nextActivityID, order);
    assert LapsesAlong(s.tasks, order) == Lapses(s.tasks, now);
  }

  // ----- sweeps absorb earlier sweeps --------------------------------------------

  lemma SweepTwiceTasks(tasks: map<string, Task>, t1: Time, t2: Time)
    requires t1 <= t2
    ensures TimelessTasks(SweptTasks(SweptTasks(tasks, t1), t2)) == TimelessTasks(SweptTasks(tasks, t2))
    ensures ExpiredIds(tasks, t2) == ExpiredIds(tasks, t1) + ExpiredIds(SweptTasks(tasks, t1), t2)
    ensures ExpiredIds(tasks, t1) !! ExpiredIds(SweptTasks(tasks, t1), t2)
  {
  }

  lemma SweepTwiceAgents(tasks: map<string, Task>, agents: map<string, Agent>, t1: Time, t2: Time)
    requires t1 <= t2
    ensures SweptAgents(SweptTasks(tasks, t1), SweptAgents(tasks, agents, t1), t2) == SweptAgents(tasks, agents, t2)
  {
  }

  lemma SweepTwiceLapses(tasks: map<string, Task>, t1: Time, t2: Time)
    requires t1 <= t2
    ensures Lapses(tasks, t2) == Lapses(tasks, t1) + Lapses(SweptTasks(tasks, t1), t2)
    ensures Lapses(tasks, t1) !! Lapses(SweptTasks(tasks, t1), t2)
  {
    SweepTwiceTasks(tasks, t1, t2);
    var later := SweptTasks(tasks, t1);
    assert forall id :: id in ExpiredIds(later, t2) ==> LapseOf(later, id) == LapseOf(tasks, id);
  }

  /** A sweep at t1 followed by one at t2 shows the same board as the second alone. */
  lemma SweepAbsorbs(s: State, t1: Time, o1: seq<string>, t2: Time, o2: seq<string>, o: seq<string>)
    requires t1 <= t2 && Visits(s.tasks, t1, o1) && Visits(s.tasks, t2, o)
    requires Visits(Swept(s, t1, o1).tasks, t2, o2)
    ensures CoreOf(Swept(Swept(s, t1, o1), t2, o2)) == CoreOf(Swept(s, t2, o))
  {
    var s1 := Swept(s, t1, o1);
    SweptCore(s, t1, o1);
    SweptCore(s1, t2, o2);
    SweptCore(s, t2, o);
    SweepTwiceTasks(s.tasks, t1, t2);
    SweepTwiceAgents(s.tasks, s.agents, t1, t2);
    SweepTwiceLapses(s.tasks, t1, t2);
  }

  // ----- calls cannot tell boards with the same core apart -------------------------

  lemma TimelessSame(t: Task, t': Task)
    requires Timeless(t) == Timeless(t')
    ensures t.(updatedAt := 0) == t'.(updatedAt := 0)
  {
  }

  lemma SameCoreTasks(s: State, s': State)
    requires CoreOf(s) == CoreOf(s')
    ensures s.tasks.Keys == s'.tasks.Keys
    ensures forall id :: id in s.tasks ==> Timeless(s.tasks[id]) == Timeless(s'.tasks[id])
    ensures forall id :: id in s.tasks ==> s.tasks[id].(updatedAt := 0) == s'.tasks[id].(updatedAt := 0)
    ensures s'.projects == s.projects && s'.agents == s.agents && s'.users == s.users && s'.version == s.version
    ensures s'.nextActivityID == s.nextActivityID && s'.archivedThrough == s.archivedThrough
    ensures InBlocks(s'.activity) == InBlocks(s.activity)
  {
    hide InBlocks, Timeless;
    var r, r' := CoreOf(s).rest, CoreOf(s').rest;
    assert r.tasks == TimelessTasks(s.tasks) && r'.tasks == TimelessTasks(s'.tasks);
    assert r.tasks.Keys == s.tasks.Keys && r'.tasks.Keys == s'.tasks.Keys;
    forall id | id in s.tasks
      ensures Timeless(s.tasks[id]) == Timeless(s'.tasks[id])
    {
      assert r.tasks[id] == Timeless(s.tasks[id]) && r'.tasks[id] == Timeless(s'.tasks[id]);
    }
    forall id | id in s.tasks
      ensures s.tasks[id].(updatedAt := 0) == s'.tasks[id].(updatedAt := 0)
    {
      TimelessSame(s.tasks[id], s'.tasks[id]);
    }
    assert r.projects == s.projects && r'.projects == s'.projects;
  }

  lemma SameCoreParts(tasks: map<string, Task>, tasks': map<string, Task>, agents: map<string, Agent>, now: Time)
    requires tasks.Keys == tasks'.Keys
    requires forall id :: id in tasks ==> Timeless(tasks[id]) == Timeless(tasks'[id])
    requires forall id :: id in tasks ==> tasks[id].(updatedAt := 0) == tasks'[id].(updatedAt := 0)
    ensures Lapses(tasks, now) == Lapses(tasks', now)
    ensures SweptAgents(tasks, agents, now) == SweptAgents(tasks', agents, now)
    ensures TimelessTasks(SweptTasks(tasks, now)) == TimelessTasks(SweptTasks(tasks', now))
  {
    forall id | id in tasks
      ensures Expired(tasks[id], now) == Expired(tasks'[id], now) && tasks[id].assignee == tasks'[id].assignee
      ensures Timeless(SweptTasks(tasks, now)[id]) == Timeless(SweptTasks(tasks', now)[id])
    {
      assert tasks[id] == tasks'[id].(updatedAt := tasks[id].updatedAt);
    }
    assert ExpiredIds(tasks, now) == ExpiredIds(tasks', now);
  }

  lemma SameCoreSwept(s: State, s': State, now: Time, o: seq<string>, o': seq<string>)
    requires CoreOf(s) == CoreOf(s') && Visits(s.tasks, now, o) && Visits(s'.tasks, now, o')
    ensures CoreOf(Swept(s, now, o)) == CoreOf(Swept(s', now, o'))
  {
    SameCoreTasks(s, s');
    SweptCore(s, now, o);
    SweptCore(s', now, o');
    SameCoreParts(s.tasks, s'.tasks, s.agents, now);
  }

  lemma SameLog(s: State, s': State, now: Time, actor: string, taskID: string, action: Action, detail: Detail)
    requires CoreOf(s) == CoreOf(s')
    ensures CoreOf(Log(s, now, actor, taskID, action, detail)) == CoreOf(Log(s', now, actor, taskID, action, detail))
  {
    SameCoreTasks(s, s');
    var e := Activity(s.nextActivityID + 1, now, actor, taskID, action, detail);
    InBlocksAppend(s.activity, e);
    InBlocksAppend(s'.activity, e);
  }

  lemma SamePut(s: State, s': State, id: string, t: Task, t': Task)
    requires CoreOf(s) == CoreOf(s') && Timeless(t) == Timeless(t')
    ensures CoreOf(s.(tasks := s.tasks[id := t])) == CoreOf(s'.(tasks := s'.tasks[id := t']))
  {
    hide InBlocks, Timeless;
    SameCoreTasks(s, s');
    assert TimelessTasks(s.tasks[id := t]) == TimelessTasks(s'.tasks[id := t']);
  }

  lemma SameAgents(s: State, s': State, agents: map<string, Agent>)
    requires CoreOf(s) == CoreOf(s')
    ensures CoreOf(s.(agents := agents)) == CoreOf(s'.(agents := agents))
  {
    SameCoreTasks(s, s');
  }

  lemma SameClear(s: State, s': State, agent: string, taskID: string)
    requires CoreOf(s) == CoreOf(s')
    ensures CoreOf(ClearCurrent(s, agent, taskID)) == CoreOf(ClearCurrent(s', agent, taskID))
  {
    SameCoreTasks(s, s');
    if agent in s.agents {
      SameAgents(s, s', s.agents[agent := s.agents[agent].(currentTask := "")]);
    }
  }

  /** Two boards answer a call alike when the replies agree in all but sweep times. */
  ghost predicate SameReply(r: Reply, r': Reply) {
    r.outcome == r'.outcome && CoreOf(r.state) == CoreOf(r'.state)
  }

  lemma SameCheckParent(s: State, s': State, project: string, kind: Kind, parent: string)
    requires CoreOf(s) == CoreOf(s')
    ensures CheckParent(s, project, kind, parent) == CheckParent(s', project, kind, parent)
  {
    SameCoreTasks(s, s');
    if parent in s.tasks { assert s.tasks[parent] == s'.tasks[parent].(updatedAt := s.tasks[parent].updatedAt); }
  }

  lemma SamePutLog(s: State, s': State, t: Task, now: Time, actor: string, action: Action, detail: Detail)
    requires CoreOf(s) == CoreOf(s')
    ensures CoreOf(Log(PutTask(s, t), now, actor, t.id, action, detail))
         == CoreOf(Log(PutTask(s', t), now, actor, t.id, action, detail))
  {
    SamePut(s, s', t.id, t, t);
    SameLog(PutTask(s, t), PutTask(s', t), now, actor, t.id, action, detail);
  }

  /** The board with the counter of a project moved on. */
  function Counted(s: State, project: string): State
    requires project in s.projects
  {
    s.(projects := s.projects[project := s.projects[project].(nextSeq := s.projects[project].nextSeq + 1)])
  }

  lemma AddTaskByCases(s: State, now: Time, project: string, kind: Kind, parent: string, title: string,
                       description: string, priority: Priority, labels: seq<string>, actor: string)
    requires project in s.projects
    ensures var p := s.projects[project];
      var refused := CheckParent(s, p.key, kind, parent);
      var t := NewTask(p, now, kind, parent, title, description, priority, labels, actor);
      ApplyAddTask(s, now, project, kind, parent, title, description, priority, labels, actor) ==
        if refused.Some? then Fail(s, refused.value)
        else Reply(Log(PutTask(Counted(s, project), t), now, actor, t.id, TaskCreated, Text(title)), Ok, true)
  {
    hide Log, PutTask, NewTask, CheckParent;
  }

  lemma SameAddTask(s: State, s': State, now: Time, project: string, kind: Kind, parent: string, title: string,
                    description: string, priority: Priority, labels: seq<string>, actor: string)
    requires CoreOf(s) == CoreOf(s')
    ensures SameReply(ApplyAddTask(s, now, project, kind, parent, title, description, priority, labels, actor),
                      ApplyAddTask(s', now, project, kind, parent, title, description, priority, labels, actor))
  {
    assert s.projects == s'.projects by { SameCoreTasks(s, s'); }
    hide CoreOf, NewTask, PutTask, Log, CheckParent;
    if project in s.projects {
      var p := s.projects[project];
      AddTaskByCases(s, now, project, kind, parent, title, description, priority, labels, actor);
      AddTaskByCases(s', now, project, kind, parent, title, description, priority, labels, actor);
      hide ApplyAddTask;
      SameCheckParent(s, s', p.key, kind, parent);
      SameProjects(s, s', Counted(s, project).projects);
      hide Counted;
      SamePutLog(Counted(s, project), Counted(s', project),
                 NewTask(p, now, kind, parent, title, description, priority, labels, actor),
                 now, actor, TaskCreated, Text(title));
    }
  }

  lemma SameProjects(s: State, s': State, projects: map<string, Project>)
    requires CoreOf(s) == CoreOf(s')
    ensures CoreOf(s.(projects := projects)) == CoreOf(s'.(projects := projects))
  {
    hide InBlocks, TimelessTasks;
    SameCoreTasks(s, s');
  }

  lemma SameClaim(s: State, s': State, now: Time, id: string, agent: string, lease: int)
    requires CoreOf(s) == CoreOf(s')
    ensures SameReply(ApplyClaim(s, now, id, agent, lease), ApplyClaim(s', now, id, agent, lease))
  {
    SameCoreTasks(s, s');
    if ApplyClaim(s, now, id, agent, lease).outcome.Ok? {
      var t, t' := s.tasks[id], s'.tasks[id];
      var c, c' := ClaimedTask(t, now, agent, lease), ClaimedTask(t', now, agent, lease);
      SamePut(s, s', id, c, c');
      var s1, s1' := s.(tasks := s.tasks[id := c]), s'.(tasks := s'.tasks[id := c']);
      SameAgents(s1, s1', TouchAgent(s1, agent, "", id, now).agents);
      var renewal := t.assignee == agent && t.status == InProgress;
      SameLog(TouchAgent(s1, agent, "", id, now), TouchAgent(s1', agent, "", id, now), now, agent, id,
              if renewal then LeaseRenewed else LeaseClaimed, LeaseOf(lease));
    }
  }

  lemma SameTaskAt(s: State, s': State, id: string)
    requires CoreOf(s) == CoreOf(s')
    ensures id in s.tasks <==> id in s'.tasks
    ensures id in s.tasks ==> Timeless(s.tasks[id]) == Timeless(s'.tasks[id])
                              && s.tasks[id] == s'.tasks[id].(updatedAt := s.tasks[id].updatedAt)
  {
    SameCoreTasks(s, s');
    hide CoreOf, Timeless;
    if id in s.tasks { assert s.tasks[id].(updatedAt := 0) == s'.tasks[id].(updatedAt := 0); }
  }

  lemma SameFinish(s: State, s': State, id: string, t: Task, t': Task, now: Time, who: string, actor: string,
                   action: Action)
    requires CoreOf(s) == CoreOf(s') && Timeless(t) == Timeless(t')
    ensures CoreOf(Log(ClearCurrent(s.(tasks := s.tasks[id := t]), who, id), now, actor, id, action, NoDetail))
         == CoreOf(Log(ClearCurrent(s'.(tasks := s'.tasks[id := t']), who, id), now, actor, id, action, NoDetail))
  {
    hide CoreOf, Log, ClearCurrent, Timeless;
    SamePut(s, s', id, t, t');
    var s1, s1' := s.(tasks := s.tasks[id := t]), s'.(tasks := s'.tasks[id := t']);
    SameClear(s1, s1', who, id);
    SameLog(ClearCurrent(s1, who, id), ClearCurrent(s1', who, id), now, actor, id, action, NoDetail);
  }

  lemma SameReleased(t: Task, t': Task, now: Time, agent: string)
    requires t == t'.(updatedAt := t.updatedAt)
    ensures Timeless(ReleasedTask(t, now, agent)) == Timeless(ReleasedTask(t', now, agent))
    ensures Timeless(CompletedTask(t, now, agent)) == Timeless(CompletedTask(t', now, agent))
    ensures CompletedTask(t, now, agent).assignee == CompletedTask(t', now, agent).assignee
  {
  }

  function ReleaseRefusal(t: Task, agent: string): Option<ErrorKind> {
    if t.assignee == "" then Some(Invalid) else if t.assignee != agent then Some(NotOwner) else None
  }

  function CompleteRefusal(t: Task, agent: string): Option<ErrorKind> {
    if t.assignee != "" && t.assignee != agent && t.leaseExpires.Some? then Some(NotOwner)
    else if t.status == Done then Some(Invalid) else None
  }

  lemma ReleaseByCases(s: State, now: Time, id: string, agent: string)
    requires id in s.tasks
    ensures var t := s.tasks[id];
      ApplyRelease(s, now, id, agent) ==
        if ReleaseRefusal(t, agent).Some? then Fail(s, ReleaseRefusal(t, agent).value)
        else Reply(Log(ClearCurrent(s.(tasks := s.tasks[id := ReleasedTask(t, now, agent)]), agent, id),
                       now, agent, id, LeaseReleased, NoDetail), Ok, true)
  {
    hide Log, ClearCurrent, ReleasedTask;
  }

  lemma CompleteByCases(s: State, now: Time, id: string, agent: string)
    requires id in s.tasks
    ensures var t, done := s.tasks[id], CompletedTask(s.tasks[id], now, agent);
      ApplyComplete(s, now, id, agent) ==
        if CompleteRefusal(t, agent).Some? then Fail(s, CompleteRefusal(t, agent).value)
        else Reply(Log(ClearCurrent(s.(tasks := s.tasks[id := done]), done.assignee, id),
                       now, agent, id, TaskDone, NoDetail), Ok, true)
  {
    hide Log, ClearCurrent, CompletedTask;
  }

  lemma SameRefusals(t: Task, t': Task, agent: string)
    requires t == t'.(updatedAt := t.updatedAt)
    ensures ReleaseRefusal(t, agent) == ReleaseRefusal(t', agent)
    ensures CompleteRefusal(t, agent) == CompleteRefusal(t', agent)
  {
  }

  lemma SameRelease(s: State, s': State, now: Time, id: string, agent: string)
    requires CoreOf(s) == CoreOf(s')
    ensures SameReply(ApplyRelease(s, now, id, agent), ApplyRelease(s', now, id, agent))
  {
    SameTaskAt(s, s', id);
    if id in s.tasks {
      var t, t' := s.tasks[id], s'.tasks[id];
      ReleaseByCases(s, now, id, agent);
      ReleaseByCases(s', now, id, agent);
      SameRefusals(t, t', agent);
      hide CoreOf, Log, ClearCurrent, Timeless, ReleasedTask, ApplyRelease, ReleaseRefusal;
      SameReleased(t, t', now, agent);
      SameFinish(s, s', id, ReleasedTask(t, now, agent), ReleasedTask(t', now, agent), now, agent, agent,
                 LeaseReleased);
    }
  }

  lemma SameComplete(s: State, s': State, now: Time, id: string, agent: string)
    requires CoreOf(s) == CoreOf(s')
    ensures SameReply(ApplyComplete(s, now, id, agent), ApplyComplete(s', now, id, agent))
  {
    SameTaskAt(s, s', id);
    if id in s.tasks {
      var t, t' := s.tasks[id], s'.tasks[id];
      CompleteByCases(s, now, id, agent);
      CompleteByCases(s', now, id, agent);
      SameRefusals(t, t', agent);
      hide CoreOf, Log, ClearCurrent, Timeless, CompletedTask, ApplyComplete, CompleteRefusal;
      SameReleased(t, t', now, agent);
      var done, done' := CompletedTask(t, now, agent), CompletedTask(t', now, agent);
      SameFinish(s, s', id, done, done', now, done.assignee, agent, TaskDone);
    }
  }

  lemma SameNoted(s: State, s': State, now: Time, id: string, t: Task, t': Task, p: Patch, changed: seq<string>)
    requires CoreOf(s) == CoreOf(s') && t.(updatedAt := 0) == t'.(updatedAt := 0)
    ensures CoreOf(UpdateNoted(s, now, id, t, p, changed)) == CoreOf(UpdateNoted(s', now, id, t', p, changed))
  {
    assert t == t'.(updatedAt := t.updatedAt);
    var detail := ChangedFields(changed);
    SameLog(s, s', now, p.actor, id, FieldsUpdated, detail);
    var s1 := if changed != [] then Log(s, now, p.actor, id, FieldsUpdated, detail) else s;
    var s1' := if changed != [] then Log(s', now, p.actor, id, FieldsUpdated, detail) else s';
    SameClear(s1, s1', t.assignee, t.id);
    var s2 := if t.status == InProgress then ClearCurrent(s1, t.assignee, t.id) else s1;
    var s2' := if t.status == InProgress then ClearCurrent(s1', t.assignee, t.id) else s1';
    if Moves(t, p) { SameLog(s2, s2', now, p.actor, id, StatusMoved, MovedFromTo(t.status, p.status.value)); }
  }

  lemma SameUpdatedTask(t: Task, t': Task, now: Time, p: Patch)
    requires t.(updatedAt := 0) == t'.(updatedAt := 0)
    ensures Changed(t, p) == Changed(t', p) && Moves(t, p) == Moves(t', p)
    ensures UpdatedTask(t, now, p) == UpdatedTask(t', now, p)
  {
    assert t == t'.(updatedAt := t.updatedAt);
  }

  lemma SameRefusal(s: State, s': State, t: Task, t': Task, p: Patch)
    requires CoreOf(s) == CoreOf(s') && t.(updatedAt := 0) == t'.(updatedAt := 0)
    ensures UpdateRefusal(s, t, p) == UpdateRefusal(s', t', p)
  {
    assert t == t'.(updatedAt := t.updatedAt);
    if p.parent.Some? { SameCheckParent(s, s', t.project, t.kind, p.parent.value); }
  }

  lemma SameUpdate(s: State, s': State, now: Time, id: string, p: Patch)
    requires CoreOf(s) == CoreOf(s')
    ensures SameReply(ApplyUpdate(s, now, id, p), ApplyUpdate(s', now, id, p))
  {
    assert id in s.tasks <==> id in s'.tasks by { SameCoreTasks(s, s'); }
    if id in s.tasks {
      var t, t' := s.tasks[id], s'.tasks[id];
      assert t.(updatedAt := 0) == t'.(updatedAt := 0) by { SameCoreTasks(s, s'); }
      SameRefusal(s, s', t, t', p);
      SameUpdatedTask(t, t', now, p);
      SameNoted(s, s', now, id, t, t', p, Changed(t, p));
      SamePut(UpdateNoted(s, now, id, t, p, Changed(t, p)), UpdateNoted(s', now, id, t', p, Changed(t, p)),
              id, UpdatedTask(t, now, p), UpdatedTask(t', now, p));
    }
  }

  lemma SameComment(s: State, s': State, now: Time, id: string, actor: string, text: string)
    requires CoreOf(s) == CoreOf(s')
    ensures SameReply(ApplyComment(s, now, id, actor, text), ApplyComment(s', now, id, actor, text))
  {
    SameTaskAt(s, s', id);
    if id in s.tasks {
      var t := s.tasks[id].(updatedAt := now, updatedBy := actor);
      var t' := s'.tasks[id].(updatedAt := now, updatedBy := actor);
      SamePut(s, s', id, t, t');
      SameLog(s.(tasks := s.tasks[id := t]), s'.(tasks := s'.tasks[id := t']), now, actor, id, Commented, Text(text));
    }
  }

  lemma SameRenewed(cfg: Config, tasks: map<string, Task>, tasks': map<string, Task>, name: string, now: Time)
    requires tasks.Keys == tasks'.Keys
    requires forall id :: id in tasks ==> Timeless(tasks[id]) == Timeless(tasks'[id])
    requires forall id :: id in tasks ==> tasks[id].(updatedAt := 0) == tasks'[id].(updatedAt := 0)
    ensures TimelessTasks(RenewAll(cfg, tasks, name, now)) == TimelessTasks(RenewAll(cfg, tasks', name, now))
  {
    hide HeldBy, Renewed, Timeless;
    var a, a' := RenewAll(cfg, tasks, name, now), RenewAll(cfg, tasks', name, now);
    forall id | id in tasks
      ensures Timeless(a[id]) == Timeless(a'[id])
    {
      SameRenewal(cfg, tasks[id], tasks'[id], name, now);
    }
  }

  lemma SameRenewal(cfg: Config, t: Task, t': Task, name: string, now: Time)
    requires Timeless(t) == Timeless(t') && t.(updatedAt := 0) == t'.(updatedAt := 0)
    ensures HeldBy(t, name) == HeldBy(t', name)
    ensures HeldBy(t, name) ==> Timeless(Renewed(cfg, t, now)) == Timeless(Renewed(cfg, t', now))
  {
    assert t == t'.(updatedAt := t.updatedAt);
  }

  lemma SameAllTasks(s: State, s': State, tasks: map<string, Task>, tasks': map<string, Task>)
    requires CoreOf(s) == CoreOf(s') && TimelessTasks(tasks) == TimelessTasks(tasks')
    ensures CoreOf(s.(tasks := tasks)) == CoreOf(s'.(tasks := tasks'))
  {
    hide InBlocks, TimelessTasks;
    SameCoreTasks(s, s');
  }

  function HeartbeatRefusal(s: State, name: string, task: string): Option<ErrorKind> {
    if task != "" && task !in s.tasks then Some(NotFound)
    else if task != "" && s.tasks[task].assignee != name then Some(NotOwner) else None
  }

  /** The board with the agent's record and leases renewed. */
  function Beaten(cfg: Config, s: State, now: Time, name: string, a: Agent): State {
    s.(agents := s.agents[name := a], tasks := RenewAll(cfg, s.tasks, name, now))
  }

  lemma HeartbeatByCases(cfg: Config, s: State, now: Time, name: string, kind: string, task: string,
                         meta: Option<map<string, string>>)
    ensures var a := Touched(s, name, kind, task, now);
      ApplyHeartbeat(cfg, s, now, name, kind, task, meta) ==
        if HeartbeatRefusal(s, name, task).Some? then Fail(s, HeartbeatRefusal(s, name, task).value)
        else Reply(Beaten(cfg, s, now, name, if meta.Some? then a.(meta := meta) else a), Ok, true)
  {
    hide Touched, RenewAll;
  }

  lemma SameBeaten(cfg: Config, s: State, s': State, now: Time, name: string, a: Agent)
    requires CoreOf(s) == CoreOf(s')
    ensures CoreOf(Beaten(cfg, s, now, name, a)) == CoreOf(Beaten(cfg, s', now, name, a))
  {
    SameCoreTasks(s, s');
    SameRenewed(cfg, s.tasks, s'.tasks, name, now);
    hide CoreOf, RenewAll, TimelessTasks, Timeless;
    var agents := s.agents[name := a];
    SameAgents(s, s', agents);
    SameAllTasks(s.(agents := agents), s'.(agents := agents), RenewAll(cfg, s.tasks, name, now),
                 RenewAll(cfg, s'.tasks, name, now));
  }

  lemma SameHeartbeat(cfg: Config, s: State, s': State, now: Time, name: string, kind: string, task: string,
                      meta: Option<map<string, string>>)
    requires CoreOf(s) == CoreOf(s')
    ensures SameReply(ApplyHeartbeat(cfg, s, now, name, kind, task, meta),
                      ApplyHeartbeat(cfg, s', now, name, kind, task, meta))
  {
    SameTaskAt(s, s', task);
    assert HeartbeatRefusal(s, name, task) == HeartbeatRefusal(s', name, task);
    assert s.agents == s'.agents by { SameCoreTasks(s, s'); }
    HeartbeatByCases(cfg, s, now, name, kind, task, meta);
    HeartbeatByCases(cfg, s', now, name, kind, task, meta);
    SameTouched(s, s', name, kind, task, now);
    hide CoreOf, ApplyHeartbeat, HeartbeatRefusal, Beaten, Touched;
    var a := Touched(s, name, kind, task, now);
    SameBeaten(cfg, s, s', now, name, if meta.Some? then a.(meta := meta) else a);
  }

  lemma SameTouched(s: State, s': State, name: string, kind: string, task: string, now: Time)
    requires s.agents == s'.agents
    ensures Touched(s, name, kind, task, now) == Touched(s', name, kind, task, now)
  {
  }

  lemma SameApply(cfg: Config, s: State, s': State, now: Time, op: Op)
    requires CoreOf(s) == CoreOf(s') && Admissible(cfg, op)
    ensures SameReply(Apply(cfg, s, now, op), Apply(cfg, s', now, op))
  {
    match op
    case AddTask(project, kind, parent, title, description, priority, labels, actor) =>
      SameAddTask(s, s', now, project, DefaultKind(kind), parent, title, description,
                  DefaultPriority(priority), labels.value, actor);
    case Claim(id, agent, lease) => SameClaim(s, s', now, id, agent, EffectiveLease(cfg, lease));
    case Release(id, agent) => SameRelease(s, s', now, id, agent);
    case Complete(id, agent) => SameComplete(s, s', now, id, agent);
    case Update(id, p) => SameUpdate(s, s', now, id, p);
    case Comment(id, actor, text) => SameComment(s, s', now, id, actor, text);
    case Heartbeat(name, kind, task, meta) => SameHeartbeat(cfg, s, s', now, name, kind, task, meta);
    case _ => SameApplyRest(cfg, s, s', now, op);
  }

  lemma SameApplyRest(cfg: Config, s: State, s': State, now: Time, op: Op)
    requires CoreOf(s) == CoreOf(s') && Admissible(cfg, op)
    requires op.CreateProject? || op.Register? || op.Rehash? || op.Read? || op.Sweep? || op.UnsavedSweep?
             || op.Shutdown?
    ensures SameReply(Apply(cfg, s, now, op), Apply(cfg, s', now, op))
  {
    SameCoreTasks(s, s');
    match op
    case CreateProject(key, name, actor) =>
      var projects := s.projects[key := Project(key, name, 0, now)];
      SameLog(s.(projects := projects), s'.(projects := projects), now, actor, "", ProjectCreated,
              NamedProject(key, name));
    case Register(email, _, _, hash, salt) =>
      var users := s.users[Lower(email) := User(Lower(email), hash, salt, PBKDF2_ITERATIONS, now, now)];
      SameLog(s.(users := users), s'.(users := users), now, SYSTEM, "", UserRegistered, Text(Lower(email)));
    case Rehash(email, hash, salt) =>
      if Lower(email) in s.users {
        var u := s.users[Lower(email)].(passwordHash := hash, salt := salt, iterations := PBKDF2_ITERATIONS,
                                        updatedAt := now);
        var users := s.users[Lower(email) := u];
        SameLog(s.(users := users), s'.(users := users), now, SYSTEM, "", UserRehashed, Text(Lower(email)));
      }
    case Shutdown(actor) =>
      var agents := map name | name in s.agents :: Offline(cfg, s.agents[name], now);
      SameAgents(s, s', agents);
      SameLog(s.(agents := agents), s'.(agents := agents), now,
              if actor == "" then SYSTEM else actor, "", ServerStopped, NoDetail);
    case _ =>
  }

  // ----- whole runs ------------------------------------------------------------------

  predicate OnlySweeps(op: Op) { op.Sweep? || op.UnsavedSweep? }

  /** The calls of a run other than sweeps: what was called, and when. */
  function Skeleton(calls: seq<Call>): seq<(Op, Time)> {
    if calls == [] then []
    else if OnlySweeps(calls[0].op) then Skeleton(calls[1..])
    else [(calls[0].op, calls[0].now)] + Skeleton(calls[1..])
  }

  /** What a caller learns from each call other than a sweep: the outcome, and
      the board right after it when the call got past its argument checks. */
  datatype Observation = Observation(outcome: Outcome, seen: Option<Core>)

  ghost function Observed(cfg: Config, s: State, from: Time, calls: seq<Call>): seq<Observation>
    requires Run(cfg, s, from, calls)
    decreases |calls|
  {
    if calls == [] then []
    else
      var r := Do(cfg, s, calls[0]);
      var rest := Observed(cfg, r.state, calls[0].now, calls[1..]);
      if OnlySweeps(calls[0].op) then rest
      else [Observation(r.outcome, if Admissible(cfg, calls[0].op) then Some(CoreOf(r.state)) else None)] + rest
  }

  /** Swept at time t, in whatever order, the two boards show the same. */
  ghost predicate Agree(s: State, s': State, t: Time) {
    forall o, o' :: Visits(s.tasks, t, o) && Visits(s'.tasks, t, o')
      ==> CoreOf(Swept(s, t, o)) == CoreOf(Swept(s', t, o'))
  }

  lemma {:induction false} Enumerate(ids: set<string>) returns (order: seq<string>)
    ensures (forall id :: id in order <==> id in ids) && Distinct(order)
    decreases |ids|
  {
    if ids == {} { return []; }
    var id :| id in ids;
    var rest := Enumerate(ids - {id});
    order := [id] + rest;
  }

  lemma AgreeLater(s: State, s': State, t: Time, t': Time)
    requires Agree(s, s', t) && t <= t'
    ensures Agree(s, s', t')
  {
    var o1 := Enumerate(ExpiredIds(s.tasks, t));
    var o1' := Enumerate(ExpiredIds(s'.tasks, t));
    var s1, s1' := Swept(s, t, o1), Swept(s', t, o1');
    var o2 := Enumerate(ExpiredIds(s1.tasks, t'));
    var o2' := Enumerate(ExpiredIds(s1'.tasks, t'));
    SameCoreSwept(s1, s1', t', o2, o2');
    forall o, o' | Visits(s.tasks, t', o) && Visits(s'.tasks, t', o')
      ensures CoreOf(Swept(s, t', o)) == CoreOf(Swept(s', t', o'))
    {
      SweepAbsorbs(s, t, o1, t', o2, o);
      SweepAbsorbs(s', t, o1', t', o2', o');
    }
  }

  lemma SameCoreAgree(s: State, s': State, t: Time)
    requires CoreOf(s) == CoreOf(s')
    ensures Agree(s, s', t)
  {
    forall o, o' | Visits(s.tasks, t, o) && Visits(s'.tasks, t, o')
      ensures CoreOf(Swept(s, t, o)) == CoreOf(Swept(s', t, o'))
    {
      SameCoreSwept(s, s', t, o, o');
    }
  }

  /** A sweep on one side only, no later than t, cannot be seen from t on. */
  lemma AgreeAfterSweep(s: State, s': State, t: Time, now: Time, order: seq<string>)
    requires Agree(s, s', t) && now <= t && Visits(s.tasks, now, order)
    ensures Agree(Swept(s, now, order), s', t)
  {
    var s1 := Swept(s, now, order);
    var o := Enumerate(ExpiredIds(s.tasks, t));
    forall o1, o' | Visits(s1.tasks, t, o1) && Visits(s'.tasks, t, o')
      ensures CoreOf(Swept(s1, t, o1)) == CoreOf(Swept(s', t, o'))
    {
      SweepAbsorbs(s, now, order, t, o1, o);
    }
  }

  lemma AgreeSymmetric(s: State, s': State, t: Time)
    requires Agree(s, s', t)
    ensures Agree(s', s, t)
  {
  }

  /** The same call at the same time on two boards that agree: same answer, and
      they still agree. */
  lemma AgreeThroughCall(cfg: Config, s: State, s': State, c: Call, c': Call)
    requires Agree(s, s', c.now) && c.op == c'.op && c.now == c'.now
    requires Legal(s, c) && Legal(s', c')
    ensures Do(cfg, s, c).outcome == Do(cfg, s', c').outcome
    ensures Admissible(cfg, c.op) ==> CoreOf(Do(cfg, s, c).state) == CoreOf(Do(cfg, s', c').state)
    ensures Agree(Do(cfg, s, c).state, Do(cfg, s', c').state, c.now)
  {
    if Admissible(cfg, c.op) {
      SameApply(cfg, Swept(s, c.now, c.order), Swept(s', c.now, c'.order), c.now, c.op);
      SameCoreAgree(Do(cfg, s, c).state, Do(cfg, s', c').state, c.now);
    }
  }

  lemma SweepCallEffect(cfg: Config, s: State, c: Call)
    requires OnlySweeps(c.op) && Legal(s, c)
    ensures Do(cfg, s, c).state == Swept(s, c.now, c.order)
  {
  }

  function Later(a: Time, b: Time): Time { if a < b then b else a }

  lemma SkeletonTime(cfg: Config, s: State, from: Time, calls: seq<Call>)
    requires Run(cfg, s, from, calls) && Skeleton(calls) != []
    ensures from <= Skeleton(calls)[0].1
    decreases |calls|
  {
    if OnlySweeps(calls[0].op) { SkeletonTime(cfg, Do(cfg, s, calls[0]).state, calls[0].now, calls[1..]); }
  }

  /** The theorem, for two boards that agree so far: runs that differ only in
      their sweeps tell their callers the same, and end in boards that agree. */
  lemma {:induction false} RunsAgree(cfg: Config, s: State, f: Time, calls: seq<Call>,
                                     s': State, f': Time, calls': seq<Call>)
    requires Run(cfg, s, f, calls) && Run(cfg, s', f', calls') && Skeleton(calls) == Skeleton(calls')
    requires Agree(s, s', Later(f, f'))
    requires Skeleton(calls) != [] ==> Later(f, f') <= Skeleton(calls)[0].1
    ensures Observed(cfg, s, f, calls) == Observed(cfg, s', f', calls')
    ensures Agree(Final(cfg, s, f, calls), Final(cfg, s', f', calls'), Later(Clock(f, calls), Clock(f', calls')))
    decreases |calls| + |calls'|, if calls != [] && OnlySweeps(calls[0].op) then 0 else 2
  {
    if calls != [] && OnlySweeps(calls[0].op) {
      var c := calls[0];
      var t := Later(c.now, f');
      SweepCallEffect(cfg, s, c);
      AgreeLater(s, s', Later(f, f'), t);
      AgreeAfterSweep(s, s', t, c.now, c.order);
      if Skeleton(calls) != [] { SkeletonTime(cfg, Do(cfg, s, c).state, c.now, calls[1..]); }
      assert Clock(f, calls) == Clock(c.now, calls[1..]);
      RunsAgree(cfg, Do(cfg, s, c).state, c.now, calls[1..], s', f', calls');
    } else if calls' != [] && OnlySweeps(calls'[0].op) {
      AgreeSymmetric(s, s', Later(f, f'));
      RunsAgree(cfg, s', f', calls', s, f, calls);
      AgreeSymmetric(Final(cfg, s', f', calls'), Final(cfg, s, f, calls), Later(Clock(f', calls'), Clock(f, calls)));
    } else if calls != [] {
      RunsAgreeOnCall(cfg, s, f, calls, s', f', calls');
    }
  }

  lemma {:induction false} RunsAgreeOnCall(cfg: Config, s: State, f: Time, calls: seq<Call>,
                                           s': State, f': Time, calls': seq<Call>)
    requires Run(cfg, s, f, calls) && Run(cfg, s', f', calls') && Skeleton(calls) == Skeleton(calls')
    requires Agree(s, s', Later(f, f')) && calls != []
    requires !OnlySweeps(calls[0].op) && (calls' != [] ==> !OnlySweeps(calls'[0].op))
    requires Later(f, f') <= Skeleton(calls)[0].1
    ensures Observed(cfg, s, f, calls) == Observed(cfg, s', f', calls')
    ensures Agree(Final(cfg, s, f, calls), Final(cfg, s', f', calls'), Later(Clock(f, calls), Clock(f', calls')))
    decreases |calls| + |calls'|, 1
  {
    var c, c' := calls[0], calls'[0];
    assert (c.op, c.now) == (c'.op, c'.now);
    assert Skeleton(calls[1..]) == Skeleton(calls)[1..] && Skeleton(calls'[1..]) == Skeleton(calls')[1..];
    AgreeLater(s, s', Later(f, f'), c.now);
    AgreeThroughCall(cfg, s, s', c, c');
    var a, a' := Do(cfg, s, c).state, Do(cfg, s', c').state;
    if Skeleton(calls[1..]) != [] { SkeletonTime(cfg, a, c.now, calls[1..]); }
    assert Clock(f, calls) == Clock(c.now, calls[1..]) && Clock(f', calls') == Clock(c'.now, calls'[1..]);
    RunsAgree(cfg, a, c.now, calls[1..], a', c'.now, calls'[1..]);
  }

  /** Sweep is optional: from any board, two runs that make the same calls at the
      same times and differ only in their sweeps give every call the same
      outcome, show every call the same board, and leave boards that no later
      reader can tell apart. */
  lemma SweepIsOptional(cfg: Config, s: State, from: Time, calls: seq<Call>, calls': seq<Call>)
    requires Run(cfg, s, from, calls) && Run(cfg, s, from, calls') && Skeleton(calls) == Skeleton(calls')
    ensures Observed(cfg, s, from, calls) == Observed(cfg, s, from, calls')
    ensures forall t :: t >= Clock(from, calls) && t >= Clock(from, calls') ==>
      Agree(Final(cfg, s, from, calls), Final(cfg, s, from, calls'), t)
  {
    SameCoreAgree(s, s, from);
    if Skeleton(calls) != [] { SkeletonTime(cfg, s, from, calls); }
    RunsAgree(cfg, s, from, calls, s, from, calls');
    var a, a' := Final(cfg, s, from, calls), Final(cfg, s, from, calls');
    var last := Later(Clock(from, calls), Clock(from, calls'));
    forall t | t >= Clock(from, calls) && t >= Clock(from, calls')
      ensures Agree(a, a', t)
    {
      AgreeLater(a, a', last, t);
    }
  }
}
