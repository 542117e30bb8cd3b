/** What a single call can and cannot do: refused calls, the unsaved-changes
    mark, the append-only log, and the gap ValidateState leaves open. */
module BoardEffects {
  import opened Basics
  import opened Model
  import opened TaskId
  import opened BoardSpec
  import opened BoardInvariants

  // ----- when each call on a task is accepted, and which task it rewrites ------

  predicate LeasedToOther(t: Task, agent: string) {
    t.assignee != "" && t.assignee != agent && t.leaseExpires.Some?
  }

  lemma ClaimEffect(s: State, now: Time, id: string, agent: string, lease: int)
    ensures var r := ApplyClaim(s, now, id, agent, lease);
      && (r.outcome.Ok? <==> id in s.tasks && s.tasks[id].status != Done && !LeasedToOther(s.tasks[id], agent))
      && r.state.tasks == if r.outcome.Ok? then s.tasks[id := ClaimedTask(s.tasks[id], now, agent, lease)] else s.tasks
  {
  }

  lemma ReleaseEffect(s: State, now: Time, id: string, agent: string)
    ensures var r := ApplyRelease(s, now, id, agent);
      && (r.outcome.Ok? <==> id in s.tasks && s.tasks[id].assignee != "" && s.tasks[id].assignee == agent)
      && r.state.tasks == if r.outcome.Ok? then s.tasks[id := ReleasedTask(s.tasks[id], now, agent)] else s.tasks
  {
  }

  lemma CompleteEffect(s: State, now: Time, id: string, agent: string)
    ensures var r := ApplyComplete(s, now, id, agent);
      && (r.outcome.Ok? <==> id in s.tasks && s.tasks[id].status != Done && !LeasedToOther(s.tasks[id], agent))
      && r.state.tasks == if r.outcome.Ok? then s.tasks[id := CompletedTask(s.tasks[id], now, agent)] else s.tasks
  {
  }

  lemma UpdateEffect(s: State, now: Time, id: string, p: Patch)
    ensures var r := ApplyUpdate(s, now, id, p);
      && (r.outcome.Ok? <==> id in s.tasks && UpdateRefusal(s, s.tasks[id], p).None?)
      && r.state.tasks == (if r.marked then s.tasks[id := UpdatedTask(s.tasks[id], now, p)] else s.tasks)
      && (r.marked <==> r.outcome.Ok? && (Changed(s.tasks[id], p) != [] || Moves(s.tasks[id], p)))
  {
    if id in s.tasks { NotedKeeps(s, now, id, s.tasks[id], p, Changed(s.tasks[id], p)); }
  }

  lemma HeartbeatEffect(cfg: Config, s: State, now: Time, name: string, kind: string, task: string,
                        meta: Option<map<string, string>>)
    ensures var r := ApplyHeartbeat(cfg, s, now, name, kind, task, meta);
      && (r.outcome.Ok? <==> task == "" || (task in s.tasks && s.tasks[task].assignee == name))
      && r.state.tasks == if r.outcome.Ok? then RenewAll(cfg, s.tasks, name, now) else s.tasks
  {
  }

  lemma AddTaskEffect(s: State, now: Time, project: string, kind: Kind, parent: string, title: string,
                      description: string, priority: Priority, labels: seq<string>, actor: string)
    ensures var r := ApplyAddTask(s, now, project, kind, parent, title, description, priority, labels, actor);
      && (r.outcome.Ok? <==> project in s.projects && CheckParent(s, s.projects[project].key, kind, parent).None?)
      && r.state.tasks ==
         if r.outcome.Ok? then
           s.tasks[NextId(s.projects[project]) :=
             NewTask(s.projects[project], now, kind, parent, title, description, priority, labels, actor)]
         else s.tasks
  {
  }

  /** Only these seven calls write tasks. */
  lemma OtherTasksEffect(cfg: Config, s: State, now: Time, op: Op)
    requires Admissible(cfg, op)
    requires !op.Claim? && !op.Release? && !op.Complete? && !op.Update? && !op.Heartbeat? && !op.AddTask?
    requires !op.Comment?
    ensures Apply(cfg, s, now, op).state.tasks == s.tasks
  {
  }

  lemma FailedApply(cfg: Config, s: State, now: Time, op: Op)
    requires Admissible(cfg, op) && Apply(cfg, s, now, op).outcome.Failed?
    ensures Apply(cfg, s, now, op).state == s && !Apply(cfg, s, now, op).marked && !op.UnsavedSweep?
  {
    hide Log, TouchAgent, ClearCurrent, UpdateNoted, UpdatedTask, Changed, RenewAll, Touched, Admissible;
    match op
    case Update(id, p) =>
    case Claim(id, _, _) =>
    case Release(id, _) =>
    case Complete(id, _) =>
    case Heartbeat(_, _, _, _) =>
    case _ =>
  }

  /** A call that returns an error has done nothing but sweep, and a call refused
      for its arguments has not even swept. */
  lemma FailedCallOnlySweeps(cfg: Config, s: State, c: Call)
    requires Legal(s, c)
    requires Do(cfg, s, c).outcome.Failed?
    ensures Do(cfg, s, c).state == if Admissible(cfg, c.op) then Swept(s, c.now, c.order) else s
    ensures Do(cfg, s, c).marked <==> (Admissible(cfg, c.op) && c.order != [])
  {
    hide Apply, Admissible, Swept;
    if Admissible(cfg, c.op) { FailedApply(cfg, Swept(s, c.now, c.order), c.now, c.op); }
  }

  lemma SweptNothing(s: State, now: Time)
    requires ExpiredIds(s.tasks, now) == {}
    ensures Swept(s, now, []) == s
  {
    assert forall id :: id in s.tasks ==> id !in ExpiredIds(s.tasks, now);
    assert SweptTasks(s.tasks, now) == s.tasks;
    assert SweptAgents(s.tasks, s.agents, now) == s.agents;
  }

  lemma UnmarkedApply(cfg: Config, s: State, now: Time, op: Op)
    requires Admissible(cfg, op) && !Apply(cfg, s, now, op).marked
    ensures Apply(cfg, s, now, op).state == s
  {
    match op
    case Update(id, p) =>
    case Rehash(_, _, _) =>
    case _ =>
  }

  /** The dirty mark misses nothing: a call that leaves the board unmarked has
      left it unchanged, apart from the two reads that sweep without saving. */
  lemma UnmarkedCallChangesNothing(cfg: Config, s: State, c: Call)
    requires Legal(s, c) && !Do(cfg, s, c).marked
    ensures Do(cfg, s, c).state == if c.op.UnsavedSweep? then Swept(s, c.now, c.order) else s
  {
    if Admissible(cfg, c.op) && !c.op.UnsavedSweep? {
      UnmarkedApply(cfg, Swept(s, c.now, c.order), c.now, c.op);
      assert forall id :: id in ExpiredIds(s.tasks, c.now) ==> id in c.order;
      SweptNothing(s, c.now);
    }
  }

  /** The log only grows at its end. */
  ghost predicate LogExtends(s: State, s': State) {
    && s.activity <= s'.activity
    && s'.archivedThrough == s.archivedThrough
  }

  lemma NotedLogs(s: State, now: Time, id: string, t: Task, p: Patch, changed: seq<string>)
    ensures LogExtends(s, UpdateNoted(s, now, id, t, p, changed))
  {
  }

  lemma UpdateLogs(s: State, now: Time, id: string, p: Patch)
    ensures LogExtends(s, ApplyUpdate(s, now, id, p).state)
  {
    hide UpdatedTask, Changed, UpdateNoted, UpdateRefusal;
    if id in s.tasks { NotedLogs(s, now, id, s.tasks[id], p, Changed(s.tasks[id], p)); }
  }

  lemma TaskCallLogs(cfg: Config, s: State, now: Time, op: Op)
    requires Admissible(cfg, op)
    requires op.AddTask? || op.Claim? || op.Release? || op.Complete? || op.Comment?
    ensures LogExtends(s, Apply(cfg, s, now, op).state)
  {
    hide Touched, ClaimedTask, ReleasedTask, CompletedTask, NewTask, CheckParent, Admissible;
  }

  lemma ApplyLogs(cfg: Config, s: State, now: Time, op: Op)
    requires Admissible(cfg, op)
    ensures LogExtends(s, Apply(cfg, s, now, op).state)
  {
    hide RenewAll, Touched, ApplyUpdate, ApplyAddTask, ApplyClaim, ApplyRelease, ApplyComplete, ApplyComment,
      Admissible;
    if op.Update? {
      UpdateLogs(s, now, op.id, op.patch);
    } else if op.AddTask? || op.Claim? || op.Release? || op.Complete? || op.Comment? {
      TaskCallLogs(cfg, s, now, op);
    }
  }

  lemma DoLogs(cfg: Config, s: State, c: Call)
    requires Legal(s, c)
    ensures LogExtends(s, Do(cfg, s, c).state)
  {
    if Admissible(cfg, c.op) {
      var s1 := Swept(s, c.now, c.order);
      ApplyLogs(cfg, s1, c.now, c.op);
      assert s.activity <= s1.activity <= Apply(cfg, s1, c.now, c.op).state.activity;
    }
  }

  // ----- the gap in ValidateState -------------------------------------------

  /** A board with projects a and b, and a task of b filed under an identifier of a. */
  function Misfiled(a: string, b: string): State {
    var id := FormatId(a, 1);
    var t := Task(id, b, Leaf, "", "mine", "", Todo, Medium, [], "", None, 0, "amy", "amy", 0, 0, None, None);
    NEW_STATE.(projects := map[a := Project(a, "first", 0, 0), b := Project(b, "second", 1, 0)], tasks := map[id := t])
  }

  lemma MisfiledIsValid(a: string, b: string)
    requires KeyOk(a) && KeyOk(b) && a != b
    ensures ValidState(Misfiled(a, b))
  {
    KeyHasNoDash(a);
    SplitFormat(a, 1);
  }

  /** ValidateState accepts boards on which an AddTask overwrites a task, because
      it never compares the prefix of an identifier with the task's project. */
  lemma ValidStateAllowsOverwrite(a: string, b: string, actor: string)
    requires KeyOk(a) && KeyOk(b) && a != b
    ensures var s := Misfiled(a, b);
      var r := ApplyAddTask(s, 0, a, Leaf, "", "yours", "", Low, [], actor);
      && ValidState(s) && r.outcome.Ok?
      && FormatId(a, 1) in s.tasks && s.tasks[FormatId(a, 1)].title == "mine"
      && r.state.tasks.Keys == s.tasks.Keys && r.state.tasks[FormatId(a, 1)].title == "yours"
  {
    MisfiledIsValid(a, b);
    var s := Misfiled(a, b);
    AddTaskEffect(s, 0, a, Leaf, "", "yours", "", Low, [], actor);
    assert NextId(s.projects[a]) == FormatId(a, 1);
  }

  lemma PutSize(tasks: map<string, Task>, id: string, t: Task)
    ensures |tasks[id := t]| == |tasks| + 1 <==> id !in tasks
  {
    assert tasks[id := t].Keys == tasks.Keys + {id};
    assert |tasks[id := t]| == |tasks[id := t].Keys| && |tasks| == |tasks.Keys|;
  }

  /** An accepted AddTask touches one identifier only, and adds a task to the
      board exactly when that identifier was free; on a well-formed board it is. */
  lemma AddTaskAddsOne(s: State, now: Time, project: string, kind: Kind, parent: string, title: string,
                       description: string, priority: Priority, labels: seq<string>, actor: string)
    requires project in s.projects && CheckParent(s, s.projects[project].key, kind, parent).None?
    ensures var id := NextId(s.projects[project]);
      var after := ApplyAddTask(s, now, project, kind, parent, title, description, priority, labels, actor).state.tasks;
      && (forall other :: other in s.tasks && other != id ==> other in after && after[other] == s.tasks[other])
      && (|after| == |s.tasks| + 1 <==> id !in s.tasks)
      && (WellFormed(s) ==> id !in s.tasks)
  {
    var id := NextId(s.projects[project]);
    assert WellFormed(s) ==> id !in s.tasks by {
      if WellFormed(s) { NextIdFresh(s, project); }
    }
    var t := NewTask(s.projects[project], now, kind, parent, title, description, priority, labels, actor);
    PutSize(s.tasks, id, t);
    assert ApplyAddTask(s, now, project, kind, parent, title, description, priority, labels, actor).state.tasks
        == s.tasks[id := t] by {
      AddTaskEffect(s, now, project, kind, parent, title, description, priority, labels, actor);
    }
  }
}
