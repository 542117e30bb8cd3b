/** What every board reached from an empty one satisfies, and what ValidateState
    (store.go) checks of it. */
module BoardInvariants {
  import opened Basics
  import opened Model
  import opened TaskId
  import opened BoardSpec

  // ----- the public invariant, as ValidateState checks it ------------------

  predicate ValidTask(projects: map<string, Project>, id: string, t: Task) {
    && t.id == id
    && t.project in projects
    && t.status.Valid() && t.priority.Valid() && t.kind.Valid()
    && !(t.startDate.Some? && t.endDate.Some? && t.endDate.value < t.startDate.value)
  }

  predicate ValidParent(tasks: map<string, Task>, t: Task) {
    t.parent == "" ||
    (t.parent in tasks && tasks[t.parent].project == t.project && tasks[t.parent].kind.Level() < t.kind.Level())
  }

  predicate Behind(projects: map<string, Project>, id: string, t: Task) {
    t.project in projects && SplitId(id).1 <= projects[t.project].nextSeq
  }

  predicate ValidUser(email: string, u: User) {
    u.email == email && email == Lower(email)
    && u.passwordHash != [] && u.salt != [] && u.iterations > 0
  }

  ghost predicate ValidUsers(users: map<string, User>) {
    forall email :: email in users ==> ValidUser(email, users[email])
  }

  ghost predicate IdsIncrease(log: seq<Activity>, upTo: int) {
    && upTo >= 0
    && (forall i :: 0 <= i < |log| ==> 0 < log[i].id <= upTo)
    && (forall i, j :: 0 <= i < j < |log| ==> log[i].id < log[j].id)
  }

  ghost predicate ValidState(s: State) {
    && (forall id :: id in s.tasks ==>
          ValidTask(s.projects, id, s.tasks[id]) && ValidParent(s.tasks, s.tasks[id])
          && Behind(s.projects, id, s.tasks[id]))
    && (forall key :: key in s.projects ==> s.projects[key].key == key && s.projects[key].nextSeq >= 0)
    && (forall name :: name in s.agents ==> s.agents[name].name == name)
    && ValidUsers(s.users)
    && IdsIncrease(s.activity, s.nextActivityID)
  }

  // ----- the stronger invariant of reachable boards -------------------------

  /** The identifier was issued by its own project, and its number lies behind
      the project's counter. */
  ghost predicate Issued(projects: map<string, Project>, id: string, project: string) {
    project in projects &&
    exists n: int :: 1 <= n <= projects[project].nextSeq && id == FormatId(project, n)
  }

  ghost predicate ProjectsOk(projects: map<string, Project>) {
    forall key :: key in projects ==> projects[key].key == key && KeyOk(key) && projects[key].nextSeq >= 0
  }

  ghost predicate TaskOk(projects: map<string, Project>, tasks: map<string, Task>, id: string, t: Task) {
    Issued(projects, id, t.project) && ValidTask(projects, id, t) && ValidParent(tasks, t)
  }

  ghost predicate TasksOk(projects: map<string, Project>, tasks: map<string, Task>) {
    forall id :: id in tasks ==> TaskOk(projects, tasks, id, tasks[id])
  }

  ghost predicate AgentsOk(tasks: map<string, Task>, agents: map<string, Agent>) {
    forall name :: name in agents ==>
      agents[name].name == name && (agents[name].currentTask == "" || agents[name].currentTask in tasks)
  }

  /** The live log holds the consecutive identifiers that follow the archived ones. */
  ghost predicate LogOk(log: seq<Activity>, archivedThrough: int, next: int) {
    && archivedThrough >= 0
    && next == archivedThrough + |log|
    && forall i :: 0 <= i < |log| ==> log[i].id == archivedThrough + 1 + i
  }

  ghost predicate WellFormed(s: State) {
    && s.version == SCHEMA_VERSION
    && ProjectsOk(s.projects)
    && TasksOk(s.projects, s.tasks)
    && AgentsOk(s.tasks, s.agents)
    && ValidUsers(s.users)
    && LogOk(s.activity, s.archivedThrough, s.nextActivityID)
  }

  lemma KeyHasNoDash(key: string)
    requires KeyOk(key)
    ensures '-' !in key
  {
  }

  lemma IssuedIsBehind(projects: map<string, Project>, id: string, t: Task)
    requires ProjectsOk(projects) && Issued(projects, id, t.project)
    ensures Behind(projects, id, t)
  {
    var n :| 1 <= n <= projects[t.project].nextSeq && id == FormatId(t.project, n);
    KeyHasNoDash(t.project);
    SplitFormat(t.project, n);
  }

  lemma WellFormedIsValid(s: State)
    requires WellFormed(s)
    ensures ValidState(s)
  {
    forall id | id in s.tasks
      ensures ValidTask(s.projects, id, s.tasks[id]) && ValidParent(s.tasks, s.tasks[id])
              && Behind(s.projects, id, s.tasks[id])
    {
      assert TaskOk(s.projects, s.tasks, id, s.tasks[id]);
      IssuedIsBehind(s.projects, id, s.tasks[id]);
    }
  }

  // ----- each call keeps it --------------------------------------------------

  /** Tasks may change in everything but what identifies them, as long as each
      stays valid by itself. */
  lemma TasksRewritten(projects: map<string, Project>, tasks: map<string, Task>, tasks': map<string, Task>)
    requires TasksOk(projects, tasks) && tasks'.Keys == tasks.Keys
    requires forall id :: id in tasks ==>
      && tasks'[id].project == tasks[id].project && tasks'[id].kind == tasks[id].kind
      && ValidTask(projects, id, tasks'[id]) && ValidParent(tasks, tasks'[id])
    ensures TasksOk(projects, tasks')
  {
    forall id | id in tasks'
      ensures TaskOk(projects, tasks', id, tasks'[id])
    {
      assert TaskOk(projects, tasks, id, tasks[id]);
    }
  }

  lemma OneTaskRewritten(projects: map<string, Project>, tasks: map<string, Task>, id: string, t: Task)
    requires TasksOk(projects, tasks) && id in tasks
    requires t.project == tasks[id].project && t.kind == tasks[id].kind
    requires ValidTask(projects, id, t) && ValidParent(tasks, t)
    ensures TasksOk(projects, tasks[id := t])
  {
    forall k | k in tasks
      ensures ValidTask(projects, k, tasks[k]) && ValidParent(tasks, tasks[k])
    {
      assert TaskOk(projects, tasks, k, tasks[k]);
    }
    TasksRewritten(projects, tasks, tasks[id := t]);
  }

  lemma Logged(s: State, now: Time, actor: string, taskID: string, action: Action, detail: Detail)
    requires WellFormed(s)
    ensures WellFormed(Log(s, now, actor, taskID, action, detail))
  {
  }

  lemma {:induction false} ExpirationIds(tasks: map<string, Task>, now: Time, next: int, order: seq<string>)
    requires forall id :: id in order ==> id in tasks
    ensures forall i :: 0 <= i < |order| ==> Expirations(tasks, now, next, order)[i].id == next + 1 + i
  {
    if order != [] {
      var k := |order| - 1;
      ExpirationIds(tasks, now, next, order[..k]);
      var front := Expirations(tasks, now, next, order[..k]);
      assert forall i :: 0 <= i < k ==> Expirations(tasks, now, next, order)[i] == front[i];
    }
  }

  lemma SweptTasksOk(projects: map<string, Project>, tasks: map<string, Task>, now: Time)
    requires TasksOk(projects, tasks)
    ensures TasksOk(projects, SweptTasks(tasks, now))
  {
    forall id | id in tasks
      ensures ValidTask(projects, id, SweptTasks(tasks, now)[id]) && ValidParent(tasks, SweptTasks(tasks, now)[id])
    {
      assert TaskOk(projects, tasks, id, tasks[id]);
    }
    TasksRewritten(projects, tasks, SweptTasks(tasks, now));
  }

  lemma SweptWellFormed(s: State, now: Time, order: seq<string>)
    requires WellFormed(s)
    requires forall id :: id in order ==> id in s.tasks
    ensures WellFormed(Swept(s, now, order))
  {
    SweptTasksOk(s.projects, s.tasks, now);
    ExpirationIds(s.tasks, now, s.nextActivityID, order);
  }

  lemma CreateProjectWellFormed(s: State, now: Time, key: string, name: string, actor: string)
    requires WellFormed(s) && KeyOk(key)
    ensures WellFormed(ApplyCreateProject(s, now, key, name, actor).state)
  {
    if key !in s.projects {
      var projects := s.projects[key := Project(key, name, 0, now)];
      forall id | id in s.tasks
        ensures TaskOk(projects, s.tasks, id, s.tasks[id])
      {
        assert TaskOk(s.projects, s.tasks, id, s.tasks[id]);
      }
      Logged(s.(projects := projects), now, actor, "", ProjectCreated, NamedProject(key, name));
    }
  }

  /** The identifier a project hands out next names no task of the board. */
  lemma NextIdFresh(s: State, project: string)
    requires WellFormed(s) && project in s.projects
    ensures NextId(s.projects[project]) !in s.tasks
  {
    var p := s.projects[project];
    var id := NextId(p);
    if id in s.tasks {
      assert TaskOk(s.projects, s.tasks, id, s.tasks[id]);
      var other := s.tasks[id].project;
      var n :| 1 <= n <= s.projects[other].nextSeq && id == FormatId(other, n);
      KeyHasNoDash(project);
      KeyHasNoDash(other);
      FormatIdInjective(project, p.nextSeq + 1, other, n);
      assert false;
    }
  }

  lemma TaskAdded(projects: map<string, Project>, tasks: map<string, Task>, project: string, t: Task)
    requires ProjectsOk(projects) && TasksOk(projects, tasks) && project in projects
    requires t.id == NextId(projects[project]) && t.id !in tasks && t.project == project
    requires ValidTask(projects, t.id, t) && ValidParent(tasks, t)
    ensures TasksOk(projects[project := projects[project].(nextSeq := projects[project].nextSeq + 1)], tasks[t.id := t])
  {
    var p := projects[project];
    var projects' := projects[project := p.(nextSeq := p.nextSeq + 1)];
    var tasks' := tasks[t.id := t];
    forall id | id in tasks'
      ensures TaskOk(projects', tasks', id, tasks'[id])
    {
      if id == t.id {
        assert id == FormatId(project, p.nextSeq + 1);
      } else {
        assert TaskOk(projects, tasks, id, tasks[id]);
      }
    }
  }

  lemma ProjectCounted(projects: map<string, Project>, project: string)
    requires ProjectsOk(projects) && project in projects
    ensures ProjectsOk(projects[project := projects[project].(nextSeq := projects[project].nextSeq + 1)])
    ensures projects[project].key == project
  {
  }

  lemma AgentsStill(tasks: map<string, Task>, agents: map<string, Agent>, t: Task)
    requires AgentsOk(tasks, agents)
    ensures AgentsOk(tasks[t.id := t], agents)
  {
  }

  lemma NewTaskIsValid(s: State, now: Time, project: string, kind: Kind, parent: string, title: string,
                       description: string, priority: Priority, labels: seq<string>, actor: string)
    requires WellFormed(s) && kind.Valid() && priority.Valid()
    requires project in s.projects && CheckParent(s, s.projects[project].key, kind, parent).None?
    ensures var t := NewTask(s.projects[project], now, kind, parent, title, description, priority, labels, actor);
      && t.id == NextId(s.projects[project]) && t.project == project
      && ValidTask(s.projects, t.id, t) && ValidParent(s.tasks, t)
  {
    hide NextId, TasksOk, AgentsOk, ValidUsers, LogOk;
  }

  lemma IssuedWellFormed(s: State, project: string, t: Task)
    requires WellFormed(s) && project in s.projects && t.id == NextId(s.projects[project]) && t.project == project
    requires ValidTask(s.projects, t.id, t) && ValidParent(s.tasks, t)
    ensures var p := s.projects[project];
      WellFormed(PutTask(s.(projects := s.projects[project := p.(nextSeq := p.nextSeq + 1)]), t))
  {
    NextIdFresh(s, project);
    TaskAdded(s.projects, s.tasks, project, t);
    ProjectCounted(s.projects, project);
    AgentsStill(s.tasks, s.agents, t);
    hide ProjectsOk, TasksOk, AgentsOk, ValidUsers, LogOk, NextId;
  }

  lemma AddTaskWellFormed(s: State, now: Time, project: string, kind: Kind, parent: string, title: string,
                          description: string, priority: Priority, labels: seq<string>, actor: string)
    requires WellFormed(s) && kind.Valid() && priority.Valid()
    ensures WellFormed(ApplyAddTask(s, now, project, kind, parent, title, description, priority, labels, actor).state)
  {
    hide WellFormed, NewTask, NextId, CheckParent, ValidTask, ValidParent, PutTask, Log;
    if project in s.projects && CheckParent(s, s.projects[project].key, kind, parent).None? {
      var p := s.projects[project];
      var t := NewTask(p, now, kind, parent, title, description, priority, labels, actor);
      NewTaskIsValid(s, now, project, kind, parent, title, description, priority, labels, actor);
      IssuedWellFormed(s, project, t);
      Logged(PutTask(s.(projects := s.projects[project := p.(nextSeq := p.nextSeq + 1)]), t),
             now, actor, t.id, TaskCreated, Text(title));
    }
  }

  lemma RewrittenWellFormed(s: State, id: string, t: Task)
    requires WellFormed(s) && id in s.tasks
    requires t == s.tasks[id].(status := t.status, assignee := t.assignee, leaseExpires := t.leaseExpires,
                               leaseSeconds := t.leaseSeconds, updatedAt := t.updatedAt, updatedBy := t.updatedBy)
    requires t.status.Valid()
    ensures WellFormed(s.(tasks := s.tasks[id := t]))
  {
    assert TaskOk(s.projects, s.tasks, id, s.tasks[id]);
    OneTaskRewritten(s.projects, s.tasks, id, t);
    assert s.tasks[id := t].Keys == s.tasks.Keys;
    hide TasksOk, ProjectsOk, ValidUsers, LogOk;
  }

  lemma ClearedWellFormed(s: State, agent: string, taskID: string)
    requires WellFormed(s)
    ensures WellFormed(ClearCurrent(s, agent, taskID)) && ClearCurrent(s, agent, taskID).tasks == s.tasks
  {
    hide TasksOk, ProjectsOk, ValidUsers, LogOk;
  }

  lemma TouchedWellFormed(s: State, name: string, kind: string, taskID: string, now: Time)
    requires WellFormed(s) && (taskID == "" || taskID in s.tasks)
    ensures WellFormed(TouchAgent(s, name, kind, taskID, now))
  {
    hide TasksOk, ProjectsOk, ValidUsers, LogOk;
  }

  lemma ClaimWellFormed(s: State, now: Time, id: string, agent: string, lease: int)
    requires WellFormed(s)
    ensures WellFormed(ApplyClaim(s, now, id, agent, lease).state)
  {
    hide WellFormed, Log, TouchAgent;
    if id in s.tasks {
      var t := s.tasks[id];
      var s1 := s.(tasks := s.tasks[id := ClaimedTask(t, now, agent, lease)]);
      RewrittenWellFormed(s, id, ClaimedTask(t, now, agent, lease));
      TouchedWellFormed(s1, agent, "", id, now);
      Logged(TouchAgent(s1, agent, "", id, now), now, agent, id,
             if t.assignee == agent && t.status == InProgress then LeaseRenewed else LeaseClaimed, LeaseOf(lease));
    }
  }

  lemma ReleaseWellFormed(s: State, now: Time, id: string, agent: string)
    requires WellFormed(s)
    ensures WellFormed(ApplyRelease(s, now, id, agent).state)
  {
    hide WellFormed, Log, ClearCurrent;
    if id in s.tasks {
      var s1 := s.(tasks := s.tasks[id := ReleasedTask(s.tasks[id], now, agent)]);
      RewrittenWellFormed(s, id, ReleasedTask(s.tasks[id], now, agent));
      ClearedWellFormed(s1, agent, id);
      Logged(ClearCurrent(s1, agent, id), now, agent, id, LeaseReleased, NoDetail);
    }
  }

  lemma CompleteWellFormed(s: State, now: Time, id: string, agent: string)
    requires WellFormed(s)
    ensures WellFormed(ApplyComplete(s, now, id, agent).state)
  {
    hide WellFormed, Log, ClearCurrent;
    if id in s.tasks {
      var t := CompletedTask(s.tasks[id], now, agent);
      var s1 := s.(tasks := s.tasks[id := t]);
      RewrittenWellFormed(s, id, t);
      ClearedWellFormed(s1, t.assignee, id);
      Logged(ClearCurrent(s1, t.assignee, id), now, agent, id, TaskDone, NoDetail);
    }
  }

  lemma CommentWellFormed(s: State, now: Time, id: string, actor: string, text: string)
    requires WellFormed(s)
    ensures WellFormed(ApplyComment(s, now, id, actor, text).state)
  {
    hide WellFormed, Log;
    if id in s.tasks {
      var t := s.tasks[id].(updatedAt := now, updatedBy := actor);
      assert s.tasks[id].status.Valid() by { StatusValid(s, id); }
      RewrittenWellFormed(s, id, t);
      Logged(s.(tasks := s.tasks[id := t]), now, actor, id, Commented, Text(text));
    }
  }

  lemma StatusValid(s: State, id: string)
    requires WellFormed(s) && id in s.tasks
    ensures s.tasks[id].status.Valid()
  {
    assert TaskOk(s.projects, s.tasks, id, s.tasks[id]);
  }

  lemma EditedIsValid(cfg: Config, s: State, id: string, p: Patch)
    requires TasksOk(s.projects, s.tasks) && id in s.tasks && Admissible(cfg, Update(id, p))
    requires UpdateRefusal(s, s.tasks[id], p).None?
    ensures ValidTask(s.projects, id, Edited(s.tasks[id], p)) && ValidParent(s.tasks, Edited(s.tasks[id], p))
  {
    assert TaskOk(s.projects, s.tasks, id, s.tasks[id]);
  }

  lemma NotedWellFormed(s: State, now: Time, id: string, t: Task, p: Patch, changed: seq<string>)
    requires WellFormed(s)
    ensures WellFormed(UpdateNoted(s, now, id, t, p, changed))
  {
    var s1 := if changed != [] then Log(s, now, p.actor, id, FieldsUpdated, ChangedFields(changed)) else s;
    assert WellFormed(s1) by { Logged(s, now, p.actor, id, FieldsUpdated, ChangedFields(changed)); }
    if Moves(t, p) {
      var s2 := if t.status == InProgress then ClearCurrent(s1, t.assignee, t.id) else s1;
      assert WellFormed(s2) by { ClearedWellFormed(s1, t.assignee, t.id); }
      Logged(s2, now, p.actor, id, StatusMoved, MovedFromTo(t.status, p.status.value));
    }
  }

  lemma UpdatedTaskOk(cfg: Config, s: State, now: Time, id: string, p: Patch)
    requires TasksOk(s.projects, s.tasks) && id in s.tasks && Admissible(cfg, Update(id, p))
    requires UpdateRefusal(s, s.tasks[id], p).None?
    ensures TasksOk(s.projects, s.tasks[id := UpdatedTask(s.tasks[id], now, p)])
  {
    EditedIsValid(cfg, s, id, p);
    hide UpdateRefusal, TasksOk, Issued;
    OneTaskRewritten(s.projects, s.tasks, id, UpdatedTask(s.tasks[id], now, p));
  }

  lemma SameKeysWellFormed(s: State, tasks: map<string, Task>)
    requires WellFormed(s) && tasks.Keys == s.tasks.Keys && TasksOk(s.projects, tasks)
    ensures WellFormed(s.(tasks := tasks))
  {
    hide TasksOk, ProjectsOk, ValidUsers, LogOk;
  }

  lemma NotedKeeps(s: State, now: Time, id: string, t: Task, p: Patch, changed: seq<string>)
    ensures UpdateNoted(s, now, id, t, p, changed).tasks == s.tasks
    ensures UpdateNoted(s, now, id, t, p, changed).projects == s.projects
  {
  }

  lemma UpdateWellFormed(cfg: Config, s: State, now: Time, id: string, p: Patch)
    requires WellFormed(s) && Admissible(cfg, Update(id, p))
    ensures WellFormed(ApplyUpdate(s, now, id, p).state)
  {
    if id in s.tasks && UpdateRefusal(s, s.tasks[id], p).None? {
      UpdatedTaskOk(cfg, s, now, id, p);
      hide WellFormed, UpdateNoted, UpdatedTask, Changed, UpdateRefusal, TasksOk;
      var t, changed := s.tasks[id], Changed(s.tasks[id], p);
      NotedWellFormed(s, now, id, t, p, changed);
      NotedKeeps(s, now, id, t, p, changed);
      SameKeysWellFormed(UpdateNoted(s, now, id, t, p, changed), s.tasks[id := UpdatedTask(t, now, p)]);
    }
  }

  lemma RenewedTasksOk(cfg: Config, projects: map<string, Project>, tasks: map<string, Task>, name: string, now: Time)
    requires TasksOk(projects, tasks)
    ensures TasksOk(projects, RenewAll(cfg, tasks, name, now))
  {
    forall id | id in tasks
      ensures ValidTask(projects, id, RenewAll(cfg, tasks, name, now)[id])
              && ValidParent(tasks, RenewAll(cfg, tasks, name, now)[id])
    {
      assert TaskOk(projects, tasks, id, tasks[id]);
    }
    TasksRewritten(projects, tasks, RenewAll(cfg, tasks, name, now));
  }

  lemma {:induction false} LowerIdempotent(s: string)
    ensures Lower(Lower(s)) == Lower(s)
  {
    assert forall i :: 0 <= i < |s| ==> Lower(Lower(s))[i] == Lower(s)[i];
  }

  lemma HeartbeatWellFormed(cfg: Config, s: State, now: Time, name: string, kind: string, task: string,
                            meta: Option<map<string, string>>)
    requires WellFormed(s)
    ensures WellFormed(ApplyHeartbeat(cfg, s, now, name, kind, task, meta).state)
  {
    RenewedTasksOk(cfg, s.projects, s.tasks, name, now);
    hide TasksOk;
  }

  lemma UserCallsWellFormed(s: State, now: Time, email: string, hash: PasswordHash, salt: Salt)
    requires WellFormed(s)
    ensures WellFormed(ApplyRegister(s, now, Lower(email), hash, salt).state)
    ensures WellFormed(ApplyRehash(s, now, Lower(email), hash, salt).state)
  {
    hide TasksOk, ProjectsOk, AgentsOk;
    LowerIdempotent(email);
  }

  lemma ShutdownWellFormed(cfg: Config, s: State, now: Time, actor: string)
    requires WellFormed(s)
    ensures WellFormed(ApplyShutdown(cfg, s, now, actor).state)
  {
    hide TasksOk, ProjectsOk, ValidUsers;
  }

  lemma ApplyWellFormed(cfg: Config, s: State, now: Time, op: Op)
    requires WellFormed(s) && Admissible(cfg, op)
    ensures WellFormed(Apply(cfg, s, now, op).state)
  {
    hide WellFormed;
    match op
    case CreateProject(key, name, actor) => CreateProjectWellFormed(s, now, key, name, actor);
    case AddTask(project, kind, parent, title, description, priority, labels, actor) =>
      AddTaskWellFormed(s, now, project, DefaultKind(kind), parent, title, description,
                        DefaultPriority(priority), labels.value, actor);
    case Claim(id, agent, lease) => ClaimWellFormed(s, now, id, agent, EffectiveLease(cfg, lease));
    case Release(id, agent) => ReleaseWellFormed(s, now, id, agent);
    case Complete(id, agent) => CompleteWellFormed(s, now, id, agent);
    case Update(id, p) => UpdateWellFormed(cfg, s, now, id, p);
    case Comment(id, actor, text) => CommentWellFormed(s, now, id, actor, text);
    case Heartbeat(name, kind, task, meta) => HeartbeatWellFormed(cfg, s, now, name, kind, task, meta);
    case Register(email, _, _, hash, salt) => UserCallsWellFormed(s, now, email, hash, salt);
    case Rehash(email, hash, salt) => UserCallsWellFormed(s, now, email, hash, salt);
    case Read(_) =>
    case Sweep =>
    case UnsavedSweep =>
    case Shutdown(actor) => ShutdownWellFormed(cfg, s, now, actor);
  }

  lemma DoWellFormed(cfg: Config, s: State, c: Call)
    requires WellFormed(s) && Legal(s, c)
    ensures WellFormed(Do(cfg, s, c).state)
  {
    SweptWellFormed(s, c.now, c.order);
    if Admissible(cfg, c.op) { ApplyWellFormed(cfg, Swept(s, c.now, c.order), c.now, c.op); }
  }

  lemma {:induction false} RunWellFormed(cfg: Config, s: State, from: Time, calls: seq<Call>)
    requires WellFormed(s) && Run(cfg, s, from, calls)
    ensures WellFormed(Final(cfg, s, from, calls))
    decreases |calls|
  {
    if calls != [] {
      DoWellFormed(cfg, s, calls[0]);
      RunWellFormed(cfg, Do(cfg, s, calls[0]).state, calls[0].now, calls[1..]);
    }
  }

  /** Every board reached from an empty one, by any calls whatever, passes ValidateState. */
  lemma ReachableIsValid(cfg: Config, from: Time, calls: seq<Call>)
    requires Run(cfg, NEW_STATE, from, calls)
    ensures WellFormed(Final(cfg, NEW_STATE, from, calls)) && ValidState(Final(cfg, NEW_STATE, from, calls))
  {
    RunWellFormed(cfg, NEW_STATE, from, calls);
    WellFormedIsValid(Final(cfg, NEW_STATE, from, calls));
  }
}
