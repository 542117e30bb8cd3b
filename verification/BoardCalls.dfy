/** What a caller sees of each call (board.go:510-1286, auth.go:38-102, login.go), field
    by field: when it is refused and with which error, what it writes, and what it leaves
    alone. The statements do not speak of the functions that compute the new records. */
module BoardCalls {
  import opened Basics
  import opened Model
  import opened TaskId
  import opened BoardSpec

  // ----- what stays ---------------------------------------------------------------

  /** What a call that only moves a task leaves of it. */
  predicate SamePlan(t: Task, u: Task) {
    && SameOrigin(t, u) && u.parent == t.parent && u.title == t.title && u.description == t.description
    && u.priority == t.priority && u.labels == t.labels && u.startDate == t.startDate && u.endDate == t.endDate
  }

  /** What no call ever changes. */
  predicate SameOrigin(t: Task, u: Task) {
    && u.id == t.id && u.project == t.project && u.kind == t.kind
    && u.createdBy == t.createdBy && u.createdAt == t.createdAt
  }

  /** How far a task is: in which column, whose, and on which lease. */
  predicate SameProgress(t: Task, u: Task) {
    && u.status == t.status && u.assignee == t.assignee
    && u.leaseExpires == t.leaseExpires && u.leaseSeconds == t.leaseSeconds
  }

  predicate Stamped(u: Task, now: Time, who: string) { u.updatedAt == now && u.updatedBy == who }

  predicate Unleased(u: Task) { u.leaseExpires.None? && u.leaseSeconds == 0 }

  /** The maps agree on every key but this one, which is in the second. */
  ghost predicate OnlyAt<T(!new)>(m: map<string, T>, n: map<string, T>, key: string) {
    key in n && forall k :: k != key ==> (k in m <==> k in n) && (k in m ==> n[k] == m[k])
  }

  /** No entry was logged. */
  predicate Silent(b: State, after: State) {
    && after.activity == b.activity && after.nextActivityID == b.nextActivityID
    && after.archivedThrough == b.archivedThrough && after.version == b.version
  }

  /** One entry was logged. */
  predicate LoggedOne(b: State, after: State, now: Time, actor: string, taskID: string, action: Action,
                      detail: Detail)
  {
    && after.activity == b.activity + [Activity(b.nextActivityID + 1, now, actor, taskID, action, detail)]
    && after.nextActivityID == b.nextActivityID + 1 && after.archivedThrough == b.archivedThrough
    && after.version == b.version
  }

  /** The board on which the body of the call works: its sweep has been made. */
  ghost function Seen(s: State, c: Call): State
    requires Legal(s, c)
  {
    Swept(s, c.now, c.order)
  }

  // ----- the sweep ------------------------------------------------------------------

  predicate RanOut(t: Task, now: Time) {
    t.status == InProgress && t.leaseExpires.Some? && t.leaseExpires.value <= now
  }

  /** Every task whose lease has run out goes back to todo without an assignee;
      nothing else about the tasks changes. */
  lemma SweepFrees(s: State, c: Call)
    requires Legal(s, c)
    ensures var b := Seen(s, c);
      && b.tasks.Keys == s.tasks.Keys && b.agents.Keys == s.agents.Keys
      && (forall id :: id in s.tasks ==>
            var t, u := s.tasks[id], b.tasks[id];
            if RanOut(t, c.now) then
              SamePlan(t, u) && u.status == Todo && u.assignee == "" && Unleased(u) && Stamped(u, c.now, "system")
            else u == t)
      && b.projects == s.projects && b.users == s.users && b.version == s.version
      && b.archivedThrough == s.archivedThrough
  {
  }

  /** The agent that had such a task is no longer at work on it. */
  lemma SweepClearsAgents(s: State, c: Call)
    requires Legal(s, c)
    ensures var b := Seen(s, c);
      forall name :: name in s.agents ==>
        var a, x := s.agents[name], b.agents[name];
        && x.name == a.name && x.kind == a.kind && x.lastHeartbeat == a.lastHeartbeat
        && x.meta == a.meta && x.online == a.online
        && x.currentTask == if a.currentTask in s.tasks && RanOut(s.tasks[a.currentTask], c.now)
                               && s.tasks[a.currentTask].assignee == name then "" else a.currentTask
  {
  }

  predicate TellsOf(e: Activity, tasks: map<string, Task>, now: Time, id: string, n: int) {
    && id in tasks && e.id == n && e.time == now && e.actor == "system" && e.taskID == id
    && e.action == LeaseExpired && e.detail == ReleasedFrom(tasks[id].assignee)
  }

  lemma {:induction false} ExpirationAt(tasks: map<string, Task>, now: Time, next: int, order: seq<string>, i: nat)
    requires (forall id :: id in order ==> id in tasks) && i < |order|
    ensures TellsOf(Expirations(tasks, now, next, order)[i], tasks, now, order[i], next + 1 + i)
  {
    assert order[i] in order;
    if i < |order| - 1 { ExpirationAt(tasks, now, next, order[..|order| - 1], i); }
  }

  /** One entry is logged for each of them, under consecutive identifiers. */
  lemma SweepLogsEach(s: State, c: Call)
    requires Legal(s, c)
    ensures var b := Seen(s, c);
      && |b.activity| == |s.activity| + |c.order| && s.activity <= b.activity
      && b.nextActivityID == s.nextActivityID + |c.order|
      && (forall id :: id in c.order <==> id in s.tasks && RanOut(s.tasks[id], c.now))
      && (forall i {:trigger c.order[i]} :: 0 <= i < |c.order| ==>
            TellsOf(b.activity[|s.activity| + i], s.tasks, c.now, c.order[i], s.nextActivityID + 1 + i))
  {
    hide Expirations, TellsOf, IdLess, SweptTasks, SweptAgents;
    assert forall id :: id in c.order <==> id in ExpiredIds(s.tasks, c.now);
    forall i {:trigger c.order[i]} | 0 <= i < |c.order|
      ensures TellsOf(Seen(s, c).activity[|s.activity| + i], s.tasks, c.now, c.order[i], s.nextActivityID + 1 + i)
    {
      ExpirationAt(s.tasks, c.now, s.nextActivityID, c.order, i);
    }
  }

  /** A call that is not refused for its arguments does its work on the swept board. */
  lemma Splits(cfg: Config, s: State, c: Call)
    requires Legal(s, c)
    ensures var r := Do(cfg, s, c);
      if Admissible(cfg, c.op) then
        var x := Apply(cfg, Seen(s, c), c.now, c.op);
        && r.state == x.state && r.outcome == x.outcome
        && (r.marked <==> !c.op.UnsavedSweep? && (c.order != [] || x.marked))
      else r.state == s && r.outcome == Failed(Invalid)
  {
    hide Admissible, Apply, Swept;
  }

  // ----- names ------------------------------------------------------------------------------

  predicate Digit(c: char) { '0' <= c <= '9' }

  predicate Capital(c: char) { 'A' <= c <= 'Z' }

  /** A name begins with a letter or a digit, a key with a capital. */
  lemma NamesAndKeys(s: string)
    ensures NameOk(s) <==> 1 <= |s| <= 64 && forall i :: 0 <= i < |s| ==>
      Digit(s[i]) || Capital(s[i]) || 'a' <= s[i] <= 'z' || (i > 0 && (s[i] == '.' || s[i] == '_' || s[i] == '-'))
    ensures KeyOk(s) <==> 2 <= |s| <= 10 && forall i :: 0 <= i < |s| ==> Capital(s[i]) || (i > 0 && Digit(s[i]))
  {
  }

  // ----- Claim ------------------------------------------------------------------------

  /** The lease that a claim asks for: none is the default of the board. */
  function Asked(cfg: Config, lease: int): int { if lease == 0 then cfg.lease else lease }

  /** Another agent has it, on a lease. */
  predicate Taken(t: Task, agent: string) { t.assignee != "" && t.assignee != agent && t.leaseExpires.Some? }

  /** A claim is refused for a lease under a second or over a day, for a done task and
      for one that another agent has leased. */
  lemma ClaimOutcome(cfg: Config, s: State, c: Call)
    requires Legal(s, c) && c.op.Claim?
    ensures var b, id, a, lease := Seen(s, c), c.op.id, c.op.agent, Asked(cfg, c.op.lease);
      Do(cfg, s, c).outcome ==
        if !NameOk(a) || lease < SECOND || lease > 86400 * SECOND then Failed(Invalid)
        else if id !in b.tasks then Failed(NotFound)
        else if b.tasks[id].status == Done then Failed(Invalid)
        else if Taken(b.tasks[id], a) then Failed(Claimed)
        else Ok
  {
    Splits(cfg, s, c);
    hide NameOk, Do, Swept, ClaimedTask, TouchAgent, Log;
  }

  /** The task is in progress, in the hands of the agent, for as long as it asked. */
  ghost predicate TaskTaken(b: State, after: State, now: Time, id: string, a: string, lease: int) {
    && id in b.tasks && OnlyAt(b.tasks, after.tasks, id)
    && var t, u := b.tasks[id], after.tasks[id];
    && SamePlan(t, u) && Stamped(u, now, a) && u.status == InProgress && u.assignee == a
    && u.leaseExpires == Some(now + lease) && u.leaseSeconds * SECOND <= lease < (u.leaseSeconds + 1) * SECOND
    && LoggedOne(b, after, now, a, id,
                 if t.assignee == a && t.status == InProgress then LeaseRenewed else LeaseClaimed, LeaseOf(lease))
  }

  lemma ClaimBody(b: State, now: Time, id: string, a: string, lease: int)
    requires ApplyClaim(b, now, id, a, lease).outcome.Ok?
    ensures TaskTaken(b, ApplyClaim(b, now, id, a, lease).state, now, id, a, lease)
  {
    hide Touched;
  }

  lemma ClaimTakes(cfg: Config, s: State, c: Call)
    requires Legal(s, c) && c.op.Claim? && Do(cfg, s, c).outcome.Ok?
    ensures TaskTaken(Seen(s, c), Do(cfg, s, c).state, c.now, c.op.id, c.op.agent, Asked(cfg, c.op.lease))
  {
    Splits(cfg, s, c);
    ClaimBody(Seen(s, c), c.now, c.op.id, c.op.agent, Asked(cfg, c.op.lease));
    hide NameOk, Do, Swept, ApplyClaim, TaskTaken;
  }

  /** The claimer exists from then on, was heard of now, and works on the task. */
  lemma ClaimBusies(cfg: Config, s: State, c: Call)
    requires Legal(s, c) && c.op.Claim? && Do(cfg, s, c).outcome.Ok?
    ensures var b, after, a := Seen(s, c), Do(cfg, s, c).state, c.op.agent;
      && OnlyAt(b.agents, after.agents, a) && after.projects == b.projects && after.users == b.users
      && HeardOf(b, after, a, "", c.op.id, c.now)
      && (after.agents[a].meta == if a in b.agents then b.agents[a].meta else None)
  {
    Splits(cfg, s, c);
    hide NameOk, Do, Swept, ClaimedTask;
  }

  /** The agent's record: a kind or a task that is not given stays as it was. */
  predicate HeardOf(b: State, after: State, a: string, kind: string, task: string, now: Time) {
    && a in after.agents && after.agents[a].lastHeartbeat == now
    && (a in b.agents ==>
          && after.agents[a].name == b.agents[a].name && after.agents[a].online == b.agents[a].online
          && after.agents[a].kind == (if kind == "" then b.agents[a].kind else kind)
          && after.agents[a].currentTask == (if task == "" then b.agents[a].currentTask else task))
    && (a !in b.agents ==>
          && after.agents[a].name == a && !after.agents[a].online
          && after.agents[a].kind == (if kind == "" then "agent" else kind) && after.agents[a].currentTask == task)
  }

  // ----- Release and Complete ------------------------------------------------------------

  /** The agent is no longer at work on the task; nothing else about the agents changes. */
  ghost predicate Stops(b: State, after: State, agent: string, id: string) {
    && after.agents.Keys == b.agents.Keys
    && (forall name :: name in b.agents && (name != agent || b.agents[name].currentTask != id) ==>
          after.agents[name] == b.agents[name])
    && (agent in b.agents && b.agents[agent].currentTask == id ==>
          after.agents[agent] == b.agents[agent].(currentTask := ""))
  }

  lemma ReleaseOutcome(cfg: Config, s: State, c: Call)
    requires Legal(s, c) && c.op.Release?
    ensures var b, id, a := Seen(s, c), c.op.id, c.op.agent;
      Do(cfg, s, c).outcome ==
        if id !in b.tasks then Failed(NotFound)
        else if b.tasks[id].assignee == "" then Failed(Invalid)
        else if b.tasks[id].assignee != a then Failed(NotOwner)
        else Ok
  {
    Splits(cfg, s, c);
    hide Do, Swept, ReleasedTask, ClearCurrent, Log;
  }

  /** The task is back in todo, free for anybody. */
  ghost predicate TaskFree(b: State, after: State, now: Time, id: string, a: string) {
    && id in b.tasks && OnlyAt(b.tasks, after.tasks, id)
    && var t, u := b.tasks[id], after.tasks[id];
    && SamePlan(t, u) && Stamped(u, now, a) && u.status == Todo && u.assignee == "" && Unleased(u)
    && LoggedOne(b, after, now, a, id, LeaseReleased, NoDetail)
  }

  lemma ReleaseBody(b: State, now: Time, id: string, a: string)
    requires ApplyRelease(b, now, id, a).outcome.Ok?
    ensures var after := ApplyRelease(b, now, id, a).state;
      && TaskFree(b, after, now, id, a) && Stops(b, after, a, id)
      && after.projects == b.projects && after.users == b.users
  {
  }

  lemma ReleaseFrees(cfg: Config, s: State, c: Call)
    requires Legal(s, c) && c.op.Release? && Do(cfg, s, c).outcome.Ok?
    ensures var b, after, id, a := Seen(s, c), Do(cfg, s, c).state, c.op.id, c.op.agent;
      && TaskFree(b, after, c.now, id, a) && Stops(b, after, a, id)
      && after.projects == b.projects && after.users == b.users
  {
    Splits(cfg, s, c);
    ReleaseBody(Seen(s, c), c.now, c.op.id, c.op.agent);
    hide Do, Swept, ApplyRelease, TaskFree, Stops;
  }

  lemma CompleteOutcome(cfg: Config, s: State, c: Call)
    requires Legal(s, c) && c.op.Complete?
    ensures var b, id, a := Seen(s, c), c.op.id, c.op.agent;
      Do(cfg, s, c).outcome ==
        if !NameOk(a) then Failed(Invalid)
        else if id !in b.tasks then Failed(NotFound)
        else if Taken(b.tasks[id], a) then Failed(NotOwner)
        else if b.tasks[id].status == Done then Failed(Invalid)
        else Ok
  {
    Splits(cfg, s, c);
    hide NameOk, Do, Swept, CompletedTask, ClearCurrent, Log;
  }

  /** The task is done and its lease is over. It stays with its assignee, or comes to
      the caller if it had none, and that agent is no longer at work on it. */
  ghost predicate TaskDoneBy(b: State, after: State, now: Time, id: string, a: string) {
    && id in b.tasks && OnlyAt(b.tasks, after.tasks, id)
    && var t, u := b.tasks[id], after.tasks[id];
    && SamePlan(t, u) && Stamped(u, now, a) && u.status == Done && Unleased(u)
    && u.assignee == (if t.assignee == "" then a else t.assignee)
    && Stops(b, after, u.assignee, id)
    && LoggedOne(b, after, now, a, id, TaskDone, NoDetail)
  }

  lemma CompleteBody(b: State, now: Time, id: string, a: string)
    requires ApplyComplete(b, now, id, a).outcome.Ok?
    ensures var after := ApplyComplete(b, now, id, a).state;
      TaskDoneBy(b, after, now, id, a) && after.projects == b.projects && after.users == b.users
  {
  }

  lemma CompleteFinishes(cfg: Config, s: State, c: Call)
    requires Legal(s, c) && c.op.Complete? && Do(cfg, s, c).outcome.Ok?
    ensures var b, after := Seen(s, c), Do(cfg, s, c).state;
      TaskDoneBy(b, after, c.now, c.op.id, c.op.agent) && after.projects == b.projects && after.users == b.users
  {
    Splits(cfg, s, c);
    CompleteBody(Seen(s, c), c.now, c.op.id, c.op.agent);
    hide NameOk, Do, Swept, ApplyComplete, TaskDoneBy;
  }

  /** What is done cannot be done again, or claimed. */
  lemma DoneIsFinal(cfg: Config, s: State, c: Call, d: Call)
    requires Legal(s, c) && c.op.Complete? && Do(cfg, s, c).outcome.Ok?
    requires Legal(Do(cfg, s, c).state, d)
    requires (d.op.Complete? && d.op.id == c.op.id) || (d.op.Claim? && d.op.id == c.op.id)
    ensures Do(cfg, Do(cfg, s, c).state, d).outcome == Failed(Invalid)
  {
    var after := Do(cfg, s, c).state;
    CompleteFinishes(cfg, s, c);
    SweepFrees(after, d);
    if d.op.Complete? { CompleteOutcome(cfg, after, d); } else { ClaimOutcome(cfg, after, d); }
    hide Do, Seen, Legal, NameOk, OnlyAt, Stops;
  }

  // ----- AddTask ----------------------------------------------------------------------------

  /** Epics may hold anything but epics, stories only tasks, tasks nothing. */
  predicate MayHold(parent: Kind, child: Kind) {
    !child.Epic? && (parent.Epic? || (parent.Story? && !child.Story?))
  }

  function Refusal(b: State, project: string, kind: Kind, parent: string): Outcome {
    if parent == "" then Ok
    else if parent !in b.tasks then Failed(NotFound)
    else if b.tasks[parent].project != project || !MayHold(b.tasks[parent].kind, kind) then Failed(Invalid)
    else Ok
  }

  predicate ActorFits(actor: string) { NameOk(actor) && actor != "" && actor != "system" }

  /** What AddTask asks of its arguments: a priority or a kind left empty stands for
      medium and for task. */
  predicate AddTaskFits(op: Op)
    requires op.AddTask?
  {
    && 1 <= |op.title| <= 200 && |op.description| <= 20000 && ActorFits(op.actor)
    && op.labels.Some? && |op.labels.value| <= 10
    && (op.priority.OtherPriority? ==> op.priority.name == "") && (op.kind.OtherKind? ==> op.kind.name == "")
  }

  function GivenKind(k: Kind): Kind { if k.OtherKind? && k.name == "" then Leaf else k }

  function GivenPriority(p: Priority): Priority { if p.OtherPriority? && p.name == "" then Medium else p }

  lemma AddTaskOutcome(cfg: Config, s: State, c: Call)
    requires Legal(s, c) && c.op.AddTask?
    ensures var b, op := Seen(s, c), c.op;
      Do(cfg, s, c).outcome ==
        if !AddTaskFits(op) then Failed(Invalid)
        else if op.project !in b.projects then Failed(NotFound)
        else Refusal(b, b.projects[op.project].key, GivenKind(op.kind), op.parent)
  {
    Splits(cfg, s, c);
    hide NameOk, Do, Swept, NewTask, Log, PutTask;
  }

  /** A fresh task in todo, nobody's, with the given fields and the project's next number. */
  ghost predicate TaskAdded(b: State, after: State, now: Time, project: string, kind: Kind, parent: string,
                            title: string, description: string, priority: Priority, labels: seq<string>,
                            actor: string)
  {
    && project in b.projects && OnlyAt(b.projects, after.projects, project)
    && var p := b.projects[project];
    && after.projects[project] == Project(p.key, p.name, p.nextSeq + 1, p.createdAt)
    && var id := FormatId(p.key, p.nextSeq + 1);
    && OnlyAt(b.tasks, after.tasks, id) && after.agents == b.agents && after.users == b.users
    && var u := after.tasks[id];
    && u.id == id && u.project == p.key && u.kind == kind && u.parent == parent && u.title == title
    && u.description == description && u.priority == priority && u.labels == labels
    && u.status == Todo && u.assignee == "" && Unleased(u) && u.startDate.None? && u.endDate.None?
    && u.createdBy == actor && u.createdAt == now && Stamped(u, now, actor)
    && LoggedOne(b, after, now, actor, id, TaskCreated, Text(title))
  }

  lemma AddTaskBody(b: State, now: Time, project: string, kind: Kind, parent: string, title: string,
                    description: string, priority: Priority, labels: seq<string>, actor: string)
    requires ApplyAddTask(b, now, project, kind, parent, title, description, priority, labels, actor).outcome.Ok?
    ensures TaskAdded(b, ApplyAddTask(b, now, project, kind, parent, title, description, priority, labels, actor).state,
                      now, project, kind, parent, title, description, priority, labels, actor)
  {
    hide CheckParent, FormatId;
  }

  lemma AddTaskAdds(cfg: Config, s: State, c: Call)
    requires Legal(s, c) && c.op.AddTask? && Do(cfg, s, c).outcome.Ok?
    ensures c.op.labels.Some?
    ensures var op := c.op;
      TaskAdded(Seen(s, c), Do(cfg, s, c).state, c.now, op.project, GivenKind(op.kind), op.parent, op.title,
                op.description, GivenPriority(op.priority), op.labels.value, op.actor)
  {
    Splits(cfg, s, c);
    var op := c.op;
    AddTaskBody(Seen(s, c), c.now, op.project, GivenKind(op.kind), op.parent, op.title,
                op.description, GivenPriority(op.priority), op.labels.value, op.actor);
    hide NameOk, Do, Swept, ApplyAddTask, TaskAdded;
  }

  // ----- Update -----------------------------------------------------------------------------

  predicate UpdateFits(p: Patch) {
    && ActorFits(p.actor)
    && (p.title.Some? ==> 1 <= |p.title.value| <= 200)
    && (p.description.Some? ==> |p.description.value| <= 20000)
    && (p.status.Some? ==> !p.status.value.OtherStatus?)
    && (p.priority.Some? ==> !p.priority.value.OtherPriority?)
    && (p.labels.Some? ==> p.labels.value.Some? && |p.labels.value.value| <= 10)
    && (p.startDate.Some? ==> !p.startDate.value.MalformedDate?)
    && (p.endDate.Some? ==> !p.endDate.value.MalformedDate?)
  }

  /** The date a patch leaves: the given one, none for the empty string, the old one when not given. */
  predicate DateSet(p: Option<DatePatch>, old_: Option<Day>, new_: Option<Day>) {
    && (p.None? ==> new_ == old_)
    && (p.Some? && p.value.ClearDate? ==> new_.None?)
    && (p.Some? && p.value.SetDate? ==> new_ == Some(p.value.day))
  }

  /** The dates that the patch would leave are in the wrong order. */
  ghost predicate DatesClash(t: Task, p: Patch) {
    exists first: Day, last: Day ::
      DateSet(p.startDate, t.startDate, Some(first)) && DateSet(p.endDate, t.endDate, Some(last)) && last < first
  }

  /** The update is refused for a parent that may not hold the task, if it is a new
      parent, and for an end before the start. */
  lemma UpdateOutcome(cfg: Config, s: State, c: Call)
    requires Legal(s, c) && c.op.Update?
    ensures var b, id, p := Seen(s, c), c.op.id, c.op.patch;
      Do(cfg, s, c).outcome ==
        if !UpdateFits(p) then Failed(Invalid)
        else if id !in b.tasks then Failed(NotFound)
        else
          var t := b.tasks[id];
          var refusal := if p.parent.Some? && p.parent.value != t.parent
                         then Refusal(b, t.project, t.kind, p.parent.value) else Ok;
          if !refusal.Ok? then refusal else if DatesClash(t, p) then Failed(Invalid) else Ok
  {
    Splits(cfg, s, c);
    hide NameOk, Do, Swept, UpdateNoted, UpdatedTask;
    var b, id, p := Seen(s, c), c.op.id, c.op.patch;
    if UpdateFits(p) && id in b.tasks {
      RefusalFits(b, b.tasks[id], p);
    }
  }

  lemma RefusalFits(b: State, t: Task, p: Patch)
    requires p.startDate != Some(MalformedDate) && p.endDate != Some(MalformedDate)
    ensures var refusal := if p.parent.Some? && p.parent.value != t.parent
                           then Refusal(b, t.project, t.kind, p.parent.value) else Ok;
      UpdateRefusal(b, t, p) ==
        if refusal.Failed? then Some(refusal.error) else if DatesClash(t, p) then Some(Invalid) else None
  {
    var first, last := FinalDate(p.startDate, t.startDate), FinalDate(p.endDate, t.endDate);
    if first.Some? && last.Some? && last.value < first.value {
      assert DateSet(p.startDate, t.startDate, Some(first.value)) && DateSet(p.endDate, t.endDate, Some(last.value));
    }
  }

  /** Every field that the patch gives has the given value, and no other changed. */
  predicate FieldsSet(t: Task, u: Task, p: Patch) {
    && SameOrigin(t, u)
    && u.title == (if p.title.Some? then p.title.value else t.title)
    && u.description == (if p.description.Some? then p.description.value else t.description)
    && u.priority == (if p.priority.Some? then p.priority.value else t.priority)
    && (p.labels.None? ==> u.labels == t.labels) && (p.labels.Some? ==> p.labels.value == Some(u.labels))
    && u.parent == (if p.parent.Some? then p.parent.value else t.parent)
    && DateSet(p.startDate, t.startDate, u.startDate) && DateSet(p.endDate, t.endDate, u.endDate)
  }

  /** A move ends the lease, and a move to todo takes the task from its assignee. */
  predicate ProgressSet(t: Task, u: Task, p: Patch) {
    if p.status.Some? && p.status.value != t.status then
      && u.status == p.status.value && Unleased(u)
      && u.assignee == (if p.status.value == Todo then "" else t.assignee)
    else SameProgress(t, u)
  }

  /** An update that is accepted without any change: labels that are given count as changed. */
  predicate NothingSet(t: Task, p: Patch) {
    FieldsSet(t, t, p) && p.labels.None? && (p.status.Some? ==> p.status.value == t.status)
  }

  lemma NoChange(t: Task, p: Patch)
    requires p.startDate != Some(MalformedDate) && p.endDate != Some(MalformedDate)
    ensures NothingSet(t, p) <==> Changed(t, p) == [] && !Moves(t, p)
  {
  }

  ghost predicate TaskUpdated(b: State, after: State, now: Time, id: string, p: Patch) {
    && id in b.tasks && OnlyAt(b.tasks, after.tasks, id)
    && var t, u := b.tasks[id], after.tasks[id];
    && FieldsSet(t, u, p) && ProgressSet(t, u, p) && Stamped(u, now, p.actor)
    && after.projects == b.projects && after.users == b.users
  }

  lemma UpdateBody(b: State, now: Time, id: string, p: Patch)
    requires ApplyUpdate(b, now, id, p).outcome.Ok?
    requires p.startDate != Some(MalformedDate) && p.endDate != Some(MalformedDate)
    requires p.labels.Some? ==> p.labels.value.Some?
    ensures id in b.tasks
    ensures var after := ApplyUpdate(b, now, id, p).state;
      if NothingSet(b.tasks[id], p) then after == b else TaskUpdated(b, after, now, id, p)
  {
    hide Log, ClearCurrent, UpdateRefusal, Changed, NothingSet;
    NoChange(b.tasks[id], p);
    NotedLeaves(b, now, id, b.tasks[id], p, Changed(b.tasks[id], p));
    hide UpdateNoted;
  }

  lemma NotedLeaves(b: State, now: Time, id: string, t: Task, p: Patch, changed: seq<string>)
    ensures var x := UpdateNoted(b, now, id, t, p, changed);
      x.tasks == b.tasks && x.projects == b.projects && x.users == b.users
  {
  }

  /** The agent that had a task in progress stops when the task is moved away. */
  ghost predicate MoverStops(b: State, after: State, t: Task, p: Patch) {
    if p.status.Some? && p.status.value != t.status && t.status == InProgress
    then Stops(b, after, t.assignee, t.id) else after.agents == b.agents
  }

  /** The place of a field in the list of changes. */
  function Place(name: string): int {
    if name == "title" then 1 else if name == "description" then 2 else if name == "priority" then 3
    else if name == "labels" then 4 else if name == "parent" then 5 else if name == "start_date" then 6
    else if name == "end_date" then 7 else 0
  }

  predicate Differs(t: Task, u: Task, p: Patch, name: string) {
    match Place(name)
    case 1 => u.title != t.title
    case 2 => u.description != t.description
    case 3 => u.priority != t.priority
    case 4 => p.labels.Some?
    case 5 => u.parent != t.parent
    case 6 => u.startDate != t.startDate
    case 7 => u.endDate != t.endDate
    case _ => false
  }

  /** The names are those of the changed fields, each once, in the order of the record. */
  ghost predicate Lists(fields: seq<string>, t: Task, u: Task, p: Patch) {
    && (forall name :: name in fields <==> Differs(t, u, p, name))
    && (forall i, j :: 0 <= i < j < |fields| ==> Place(fields[i]) < Place(fields[j]))
  }

  /** One entry for the edited fields, if there are any, and then one for the move, if there is one. */
  predicate LoggedChanges(b: State, after: State, now: Time, actor: string, id: string, fields: seq<string>,
                          was: Status, becomes: Status)
  {
    var n := b.nextActivityID + 1;
    var edits := if fields == [] then [] else [Activity(n, now, actor, id, FieldsUpdated, ChangedFields(fields))];
    var moves := if becomes == was then []
                 else [Activity(n + |edits|, now, actor, id, StatusMoved, MovedFromTo(was, becomes))];
    && after.activity == b.activity + edits + moves && after.nextActivityID == b.nextActivityID + |edits| + |moves|
    && after.archivedThrough == b.archivedThrough && after.version == b.version
  }

  ghost predicate UpdateLogged(b: State, after: State, now: Time, id: string, t: Task, u: Task, p: Patch) {
    exists fields :: Lists(fields, t, u, p) && LoggedChanges(b, after, now, p.actor, id, fields, t.status, u.status)
  }

  /** As Lists, for the fields up to a place. */
  ghost predicate ListsTo(fields: seq<string>, t: Task, u: Task, p: Patch, k: int) {
    && (forall name :: name in fields <==> Differs(t, u, p, name) && Place(name) <= k)
    && (forall i, j :: 0 <= i < j < |fields| ==> Place(fields[i]) < Place(fields[j]))
  }

  lemma ListsNext(fields: seq<string>, t: Task, u: Task, p: Patch, name: string)
    requires Place(name) >= 1 && ListsTo(fields, t, u, p, Place(name) - 1)
    ensures ListsTo(fields + If(Differs(t, u, p, name), name), t, u, p, Place(name))
  {
    hide Differs;
    var all := fields + If(Differs(t, u, p, name), name);
    assert forall x :: Place(x) == Place(name) ==> x == name;
    hide Place;
    forall i, j | 0 <= i < j < |all|
      ensures Place(all[i]) < Place(all[j])
    {
      assert all[i] in fields;
    }
  }

  lemma Places()
    ensures Place("title") == 1 && Place("description") == 2 && Place("priority") == 3 && Place("labels") == 4
    ensures Place("parent") == 5 && Place("start_date") == 6 && Place("end_date") == 7
  {
  }

  lemma ChangedLists(t: Task, u: Task, p: Patch)
    requires FieldsSet(t, u, p) && p.startDate != Some(MalformedDate) && p.endDate != Some(MalformedDate)
    ensures Lists(Changed(t, p), t, u, p)
  {
    hide ListsTo, Lists, Place, Differs, If, FieldsSet;
    DifferWhenGiven(t, u, p);
    Places();
    assert ListsTo([], t, u, p, 0) by { NoneAtZero(t, u, p); }
    var l1 := [] + If(Differs(t, u, p, "title"), "title");
    ListsNext([], t, u, p, "title");
    var l2 := l1 + If(Differs(t, u, p, "description"), "description");
    ListsNext(l1, t, u, p, "description");
    var l3 := l2 + If(Differs(t, u, p, "priority"), "priority");
    ListsNext(l2, t, u, p, "priority");
    var l4 := l3 + If(Differs(t, u, p, "labels"), "labels");
    ListsNext(l3, t, u, p, "labels");
    var l5 := l4 + If(Differs(t, u, p, "parent"), "parent");
    ListsNext(l4, t, u, p, "parent");
    var l6 := l5 + If(Differs(t, u, p, "start_date"), "start_date");
    ListsNext(l5, t, u, p, "start_date");
    ListsNext(l6, t, u, p, "end_date");
    var l7 := l6 + If(Differs(t, u, p, "end_date"), "end_date");
    assert Changed(t, p) == l7;
    ListsAll(l7, t, u, p);
  }

  lemma NoneAtZero(t: Task, u: Task, p: Patch)
    ensures ListsTo([], t, u, p, 0)
  {
  }

  lemma ListsAll(fields: seq<string>, t: Task, u: Task, p: Patch)
    requires ListsTo(fields, t, u, p, 7)
    ensures Lists(fields, t, u, p)
  {
    hide Differs;
  }

  lemma DifferWhenGiven(t: Task, u: Task, p: Patch)
    requires FieldsSet(t, u, p) && p.startDate != Some(MalformedDate) && p.endDate != Some(MalformedDate)
    ensures Differs(t, u, p, "title") <==> p.title.Some? && p.title.value != t.title
    ensures Differs(t, u, p, "description") <==> p.description.Some? && p.description.value != t.description
    ensures Differs(t, u, p, "priority") <==> p.priority.Some? && p.priority.value != t.priority
    ensures Differs(t, u, p, "labels") <==> p.labels.Some?
    ensures Differs(t, u, p, "parent") <==> p.parent.Some? && p.parent.value != t.parent
    ensures Differs(t, u, p, "start_date") <==> FinalDate(p.startDate, t.startDate) != t.startDate
    ensures Differs(t, u, p, "end_date") <==> FinalDate(p.endDate, t.endDate) != t.endDate
  {
  }

  lemma NotedLogs(b: State, now: Time, id: string, t: Task, p: Patch, changed: seq<string>)
    ensures LoggedChanges(b, UpdateNoted(b, now, id, t, p, changed), now, p.actor, id, changed, t.status,
                          if p.status.Some? then p.status.value else t.status)
  {
  }

  lemma UpdateLogs(b: State, now: Time, id: string, p: Patch)
    requires id in b.tasks && ApplyUpdate(b, now, id, p).outcome.Ok? && !NothingSet(b.tasks[id], p)
    requires p.startDate != Some(MalformedDate) && p.endDate != Some(MalformedDate)
    requires FieldsSet(b.tasks[id], UpdatedTask(b.tasks[id], now, p), p)
    ensures var t, after := b.tasks[id], ApplyUpdate(b, now, id, p).state;
      id in after.tasks && UpdateLogged(b, after, now, id, t, after.tasks[id], p)
  {
    var t, u := b.tasks[id], UpdatedTask(b.tasks[id], now, p);
    var after := ApplyUpdate(b, now, id, p).state;
    ChangedLists(t, u, p);
    NoChange(t, p);
    NotedLogs(b, now, id, t, p, Changed(t, p));
    hide Lists, FieldsSet, NothingSet, UpdateRefusal, Edited, Changed, UpdateNoted;
    assert after.tasks[id] == u;
    assert LoggedChanges(b, after, now, p.actor, id, Changed(t, p), t.status, u.status);
  }

  lemma UpdateStops(b: State, now: Time, id: string, p: Patch)
    requires id in b.tasks && ApplyUpdate(b, now, id, p).outcome.Ok? && !NothingSet(b.tasks[id], p)
    requires p.startDate != Some(MalformedDate) && p.endDate != Some(MalformedDate)
    ensures MoverStops(b, ApplyUpdate(b, now, id, p).state, b.tasks[id], p)
  {
    NoChange(b.tasks[id], p);
    hide NothingSet, UpdateRefusal, Changed, UpdatedTask;
  }

  lemma UpdatedFields(t: Task, now: Time, p: Patch)
    requires p.startDate != Some(MalformedDate) && p.endDate != Some(MalformedDate)
    requires p.labels.Some? ==> p.labels.value.Some?
    ensures FieldsSet(t, UpdatedTask(t, now, p), p)
  {
    var e := Edited(t, p);
    assert FieldsSet(t, e, p);
    assert SamePlan(e, UpdatedTask(t, now, p)) by { hide Edited, FieldsSet; }
    hide Edited, UpdatedTask, DateSet;
  }

  /** An accepted update: without a change it leaves everything as it was. */
  lemma UpdateSets(cfg: Config, s: State, c: Call)
    requires Legal(s, c) && c.op.Update? && Do(cfg, s, c).outcome.Ok?
    ensures c.op.id in Seen(s, c).tasks
    ensures var b, after, id, p := Seen(s, c), Do(cfg, s, c).state, c.op.id, c.op.patch;
      if NothingSet(b.tasks[id], p) then after == b
      else
        && TaskUpdated(b, after, c.now, id, p) && MoverStops(b, after, b.tasks[id], p)
        && id in after.tasks && UpdateLogged(b, after, c.now, id, b.tasks[id], after.tasks[id], p)
    ensures Do(cfg, s, c).marked <==> c.order != [] || !NothingSet(Seen(s, c).tasks[c.op.id], c.op.patch)
  {
    Splits(cfg, s, c);
    var b, id, p := Seen(s, c), c.op.id, c.op.patch;
    UpdateBody(b, c.now, id, p);
    UpdatedFields(b.tasks[id], c.now, p);
    NoChange(b.tasks[id], p);
    assert ApplyUpdate(b, c.now, id, p).marked <==> !NothingSet(b.tasks[id], p) by {
      hide Seen, NothingSet, FieldsSet, TaskUpdated;
    }
    if !NothingSet(b.tasks[id], p) {
      UpdateLogs(b, c.now, id, p);
      UpdateStops(b, c.now, id, p);
    }
    hide NameOk, Do, Swept, ApplyUpdate, TaskUpdated, NothingSet, UpdateLogged, MoverStops, FieldsSet;
  }

  // ----- Comment and Heartbeat ----------------------------------------------------------------

  lemma CommentOutcome(cfg: Config, s: State, c: Call)
    requires Legal(s, c) && c.op.Comment?
    ensures Do(cfg, s, c).outcome ==
      if !ActorFits(c.op.actor) || |c.op.text| == 0 || |c.op.text| > 5000 then Failed(Invalid)
      else if c.op.id !in Seen(s, c).tasks then Failed(NotFound)
      else Ok
  {
    Splits(cfg, s, c);
    hide NameOk, Do, Swept, Log;
  }

  ghost predicate TaskCommented(b: State, after: State, now: Time, id: string, actor: string, text: string) {
    && id in b.tasks && OnlyAt(b.tasks, after.tasks, id)
    && var t, u := b.tasks[id], after.tasks[id];
    && SamePlan(t, u) && SameProgress(t, u) && Stamped(u, now, actor)
    && after.projects == b.projects && after.agents == b.agents && after.users == b.users
    && LoggedOne(b, after, now, actor, id, Commented, Text(text))
  }

  lemma CommentBody(b: State, now: Time, id: string, actor: string, text: string)
    requires id in b.tasks
    ensures TaskCommented(b, ApplyComment(b, now, id, actor, text).state, now, id, actor, text)
  {
  }

  /** A comment is an entry of the log: the task itself is only stamped. */
  lemma CommentStamps(cfg: Config, s: State, c: Call)
    requires Legal(s, c) && c.op.Comment? && Do(cfg, s, c).outcome.Ok?
    ensures TaskCommented(Seen(s, c), Do(cfg, s, c).state, c.now, c.op.id, c.op.actor, c.op.text)
  {
    CommentOutcome(cfg, s, c);
    Splits(cfg, s, c);
    CommentBody(Seen(s, c), c.now, c.op.id, c.op.actor, c.op.text);
    hide NameOk, Do, Swept, ApplyComment, TaskCommented;
  }

  predicate HeartbeatFits(op: Op)
    requires op.Heartbeat?
  {
    && NameOk(op.name) && |op.agentKind| <= 32
    && (op.meta.Some? ==>
          && |op.meta.value| <= 16
          && forall k :: k in op.meta.value ==> 1 <= |k| <= 32 && |op.meta.value[k]| <= 256)
  }

  lemma HeartbeatOutcome(cfg: Config, s: State, c: Call)
    requires Legal(s, c) && c.op.Heartbeat?
    ensures var b, op := Seen(s, c), c.op;
      Do(cfg, s, c).outcome ==
        if !HeartbeatFits(op) then Failed(Invalid)
        else if op.task != "" && op.task !in b.tasks then Failed(NotFound)
        else if op.task != "" && b.tasks[op.task].assignee != op.name then Failed(NotOwner)
        else Ok
  {
    Splits(cfg, s, c);
    hide NameOk, Do, Swept, RenewAll, Touched;
  }

  /** The leases of the agent's tasks in progress start again, each as long as it was in
      whole seconds, or as long as the default when it had none. */
  ghost predicate LeasesRenewed(cfg: Config, b: State, after: State, now: Time, name: string) {
    && after.tasks.Keys == b.tasks.Keys
    && forall id :: id in b.tasks ==>
         var t, u := b.tasks[id], after.tasks[id];
         if t.status == InProgress && t.assignee == name && t.leaseExpires.Some? then
           && SamePlan(t, u) && Stamped(u, t.updatedAt, t.updatedBy)
           && u.status == InProgress && u.assignee == name && u.leaseSeconds == t.leaseSeconds
           && u.leaseExpires == Some(now + if t.leaseSeconds > 0 then t.leaseSeconds * 1_000_000_000 else cfg.lease)
         else u == t
  }

  lemma BeatRenews(cfg: Config, b: State, now: Time, name: string, kind: string, task: string,
                   meta: Option<map<string, string>>)
    requires ApplyHeartbeat(cfg, b, now, name, kind, task, meta).outcome.Ok?
    ensures var after := ApplyHeartbeat(cfg, b, now, name, kind, task, meta).state;
      && LeasesRenewed(cfg, b, after, now, name)
      && after.projects == b.projects && after.users == b.users && Silent(b, after)
  {
    hide Touched;
  }

  /** The agent is there, was heard of now, and has the given metadata. */
  ghost predicate AgentBeats(b: State, after: State, now: Time, name: string, kind: string, task: string,
                             meta: Option<map<string, string>>)
  {
    && OnlyAt(b.agents, after.agents, name) && HeardOf(b, after, name, kind, task, now)
    && after.agents[name].meta ==
         (if meta.Some? then meta else if name in b.agents then b.agents[name].meta else None)
  }

  lemma BeatKnows(cfg: Config, b: State, now: Time, name: string, kind: string, task: string,
                  meta: Option<map<string, string>>)
    requires ApplyHeartbeat(cfg, b, now, name, kind, task, meta).outcome.Ok?
    ensures AgentBeats(b, ApplyHeartbeat(cfg, b, now, name, kind, task, meta).state, now, name, kind, task, meta)
  {
    hide RenewAll;
  }

  lemma HeartbeatRenews(cfg: Config, s: State, c: Call)
    requires Legal(s, c) && c.op.Heartbeat? && Do(cfg, s, c).outcome.Ok?
    ensures var b, after, op := Seen(s, c), Do(cfg, s, c).state, c.op;
      && LeasesRenewed(cfg, b, after, c.now, op.name)
      && AgentBeats(b, after, c.now, op.name, op.agentKind, op.task, op.meta)
      && after.projects == b.projects && after.users == b.users && Silent(b, after)
  {
    Splits(cfg, s, c);
    BeatRenews(cfg, Seen(s, c), c.now, c.op.name, c.op.agentKind, c.op.task, c.op.meta);
    BeatKnows(cfg, Seen(s, c), c.now, c.op.name, c.op.agentKind, c.op.task, c.op.meta);
    hide NameOk, Do, Swept, ApplyHeartbeat, LeasesRenewed, AgentBeats;
  }

  // ----- projects, users, shutdown ---------------------------------------------------------------

  lemma CreateProjectCreates(cfg: Config, s: State, c: Call)
    requires Legal(s, c) && c.op.CreateProject?
    ensures var b, r, op := Seen(s, c), Do(cfg, s, c), c.op;
      && r.outcome == (if !KeyOk(op.key) || |op.name| == 0 || |op.name| > 200 || !ActorFits(op.actor)
                       then Failed(Invalid) else if op.key in b.projects then Failed(Exists) else Ok)
      && (r.outcome.Ok? ==>
            && OnlyAt(b.projects, r.state.projects, op.key)
            && r.state.projects[op.key] == Project(op.key, op.name, 0, c.now)
            && r.state.tasks == b.tasks && r.state.agents == b.agents && r.state.users == b.users
            && LoggedOne(b, r.state, c.now, op.actor, "", ProjectCreated, NamedProject(op.key, op.name)))
  {
    Splits(cfg, s, c);
    hide NameOk, KeyOk, Do, Swept;
  }

  /** The letters A to Z become small, everything else stays. */
  predicate IsLowered(email: string, lower: string) {
    && |lower| == |email|
    && forall i :: 0 <= i < |email| ==>
         if 'A' <= email[i] <= 'Z' then lower[i] as int == email[i] as int + 32 else lower[i] == email[i]
  }

  lemma LoweredIs(email: string)
    ensures IsLowered(email, Lower(email))
  {
  }

  /** What follows the first @ of the address. */
  ghost predicate HasDomain(email: string, domain: string) {
    exists i :: 0 <= i < |email| && email[i] == '@' && '@' !in email[..i] && email[i + 1..] == domain
  }

  lemma {:induction false} DomainIs(email: string, domain: string)
    ensures AfterAt(email) == Some(domain) <==> HasDomain(email, domain)
  {
    if email != [] {
      DomainIs(email[1..], domain);
      if email[0] == '@' {
        assert email[..0] == [];
        assert forall i :: 0 < i < |email| ==> email[0] in email[..i];
      } else {
        if HasDomain(email, domain) {
          var i :| 0 <= i < |email| && email[i] == '@' && '@' !in email[..i] && email[i + 1..] == domain;
          assert email[1..][i - 1] == '@' && email[..i] == [email[0]] + email[1..][..i - 1];
          assert email[1..][i - 1 + 1..] == domain;
        }
        if HasDomain(email[1..], domain) {
          var j :| 0 <= j < |email[1..]| && email[1..][j] == '@' && '@' !in email[1..][..j]
            && email[1..][j + 1..] == domain;
          assert email[j + 1] == '@' && email[..j + 1] == [email[0]] + email[1..][..j];
          assert email[j + 1 + 1..] == domain;
        }
      }
    }
  }

  /** What Register asks of its arguments. The domain must be one of the listed ones, if
      any are listed; an address without an @ has no domain. */
  ghost predicate RegisterFits(cfg: Config, op: Op)
    requires op.Register?
  {
    && 1 <= |op.email| <= 254 && op.parses && 8 <= op.passwordLength <= 256
    && exists lower: string :: IsLowered(op.email, lower)
         && (cfg.emailDomains == [] || exists domain :: HasDomain(lower, domain) && domain in cfg.emailDomains)
  }

  lemma RegisterFitting(cfg: Config, op: Op)
    requires op.Register?
    ensures RegisterFits(cfg, op) <==> Admissible(cfg, op)
  {
    var lower := Lower(op.email);
    LoweredIs(op.email);
    forall domain
      ensures AfterAt(lower) == Some(domain) <==> HasDomain(lower, domain)
    {
      DomainIs(lower, domain);
    }
    forall other | IsLowered(op.email, other)
      ensures other == lower
    {
    }
    hide Lower, AfterAt, HasDomain, IsLowered;
  }

  /** A user is filed under the lower-cased address, with the hash, the salt and the count of rounds. */
  lemma RegisterFiles(cfg: Config, s: State, c: Call)
    requires Legal(s, c) && c.op.Register?
    ensures var b, r, op := Seen(s, c), Do(cfg, s, c), c.op;
      exists email :: IsLowered(op.email, email)
        && r.outcome == (if !RegisterFits(cfg, op) then Failed(Invalid)
                         else if email in b.users then Failed(Exists) else Ok)
        && (r.outcome.Ok? ==>
              && OnlyAt(b.users, r.state.users, email)
              && r.state.users[email] == User(email, op.hash, op.salt, 600_000, c.now, c.now)
              && r.state.tasks == b.tasks && r.state.agents == b.agents && r.state.projects == b.projects
              && LoggedOne(b, r.state, c.now, "system", "", UserRegistered, Text(email)))
  {
    Splits(cfg, s, c);
    LoweredIs(c.op.email);
    RegisterFitting(cfg, c.op);
    hide Do, Swept, Lower, IsLowered, RegisterFits, DomainOk;
    var email := Lower(c.op.email);
    assert IsLowered(c.op.email, email);
  }

  /** The hash of a known user is replaced; of an unknown one nothing is said. */
  lemma RehashReplaces(cfg: Config, s: State, c: Call)
    requires Legal(s, c) && c.op.Rehash?
    ensures Do(cfg, s, c).outcome == Ok
    ensures var b, r, op := Seen(s, c), Do(cfg, s, c), c.op;
      exists email :: IsLowered(op.email, email)
        && (email !in b.users ==> r.state == b && (r.marked <==> c.order != []))
        && (email in b.users ==>
              && r.marked && OnlyAt(b.users, r.state.users, email)
              && var u := b.users[email];
              && r.state.users[email] == User(u.email, op.hash, op.salt, 600_000, u.createdAt, c.now)
              && r.state.tasks == b.tasks && r.state.agents == b.agents && r.state.projects == b.projects
              && LoggedOne(b, r.state, c.now, "system", "", UserRehashed, Text(email)))
  {
    Splits(cfg, s, c);
    LoweredIs(c.op.email);
    hide Do, Swept, Lower, IsLowered;
    var email := Lower(c.op.email);
    assert IsLowered(c.op.email, email);
  }

  /** Nobody is at work any more, and nobody is left that would count as online. */
  lemma ShutdownEndsWork(cfg: Config, s: State, c: Call)
    requires Legal(s, c) && c.op.Shutdown?
    ensures var b, r := Seen(s, c), Do(cfg, s, c);
      && r.outcome == Ok && r.state.agents.Keys == b.agents.Keys
      && (forall name :: name in b.agents ==>
            var a, x := b.agents[name], r.state.agents[name];
            && x.currentTask == "" && x.name == a.name && x.kind == a.kind && x.meta == a.meta && x.online == a.online
            && x.lastHeartbeat <= c.now - cfg.agentTTL && x.lastHeartbeat <= a.lastHeartbeat
            && (x.lastHeartbeat == a.lastHeartbeat || x.lastHeartbeat == c.now - cfg.agentTTL))
      && r.state.tasks == b.tasks && r.state.projects == b.projects && r.state.users == b.users
      && LoggedOne(b, r.state, c.now, if c.op.actor == "" then "system" else c.op.actor, "", ServerStopped, NoDetail)
  {
    Splits(cfg, s, c);
    hide Do, Swept;
  }

  /** A reader, and a bare sweep, change no more than the sweep does. */
  lemma ReadOnlySweeps(cfg: Config, s: State, c: Call)
    requires Legal(s, c) && (c.op.Read? || c.op.Sweep? || c.op.UnsavedSweep?)
    ensures var r := Do(cfg, s, c);
      && r.state == Seen(s, c) && (r.marked <==> !c.op.UnsavedSweep? && c.order != [])
      && r.outcome == (if c.op.Read? && c.op.wanted.Some? && c.op.wanted.value !in s.tasks
                       then Failed(NotFound) else Ok)
  {
    SweepFrees(s, c);
    hide Swept;
  }
}
