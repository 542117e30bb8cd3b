/** What each call does to the board, as functions from state to state
    (board.go, auth.go). A call runs in three parts: the checks made before the
    lock is taken, the sweep of expired leases, and the body under the lock. */
module BoardSpec {
  import opened Basics
  import opened Model
  import opened TaskId

  const SYSTEM: string := "system"
  const MIN_LEASE: int := SECOND
  const MAX_LEASE: int := 24 * 3600 * SECOND
  const MAX_TITLE: int := 200
  const MAX_DESCRIPTION: int := 20000
  const MAX_COMMENT: int := 5000
  const MAX_LABELS: int := 10
  const MAX_KIND: int := 32
  const MAX_META_KEYS: int := 16
  const MAX_META_KEY: int := 32
  const MAX_META_VALUE: int := 256
  const MAX_EMAIL: int := 254
  const MIN_PASSWORD: int := 8
  const MAX_PASSWORD: int := 256
  const PBKDF2_ITERATIONS: int := 600_000

  datatype ErrorKind = NotFound | Invalid | Claimed | NotOwner | Exists
  datatype Outcome = Ok | Failed(error: ErrorKind)

  /** The board's settings: the default lease, how long an agent stays online, and the
      domains whose users may register (none: all of them). */
  datatype Config = Config(lease: int, agentTTL: int, emailDomains: seq<string>)

  /** A date in a patch: the empty string clears it, anything else is parsed. */
  datatype DatePatch = ClearDate | MalformedDate | SetDate(day: Day)

  /** A partial update. `labels` holds the normalised labels, or None inside
      when normalising refused them. */
  datatype Patch = Patch(
    title: Option<string>,
    description: Option<string>,
    status: Option<Status>,
    priority: Option<Priority>,
    parent: Option<string>,
    labels: Option<Option<seq<string>>>,
    startDate: Option<DatePatch>,
    endDate: Option<DatePatch>,
    actor: string)

  type PasswordHash = h: Bytes | |h| == 32 witness seq(32, _ => 0)
  type Salt = s: Bytes | |s| == 16 witness seq(16, _ => 0)

  datatype Op =
    | CreateProject(key: string, name: string, actor: string)
    | AddTask(project: string, kind: Kind, parent: string, title: string, description: string,
              priority: Priority, labels: Option<seq<string>>, actor: string)
    | Claim(id: string, agent: string, lease: int)
    | Release(id: string, agent: string)
    | Complete(id: string, agent: string)
    | Update(id: string, patch: Patch)
    | Comment(id: string, actor: string, text: string)
    | Heartbeat(name: string, agentKind: string, task: string, meta: Option<map<string, string>>)
    | Register(email: string, parses: bool, passwordLength: nat, hash: PasswordHash, salt: Salt)
    | Rehash(email: string, hash: PasswordHash, salt: Salt)
    | Read(wanted: Option<string>)   // Tasks, Agents, Projects, Snapshot; Task when an id is wanted
    | Sweep
    | UnsavedSweep                   // exportState and Authenticate
    | Shutdown(actor: string)

  /** One call: what, when, and in which order its sweep visits the expired tasks. */
  datatype Call = Call(op: Op, now: Time, order: seq<string>)

  /** `marked` says that the call marked the board as having unsaved changes. */
  datatype Reply = Reply(state: State, outcome: Outcome, marked: bool)

  // ----- names -------------------------------------------------------------

  predicate UpperOrDigit(c: char) { 'A' <= c <= 'Z' || '0' <= c <= '9' }
  predicate AlphaNumeric(c: char) { UpperOrDigit(c) || 'a' <= c <= 'z' }

  /** `^[A-Z][A-Z0-9]{1,9}$` */
  predicate KeyOk(s: string) {
    2 <= |s| <= 10 && 'A' <= s[0] <= 'Z' && forall i :: 1 <= i < |s| ==> UpperOrDigit(s[i])
  }

  /** `^[A-Za-z0-9][A-Za-z0-9._-]{0,63}$` */
  predicate NameOk(s: string) {
    1 <= |s| <= 64 && AlphaNumeric(s[0])
    && forall i :: 1 <= i < |s| ==> AlphaNumeric(s[i]) || s[i] == '.' || s[i] == '_' || s[i] == '-'
  }

  predicate ActorOk(actor: string) {
    actor != "" && actor != SYSTEM && NameOk(actor)
  }

  predicate MetaOk(m: map<string, string>) {
    |m| <= MAX_META_KEYS
    && forall k :: k in m ==> 1 <= |k| <= MAX_META_KEY && |m[k]| <= MAX_META_VALUE
  }

  function LowerChar(c: char): char {
    if 'A' <= c <= 'Z' then (c as int + 32) as char else c
  }

  function Lower(s: string): string {
    seq(|s|, i requires 0 <= i < |s| => LowerChar(s[i]))
  }

  // ----- small state changes -----------------------------------------------

  function Log(s: State, now: Time, actor: string, taskID: string, action: Action, detail: Detail): State {
    s.(nextActivityID := s.nextActivityID + 1,
       activity := s.activity + [Activity(s.nextActivityID + 1, now, actor, taskID, action, detail)])
  }

  function PutTask(s: State, t: Task): State {
    s.(tasks := s.tasks[t.id := t])
  }

  function ClearCurrent(s: State, agent: string, taskID: string): State {
    if agent in s.agents && s.agents[agent].currentTask == taskID
    then s.(agents := s.agents[agent := s.agents[agent].(currentTask := "")])
    else s
  }

  function Touched(s: State, name: string, kind: string, taskID: string, now: Time): Agent {
    var a := if name in s.agents then s.agents[name] else Agent(name, "agent", 0, "", None, false);
    a.(kind := if kind != "" then kind else a.kind,
       lastHeartbeat := now,
       currentTask := if taskID != "" then taskID else a.currentTask)
  }

  function TouchAgent(s: State, name: string, kind: string, taskID: string, now: Time): State {
    s.(agents := s.agents[name := Touched(s, name, kind, taskID, now)])
  }

  // ----- the sweep of expired leases ---------------------------------------

  predicate Expired(t: Task, now: Time) {
    t.status == InProgress && t.leaseExpires.Some? && now >= t.leaseExpires.value
  }

  function ExpiredIds(tasks: map<string, Task>, now: Time): set<string> {
    set id | id in tasks && Expired(tasks[id], now)
  }

  ghost predicate Distinct(order: seq<string>) {
    forall i, j :: 0 <= i < j < |order| ==> order[i] != order[j]
  }

  /** The expired tasks, each once. */
  ghost predicate Visits(tasks: map<string, Task>, now: Time, order: seq<string>) {
    (forall id :: id in order <==> id in ExpiredIds(tasks, now)) && Distinct(order)
  }

  /** The order in which one sweep visits the expired tasks: sorted by idLess. */
  ghost predicate SweepOrder(tasks: map<string, Task>, now: Time, order: seq<string>) {
    Visits(tasks, now, order)
    && (forall i, j :: 0 <= i < j < |order| ==> !IdLess(order[j], order[i]))
  }

  function Freed(t: Task, now: Time): Task {
    t.(status := Todo, assignee := "", leaseExpires := None, leaseSeconds := 0,
       updatedAt := now, updatedBy := SYSTEM)
  }

  function SweptTasks(tasks: map<string, Task>, now: Time): map<string, Task> {
    map id | id in tasks :: if Expired(tasks[id], now) then Freed(tasks[id], now) else tasks[id]
  }

  /** Agent a was working on a task that the sweep takes away from it. */
  predicate LosesCurrent(tasks: map<string, Task>, now: Time, name: string, a: Agent) {
    a.currentTask in tasks && Expired(tasks[a.currentTask], now) && tasks[a.currentTask].assignee == name
  }

  function SweptAgents(tasks: map<string, Task>, agents: map<string, Agent>, now: Time): map<string, Agent> {
    map name | name in agents ::
      if LosesCurrent(tasks, now, name, agents[name]) then agents[name].(currentTask := "") else agents[name]
  }

  function Expirations(tasks: map<string, Task>, now: Time, next: int, order: seq<string>): (r: seq<Activity>)
    requires forall id :: id in order ==> id in tasks
    ensures |r| == |order|
  {
    if order == [] then []
    else
      var k := |order| - 1;
      Expirations(tasks, now, next, order[..k])
      + [Activity(next + |order|, now, SYSTEM, order[k], LeaseExpired, ReleasedFrom(tasks[order[k]].assignee))]
  }

  function Swept(s: State, now: Time, order: seq<string>): State
    requires forall id :: id in order ==> id in s.tasks
  {
    s.(tasks := SweptTasks(s.tasks, now),
       agents := SweptAgents(s.tasks, s.agents, now),
       activity := s.activity + Expirations(s.tasks, now, s.nextActivityID, order),
       nextActivityID := s.nextActivityID + |order|)
  }

  // ----- the calls, after the sweep ----------------------------------------

  function Fail(s: State, e: ErrorKind): Reply { Reply(s, Failed(e), false) }

  function CheckParent(s: State, project: string, kind: Kind, parent: string): Option<ErrorKind> {
    if parent == "" then None
    else if parent !in s.tasks then Some(NotFound)
    else if s.tasks[parent].project != project then Some(Invalid)
    else if s.tasks[parent].kind.Level() >= kind.Level() then Some(Invalid)
    else None
  }

  function ApplyCreateProject(s: State, now: Time, key: string, name: string, actor: string): Reply {
    if key in s.projects then Fail(s, Exists)
    else
      var s1 := s.(projects := s.projects[key := Project(key, name, 0, now)]);
      Reply(Log(s1, now, actor, "", ProjectCreated, NamedProject(key, name)), Ok, true)
  }

  function DefaultPriority(p: Priority): Priority { if p == OtherPriority("") then Medium else p }
  function DefaultKind(k: Kind): Kind { if k == OtherKind("") then Leaf else k }

  function NextId(p: Project): string { FormatId(p.key, p.nextSeq + 1) }

  function NewTask(p: Project, now: Time, kind: Kind, parent: string, title: string, description: string,
                   priority: Priority, labels: seq<string>, actor: string): Task {
    Task(NextId(p), p.key, kind, parent, title, description, Todo, priority, labels,
         "", None, 0, actor, actor, now, now, None, None)
  }

  function ApplyAddTask(s: State, now: Time, project: string, kind: Kind, parent: string, title: string,
                        description: string, priority: Priority, labels: seq<string>, actor: string): Reply {
    if project !in s.projects then Fail(s, NotFound)
    else
      var p := s.projects[project];
      var refused := CheckParent(s, p.key, kind, parent);
      if refused.Some? then Fail(s, refused.value)
      else
        var t := NewTask(p, now, kind, parent, title, description, priority, labels, actor);
        var s1 := s.(projects := s.projects[project := p.(nextSeq := p.nextSeq + 1)]);
        Reply(Log(PutTask(s1, t), now, actor, t.id, TaskCreated, Text(title)), Ok, true)
  }

  function EffectiveLease(cfg: Config, lease: int): int { if lease == 0 then cfg.lease else lease }

  function ClaimedTask(t: Task, now: Time, agent: string, lease: int): Task {
    t.(assignee := agent, status := InProgress, leaseExpires := Some(now + lease),
       leaseSeconds := lease / SECOND, updatedAt := now, updatedBy := agent)
  }

  function ApplyClaim(s: State, now: Time, id: string, agent: string, lease: int): Reply {
    if id !in s.tasks then Fail(s, NotFound)
    else
      var t := s.tasks[id];
      if t.status == Done then Fail(s, Invalid)
      else if t.assignee != "" && t.assignee != agent && t.leaseExpires.Some? then Fail(s, Claimed)
      else
        var renewal := t.assignee == agent && t.status == InProgress;
        var s1 := s.(tasks := s.tasks[id := ClaimedTask(t, now, agent, lease)]);
        var s2 := TouchAgent(s1, agent, "", id, now);
        Reply(Log(s2, now, agent, id, if renewal then LeaseRenewed else LeaseClaimed, LeaseOf(lease)), Ok, true)
  }

  function ReleasedTask(t: Task, now: Time, agent: string): Task {
    t.(status := Todo, assignee := "", leaseExpires := None, leaseSeconds := 0, updatedAt := now, updatedBy := agent)
  }

  function ApplyRelease(s: State, now: Time, id: string, agent: string): Reply {
    if id !in s.tasks then Fail(s, NotFound)
    else
      var t := s.tasks[id];
      if t.assignee == "" then Fail(s, Invalid)
      else if t.assignee != agent then Fail(s, NotOwner)
      else
        var s1 := s.(tasks := s.tasks[id := ReleasedTask(t, now, agent)]);
        Reply(Log(ClearCurrent(s1, agent, id), now, agent, id, LeaseReleased, NoDetail), Ok, true)
  }

  function CompletedTask(t: Task, now: Time, agent: string): Task {
    t.(assignee := if t.assignee == "" then agent else t.assignee, status := Done,
       leaseExpires := None, leaseSeconds := 0, updatedAt := now, updatedBy := agent)
  }

  function ApplyComplete(s: State, now: Time, id: string, agent: string): Reply {
    if id !in s.tasks then Fail(s, NotFound)
    else
      var t := s.tasks[id];
      if t.assignee != "" && t.assignee != agent && t.leaseExpires.Some? then Fail(s, NotOwner)
      else if t.status == Done then Fail(s, Invalid)
      else
        var done := CompletedTask(t, now, agent);
        var s1 := s.(tasks := s.tasks[id := done]);
        Reply(Log(ClearCurrent(s1, done.assignee, id), now, agent, id, TaskDone, NoDetail), Ok, true)
  }

  function FinalDate(p: Option<DatePatch>, current: Option<Day>): Option<Day> {
    match p
    case None => current
    case Some(SetDate(d)) => Some(d)
    case Some(_) => None
  }

  /** The task after the field edits of a patch, before any change of status. */
  function Edited(t: Task, p: Patch): Task {
    t.(title := if p.title.Some? then p.title.value else t.title,
       description := if p.description.Some? then p.description.value else t.description,
       priority := if p.priority.Some? then p.priority.value else t.priority,
       labels := if p.labels.Some? && p.labels.value.Some? then p.labels.value.value else t.labels,
       parent := if p.parent.Some? then p.parent.value else t.parent,
       startDate := FinalDate(p.startDate, t.startDate),
       endDate := FinalDate(p.endDate, t.endDate))
  }

  function If(b: bool, name: string): seq<string> { if b then [name] else [] }

  /** The names of the fields a patch changes, in the order they are recorded. */
  function Changed(t: Task, p: Patch): seq<string> {
    If(p.title.Some? && p.title.value != t.title, "title")
    + If(p.description.Some? && p.description.value != t.description, "description")
    + If(p.priority.Some? && p.priority.value != t.priority, "priority")
    + If(p.labels.Some?, "labels")
    + If(p.parent.Some? && p.parent.value != t.parent, "parent")
    + If(FinalDate(p.startDate, t.startDate) != t.startDate, "start_date")
    + If(FinalDate(p.endDate, t.endDate) != t.endDate, "end_date")
  }

  /** The task part of moveLocked. */
  function MovedTask(t: Task, to: Status): Task {
    t.(status := to, leaseExpires := None, leaseSeconds := 0, assignee := if to == Todo then "" else t.assignee)
  }

  function UpdateRefusal(s: State, t: Task, p: Patch): Option<ErrorKind> {
    var refused := if p.parent.Some? && p.parent.value != t.parent
                   then CheckParent(s, t.project, t.kind, p.parent.value) else None;
    var first, last := FinalDate(p.startDate, t.startDate), FinalDate(p.endDate, t.endDate);
    if refused.Some? then refused
    else if first.Some? && last.Some? && last.value < first.value then Some(Invalid)
    else None
  }

  function Moves(t: Task, p: Patch): bool { p.status.Some? && p.status.value != t.status }

  /** The log entries of an accepted update, and the agent it takes off the task. */
  function UpdateNoted(s: State, now: Time, id: string, t: Task, p: Patch, changed: seq<string>): State {
    var s1 := if changed != [] then Log(s, now, p.actor, id, FieldsUpdated, ChangedFields(changed)) else s;
    if !Moves(t, p) then s1
    else
      var s2 := if t.status == InProgress then ClearCurrent(s1, t.assignee, t.id) else s1;
      Log(s2, now, p.actor, id, StatusMoved, MovedFromTo(t.status, p.status.value))
  }

  function UpdatedTask(t: Task, now: Time, p: Patch): Task {
    var e := Edited(t, p);
    (if Moves(t, p) then MovedTask(e, p.status.value) else e).(updatedAt := now, updatedBy := p.actor)
  }

  function ApplyUpdate(s: State, now: Time, id: string, p: Patch): Reply {
    if id !in s.tasks then Fail(s, NotFound)
    else
      var t := s.tasks[id];
      var refused := UpdateRefusal(s, t, p);
      if refused.Some? then Fail(s, refused.value)
      else if Changed(t, p) == [] && !Moves(t, p) then Reply(s, Ok, false)
      else
        var s1 := UpdateNoted(s, now, id, t, p, Changed(t, p));
        Reply(s1.(tasks := s1.tasks[id := UpdatedTask(t, now, p)]), Ok, true)
  }

  function ApplyComment(s: State, now: Time, id: string, actor: string, text: string): Reply {
    if id !in s.tasks then Fail(s, NotFound)
    else
      var s1 := s.(tasks := s.tasks[id := s.tasks[id].(updatedAt := now, updatedBy := actor)]);
      Reply(Log(s1, now, actor, id, Commented, Text(text)), Ok, true)
  }

  predicate HeldBy(t: Task, name: string) {
    t.assignee == name && t.status == InProgress && t.leaseExpires.Some?
  }

  function RenewedLease(cfg: Config, t: Task): int {
    if t.leaseSeconds * SECOND <= 0 then cfg.lease else t.leaseSeconds * SECOND
  }

  function Renewed(cfg: Config, t: Task, now: Time): Task {
    t.(leaseExpires := Some(now + RenewedLease(cfg, t)))
  }

  function RenewAll(cfg: Config, tasks: map<string, Task>, name: string, now: Time): map<string, Task> {
    map id | id in tasks :: if HeldBy(tasks[id], name) then Renewed(cfg, tasks[id], now) else tasks[id]
  }

  function ApplyHeartbeat(cfg: Config, s: State, now: Time, name: string, kind: string, task: string,
                          meta: Option<map<string, string>>): Reply {
    if task != "" && task !in s.tasks then Fail(s, NotFound)
    else if task != "" && s.tasks[task].assignee != name then Fail(s, NotOwner)
    else
      var a := Touched(s, name, kind, task, now);
      var a' := if meta.Some? then a.(meta := meta) else a;
      Reply(s.(agents := s.agents[name := a'], tasks := RenewAll(cfg, s.tasks, name, now)), Ok, true)
  }

  function ApplyRegister(s: State, now: Time, email: string, hash: Bytes, salt: Bytes): Reply {
    if email in s.users then Fail(s, Exists)
    else
      var s1 := s.(users := s.users[email := User(email, hash, salt, PBKDF2_ITERATIONS, now, now)]);
      Reply(Log(s1, now, SYSTEM, "", UserRegistered, Text(email)), Ok, true)
  }

  function ApplyRehash(s: State, now: Time, email: string, hash: Bytes, salt: Bytes): Reply {
    if email !in s.users then Reply(s, Ok, false)
    else
      var u := s.users[email].(passwordHash := hash, salt := salt, iterations := PBKDF2_ITERATIONS, updatedAt := now);
      Reply(Log(s.(users := s.users[email := u]), now, SYSTEM, "", UserRehashed, Text(email)), Ok, true)
  }

  function ApplyRead(s: State, wanted: Option<string>): Reply {
    if wanted.Some? && wanted.value !in s.tasks then Fail(s, NotFound) else Reply(s, Ok, false)
  }

  function Offline(cfg: Config, a: Agent, now: Time): Agent {
    a.(lastHeartbeat := if a.lastHeartbeat > now - cfg.agentTTL then now - cfg.agentTTL else a.lastHeartbeat,
       currentTask := "")
  }

  function ApplyShutdown(cfg: Config, s: State, now: Time, actor: string): Reply {
    var s1 := s.(agents := map name | name in s.agents :: Offline(cfg, s.agents[name], now));
    Reply(Log(s1, now, if actor == "" then SYSTEM else actor, "", ServerStopped, NoDetail), Ok, true)
  }

  // ----- a whole call ------------------------------------------------------

  /** What follows the first `@`. */
  function AfterAt(s: string): Option<string> {
    if s == [] then None else if s[0] == '@' then Some(s[1..]) else AfterAt(s[1..])
  }

  predicate DomainOk(cfg: Config, email: string) {
    cfg.emailDomains == [] || (AfterAt(email).Some? && AfterAt(email).value in cfg.emailDomains)
  }

  /** The checks a call makes on its arguments before it takes the board lock. */
  predicate Admissible(cfg: Config, op: Op) {
    match op
    case CreateProject(key, name, actor) => KeyOk(key) && 1 <= |name| <= MAX_TITLE && ActorOk(actor)
    case AddTask(_, kind, _, title, description, priority, labels, actor) =>
      && 1 <= |title| <= MAX_TITLE && |description| <= MAX_DESCRIPTION
      && DefaultPriority(priority).Valid() && DefaultKind(kind).Valid()
      && labels.Some? && |labels.value| <= MAX_LABELS && ActorOk(actor)
    case Claim(_, agent, lease) => NameOk(agent) && MIN_LEASE <= EffectiveLease(cfg, lease) <= MAX_LEASE
    case Complete(_, agent) => NameOk(agent)
    case Update(_, p) =>
      && ActorOk(p.actor)
      && (p.title.Some? ==> 1 <= |p.title.value| <= MAX_TITLE)
      && (p.description.Some? ==> |p.description.value| <= MAX_DESCRIPTION)
      && (p.status.Some? ==> p.status.value.Valid())
      && (p.priority.Some? ==> p.priority.value.Valid())
      && (p.labels.Some? ==> p.labels.value.Some? && |p.labels.value.value| <= MAX_LABELS)
      && p.startDate != Some(MalformedDate) && p.endDate != Some(MalformedDate)
    case Comment(_, actor, text) => 1 <= |text| <= MAX_COMMENT && ActorOk(actor)
    case Heartbeat(name, kind, _, meta) => NameOk(name) && |kind| <= MAX_KIND && (meta.Some? ==> MetaOk(meta.value))
    case Register(email, parses, passwordLength, _, _) =>
      && 1 <= |email| <= MAX_EMAIL && parses && DomainOk(cfg, Lower(email))
      && MIN_PASSWORD <= passwordLength <= MAX_PASSWORD
    case _ => true
  }

  function Apply(cfg: Config, s: State, now: Time, op: Op): Reply
    requires Admissible(cfg, op)
  {
    match op
    case CreateProject(key, name, actor) => ApplyCreateProject(s, now, key, name, actor)
    case AddTask(project, kind, parent, title, description, priority, labels, actor) =>
      ApplyAddTask(s, now, project, DefaultKind(kind), parent, title, description,
                   DefaultPriority(priority), labels.value, actor)
    case Claim(id, agent, lease) => ApplyClaim(s, now, id, agent, EffectiveLease(cfg, lease))
    case Release(id, agent) => ApplyRelease(s, now, id, agent)
    case Complete(id, agent) => ApplyComplete(s, now, id, agent)
    case Update(id, p) => ApplyUpdate(s, now, id, p)
    case Comment(id, actor, text) => ApplyComment(s, now, id, actor, text)
    case Heartbeat(name, kind, task, meta) => ApplyHeartbeat(cfg, s, now, name, kind, task, meta)
    case Register(email, _, _, hash, salt) => ApplyRegister(s, now, Lower(email), hash, salt)
    case Rehash(email, hash, salt) => ApplyRehash(s, now, Lower(email), hash, salt)
    case Read(wanted) => ApplyRead(s, wanted)
    case Sweep => Reply(s, Ok, false)
    case UnsavedSweep => Reply(s, Ok, false)
    case Shutdown(actor) => ApplyShutdown(cfg, s, now, actor)
  }

  ghost predicate Legal(s: State, c: Call) { SweepOrder(s.tasks, c.now, c.order) }

  /** The whole call: refuse, or sweep and apply. Every call that changed
      something marks the board, except the two sweeps that are not saved. */
  function Do(cfg: Config, s: State, c: Call): Reply
    requires forall id :: id in c.order ==> id in s.tasks
  {
    if !Admissible(cfg, c.op) then Fail(s, Invalid)
    else
      var r := Apply(cfg, Swept(s, c.now, c.order), c.now, c.op);
      Reply(r.state, r.outcome, !c.op.UnsavedSweep? && (c.order != [] || r.marked))
  }

  // ----- whole runs --------------------------------------------------------

  /** A sequence of calls, each legal where it happens, on a clock that never goes back. */
  ghost predicate Run(cfg: Config, s: State, from: Time, calls: seq<Call>)
    decreases |calls|
  {
    calls == [] ||
    (from <= calls[0].now && Legal(s, calls[0]) && Run(cfg, Do(cfg, s, calls[0]).state, calls[0].now, calls[1..]))
  }

  ghost function Final(cfg: Config, s: State, from: Time, calls: seq<Call>): State
    requires Run(cfg, s, from, calls)
    decreases |calls|
  {
    if calls == [] then s else Final(cfg, Do(cfg, s, calls[0]).state, calls[0].now, calls[1..])
  }

  ghost function Clock(from: Time, calls: seq<Call>): Time {
    if calls == [] then from else calls[|calls| - 1].now
  }
}
