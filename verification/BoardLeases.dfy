/** Leases over whole runs: when a task carries one, who can act on it
    meanwhile, what ends it and what moves its end. */
module BoardLeases {
  import opened Basics
  import opened Model
  import opened TaskId
  import opened BoardSpec
  import opened BoardInvariants
  import opened BoardEffects

  /** A lease belongs to an assigned task in progress, lasts between a second and
      a day, and ends less than its whole seconds plus one from now. */
  predicate LeaseOk(t: Task, now: Time) {
    if t.leaseExpires.None? then t.leaseSeconds == 0
    else
      && t.status == InProgress && t.assignee != ""
      && 1 <= t.leaseSeconds <= 86400
      && t.leaseExpires.value < now + (t.leaseSeconds + 1) * SECOND
  }

  predicate Unexpired(t: Task, now: Time) {
    t.leaseExpires.Some? ==> now < t.leaseExpires.value
  }

  /** The remaining time never exceeds the lease's whole seconds. */
  predicate LeaseWhole(t: Task, now: Time) {
    t.leaseExpires.Some? ==> t.leaseExpires.value <= now + t.leaseSeconds * SECOND
  }

  ghost predicate LeasesOk(tasks: map<string, Task>, now: Time) {
    forall id :: id in tasks ==> LeaseOk(tasks[id], now)
  }

  ghost predicate AllUnexpired(tasks: map<string, Task>, now: Time) {
    forall id :: id in tasks ==> Unexpired(tasks[id], now)
  }

  ghost predicate LeasesWhole(tasks: map<string, Task>, now: Time) {
    forall id :: id in tasks ==> LeaseWhole(tasks[id], now)
  }

  /** A call that grants no fraction of a second. */
  predicate GrantsWholeSeconds(cfg: Config, op: Op) {
    op.Claim? ==> EffectiveLease(cfg, op.lease) % SECOND == 0
  }

  lemma SweepLeases(tasks: map<string, Task>, from: Time, now: Time)
    requires LeasesOk(tasks, from) && from <= now
    ensures LeasesOk(SweptTasks(tasks, now), now) && AllUnexpired(SweptTasks(tasks, now), now)
    ensures LeasesWhole(tasks, from) ==> LeasesWhole(SweptTasks(tasks, now), now)
  {
    forall id | id in tasks
      ensures LeaseOk(SweptTasks(tasks, now)[id], now) && Unexpired(SweptTasks(tasks, now)[id], now)
      ensures LeaseWhole(tasks[id], from) ==> LeaseWhole(SweptTasks(tasks, now)[id], now)
    {
      assert LeaseOk(tasks[id], from);
    }
  }

  lemma ClaimedLease(t: Task, now: Time, agent: string, lease: int)
    requires MIN_LEASE <= lease <= MAX_LEASE && agent != ""
    ensures LeaseOk(ClaimedTask(t, now, agent, lease), now) && Unexpired(ClaimedTask(t, now, agent, lease), now)
    ensures LeaseWhole(ClaimedTask(t, now, agent, lease), now) <==> lease % SECOND == 0
  {
  }

  lemma RenewedLeases(cfg: Config, tasks: map<string, Task>, name: string, now: Time)
    requires LeasesOk(tasks, now) && AllUnexpired(tasks, now)
    ensures LeasesOk(RenewAll(cfg, tasks, name, now), now) && AllUnexpired(RenewAll(cfg, tasks, name, now), now)
    ensures LeasesWhole(tasks, now) ==> LeasesWhole(RenewAll(cfg, tasks, name, now), now)
  {
    var after := RenewAll(cfg, tasks, name, now);
    forall id | id in tasks
      ensures LeaseOk(after[id], now) && Unexpired(after[id], now)
      ensures LeaseWhole(tasks[id], now) ==> LeaseWhole(after[id], now)
    {
      assert LeaseOk(tasks[id], now) && Unexpired(tasks[id], now);
    }
  }

  lemma PutLease(tasks: map<string, Task>, now: Time, id: string, t: Task)
    requires LeasesOk(tasks, now) && AllUnexpired(tasks, now)
    requires LeaseOk(t, now) && Unexpired(t, now)
    ensures LeasesOk(tasks[id := t], now) && AllUnexpired(tasks[id := t], now)
    ensures LeasesWhole(tasks, now) && LeaseWhole(t, now) ==> LeasesWhole(tasks[id := t], now)
  {
  }

  lemma ApplyLeases(cfg: Config, s: State, now: Time, op: Op)
    requires Admissible(cfg, op) && LeasesOk(s.tasks, now) && AllUnexpired(s.tasks, now)
    ensures var after := Apply(cfg, s, now, op).state.tasks;
      && LeasesOk(after, now) && AllUnexpired(after, now)
      && (LeasesWhole(s.tasks, now) && GrantsWholeSeconds(cfg, op) ==> LeasesWhole(after, now))
  {
    hide ApplyAddTask, ApplyClaim, ApplyRelease, ApplyComplete, ApplyUpdate, ApplyHeartbeat, UpdateRefusal, Changed,
      CheckParent;
    match op
    case AddTask(project, kind, parent, title, description, priority, labels, actor) =>
      AddTaskEffect(s, now, project, DefaultKind(kind), parent, title, description,
                    DefaultPriority(priority), labels.value, actor);
      if project in s.projects {
        var t := NewTask(s.projects[project], now, DefaultKind(kind), parent, title, description,
                         DefaultPriority(priority), labels.value, actor);
        PutLease(s.tasks, now, t.id, t);
      }
    case Claim(id, agent, lease) =>
      ClaimEffect(s, now, id, agent, EffectiveLease(cfg, lease));
      if id in s.tasks {
        ClaimedLease(s.tasks[id], now, agent, EffectiveLease(cfg, lease));
        PutLease(s.tasks, now, id, ClaimedTask(s.tasks[id], now, agent, EffectiveLease(cfg, lease)));
      }
    case Release(id, agent) =>
      ReleaseEffect(s, now, id, agent);
      if id in s.tasks { PutLease(s.tasks, now, id, ReleasedTask(s.tasks[id], now, agent)); }
    case Complete(id, agent) =>
      CompleteEffect(s, now, id, agent);
      if id in s.tasks { PutLease(s.tasks, now, id, CompletedTask(s.tasks[id], now, agent)); }
    case Update(id, p) =>
      UpdateEffect(s, now, id, p);
      if id in s.tasks { PutLease(s.tasks, now, id, UpdatedTask(s.tasks[id], now, p)); }
    case Comment(id, actor, _) =>
      if id in s.tasks { PutLease(s.tasks, now, id, s.tasks[id].(updatedAt := now, updatedBy := actor)); }
    case Heartbeat(name, kind, task, meta) =>
      HeartbeatEffect(cfg, s, now, name, kind, task, meta);
      RenewedLeases(cfg, s.tasks, name, now);
    case _ => OtherTasksEffect(cfg, s, now, op);
  }

  /** One call keeps the lease invariant, and leaves no expired lease behind. */
  lemma DoLeases(cfg: Config, s: State, from: Time, c: Call)
    requires LeasesOk(s.tasks, from) && from <= c.now && Legal(s, c)
    ensures LeasesOk(Do(cfg, s, c).state.tasks, c.now)
    ensures Admissible(cfg, c.op) ==> AllUnexpired(Do(cfg, s, c).state.tasks, c.now)
    ensures LeasesWhole(s.tasks, from) && GrantsWholeSeconds(cfg, c.op)
            ==> LeasesWhole(Do(cfg, s, c).state.tasks, c.now)
  {
    if Admissible(cfg, c.op) {
      SweepLeases(s.tasks, from, c.now);
      ApplyLeases(cfg, Swept(s, c.now, c.order), c.now, c.op);
    } else {
      forall id | id in s.tasks
        ensures LeaseOk(s.tasks[id], c.now) && (LeaseWhole(s.tasks[id], from) ==> LeaseWhole(s.tasks[id], c.now))
      {
        assert LeaseOk(s.tasks[id], from);
      }
    }
  }

  ghost predicate AllWhole(cfg: Config, calls: seq<Call>) {
    forall i :: 0 <= i < |calls| ==> GrantsWholeSeconds(cfg, calls[i].op)
  }

  /** In every reachable board a lease means an assigned task in progress with
      a lease of one second to one day. */
  lemma {:induction false} RunLeases(cfg: Config, s: State, from: Time, calls: seq<Call>)
    requires LeasesOk(s.tasks, from) && Run(cfg, s, from, calls)
    ensures LeasesOk(Final(cfg, s, from, calls).tasks, Clock(from, calls))
    ensures LeasesWhole(s.tasks, from) && AllWhole(cfg, calls)
            ==> LeasesWhole(Final(cfg, s, from, calls).tasks, Clock(from, calls))
    decreases |calls|
  {
    if calls != [] {
      DoLeases(cfg, s, from, calls[0]);
      RunLeases(cfg, Do(cfg, s, calls[0]).state, calls[0].now, calls[1..]);
      assert Clock(from, calls) == Clock(calls[0].now, calls[1..]);
      assert AllWhole(cfg, calls) ==> GrantsWholeSeconds(cfg, calls[0].op) && AllWhole(cfg, calls[1..]);
    }
  }

  // ----- exclusivity ----------------------------------------------------------

  /** Agent a holds the task, and its lease has not run out. */
  predicate Held(tasks: map<string, Task>, id: string, a: string, now: Time) {
    id in tasks && tasks[id].assignee == a && tasks[id].leaseExpires.Some? && now < tasks[id].leaseExpires.value
  }

  /** A claim, release or completion of the task by agent b. */
  predicate ActsOn(op: Op, id: string, b: string) {
    op == Release(id, b) || op == Complete(id, b) || (op.Claim? && op.id == id && op.agent == b)
  }

  /** An accepted call of one of the three kinds that end a lease before it runs out. */
  predicate Ends(op: Op, outcome: Outcome, id: string) {
    outcome.Ok? &&
    match op
    case Release(i, _) => i == id
    case Complete(i, _) => i == id
    case Update(i, p) => i == id && p.status.Some? && p.status.value != InProgress
    case _ => false
  }

  /** What the holder a of a leased task t can lose by one rewriting of it to t'. */
  lemma HeldThroughUpdate(t: Task, now: Time, p: Patch, a: string)
    requires LeaseOk(t, now) && t.assignee == a && t.leaseExpires.Some? && now < t.leaseExpires.value
    ensures var t' := UpdatedTask(t, now, p);
      (t'.assignee == a && t'.leaseExpires.Some? && now < t'.leaseExpires.value)
      <==> !(p.status.Some? && p.status.value != InProgress)
    ensures Changed(t, p) == [] && !Moves(t, p) ==> !(p.status.Some? && p.status.value != InProgress)
  {
  }

  lemma HeldThroughApplyUpdate(s: State, now: Time, i: string, p: Patch, id: string, a: string)
    requires Held(s.tasks, id, a, now) && LeaseOk(s.tasks[id], now)
    ensures var r := ApplyUpdate(s, now, i, p);
      Ends(Update(i, p), r.outcome, id) <==> !Held(r.state.tasks, id, a, now)
  {
    UpdateEffect(s, now, i, p);
    HeldThroughUpdate(s.tasks[id], now, p, a);
  }

  predicate EndsOrClaims(op: Op) { op.Claim? || op.Release? || op.Complete? || op.Update? }

  lemma HeldThroughOthers(cfg: Config, s: State, now: Time, op: Op, id: string, a: string)
    requires Admissible(cfg, op) && !EndsOrClaims(op) && Held(s.tasks, id, a, now) && LeaseOk(s.tasks[id], now)
    requires op.AddTask? && op.project in s.projects ==> NextId(s.projects[op.project]) != id
    ensures Held(Apply(cfg, s, now, op).state.tasks, id, a, now)
  {
    hide ApplyAddTask, ApplyClaim, ApplyRelease, ApplyComplete, ApplyUpdate, ApplyHeartbeat, UpdateRefusal, Changed,
      NewTask, CheckParent, NextId;
    match op
    case AddTask(project, kind, parent, title, description, priority, labels, actor) =>
      AddTaskEffect(s, now, project, DefaultKind(kind), parent, title, description,
                    DefaultPriority(priority), labels.value, actor);
    case Comment(_, _, _) =>
    case Heartbeat(name, kind, task, meta) => HeartbeatEffect(cfg, s, now, name, kind, task, meta);
    case _ => OtherTasksEffect(cfg, s, now, op);
  }

  /** One call on a held task: nobody else's claim, release or completion is
      accepted, and the holder loses the task exactly when the call is an
      accepted release, completion or change of status. */
  lemma HeldThroughApply(cfg: Config, s: State, now: Time, op: Op, id: string, a: string)
    requires Admissible(cfg, op) && Held(s.tasks, id, a, now) && LeaseOk(s.tasks[id], now)
    requires op.AddTask? && op.project in s.projects ==> NextId(s.projects[op.project]) != id
    ensures var r := Apply(cfg, s, now, op);
      && (forall b :: ActsOn(op, id, b) && b != a ==> r.outcome.Failed?)
      && (Ends(op, r.outcome, id) <==> !Held(r.state.tasks, id, a, now))
  {
    hide ApplyAddTask, ApplyClaim, ApplyRelease, ApplyComplete, ApplyUpdate, ApplyHeartbeat, UpdateRefusal, Changed,
      NewTask, CheckParent, NextId;
    if EndsOrClaims(op) {
      match op
      case Claim(i, agent, lease) => ClaimEffect(s, now, i, agent, EffectiveLease(cfg, lease));
      case Release(i, agent) => ReleaseEffect(s, now, i, agent);
      case Complete(i, agent) => CompleteEffect(s, now, i, agent);
      case Update(i, p) => HeldThroughApplyUpdate(s, now, i, p, id, a);
    } else {
      HeldThroughOthers(cfg, s, now, op, id, a);
    }
  }

  lemma HeldThroughSweep(tasks: map<string, Task>, now: Time, id: string, a: string)
    requires Held(tasks, id, a, now)
    ensures Held(SweptTasks(tasks, now), id, a, now) && SweptTasks(tasks, now)[id] == tasks[id]
  {
  }

  lemma HeldThroughCall(cfg: Config, s: State, from: Time, c: Call, id: string, a: string)
    requires WellFormed(s) && LeasesOk(s.tasks, from) && from <= c.now && Legal(s, c) && Held(s.tasks, id, a, c.now)
    ensures var r := Do(cfg, s, c);
      && (forall b :: ActsOn(c.op, id, b) && b != a ==> r.outcome.Failed?)
      && (Ends(c.op, r.outcome, id) <==> !Held(r.state.tasks, id, a, c.now))
  {
    if Admissible(cfg, c.op) {
      HeldThroughSweep(s.tasks, c.now, id, a);
      SweepLeases(s.tasks, from, c.now);
      SweptWellFormed(s, c.now, c.order);
      if c.op.AddTask? && c.op.project in s.projects { NextIdFresh(s, c.op.project); }
      HeldThroughApply(cfg, Swept(s, c.now, c.order), c.now, c.op, id, a);
    }
  }

  /** Along the run every call comes before the lease of the moment runs out, and none ends it. */
  ghost predicate Undisturbed(cfg: Config, s: State, from: Time, calls: seq<Call>, id: string)
    requires Run(cfg, s, from, calls)
    decreases |calls|
  {
    calls == [] ||
    (&& id in s.tasks && s.tasks[id].leaseExpires.Some? && calls[0].now < s.tasks[id].leaseExpires.value
     && !Ends(calls[0].op, Do(cfg, s, calls[0]).outcome, id)
     && Undisturbed(cfg, Do(cfg, s, calls[0]).state, calls[0].now, calls[1..], id))
  }

  /** No claim, release or completion of the task by anyone but a is accepted along the run. */
  ghost predicate OthersRefused(cfg: Config, s: State, from: Time, calls: seq<Call>, id: string, a: string)
    requires Run(cfg, s, from, calls)
    decreases |calls|
  {
    calls == [] ||
    (&& (forall b :: ActsOn(calls[0].op, id, b) && b != a ==> Do(cfg, s, calls[0]).outcome.Failed?)
     && OthersRefused(cfg, Do(cfg, s, calls[0]).state, calls[0].now, calls[1..], id, a))
  }

  /** Exclusivity over whole runs: while its lease runs, a task stays with its
      agent whatever is called by whom. */
  lemma {:induction false} HeldThroughRun(cfg: Config, s: State, from: Time, calls: seq<Call>, id: string, a: string)
    requires WellFormed(s) && LeasesOk(s.tasks, from) && Held(s.tasks, id, a, from)
    requires Run(cfg, s, from, calls) && Undisturbed(cfg, s, from, calls, id)
    ensures OthersRefused(cfg, s, from, calls, id, a)
    ensures Held(Final(cfg, s, from, calls).tasks, id, a, Clock(from, calls))
    decreases |calls|
  {
    hide Do, WellFormed, LeasesOk, ActsOn, Ends;
    if calls != [] {
      var s' := Do(cfg, s, calls[0]).state;
      HeldThroughCall(cfg, s, from, calls[0], id, a);
      DoLeases(cfg, s, from, calls[0]);
      DoWellFormed(cfg, s, calls[0]);
      HeldThroughRun(cfg, s', calls[0].now, calls[1..], id, a);
      assert Clock(from, calls) == Clock(calls[0].now, calls[1..]);
    }
  }

  // ----- heartbeats -------------------------------------------------------------

  function Expiry(tasks: map<string, Task>, id: string): Time
    requires id in tasks && tasks[id].leaseExpires.Some?
  {
    tasks[id].leaseExpires.value
  }

  /** A heartbeat of the holder moves the end of the lease to now plus the lease's
      whole seconds: never earlier for leases of whole seconds, and earlier by
      less than one second for the others. */
  lemma HeartbeatExtends(cfg: Config, s: State, from: Time, c: Call, id: string)
    requires LeasesOk(s.tasks, from) && from <= c.now && Legal(s, c)
    requires c.op.Heartbeat? && Do(cfg, s, c).outcome.Ok? && Held(s.tasks, id, c.op.name, c.now)
    ensures var after := Do(cfg, s, c).state.tasks;
      && Held(after, id, c.op.name, c.now)
      && Expiry(after, id) == c.now + s.tasks[id].leaseSeconds * SECOND
      && Expiry(after, id) > Expiry(s.tasks, id) - SECOND
      && (LeaseWhole(s.tasks[id], from) ==> Expiry(after, id) >= Expiry(s.tasks, id))
  {
    var s1 := Swept(s, c.now, c.order);
    assert LeaseOk(s.tasks[id], from);
    HeldThroughSweep(s.tasks, c.now, id, c.op.name);
    HeartbeatEffect(cfg, s1, c.now, c.op.name, c.op.agentKind, c.op.task, c.op.meta);
  }

  /** What a lease was last granted: when, and how long. */
  datatype Grant = Grant(at: Time, length: int)

  predicate OfGrant(t: Task, g: Grant) {
    t.leaseExpires == Some(g.at + g.length) && t.leaseSeconds == g.length / SECOND && g.length >= SECOND
  }

  /** An accepted claim by the holder grants what it asks for; an accepted heartbeat
      grants the whole seconds of the grant before. */
  function NextGrant(cfg: Config, c: Call, outcome: Outcome, id: string, a: string, g: Grant): Grant {
    if outcome.Ok? && c.op.Claim? && c.op.id == id && c.op.agent == a then Grant(c.now, EffectiveLease(cfg, c.op.lease))
    else if outcome.Ok? && c.op.Heartbeat? && c.op.name == a then Grant(c.now, g.length / SECOND * SECOND)
    else g
  }

  ghost function GrantAfter(cfg: Config, s: State, from: Time, calls: seq<Call>, id: string, a: string, g: Grant): Grant
    requires Run(cfg, s, from, calls)
    decreases |calls|
  {
    if calls == [] then g
    else
      var r := Do(cfg, s, calls[0]);
      GrantAfter(cfg, r.state, calls[0].now, calls[1..], id, a, NextGrant(cfg, calls[0], r.outcome, id, a, g))
  }

  lemma GrantThroughUpdate(s: State, now: Time, i: string, p: Patch, id: string, g: Grant)
    requires id in s.tasks && s.tasks[id].status == InProgress && OfGrant(s.tasks[id], g)
    requires !Ends(Update(i, p), ApplyUpdate(s, now, i, p).outcome, id)
    ensures var after := ApplyUpdate(s, now, i, p).state.tasks; id in after && OfGrant(after[id], g)
  {
    UpdateEffect(s, now, i, p);
    hide ApplyUpdate;
  }

  lemma GrantThroughApply(cfg: Config, s: State, now: Time, op: Op, order: seq<string>, id: string, a: string, g: Grant)
    requires Admissible(cfg, op) && Held(s.tasks, id, a, now) && LeaseOk(s.tasks[id], now) && OfGrant(s.tasks[id], g)
    requires op.AddTask? && op.project in s.projects ==> NextId(s.projects[op.project]) != id
    requires !Ends(op, Apply(cfg, s, now, op).outcome, id)
    ensures var r := Apply(cfg, s, now, op);
      id in r.state.tasks && OfGrant(r.state.tasks[id], NextGrant(cfg, Call(op, now, order), r.outcome, id, a, g))
  {
    hide ApplyAddTask, ApplyClaim, ApplyRelease, ApplyComplete, ApplyUpdate, ApplyHeartbeat, UpdateRefusal, Changed,
      NewTask, CheckParent, NextId;
    match op
    case Claim(i, agent, lease) => ClaimEffect(s, now, i, agent, EffectiveLease(cfg, lease));
    case Release(i, agent) => ReleaseEffect(s, now, i, agent);
    case Complete(i, agent) => CompleteEffect(s, now, i, agent);
    case Update(i, p) => GrantThroughUpdate(s, now, i, p, id, g);
    case Heartbeat(name, kind, task, meta) => HeartbeatEffect(cfg, s, now, name, kind, task, meta);
    case AddTask(project, kind, parent, title, description, priority, labels, actor) =>
      AddTaskEffect(s, now, project, DefaultKind(kind), parent, title, description,
                    DefaultPriority(priority), labels.value, actor);
    case Comment(_, _, _) =>
    case _ => OtherTasksEffect(cfg, s, now, op);
  }

  lemma GrantThroughCall(cfg: Config, s: State, from: Time, c: Call, id: string, a: string, g: Grant)
    requires WellFormed(s) && LeasesOk(s.tasks, from) && from <= c.now && Legal(s, c)
    requires Held(s.tasks, id, a, c.now) && OfGrant(s.tasks[id], g) && !Ends(c.op, Do(cfg, s, c).outcome, id)
    ensures var r := Do(cfg, s, c);
      id in r.state.tasks && OfGrant(r.state.tasks[id], NextGrant(cfg, c, r.outcome, id, a, g))
  {
    if Admissible(cfg, c.op) {
      HeldThroughSweep(s.tasks, c.now, id, a);
      SweepLeases(s.tasks, from, c.now);
      SweptWellFormed(s, c.now, c.order);
      if c.op.AddTask? && c.op.project in s.projects { NextIdFresh(s, c.op.project); }
      GrantThroughApply(cfg, Swept(s, c.now, c.order), c.now, c.op, c.order, id, a, g);
    }
  }

  lemma {:induction false} GrantThroughRun(cfg: Config, s: State, from: Time, calls: seq<Call>, id: string, a: string,
                                           g: Grant)
    requires WellFormed(s) && LeasesOk(s.tasks, from) && Held(s.tasks, id, a, from) && OfGrant(s.tasks[id], g)
    requires Run(cfg, s, from, calls) && Undisturbed(cfg, s, from, calls, id)
    ensures var after := Final(cfg, s, from, calls).tasks;
      id in after && OfGrant(after[id], GrantAfter(cfg, s, from, calls, id, a, g))
    decreases |calls|
  {
    hide Do, WellFormed, LeasesOk, NextGrant, Ends;
    if calls != [] {
      var r := Do(cfg, s, calls[0]);
      HeldThroughCall(cfg, s, from, calls[0], id, a);
      GrantThroughCall(cfg, s, from, calls[0], id, a, g);
      DoLeases(cfg, s, from, calls[0]);
      DoWellFormed(cfg, s, calls[0]);
      GrantThroughRun(cfg, r.state, calls[0].now, calls[1..], id, a, NextGrant(cfg, calls[0], r.outcome, id, a, g));
    }
  }

  /** A board on which the agent has just claimed the task. */
  ghost predicate JustClaimed(cfg: Config, s0: State, from: Time, claim: Call, s: State) {
    && WellFormed(s0) && LeasesOk(s0.tasks, from) && from <= claim.now && Legal(s0, claim)
    && claim.op.Claim? && Do(cfg, s0, claim).outcome.Ok? && s == Do(cfg, s0, claim).state
  }

  lemma AcceptedClaim(cfg: Config, s0: State, claim: Call)
    requires Legal(s0, claim) && claim.op.Claim? && Do(cfg, s0, claim).outcome.Ok?
    ensures MIN_LEASE <= EffectiveLease(cfg, claim.op.lease)
    ensures var tasks, after := SweptTasks(s0.tasks, claim.now), Do(cfg, s0, claim).state.tasks;
      claim.op.id in tasks
      && after == tasks[claim.op.id := ClaimedTask(tasks[claim.op.id], claim.now, claim.op.agent,
                                                   EffectiveLease(cfg, claim.op.lease))]
  {
    var s1 := Swept(s0, claim.now, claim.order);
    hide ApplyClaim, ClaimedTask, Legal, SweptTasks, EffectiveLease;
    ClaimEffect(s1, claim.now, claim.op.id, claim.op.agent, EffectiveLease(cfg, claim.op.lease));
  }

  lemma ClaimGrants(cfg: Config, s0: State, from: Time, claim: Call, s: State)
    requires JustClaimed(cfg, s0, from, claim, s)
    ensures WellFormed(s) && LeasesOk(s.tasks, claim.now) && Held(s.tasks, claim.op.id, claim.op.agent, claim.now)
    ensures OfGrant(s.tasks[claim.op.id], Grant(claim.now, EffectiveLease(cfg, claim.op.lease)))
  {
    hide WellFormed, LeasesOk, Legal, Do, SweptTasks, EffectiveLease;
    DoLeases(cfg, s0, from, claim);
    DoWellFormed(cfg, s0, claim);
    AcceptedClaim(cfg, s0, claim);
  }

  lemma BeatShortens(cfg: Config, s: State, from: Time, c: Call, id: string, g: Grant)
    requires LeasesOk(s.tasks, from) && from <= c.now && Legal(s, c)
    requires c.op.Heartbeat? && Do(cfg, s, c).outcome.Ok? && Held(s.tasks, id, c.op.name, c.now)
    requires OfGrant(s.tasks[id], g)
    ensures var after := Do(cfg, s, c).state.tasks;
      && id in after && after[id].leaseExpires.Some?
      && (Expiry(after, id) < Expiry(s.tasks, id) <==> c.now - g.at < g.length % SECOND)
  {
    HeartbeatExtends(cfg, s, from, c, id);
    hide Do, LeasesOk, Legal;
  }

  /** The grant that the lease of a claimed task is of, whatever was called since. */
  ghost function GrantSince(cfg: Config, claim: Call, s: State, calls: seq<Call>): Grant
    requires claim.op.Claim? && Run(cfg, s, claim.now, calls)
  {
    GrantAfter(cfg, s, claim.now, calls, claim.op.id, claim.op.agent,
               Grant(claim.now, EffectiveLease(cfg, claim.op.lease)))
  }

  lemma GrantSinceClaim(cfg: Config, s0: State, from: Time, claim: Call, s: State, calls: seq<Call>)
    requires JustClaimed(cfg, s0, from, claim, s)
    requires Run(cfg, s, claim.now, calls) && Undisturbed(cfg, s, claim.now, calls, claim.op.id)
    ensures var s1, id := Final(cfg, s, claim.now, calls), claim.op.id;
      && LeasesOk(s1.tasks, Clock(claim.now, calls))
      && id in s1.tasks && s1.tasks[id].assignee == claim.op.agent
      && OfGrant(s1.tasks[id], GrantSince(cfg, claim, s, calls))
  {
    ClaimGrants(cfg, s0, from, claim, s);
    hide Run, Final, Undisturbed, OthersRefused, GrantAfter, LeasesOk, WellFormed, JustClaimed, OfGrant, Clock;
    var id, a := claim.op.id, claim.op.agent;
    GrantThroughRun(cfg, s, claim.now, calls, id, a, Grant(claim.now, EffectiveLease(cfg, claim.op.lease)));
    HeldThroughRun(cfg, s, claim.now, calls, id, a);
    RunLeases(cfg, s, claim.now, calls);
  }

  /** Exactly when a heartbeat shortens a lease, whatever was called since its claim:
      when it comes before the fraction of a second that the last grant held has
      passed. What a heartbeat granted has no fraction, so only the first heartbeat
      after a claim can. */
  lemma HeartbeatShortens(cfg: Config, s0: State, from: Time, claim: Call, s: State, calls: seq<Call>, beat: Call)
    requires JustClaimed(cfg, s0, from, claim, s)
    requires Run(cfg, s, claim.now, calls) && Undisturbed(cfg, s, claim.now, calls, claim.op.id)
    requires var s1, id := Final(cfg, s, claim.now, calls), claim.op.id;
      && Clock(claim.now, calls) <= beat.now && Legal(s1, beat)
      && beat.op.Heartbeat? && beat.op.name == claim.op.agent && Do(cfg, s1, beat).outcome.Ok?
      && id in s1.tasks && s1.tasks[id].leaseExpires.Some? && beat.now < Expiry(s1.tasks, id)
    ensures var s1, id, g := Final(cfg, s, claim.now, calls), claim.op.id, GrantSince(cfg, claim, s, calls);
      var after := Do(cfg, s1, beat).state.tasks;
      && id in after && after[id].leaseExpires.Some?
      && (Expiry(after, id) < Expiry(s1.tasks, id) <==> beat.now - g.at < g.length % SECOND)
      && NextGrant(cfg, beat, Ok, id, claim.op.agent, g).length % SECOND == 0
  {
    GrantSinceClaim(cfg, s0, from, claim, s, calls);
    hide Run, Final, Undisturbed, GrantSince, LeasesOk, Legal, Do, JustClaimed, OfGrant, Clock;
    var g := GrantSince(cfg, claim, s, calls);
    BeatShortens(cfg, Final(cfg, s, claim.now, calls), Clock(claim.now, calls), beat, claim.op.id, g);
    Whole(g.length);
  }

  lemma Whole(length: int)
    ensures (length / SECOND * SECOND) % SECOND == 0
  {
  }

  // ----- a lease with a fraction of a second -----------------------------------------

  const ONE_ID: string := FormatId("AB", 1)

  /** A board with one task to claim. */
  function OneTask(): State {
    var t := Task(ONE_ID, "AB", Leaf, "", "a task", "", Todo, Medium, [], "", None, 0, "amy", "amy", 0, 0, None, None);
    NEW_STATE.(projects := map["AB" := Project("AB", "a project", 1, 0)], tasks := map[ONE_ID := t])
  }

  lemma OneTaskIsWellFormed()
    ensures WellFormed(OneTask()) && LeasesOk(OneTask().tasks, 0)
  {
    hide FormatId;
    var s := OneTask();
    assert KeyOk("AB");
    assert Issued(s.projects, ONE_ID, "AB");
  }

  /** Its claim at time 0. */
  lemma OneTaskClaimed(cfg: Config, lease: int) returns (claim: Call, s: State)
    requires MIN_LEASE <= lease <= MAX_LEASE
    ensures claim == Call(Claim(ONE_ID, "amy", lease), 0, []) && JustClaimed(cfg, OneTask(), 0, claim, s)
    ensures s.tasks == map[ONE_ID := ClaimedTask(OneTask().tasks[ONE_ID], 0, "amy", lease)] && s.activity != []
  {
    OneTaskIsWellFormed();
    hide FormatId, WellFormed, LeasesOk;
    claim := Call(Claim(ONE_ID, "amy", lease), 0, []);
    assert NameOk("amy");
    assert ExpiredIds(OneTask().tasks, 0) == {};
    SweptNothing(OneTask(), 0);
    s := Do(cfg, OneTask(), claim).state;
  }

  lemma RenewedWhole(cfg: Config, tasks: map<string, Task>, id: string, now: Time)
    requires id in tasks && HeldBy(tasks[id], "amy") && tasks[id].leaseSeconds > 0
    ensures id in RenewAll(cfg, tasks, "amy", now)
    ensures RenewAll(cfg, tasks, "amy", now)[id].leaseExpires == Some(now + tasks[id].leaseSeconds * SECOND)
  {
  }

  lemma AmyBeats(cfg: Config, s: State, now: Time) returns (c: Call)
    requires ExpiredIds(s.tasks, now) == {}
    ensures c == Call(Heartbeat("amy", "", "", None), now, []) && Legal(s, c)
    ensures Do(cfg, s, c).outcome.Ok? && Do(cfg, s, c).state.tasks == RenewAll(cfg, s.tasks, "amy", now)
  {
    c := Call(Heartbeat("amy", "", "", None), now, []);
    assert NameOk("amy");
    SweptNothing(s, now);
    hide ApplyHeartbeat, Swept, Expired, HeldBy, Renewed, RenewAll;
    HeartbeatEffect(cfg, s, now, "amy", "", "", None);
  }

  lemma Fraction(lease: int)
    requires lease >= SECOND
    ensures lease == lease / SECOND * SECOND + lease % SECOND && lease / SECOND > 0
  {
  }

  /** Any fraction of a second in a claim is lost to a heartbeat that comes before it
      has passed. */
  lemma FractionIsLost(cfg: Config, lease: int, beat: Time) returns (claim: Call, s: State, c: Call)
    requires MIN_LEASE <= lease <= MAX_LEASE && 0 <= beat < lease % SECOND
    ensures JustClaimed(cfg, OneTask(), 0, claim, s) && claim.op == Claim(ONE_ID, "amy", lease)
    ensures c.now == beat && Legal(s, c) && c.op.Heartbeat? && c.op.name == "amy" && Do(cfg, s, c).outcome.Ok?
    ensures var after := Do(cfg, s, c).state.tasks;
      && ONE_ID in s.tasks && s.tasks[ONE_ID].leaseExpires == Some(lease)
      && ONE_ID in after && after[ONE_ID].leaseExpires == Some(beat + lease / SECOND * SECOND)
      && beat + lease / SECOND * SECOND < lease
  {
    hide FormatId, JustClaimed, Do, Legal, RenewAll;
    Fraction(lease);
    claim, s := OneTaskClaimed(cfg, lease);
    assert s.tasks[ONE_ID].leaseSeconds == lease / SECOND;
    assert ExpiredIds(s.tasks, beat) == {};
    c := AmyBeats(cfg, s, beat);
    RenewedWhole(cfg, s.tasks, ONE_ID, beat);
  }
}
