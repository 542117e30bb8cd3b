/** The board as it runs (board.go): records behind pointers, maps of pointers, and
    an activity slice that snapshots share. Every method is proved against the
    function of BoardSpec that says what the call does. */
module BoardRuntime {
  import opened Basics
  import opened Model
  import opened TaskId
  import opened BoardSpec
  import opened BoardEffects
  import opened SweepLoop
  import opened Persistence

  /** No two keys have the same value. */
  ghost predicate OneToOne<T>(m: map<string, T>) {
    forall j, k :: j in m && k in m && m[j] == m[k] ==> j == k
  }

  /** A record behind a pointer. */
  class Ref<T> {
    var v: T
    constructor (v: T)
      ensures this.v == v
    {
      this.v := v;
    }
  }

  ghost function Refs<T>(m: map<string, Ref<T>>): set<object> { set k | k in m :: m[k] as object }

  ghost function Values<T>(m: map<string, Ref<T>>): map<string, T>
    reads Refs(m)
  {
    map k | k in m :: m[k].v
  }

  lemma Added<T>(m: map<string, Ref<T>>, key: string, ref: Ref<T>)
    ensures Refs(m[key := ref]) <= Refs(m) + {ref}
    ensures Values(m[key := ref]) == Values(m)[key := ref.v]
    ensures OneToOne(m) && ref !in Refs(m) ==> OneToOne(m[key := ref])
  {
    forall j | j in m ensures m[j] as object in Refs(m) {}
  }

  /** The maps of a model.State. */
  datatype Tables = Tables(
    projects: map<string, Ref<Project>>,
    tasks: map<string, Ref<Task>>,
    agents: map<string, Ref<Agent>>,
    users: map<string, Ref<User>>)

  ghost function Cells(st: Tables): set<object> {
    Refs(st.projects) + Refs(st.tasks) + Refs(st.agents) + Refs(st.users)
  }

  /** No record is reachable under two keys. */
  ghost predicate Separate(st: Tables) {
    && OneToOne(st.projects)
    && OneToOne(st.tasks)
    && OneToOne(st.agents)
    && OneToOne(st.users)
    && Refs(st.projects) !! Refs(st.tasks) !! Refs(st.agents) !! Refs(st.users)
  }

  /** What snapshotStateLocked hands to a save: copies of the records, and a view
      of the activity slice that is capped at its length but shares its array. */
  class Snapshot {
    const st: Tables
    const log: array<Activity>
    const len: nat
    const nextActivityID: int
    const archivedThrough: int
    ghost const taken: State

    constructor (st: Tables, log: array<Activity>, len: nat, nextActivityID: int, archivedThrough: int,
                 ghost taken: State)
      ensures this.st == st && this.log == log && this.len == len && this.nextActivityID == nextActivityID
      ensures this.archivedThrough == archivedThrough && this.taken == taken
    {
      this.st, this.log, this.len := st, log, len;
      this.nextActivityID, this.archivedThrough, this.taken := nextActivityID, archivedThrough, taken;
    }

    ghost predicate RecordsIntact()
      reads Cells(st)
    {
      && Values(st.projects) == taken.projects && Values(st.tasks) == taken.tasks
      && Values(st.agents) == taken.agents && Values(st.users) == taken.users
    }

    ghost predicate LogIntact()
      reads log
    {
      len <= log.Length && log[..len] == taken.activity
    }

    /** The snapshot still holds the board it was taken of. */
    ghost predicate Intact()
      reads Cells(st), log
    {
      RecordsIntact() && LogIntact() && nextActivityID == taken.nextActivityID
        && archivedThrough == taken.archivedThrough
    }
  }

  ghost function FrozenCells(snapshots: set<Snapshot>): set<object> {
    set s, o | s in snapshots && o in Cells(s.st) :: o
  }

  ghost function FrozenLogs(snapshots: set<Snapshot>): set<object> {
    set s | s in snapshots :: s.log as object
  }

  /** The records of the snapshots are as they were taken. */
  ghost predicate RecordsOk(snapshots: set<Snapshot>)
    reads FrozenCells(snapshots)
  {
    forall s :: s in snapshots ==>
      s.RecordsIntact() && s.nextActivityID == s.taken.nextActivityID && s.archivedThrough == s.taken.archivedThrough
  }

  /** The logs of the snapshots are as they were taken; one that shares the live
      array sees no further than the live log. */
  ghost predicate LogsOk(log: array<Activity>, len: nat, snapshots: set<Snapshot>)
    reads FrozenLogs(snapshots)
  {
    len <= log.Length && forall s :: s in snapshots ==> s.LogIntact() && (s.log == log ==> s.len <= len)
  }

  ghost predicate Sound(board: object, st: Tables, log: array<Activity>, len: nat, taken: set<Snapshot>)
    reads Cells(st), log, FrozenCells(taken), FrozenLogs(taken)
  {
    && Separate(st) && RecordsOk(taken) && LogsOk(log, len, taken)
    && Cells(st) !! FrozenCells(taken)
    && {board, log} !! Cells(st) + FrozenCells(taken)
    && board !in FrozenLogs(taken) && Cells(st) !! FrozenLogs(taken)
  }

  ghost function ViewOf(version: int, st: Tables, log: array<Activity>, len: nat, next: int,
                        archivedThrough: int): State
    reads Cells(st), log
  {
    State(version, Values(st.projects), Values(st.tasks), Values(st.agents), Values(st.users),
          if len <= log.Length then log[..len] else [], next, archivedThrough)
  }

  lemma Apart(board: object, st: Tables, log: array<Activity>, len: nat, taken: set<Snapshot>)
    requires Sound(board, st, log, len, taken)
    ensures board !in Cells(st) && board !in FrozenCells(taken) && board !in FrozenLogs(taken)
    ensures log as object !in Cells(st) && len <= log.Length
  {
  }

  /** A table with a new record in it. */
  lemma Inserted(board: object, st: Tables, more: Tables, log: array<Activity>, len: nat, taken: set<Snapshot>,
                 ref: object)
    requires Sound(board, st, log, len, taken) && Cells(more) <= Cells(st) + {ref} && Separate(more)
    requires ref !in Cells(st) + FrozenCells(taken) + FrozenLogs(taken) && ref != board && log as object != ref
    ensures Sound(board, more, log, len, taken)
  {
    hide Cells, Separate, FrozenCells, FrozenLogs, RecordsOk, LogsOk;
  }

  lemma ProjectFits(st: Tables, key: string, ref: Ref<Project>)
    requires Separate(st) && ref !in Cells(st)
    ensures var more := st.(projects := st.projects[key := ref]);
      Separate(more) && Cells(more) <= Cells(st) + {ref} && Values(more.projects) == Values(st.projects)[key := ref.v]
  {
    Added(st.projects, key, ref);
    hide OneToOne, Refs, Values;
  }

  lemma TaskFits(st: Tables, key: string, ref: Ref<Task>)
    requires Separate(st) && ref !in Cells(st)
    ensures var more := st.(tasks := st.tasks[key := ref]);
      Separate(more) && Cells(more) <= Cells(st) + {ref} && Values(more.tasks) == Values(st.tasks)[key := ref.v]
  {
    Added(st.tasks, key, ref);
    hide OneToOne, Refs, Values;
  }

  lemma AgentFits(st: Tables, key: string, ref: Ref<Agent>)
    requires Separate(st) && ref !in Cells(st)
    ensures var more := st.(agents := st.agents[key := ref]);
      Separate(more) && Cells(more) <= Cells(st) + {ref} && Values(more.agents) == Values(st.agents)[key := ref.v]
  {
    Added(st.agents, key, ref);
    hide OneToOne, Refs, Values;
  }

  lemma UserFits(st: Tables, key: string, ref: Ref<User>)
    requires Separate(st) && ref !in Cells(st)
    ensures var more := st.(users := st.users[key := ref]);
      Separate(more) && Cells(more) <= Cells(st) + {ref} && Values(more.users) == Values(st.users)[key := ref.v]
  {
    Added(st.users, key, ref);
    hide OneToOne, Refs, Values;
  }

  lemma Allocated(st: Tables, snapshots: set<Snapshot>)
    ensures forall o :: o in Cells(st) ==> allocated(o)
    ensures forall o :: o in Refs(st.projects) ==> allocated(o)
    ensures forall o :: o in Refs(st.tasks) ==> allocated(o)
    ensures forall o :: o in Refs(st.agents) ==> allocated(o)
    ensures forall o :: o in Refs(st.users) ==> allocated(o)
    ensures forall o :: o in FrozenCells(snapshots) ==> allocated(o)
    ensures forall o :: o in FrozenLogs(snapshots) ==> allocated(o)
  {
  }

  method Copy<T>(m: map<string, Ref<T>>) returns (c: map<string, Ref<T>>)
    ensures Values(c) == Values(m) && (forall o :: o in Refs(c) ==> fresh(o))
    ensures OneToOne(c)
  {
    c := map[];
    var left := m.Keys;
    while left != {}
      invariant left <= m.Keys && c.Keys == m.Keys - left
      invariant forall k :: k in c ==> fresh(c[k]) && c[k].v == m[k].v
      invariant OneToOne(c)
      decreases |left|
    {
      var k :| k in left;
      var copy := new Ref(m[k].v);
      c := c[k := copy];
      left := left - {k};
    }
  }

  // ----- the steps of an update -----------------------------------------------------

  function WithTask(s: State, id: string, t: Task): State { s.(tasks := s.tasks[id := t]) }

  function FieldsNoted(s: State, now: Time, actor: string, id: string, changed: seq<string>): State {
    if changed != [] then Log(s, now, actor, id, FieldsUpdated, ChangedFields(changed)) else s
  }

  /** moveLocked. */
  function Moved(s: State, id: string, to: Status): State
    requires id in s.tasks
  {
    var t := s.tasks[id];
    WithTask(if t.status == InProgress && to != InProgress then ClearCurrent(s, t.assignee, t.id) else s,
             id, MovedTask(t, to))
  }

  function MoveNoted(s: State, now: Time, actor: string, id: string, to: Status): State
    requires id in s.tasks
  {
    Log(Moved(s, id, to), now, actor, id, StatusMoved, MovedFromTo(s.tasks[id].status, to))
  }

  function Stamped(s: State, now: Time, actor: string, id: string): State
    requires id in s.tasks
  {
    WithTask(s, id, s.tasks[id].(updatedAt := now, updatedBy := actor))
  }

  lemma NothingChanged(t: Task, p: Patch)
    requires Changed(t, p) == []
    ensures Edited(t, p) == t
  {
    var parts := If(p.title.Some? && p.title.value != t.title, "title")
      + If(p.description.Some? && p.description.value != t.description, "description")
      + If(p.priority.Some? && p.priority.value != t.priority, "priority") + If(p.labels.Some?, "labels");
    assert parts == [];
  }

  lemma EditKeeps(t: Task, p: Patch)
    ensures var e := Edited(t, p); e.id == t.id && e.status == t.status && e.assignee == t.assignee
  {
  }

  lemma NoteCommutes(s: State, now: Time, actor: string, id: string, e: Task, changed: seq<string>)
    ensures FieldsNoted(WithTask(s, id, e), now, actor, id, changed)
         == WithTask(FieldsNoted(s, now, actor, id, changed), id, e)
    ensures FieldsNoted(s, now, actor, id, changed).tasks == s.tasks
  {
  }

  lemma ClearCommutes(s: State, id: string, e: Task, agent: string)
    ensures ClearCurrent(WithTask(s, id, e), agent, e.id) == WithTask(ClearCurrent(s, agent, e.id), id, e)
  {
  }

  lemma LogCommutes(s: State, id: string, e: Task, now: Time, actor: string, d: Detail)
    ensures Log(WithTask(s, id, e), now, actor, id, StatusMoved, d)
         == WithTask(Log(s, now, actor, id, StatusMoved, d), id, e)
  {
  }

  lemma LastTaskStays(s: State, id: string, e: Task, m: Task)
    ensures WithTask(WithTask(s, id, e), id, m) == WithTask(s, id, m)
    ensures id in WithTask(s, id, e).tasks && WithTask(s, id, e).tasks[id] == e
  {
  }

  lemma MoveCommutes(s: State, now: Time, actor: string, id: string, t: Task, e: Task, to: Status)
    requires e.id == t.id && e.status == t.status && e.assignee == t.assignee && to != t.status
    ensures MoveNoted(WithTask(s, id, e), now, actor, id, to)
         == WithTask(Log(if t.status == InProgress then ClearCurrent(s, t.assignee, t.id) else s,
                         now, actor, id, StatusMoved, MovedFromTo(t.status, to)),
                     id, MovedTask(e, to))
  {
    var m, d := MovedTask(e, to), MovedFromTo(t.status, to);
    var cleared := if t.status == InProgress then ClearCurrent(s, t.assignee, t.id) else s;
    ClearCommutes(s, id, e, t.assignee);
    LastTaskStays(s, id, e, m);
    LastTaskStays(cleared, id, e, m);
    LogCommutes(cleared, id, m, now, actor, d);
    hide MovedTask, ClearCurrent, Log, WithTask;
    assert Moved(WithTask(s, id, e), id, to) == WithTask(cleared, id, m);
  }

  lemma StampOver(s: State, now: Time, actor: string, id: string, e: Task)
    ensures Stamped(WithTask(s, id, e), now, actor, id) == WithTask(s, id, e.(updatedAt := now, updatedBy := actor))
  {
  }

  /** Editing the record first and writing the log afterwards comes to the same. */
  lemma UpdateInSteps(s: State, now: Time, id: string, p: Patch)
    requires id in s.tasks
    ensures var t := s.tasks[id];
      var s1 := FieldsNoted(WithTask(s, id, Edited(t, p)), now, p.actor, id, Changed(t, p));
      id in s1.tasks
      && var s2 := if Moves(t, p) then MoveNoted(s1, now, p.actor, id, p.status.value) else s1;
      id in s2.tasks
      && (if Changed(t, p) != [] || Moves(t, p)
          then Stamped(s2, now, p.actor, id)
               == WithTask(UpdateNoted(s, now, id, t, p, Changed(t, p)), id, UpdatedTask(t, now, p))
          else s2 == s)
  {
    var t := s.tasks[id];
    var e, changed := Edited(t, p), Changed(t, p);
    if changed == [] { NothingChanged(t, p); }
    EditKeeps(t, p);
    NoteCommutes(s, now, p.actor, id, e, changed);
    var noted := FieldsNoted(s, now, p.actor, id, changed);
    if Moves(t, p) {
      var to := p.status.value;
      MoveCommutes(noted, now, p.actor, id, t, e, to);
      var more := Log(if t.status == InProgress then ClearCurrent(noted, t.assignee, t.id) else noted,
                      now, p.actor, id, StatusMoved, MovedFromTo(t.status, to));
      StampOver(more, now, p.actor, id, MovedTask(e, to));
      assert more == UpdateNoted(s, now, id, t, p, changed) by { hide MovedTask, WithTask, MoveNoted; }
    } else {
      StampOver(noted, now, p.actor, id, e);
    }
    hide Changed, Edited, FieldsNoted, MovedTask, MoveNoted, Stamped, UpdateNoted, ClearCurrent, Log;
  }

  class Board {
    const cfg: Config
    const version: int
    var st: Tables
    var log: array<Activity>
    var len: nat
    var nextActivityID: int
    var archivedThrough: int
    var dirty: bool
    var kick: bool
    ghost var snapshots: set<Snapshot>

    /** No snapshot shares a live record, and every snapshot is as it was taken. */
    ghost predicate Valid()
      reads this`st, this`log, this`len, this`snapshots, Cells(st), log, FrozenCells(snapshots), FrozenLogs(snapshots)
    {
      Sound(this, st, log, len, snapshots)
    }

    ghost function View(): State
      reads this`st, this`log, this`len, this`nextActivityID, this`archivedThrough, Cells(st), log
    {
      ViewOf(version, st, log, len, nextActivityID, archivedThrough)
    }

    /** A board on an empty state. */
    constructor (cfg: Config)
      ensures Valid() && View() == NEW_STATE && this.cfg == cfg && !dirty && !kick && snapshots == {}
      ensures fresh(Cells(st)) && fresh(log)
    {
      this.cfg, version := cfg, SCHEMA_VERSION;
      st := Tables(map[], map[], map[], map[]);
      log, len := new Activity[0], 0;
      nextActivityID, archivedThrough := 0, 0;
      dirty, kick := false, false;
      snapshots := {};
      new;
      assert View().activity == [];
    }

    /** Writes a project through its pointer. */
    method StoreProject(key: string, v: Project)
      requires Valid() && key in st.projects
      modifies st.projects[key]
      ensures Valid()
      ensures View() == old(View()).(projects := old(View()).projects[key := v])
    {
      assert st.projects[key] as object in Refs(st.projects);
      hide Refs, Values, FrozenCells, FrozenLogs, RecordsOk, LogsOk;
      var ref := st.projects[key];
      ref.v := v;
    }

    method InsertProject(key: string, v: Project)
      requires Valid()
      modifies this`st
      ensures Valid() && (forall o :: o in Cells(st) ==> o in old(Cells(st)) || fresh(o))
      ensures View() == old(View()).(projects := old(View()).projects[key := v])
    {
      Allocated(st, snapshots);
      hide Refs, Values, Separate, FrozenCells, FrozenLogs, RecordsOk, LogsOk;
      var ref := new Ref(v);
      var more := st.(projects := st.projects[key := ref]);
      ProjectFits(st, key, ref);
      Inserted(this, st, more, log, len, snapshots, ref);
      Apart(this, more, log, len, snapshots);
      hide Sound;
      st := more;
    }

    lemma TaskApart(key: string)
      requires Valid() && key in st.tasks
      ensures var ref := st.tasks[key];
        && ref !in Refs(st.projects) && ref !in Refs(st.agents) && ref !in Refs(st.users)
        && ref !in FrozenCells(snapshots) && ref !in FrozenLogs(snapshots)
        && forall k :: k in st.tasks && k != key ==> st.tasks[k] != ref
    {
      assert st.tasks[key] as object in Refs(st.tasks);
      hide Refs, FrozenCells, FrozenLogs, RecordsOk, LogsOk;
    }

    twostate lemma SoundStays()
      requires old(Valid()) && unchanged(this) && unchanged(log)
      requires unchanged(FrozenCells(snapshots)) && unchanged(FrozenLogs(snapshots))
      ensures Valid()
    {
      hide Cells, Separate, FrozenCells, FrozenLogs, RecordsOk, LogsOk;
    }

    twostate lemma TasksWritten(key: string)
      requires unchanged(this) && key in st.tasks && unchanged(Refs(st.tasks) - {st.tasks[key]})
      requires forall k :: k in st.tasks && k != key ==> st.tasks[k] != st.tasks[key]
      ensures Values(st.tasks) == old(Values(st.tasks))[key := st.tasks[key].v]
    {
      assert forall k :: k in st.tasks && k != key ==> st.tasks[k] as object in Refs(st.tasks) - {st.tasks[key]};
    }

    /** When a record is the only thing written, the board differs in that task alone. */
    twostate lemma TaskWritten(key: string)
      requires old(Valid()) && unchanged(this) && unchanged(log) && key in st.tasks
      requires unchanged(Refs(st.tasks) - {st.tasks[key]})
      requires unchanged(Refs(st.projects)) && unchanged(Refs(st.agents))
      requires unchanged(Refs(st.users))
      requires unchanged(FrozenCells(snapshots)) && unchanged(FrozenLogs(snapshots))
      requires forall k :: k in st.tasks && k != key ==> st.tasks[k] != st.tasks[key]
      ensures Valid()
      ensures View() == old(View()).(tasks := old(View()).tasks[key := st.tasks[key].v])
    {
      SoundStays();
      TasksWritten(key);
      hide Sound, Cells, Refs, Values, FrozenCells, FrozenLogs;
    }

    /** Writes a task through its pointer. */
    method StoreTask(key: string, v: Task)
      requires Valid() && key in st.tasks
      modifies st.tasks[key]
      ensures Valid()
      ensures View() == old(View()).(tasks := old(View()).tasks[key := v])
    {
      TaskApart(key);
      Apart(this, st, log, len, snapshots);
      hide Sound, ViewOf, Cells, FrozenCells, FrozenLogs, Refs;
      var ref := st.tasks[key];
      ref.v := v;
      TaskWritten(key);
    }

    method InsertTask(key: string, v: Task)
      requires Valid()
      modifies this`st
      ensures Valid() && (forall o :: o in Cells(st) ==> o in old(Cells(st)) || fresh(o))
      ensures View() == old(View()).(tasks := old(View()).tasks[key := v])
    {
      Allocated(st, snapshots);
      hide Refs, Values, Separate, FrozenCells, FrozenLogs, RecordsOk, LogsOk;
      var ref := new Ref(v);
      var more := st.(tasks := st.tasks[key := ref]);
      TaskFits(st, key, ref);
      Inserted(this, st, more, log, len, snapshots, ref);
      Apart(this, more, log, len, snapshots);
      hide Sound;
      st := more;
    }

    /** Writes an agent through its pointer. */
    method StoreAgent(key: string, v: Agent)
      requires Valid() && key in st.agents
      modifies st.agents[key]
      ensures Valid()
      ensures View() == old(View()).(agents := old(View()).agents[key := v])
    {
      assert st.agents[key] as object in Refs(st.agents);
      hide Refs, Values, FrozenCells, FrozenLogs, RecordsOk, LogsOk;
      var ref := st.agents[key];
      ref.v := v;
    }

    method InsertAgent(key: string, v: Agent)
      requires Valid()
      modifies this`st
      ensures Valid() && (forall o :: o in Cells(st) ==> o in old(Cells(st)) || fresh(o))
      ensures View() == old(View()).(agents := old(View()).agents[key := v])
    {
      Allocated(st, snapshots);
      hide Refs, Values, Separate, FrozenCells, FrozenLogs, RecordsOk, LogsOk;
      var ref := new Ref(v);
      var more := st.(agents := st.agents[key := ref]);
      AgentFits(st, key, ref);
      Inserted(this, st, more, log, len, snapshots, ref);
      Apart(this, more, log, len, snapshots);
      hide Sound;
      st := more;
    }

    /** Writes a user through its pointer. */
    method StoreUser(key: string, v: User)
      requires Valid() && key in st.users
      modifies st.users[key]
      ensures Valid()
      ensures View() == old(View()).(users := old(View()).users[key := v])
    {
      assert st.users[key] as object in Refs(st.users);
      hide Refs, Values, FrozenCells, FrozenLogs, RecordsOk, LogsOk;
      var ref := st.users[key];
      ref.v := v;
    }

    method InsertUser(key: string, v: User)
      requires Valid()
      modifies this`st
      ensures Valid() && (forall o :: o in Cells(st) ==> o in old(Cells(st)) || fresh(o))
      ensures View() == old(View()).(users := old(View()).users[key := v])
    {
      Allocated(st, snapshots);
      hide Refs, Values, Separate, FrozenCells, FrozenLogs, RecordsOk, LogsOk;
      var ref := new Ref(v);
      var more := st.(users := st.users[key := ref]);
      UserFits(st, key, ref);
      Inserted(this, st, more, log, len, snapshots, ref);
      Apart(this, more, log, len, snapshots);
      hide Sound;
      st := more;
    }

    /** append to a slice without room: a new array, which no snapshot shares. */
    method Grow(e: Activity)
      requires Valid()
      modifies this`log
      ensures Valid() && View() == old(View())
      ensures fresh(log) && len < log.Length
    {
      Allocated(st, snapshots);
      hide Refs, Values, Separate, FrozenCells, FrozenLogs, RecordsOk;
      var shared := log;
      var grown := new Activity[2 * len + 1](k requires 0 <= k reads shared =>
        if k < shared.Length then shared[k] else e);
      assert grown[..len] == log[..len];
      assert LogsOk(grown, len, snapshots);
      assert Sound(this, st, grown, len, snapshots);
      Apart(this, st, grown, len, snapshots);
      hide Sound;
      log := grown;
    }

    /** append to a slice with room: in place, behind what snapshots can see. */
    method PutBehind(e: Activity)
      requires Valid() && len < log.Length
      modifies this`len, log
      ensures Valid()
      ensures View() == old(View()).(activity := old(View()).activity + [e])
    {
      hide RecordsOk, Values, FrozenCells, Refs, Separate;
      log[len] := e;
      len := len + 1;
      assert log[..len] == old(log[..len]) + [e];
      assert LogsOk(log, len, snapshots) by {
        forall s | s in snapshots
          ensures s.LogIntact()
        {
          assert s.log[..s.len] == old(s.log[..s.len]);
        }
      }
    }

    method Append(e: Activity)
      requires Valid()
      modifies this`log, this`len, log
      ensures Valid()
      ensures log == old(log) || fresh(log)
      ensures View() == old(View()).(activity := old(View()).activity + [e])
    {
      if len == log.Length { Grow(e); }
      PutBehind(e);
    }

    // ----- reading through the maps --------------------------------------------------

    lemma InView()
      requires Valid()
      ensures View().projects.Keys == st.projects.Keys && View().tasks.Keys == st.tasks.Keys
      ensures View().agents.Keys == st.agents.Keys && View().users.Keys == st.users.Keys
      ensures forall k :: k in st.projects ==> View().projects[k] == st.projects[k].v
      ensures forall k :: k in st.tasks ==> View().tasks[k] == st.tasks[k].v
      ensures forall k :: k in st.agents ==> View().agents[k] == st.agents[k].v
      ensures forall k :: k in st.users ==> View().users[k] == st.users[k].v
      ensures View().version == version && View().nextActivityID == nextActivityID
      ensures View().archivedThrough == archivedThrough && View().activity == log[..len]
    {
    }

    // ----- the steps that the calls share ---------------------------------------------

    method LogLocked(now: Time, actor: string, taskID: string, action: Action, detail: Detail)
      requires Valid()
      modifies this`nextActivityID, this`log, this`len, log
      ensures unchanged(this`st, this`archivedThrough, this`dirty, this`kick, this`snapshots)
      ensures Valid() && (log == old(log) || fresh(log))
      ensures View() == Log(old(View()), now, actor, taskID, action, detail)
    {
      hide RecordsOk, LogsOk, FrozenCells, FrozenLogs, Separate, Refs, Values;
      nextActivityID := nextActivityID + 1;
      Append(Activity(nextActivityID, now, actor, taskID, action, detail));
    }

    method ClearCurrentLocked(agent: string, taskID: string)
      requires Valid()
      modifies Cells(st)
      ensures unchanged(this)
      ensures Valid()
      ensures View() == ClearCurrent(old(View()), agent, taskID)
    {
      InView();
      if agent in st.agents {
        var a := st.agents[agent];
        assert a as object in Refs(st.agents);
        hide Valid, View, Refs, Values;
        if a.v.currentTask == taskID { StoreAgent(agent, a.v.(currentTask := "")); }
      }
    }

    method TouchAgentLocked(name: string, kind: string, taskID: string, now: Time)
      requires Valid()
      modifies this`st, Cells(st)
      ensures unchanged(this`log, this`len, this`nextActivityID, this`archivedThrough, this`dirty, this`kick,
                        this`snapshots)
      ensures Valid() && (forall o :: o in Cells(st) ==> o in old(Cells(st)) || fresh(o))
      ensures View() == TouchAgent(old(View()), name, kind, taskID, now)
    {
      InView();
      var a := if name in st.agents then st.agents[name].v else Agent(name, "agent", 0, "", None, false);
      if kind != "" { a := a.(kind := kind); }
      a := a.(lastHeartbeat := now);
      if taskID != "" { a := a.(currentTask := taskID); }
      if name in st.agents {
        assert st.agents[name] as object in Refs(st.agents);
        hide Valid, View, Refs, Values;
        StoreAgent(name, a);
      } else {
        hide Valid, View, Refs, Values;
        InsertAgent(name, a);
      }
    }

    method PutTaskLocked(id: string, t: Task)
      requires Valid() && id in View().tasks
      modifies Cells(st)
      ensures unchanged(this)
      ensures Valid()
      ensures View() == old(View()).(tasks := old(View()).tasks[id := t])
    {
      InView();
      assert st.tasks[id] as object in Refs(st.tasks);
      hide Valid, View, Refs, Values;
      StoreTask(id, t);
    }

    function TaskLocked(id: string): Option<Task>
      reads this, Refs(st.tasks)
    {
      if id in st.tasks then
        assert st.tasks[id] as object in Refs(st.tasks);
        Some(st.tasks[id].v)
      else None
    }

    lemma TaskFound(id: string)
      requires Valid()
      ensures TaskLocked(id) == if id in View().tasks then Some(View().tasks[id]) else None
    {
      InView();
      hide View, Valid;
    }

    function ProjectLocked(key: string): Option<Project>
      reads this, Refs(st.projects)
    {
      if key in st.projects then
        assert st.projects[key] as object in Refs(st.projects);
        Some(st.projects[key].v)
      else None
    }

    lemma ProjectFound(key: string)
      requires Valid()
      ensures ProjectLocked(key) == if key in View().projects then Some(View().projects[key]) else None
    {
      InView();
      hide View, Valid;
    }

    // ----- the calls, under the lock ---------------------------------------------------

    method LeaseTask(now: Time, id: string, agent: string, lease: int)
      requires Valid() && id in View().tasks
      modifies Cells(st)
      ensures unchanged(this) && Valid()
      ensures View() == WithTask(old(View()), id, ClaimedTask(old(View()).tasks[id], now, agent, lease))
    {
      TaskFound(id);
      hide Valid, View, Cells, TaskLocked, Refs;
      var t := TaskLocked(id).value;
      t := t.(assignee := agent, status := InProgress);
      t := t.(leaseExpires := Some(now + lease), leaseSeconds := lease / SECOND, updatedAt := now, updatedBy := agent);
      PutTaskLocked(id, t);
    }

    method NoteLease(now: Time, id: string, agent: string, action: Action, lease: int)
      requires Valid()
      modifies this`st, this`nextActivityID, this`log, this`len, Cells(st), log
      ensures unchanged(this`archivedThrough, this`dirty, this`kick, this`snapshots)
      ensures Valid() && (log == old(log) || fresh(log))
      ensures forall o :: o in Cells(st) ==> o in old(Cells(st)) || fresh(o)
      ensures View() == Log(TouchAgent(old(View()), agent, "", id, now), now, agent, id, action, LeaseOf(lease))
    {
      hide Valid, View, Cells, Log, TouchAgent;
      TouchAgentLocked(agent, "", id, now);
      LogLocked(now, agent, id, action, LeaseOf(lease));
    }

    /** The accepted half of Claim. */
    method GrantLease(now: Time, id: string, agent: string, lease: int)
      requires Valid() && id in View().tasks
      modifies this`st, this`nextActivityID, this`log, this`len, Cells(st), log
      ensures unchanged(this`archivedThrough, this`dirty, this`kick, this`snapshots)
      ensures Valid() && (log == old(log) || fresh(log))
      ensures forall o :: o in Cells(st) ==> o in old(Cells(st)) || fresh(o)
      ensures var s, t := old(View()), old(View()).tasks[id];
        View() == Log(TouchAgent(WithTask(s, id, ClaimedTask(t, now, agent, lease)), agent, "", id, now),
                      now, agent, id,
                      if t.assignee == agent && t.status == InProgress then LeaseRenewed else LeaseClaimed,
                      LeaseOf(lease))
    {
      TaskFound(id);
      hide Valid, View, Cells, TaskLocked, Refs, Log, TouchAgent, WithTask, ClaimedTask;
      var t := TaskLocked(id).value;
      var renewal := t.assignee == agent && t.status == InProgress;
      LeaseTask(now, id, agent, lease);
      NoteLease(now, id, agent, if renewal then LeaseRenewed else LeaseClaimed, lease);
    }

    method ClaimLocked(now: Time, id: string, agent: string, lease: int) returns (out: Outcome, marked: bool)
      requires Valid()
      modifies this`st, this`nextActivityID, this`log, this`len, Cells(st), log
      ensures unchanged(this`archivedThrough, this`dirty, this`kick, this`snapshots)
      ensures Valid() && (log == old(log) || fresh(log))
      ensures forall o :: o in Cells(st) ==> o in old(Cells(st)) || fresh(o)
      ensures var r := ApplyClaim(old(View()), now, id, agent, lease);
        View() == r.state && out == r.outcome && marked == r.marked
    {
      TaskFound(id);
      hide Valid, View, Cells, TaskLocked, Refs, Log, TouchAgent, ClaimedTask;
      var found := TaskLocked(id);
      if found.None? {
        out, marked := Failed(NotFound), false;
      } else if found.value.status == Done {
        out, marked := Failed(Invalid), false;
      } else if found.value.assignee != "" && found.value.assignee != agent && found.value.leaseExpires.Some? {
        out, marked := Failed(Claimed), false;
      } else {
        GrantLease(now, id, agent, lease);
        out, marked := Ok, true;
      }
    }

    method ReleaseLocked(now: Time, id: string, agent: string) returns (out: Outcome, marked: bool)
      requires Valid()
      modifies this`st, this`nextActivityID, this`log, this`len, Cells(st), log
      ensures unchanged(this`archivedThrough, this`dirty, this`kick, this`snapshots)
      ensures Valid() && (log == old(log) || fresh(log))
      ensures forall o :: o in Cells(st) ==> o in old(Cells(st)) || fresh(o)
      ensures var r := ApplyRelease(old(View()), now, id, agent);
        View() == r.state && out == r.outcome && marked == r.marked
    {
      TaskFound(id);
      hide Valid, View, Cells, TaskLocked, Refs, Log, TouchAgent, ClearCurrent;
      var found := TaskLocked(id);
      if found.None? { return Failed(NotFound), false; }
      var t := found.value;
      if t.assignee == "" { return Failed(Invalid), false; }
      if t.assignee != agent { return Failed(NotOwner), false; }
      PutTaskLocked(id, t.(status := Todo, assignee := "", leaseExpires := None, leaseSeconds := 0,
                           updatedAt := now, updatedBy := agent));
      ClearCurrentLocked(agent, id);
      LogLocked(now, agent, id, LeaseReleased, NoDetail);
      return Ok, true;
    }

    method CompleteLocked(now: Time, id: string, agent: string) returns (out: Outcome, marked: bool)
      requires Valid()
      modifies this`st, this`nextActivityID, this`log, this`len, Cells(st), log
      ensures unchanged(this`archivedThrough, this`dirty, this`kick, this`snapshots)
      ensures Valid() && (log == old(log) || fresh(log))
      ensures forall o :: o in Cells(st) ==> o in old(Cells(st)) || fresh(o)
      ensures var r := ApplyComplete(old(View()), now, id, agent);
        View() == r.state && out == r.outcome && marked == r.marked
    {
      TaskFound(id);
      hide Valid, View, Cells, TaskLocked, Refs, Log, TouchAgent, ClearCurrent;
      var found := TaskLocked(id);
      if found.None? { return Failed(NotFound), false; }
      var t := found.value;
      if t.assignee != "" && t.assignee != agent && t.leaseExpires.Some? { return Failed(NotOwner), false; }
      if t.status == Done { return Failed(Invalid), false; }
      if t.assignee == "" { t := t.(assignee := agent); }
      t := t.(status := Done, leaseExpires := None, leaseSeconds := 0, updatedAt := now, updatedBy := agent);
      PutTaskLocked(id, t);
      ClearCurrentLocked(t.assignee, id);
      LogLocked(now, agent, id, TaskDone, NoDetail);
      return Ok, true;
    }

    method CommentLocked(now: Time, id: string, actor: string, text: string) returns (out: Outcome, marked: bool)
      requires Valid()
      modifies this`st, this`nextActivityID, this`log, this`len, Cells(st), log
      ensures unchanged(this`archivedThrough, this`dirty, this`kick, this`snapshots)
      ensures Valid() && (log == old(log) || fresh(log))
      ensures forall o :: o in Cells(st) ==> o in old(Cells(st)) || fresh(o)
      ensures var r := ApplyComment(old(View()), now, id, actor, text);
        View() == r.state && out == r.outcome && marked == r.marked
    {
      TaskFound(id);
      hide Valid, View, Cells, TaskLocked, Refs, Log, TouchAgent, ClearCurrent;
      var found := TaskLocked(id);
      if found.None? { return Failed(NotFound), false; }
      PutTaskLocked(id, found.value.(updatedAt := now, updatedBy := actor));
      LogLocked(now, actor, id, Commented, Text(text));
      return Ok, true;
    }

    function CheckParentLocked(project: string, kind: Kind, parent: string): Option<ErrorKind>
      reads this, Refs(st.tasks)
    {
      if parent == "" then None
      else
        match TaskLocked(parent)
        case None => Some(NotFound)
        case Some(pt) =>
          if pt.project != project then Some(Invalid)
          else if pt.kind.Level() >= kind.Level() then Some(Invalid)
          else None
    }

    lemma ParentChecked(project: string, kind: Kind, parent: string)
      requires Valid()
      ensures CheckParentLocked(project, kind, parent) == CheckParent(View(), project, kind, parent)
    {
      TaskFound(parent);
      hide Valid, View, TaskLocked;
    }

    method CreateProjectLocked(now: Time, key: string, name: string, actor: string) returns (out: Outcome, marked: bool)
      requires Valid()
      modifies this`st, this`nextActivityID, this`log, this`len, Cells(st), log
      ensures unchanged(this`archivedThrough, this`dirty, this`kick, this`snapshots)
      ensures Valid() && (log == old(log) || fresh(log))
      ensures forall o :: o in Cells(st) ==> o in old(Cells(st)) || fresh(o)
      ensures var r := ApplyCreateProject(old(View()), now, key, name, actor);
        View() == r.state && out == r.outcome && marked == r.marked
    {
      InView();
      hide Valid, View, Cells, Log, Refs, Values;
      if key in st.projects { return Failed(Exists), false; }
      InsertProject(key, Project(key, name, 0, now));
      LogLocked(now, actor, "", ProjectCreated, NamedProject(key, name));
      return Ok, true;
    }

    method IssueId(project: string) returns (p: Project)
      requires Valid() && project in View().projects
      modifies Cells(st)
      ensures unchanged(this)
      ensures Valid()
      ensures p == old(View()).projects[project]
      ensures View() == old(View()).(projects := old(View()).projects[project := p.(nextSeq := p.nextSeq + 1)])
    {
      InView();
      assert st.projects[project] as object in Refs(st.projects);
      p := st.projects[project].v;
      hide Valid, View, Refs, Values;
      StoreProject(project, p.(nextSeq := p.nextSeq + 1));
    }

    method AddIssued(now: Time, t: Task)
      requires Valid()
      modifies this`st, this`nextActivityID, this`log, this`len, Cells(st), log
      ensures unchanged(this`archivedThrough, this`dirty, this`kick, this`snapshots)
      ensures Valid() && (log == old(log) || fresh(log))
      ensures forall o :: o in Cells(st) ==> o in old(Cells(st)) || fresh(o)
      ensures View() == Log(PutTask(old(View()), t), now, t.createdBy, t.id, TaskCreated, Text(t.title))
    {
      hide Valid, View, Cells, Log;
      InsertTask(t.id, t);
      LogLocked(now, t.createdBy, t.id, TaskCreated, Text(t.title));
    }

    method IssueTask(now: Time, project: string, kind: Kind, parent: string, title: string, description: string,
                     priority: Priority, labels: seq<string>, actor: string)
      requires Valid() && project in View().projects
      modifies this`st, this`nextActivityID, this`log, this`len, Cells(st), log
      ensures unchanged(this`archivedThrough, this`dirty, this`kick, this`snapshots)
      ensures Valid() && (log == old(log) || fresh(log))
      ensures forall o :: o in Cells(st) ==> o in old(Cells(st)) || fresh(o)
      ensures var s, p := old(View()), old(View()).projects[project];
        var t := NewTask(p, now, kind, parent, title, description, priority, labels, actor);
        View() == Log(PutTask(s.(projects := s.projects[project := p.(nextSeq := p.nextSeq + 1)]), t),
                      now, actor, t.id, TaskCreated, Text(title))
    {
      hide Valid, View, Cells, Log, FormatId;
      var p := IssueId(project);
      var t := Task(FormatId(p.key, p.nextSeq + 1), p.key, kind, parent, title, description, Todo, priority, labels,
                    "", None, 0, actor, actor, now, now, None, None);
      AddIssued(now, t);
    }

    method AddTaskLocked(now: Time, project: string, kind: Kind, parent: string, title: string, description: string,
                         priority: Priority, labels: seq<string>, actor: string) returns (out: Outcome, marked: bool)
      requires Valid()
      modifies this`st, this`nextActivityID, this`log, this`len, Cells(st), log
      ensures unchanged(this`archivedThrough, this`dirty, this`kick, this`snapshots)
      ensures Valid() && (log == old(log) || fresh(log))
      ensures forall o :: o in Cells(st) ==> o in old(Cells(st)) || fresh(o)
      ensures var r :=
        ApplyAddTask(old(View()), now, project, kind, parent, title, description, priority, labels, actor);
        View() == r.state && out == r.outcome && marked == r.marked
    {
      ProjectFound(project);
      hide Valid, View, Cells, Log, CheckParent, CheckParentLocked, TaskLocked, Refs, NewTask, PutTask, FormatId,
        ProjectLocked;
      out, marked := Failed(NotFound), false;
      var found := ProjectLocked(project);
      if found.Some? {
        ParentChecked(found.value.key, kind, parent);
        var refused := CheckParentLocked(found.value.key, kind, parent);
        if refused.Some? {
          out := Failed(refused.value);
        } else {
          IssueTask(now, project, kind, parent, title, description, priority, labels, actor);
          out, marked := Ok, true;
        }
      }
    }

    // The field edits of a patch, one field at a time through the pointer.

    static method EditTexts(t: Ref<Task>, p: Patch) returns (changed: seq<string>)
      requires p.labels.Some? ==> p.labels.value.Some?
      modifies t
      ensures t.v == old(t.v).(title := if p.title.Some? then p.title.value else old(t.v).title,
                               description := if p.description.Some? then p.description.value else old(t.v).description,
                               priority := if p.priority.Some? then p.priority.value else old(t.v).priority,
                               labels := if p.labels.Some? then p.labels.value.value else old(t.v).labels)
      ensures changed == If(p.title.Some? && p.title.value != old(t.v).title, "title")
        + If(p.description.Some? && p.description.value != old(t.v).description, "description")
        + If(p.priority.Some? && p.priority.value != old(t.v).priority, "priority")
        + If(p.labels.Some?, "labels")
    {
      changed := [];
      if p.title.Some? && p.title.value != t.v.title {
        t.v := t.v.(title := p.title.value);
        changed := changed + ["title"];
      }
      if p.description.Some? && p.description.value != t.v.description {
        t.v := t.v.(description := p.description.value);
        changed := changed + ["description"];
      }
      if p.priority.Some? && p.priority.value != t.v.priority {
        t.v := t.v.(priority := p.priority.value);
        changed := changed + ["priority"];
      }
      if p.labels.Some? {
        t.v := t.v.(labels := p.labels.value.value);
        changed := changed + ["labels"];
      }
    }

    static method EditPlan(t: Ref<Task>, p: Patch, finalStart: Option<Day>, finalEnd: Option<Day>,
                           changed0: seq<string>)
      returns (changed: seq<string>)
      requires finalStart == FinalDate(p.startDate, t.v.startDate) && finalEnd == FinalDate(p.endDate, t.v.endDate)
      modifies t
      ensures t.v == old(t.v).(parent := if p.parent.Some? then p.parent.value else old(t.v).parent,
                               startDate := finalStart, endDate := finalEnd)
      ensures changed == changed0 + If(p.parent.Some? && p.parent.value != old(t.v).parent, "parent")
        + If(finalStart != old(t.v).startDate, "start_date") + If(finalEnd != old(t.v).endDate, "end_date")
    {
      changed := changed0;
      if p.parent.Some? && p.parent.value != t.v.parent {
        t.v := t.v.(parent := p.parent.value);
        changed := changed + ["parent"];
      }
      if p.startDate.Some? && t.v.startDate != finalStart {
        t.v := t.v.(startDate := finalStart);
        changed := changed + ["start_date"];
      }
      if p.endDate.Some? && t.v.endDate != finalEnd {
        t.v := t.v.(endDate := finalEnd);
        changed := changed + ["end_date"];
      }
    }

    static method EditFields(t: Ref<Task>, p: Patch, finalStart: Option<Day>, finalEnd: Option<Day>)
      returns (changed: seq<string>)
      requires finalStart == FinalDate(p.startDate, t.v.startDate) && finalEnd == FinalDate(p.endDate, t.v.endDate)
      requires p.labels.Some? ==> p.labels.value.Some?
      modifies t
      ensures t.v == Edited(old(t.v), p) && changed == Changed(old(t.v), p)
    {
      hide If, FinalDate;
      changed := EditTexts(t, p);
      changed := EditPlan(t, p, finalStart, finalEnd, changed);
    }

    method EditTask(id: string, p: Patch, finalStart: Option<Day>, finalEnd: Option<Day>) returns (changed: seq<string>)
      requires Valid() && id in st.tasks && (p.labels.Some? ==> p.labels.value.Some?)
      requires finalStart == FinalDate(p.startDate, st.tasks[id].v.startDate)
      requires finalEnd == FinalDate(p.endDate, st.tasks[id].v.endDate)
      modifies st.tasks[id]
      ensures Valid()
      ensures changed == Changed(old(st.tasks[id].v), p) && st.tasks[id].v == Edited(old(st.tasks[id].v), p)
      ensures View() == old(View()).(tasks := old(View()).tasks[id := st.tasks[id].v])
    {
      TaskApart(id);
      Apart(this, st, log, len, snapshots);
      hide Sound, ViewOf, Cells, FrozenCells, FrozenLogs, Refs, FinalDate, Edited, Changed;
      changed := EditFields(st.tasks[id], p, finalStart, finalEnd);
      TaskWritten(id);
    }

    method EditLocked(id: string, p: Patch, finalStart: Option<Day>, finalEnd: Option<Day>)
      returns (changed: seq<string>)
      requires Valid() && id in View().tasks && (p.labels.Some? ==> p.labels.value.Some?)
      requires finalStart == FinalDate(p.startDate, View().tasks[id].startDate)
      requires finalEnd == FinalDate(p.endDate, View().tasks[id].endDate)
      modifies Cells(st)
      ensures unchanged(this) && Valid()
      ensures var t := old(View()).tasks[id];
        changed == Changed(t, p) && View() == WithTask(old(View()), id, Edited(t, p))
    {
      InView();
      assert st.tasks[id] as object in Refs(st.tasks);
      hide Valid, View, Refs, Values, FinalDate, Edited, Changed;
      changed := EditTask(id, p, finalStart, finalEnd);
    }

    static method MoveFields(t: Ref<Task>, to: Status)
      modifies t
      ensures t.v == MovedTask(old(t.v), to)
    {
      t.v := t.v.(status := to);
      t.v := t.v.(leaseExpires := None, leaseSeconds := 0);
      if to == Todo { t.v := t.v.(assignee := ""); }
    }

    method MoveTask(id: string, to: Status)
      requires Valid() && id in st.tasks
      modifies st.tasks[id]
      ensures Valid() && st.tasks[id].v == MovedTask(old(st.tasks[id].v), to)
      ensures View() == old(View()).(tasks := old(View()).tasks[id := st.tasks[id].v])
    {
      TaskApart(id);
      Apart(this, st, log, len, snapshots);
      hide Sound, ViewOf, Cells, FrozenCells, FrozenLogs, Refs, MovedTask;
      MoveFields(st.tasks[id], to);
      TaskWritten(id);
    }

    method MoveStatus(id: string, to: Status)
      requires Valid() && id in View().tasks
      modifies Cells(st)
      ensures unchanged(this) && Valid()
      ensures View() == WithTask(old(View()), id, MovedTask(old(View()).tasks[id], to))
    {
      InView();
      assert st.tasks[id] as object in Refs(st.tasks);
      hide Valid, View, Refs, Values, MovedTask;
      MoveTask(id, to);
    }

    method MoveLocked(id: string, to: Status)
      requires Valid() && id in View().tasks
      modifies Cells(st)
      ensures unchanged(this) && Valid()
      ensures View() == Moved(old(View()), id, to)
    {
      TaskFound(id);
      hide Valid, View, Cells, TaskLocked, Refs, MovedTask;
      var t := TaskLocked(id).value;
      if t.status == InProgress && to != InProgress { ClearCurrentLocked(t.assignee, t.id); }
      MoveStatus(id, to);
    }

    method NoteFields(now: Time, actor: string, id: string, changed: seq<string>)
      requires Valid()
      modifies this`nextActivityID, this`log, this`len, log
      ensures unchanged(this`st, this`archivedThrough, this`dirty, this`kick, this`snapshots)
      ensures Valid() && (log == old(log) || fresh(log))
      ensures View() == FieldsNoted(old(View()), now, actor, id, changed)
    {
      hide Valid, View, Log;
      if changed != [] { LogLocked(now, actor, id, FieldsUpdated, ChangedFields(changed)); }
    }

    method MoveAndNote(now: Time, actor: string, id: string, to: Status)
      requires Valid() && id in View().tasks
      modifies this`nextActivityID, this`log, this`len, Cells(st), log
      ensures unchanged(this`st, this`archivedThrough, this`dirty, this`kick, this`snapshots)
      ensures Valid() && (log == old(log) || fresh(log))
      ensures View() == MoveNoted(old(View()), now, actor, id, to)
    {
      TaskFound(id);
      hide Valid, View, Log, Moved, TaskLocked, Cells, Refs;
      var from := TaskLocked(id).value.status;
      MoveLocked(id, to);
      LogLocked(now, actor, id, StatusMoved, MovedFromTo(from, to));
    }

    method StampTask(now: Time, actor: string, id: string)
      requires Valid() && id in View().tasks
      modifies Cells(st)
      ensures unchanged(this) && Valid()
      ensures View() == Stamped(old(View()), now, actor, id)
    {
      TaskFound(id);
      hide Valid, View, TaskLocked, Cells, Refs;
      PutTaskLocked(id, TaskLocked(id).value.(updatedAt := now, updatedBy := actor));
    }

    /** Update after its checks: edit, note, move, note, stamp. */
    method AcceptUpdate(now: Time, id: string, p: Patch, finalStart: Option<Day>, finalEnd: Option<Day>)
      returns (out: Outcome, marked: bool)
      requires Valid() && id in View().tasks && (p.labels.Some? ==> p.labels.value.Some?)
      requires finalStart == FinalDate(p.startDate, View().tasks[id].startDate)
      requires finalEnd == FinalDate(p.endDate, View().tasks[id].endDate)
      modifies this`nextActivityID, this`log, this`len, Cells(st), log
      ensures unchanged(this`st, this`archivedThrough, this`dirty, this`kick, this`snapshots)
      ensures Valid() && (log == old(log) || fresh(log))
      ensures var s, t := old(View()), old(View()).tasks[id];
        out == Ok && (marked <==> Changed(t, p) != [] || Moves(t, p))
        && View() == if marked then WithTask(UpdateNoted(s, now, id, t, p, Changed(t, p)), id, UpdatedTask(t, now, p))
                     else s
    {
      UpdateInSteps(View(), now, id, p);
      TaskFound(id);
      hide Valid, View, Cells, TaskLocked, Refs, UpdateNoted, UpdatedTask, Changed, Edited, WithTask, FieldsNoted,
        MoveNoted, Stamped, FinalDate;
      var was := TaskLocked(id).value.status;
      var changed := EditLocked(id, p, finalStart, finalEnd);
      NoteFields(now, p.actor, id, changed);
      var moves := p.status.Some? && p.status.value != was;
      if moves { MoveAndNote(now, p.actor, id, p.status.value); }
      if changed != [] || moves { StampTask(now, p.actor, id); }
      out, marked := Ok, changed != [] || moves;
    }

    method UpdateLocked(now: Time, id: string, p: Patch) returns (out: Outcome, marked: bool)
      requires Valid() && (p.labels.Some? ==> p.labels.value.Some?)
      modifies this`st, this`nextActivityID, this`log, this`len, Cells(st), log
      ensures unchanged(this`archivedThrough, this`dirty, this`kick, this`snapshots)
      ensures Valid() && (log == old(log) || fresh(log))
      ensures forall o :: o in Cells(st) ==> o in old(Cells(st)) || fresh(o)
      ensures var r := ApplyUpdate(old(View()), now, id, p); View() == r.state && out == r.outcome && marked == r.marked
    {
      TaskFound(id);
      hide Valid, View, Cells, TaskLocked, Refs, UpdateNoted, UpdatedTask, Changed, Edited, CheckParent,
        CheckParentLocked;
      var found := TaskLocked(id);
      if found.None? { return Failed(NotFound), false; }
      var t := found.value;
      if p.parent.Some? && p.parent.value != t.parent {
        ParentChecked(t.project, t.kind, p.parent.value);
        var refused := CheckParentLocked(t.project, t.kind, p.parent.value);
        if refused.Some? { return Failed(refused.value), false; }
      }
      var finalStart, finalEnd := FinalDate(p.startDate, t.startDate), FinalDate(p.endDate, t.endDate);
      if finalStart.Some? && finalEnd.Some? && finalEnd.value < finalStart.value { return Failed(Invalid), false; }
      out, marked := AcceptUpdate(now, id, p, finalStart, finalEnd);
    }

    function AgentLocked(name: string): Option<Agent>
      reads this, Refs(st.agents)
    {
      if name in st.agents then
        assert st.agents[name] as object in Refs(st.agents);
        Some(st.agents[name].v)
      else None
    }

    lemma AgentFound(name: string)
      requires Valid()
      ensures AgentLocked(name) == if name in View().agents then Some(View().agents[name]) else None
    {
      InView();
      hide View, Valid;
    }

    method PutAgentLocked(name: string, a: Agent)
      requires Valid() && name in View().agents
      modifies Cells(st)
      ensures unchanged(this)
      ensures Valid()
      ensures View() == old(View()).(agents := old(View()).agents[name := a])
    {
      InView();
      assert st.agents[name] as object in Refs(st.agents);
      hide Valid, View, Refs, Values;
      StoreAgent(name, a);
    }

    method RenewIfHeld(id: string, name: string, now: Time)
      requires Valid() && id in View().tasks
      modifies Cells(st)
      ensures unchanged(this)
      ensures Valid()
      ensures var t := old(View()).tasks[id];
        View() == if HeldBy(t, name) then old(View()).(tasks := old(View()).tasks[id := Renewed(cfg, t, now)])
                  else old(View())
    {
      TaskFound(id);
      hide Valid, View, Cells, Refs, TaskLocked;
      var t := TaskLocked(id).value;
      if t.assignee == name && t.status == InProgress && t.leaseExpires.Some? {
        var d := t.leaseSeconds * SECOND;
        if d <= 0 { d := cfg.lease; }
        PutTaskLocked(id, t.(leaseExpires := Some(now + d)));
      }
    }

    /** Every lease the agent holds is renewed, task by task, in whatever order
        the map gives. */
    method RenewLeases(name: string, now: Time)
      requires Valid()
      modifies Cells(st)
      ensures unchanged(this)
      ensures Valid()
      ensures View() == old(View()).(tasks := RenewAll(cfg, old(View()).tasks, name, now))
    {
      InView();
      ghost var s := View();
      var left := st.tasks.Keys;
      RenewedEnds(s.tasks, name, now, left);
      hide Valid, View, Cells, HeldBy, Renewed, RenewAll, RenewedBut, Refs;
      while left != {}
        invariant unchanged(this) && Valid()
        invariant View() == s.(tasks := RenewedBut(s.tasks, name, now, left))
        invariant left <= s.tasks.Keys
        decreases |left|
      {
        var id :| id in left;
        RenewedNext(s.tasks, name, now, left, id);
        RenewIfHeld(id, name, now);
        left := left - {id};
      }
      RenewedEnds(s.tasks, name, now, {});
    }

    /** The tasks when all but those in `left` have been looked at. */
    ghost function RenewedBut(tasks: map<string, Task>, name: string, now: Time, left: set<string>): map<string, Task> {
      map id | id in tasks :: if id !in left && HeldBy(tasks[id], name) then Renewed(cfg, tasks[id], now) else tasks[id]
    }

    lemma RenewedEnds(tasks: map<string, Task>, name: string, now: Time, left: set<string>)
      ensures left == tasks.Keys ==> RenewedBut(tasks, name, now, left) == tasks
      ensures left == {} ==> RenewedBut(tasks, name, now, left) == RenewAll(cfg, tasks, name, now)
    {
      hide HeldBy, Renewed;
    }

    lemma RenewedNext(tasks: map<string, Task>, name: string, now: Time, left: set<string>, id: string)
      requires id in left && id in tasks
      ensures var before := RenewedBut(tasks, name, now, left);
        id in before && before[id] == tasks[id]
        && RenewedBut(tasks, name, now, left - {id})
           == if HeldBy(tasks[id], name) then before[id := Renewed(cfg, tasks[id], now)] else before
    {
      hide HeldBy, Renewed;
    }

    method SetMeta(name: string, meta: Option<map<string, string>>)
      requires Valid() && name in View().agents
      modifies Cells(st)
      ensures unchanged(this)
      ensures Valid()
      ensures View() == old(View()).(agents := old(View()).agents[name := old(View()).agents[name].(meta := meta)])
    {
      AgentFound(name);
      hide Valid, View, AgentLocked, Refs;
      PutAgentLocked(name, AgentLocked(name).value.(meta := meta));
    }

    method RecordAgent(name: string, kind: string, task: string, now: Time, meta: Option<map<string, string>>)
      requires Valid()
      modifies this`st, Cells(st)
      ensures unchanged(this`log, this`len, this`nextActivityID, this`archivedThrough, this`dirty, this`kick,
                        this`snapshots)
      ensures Valid() && (forall o :: o in Cells(st) ==> o in old(Cells(st)) || fresh(o))
      ensures var a := Touched(old(View()), name, kind, task, now);
        View() == old(View()).(agents := old(View()).agents[name := if meta.Some? then a.(meta := meta) else a])
    {
      hide Valid, View, Cells, Touched;
      TouchAgentLocked(name, kind, task, now);
      if meta.Some? { SetMeta(name, meta); }
    }

    method HeartbeatLocked(now: Time, name: string, kind: string, task: string, meta: Option<map<string, string>>)
      returns (out: Outcome, marked: bool)
      requires Valid()
      modifies this`st, this`nextActivityID, this`log, this`len, Cells(st), log
      ensures unchanged(this`archivedThrough, this`dirty, this`kick, this`snapshots)
      ensures Valid() && (log == old(log) || fresh(log))
      ensures forall o :: o in Cells(st) ==> o in old(Cells(st)) || fresh(o)
      ensures var r := ApplyHeartbeat(cfg, old(View()), now, name, kind, task, meta);
        View() == r.state && out == r.outcome && marked == r.marked
    {
      TaskFound(task);
      hide Valid, View, Cells, TaskLocked, Refs, RenewAll, Touched;
      if task != "" {
        var found := TaskLocked(task);
        if found.None? { return Failed(NotFound), false; }
        if found.value.assignee != name { return Failed(NotOwner), false; }
      }
      RecordAgent(name, kind, task, now, meta);
      RenewLeases(name, now);
      return Ok, true;
    }

    method RegisterLocked(now: Time, email: string, hash: Bytes, salt: Bytes) returns (out: Outcome, marked: bool)
      requires Valid()
      modifies this`st, this`nextActivityID, this`log, this`len, Cells(st), log
      ensures unchanged(this`archivedThrough, this`dirty, this`kick, this`snapshots)
      ensures Valid() && (log == old(log) || fresh(log))
      ensures forall o :: o in Cells(st) ==> o in old(Cells(st)) || fresh(o)
      ensures var r := ApplyRegister(old(View()), now, email, hash, salt);
        View() == r.state && out == r.outcome && marked == r.marked
    {
      InView();
      hide Valid, View, Cells, Log, Refs, Values;
      if email in st.users { return Failed(Exists), false; }
      InsertUser(email, User(email, hash, salt, PBKDF2_ITERATIONS, now, now));
      LogLocked(now, SYSTEM, "", UserRegistered, Text(email));
      return Ok, true;
    }

    method PutCredentials(email: string, now: Time, hash: Bytes, salt: Bytes)
      requires Valid() && email in View().users
      modifies Cells(st)
      ensures unchanged(this)
      ensures Valid()
      ensures var u := old(View()).users[email];
        View() == old(View()).(users := old(View()).users[email :=
          u.(passwordHash := hash, salt := salt, iterations := PBKDF2_ITERATIONS, updatedAt := now)])
    {
      InView();
      assert st.users[email] as object in Refs(st.users);
      var u := st.users[email].v;
      hide Valid, View, Refs, Values;
      StoreUser(email, u.(passwordHash := hash, salt := salt, iterations := PBKDF2_ITERATIONS, updatedAt := now));
    }

    method RehashLocked(now: Time, email: string, hash: Bytes, salt: Bytes) returns (out: Outcome, marked: bool)
      requires Valid()
      modifies this`st, this`nextActivityID, this`log, this`len, Cells(st), log
      ensures unchanged(this`archivedThrough, this`dirty, this`kick, this`snapshots)
      ensures Valid() && (log == old(log) || fresh(log))
      ensures forall o :: o in Cells(st) ==> o in old(Cells(st)) || fresh(o)
      ensures var r := ApplyRehash(old(View()), now, email, hash, salt);
        View() == r.state && out == r.outcome && marked == r.marked
    {
      InView();
      hide Valid, View, Cells, Log, Refs, Values;
      if email !in st.users { return Ok, false; }
      PutCredentials(email, now, hash, salt);
      LogLocked(now, SYSTEM, "", UserRehashed, Text(email));
      return Ok, true;
    }

    ghost function OfflineBut(agents: map<string, Agent>, now: Time, left: set<string>): map<string, Agent> {
      map name | name in agents :: if name in left then agents[name] else Offline(cfg, agents[name], now)
    }

    lemma OfflineNext(agents: map<string, Agent>, now: Time, left: set<string>, name: string)
      requires name in left && name in agents
      ensures var before := OfflineBut(agents, now, left);
        before[name] == agents[name]
        && OfflineBut(agents, now, left - {name}) == before[name := Offline(cfg, agents[name], now)]
    {
      hide Offline;
    }

    lemma OfflineEnds(agents: map<string, Agent>, now: Time, left: set<string>)
      ensures left == agents.Keys ==> OfflineBut(agents, now, left) == agents
      ensures left == {} ==>
        OfflineBut(agents, now, left) == map name | name in agents :: Offline(cfg, agents[name], now)
    {
      hide Offline;
    }

    method TakeOneOffline(name: string, now: Time)
      requires Valid() && name in View().agents
      modifies Cells(st)
      ensures unchanged(this)
      ensures Valid()
      ensures View() == old(View()).(agents := old(View()).agents[name := Offline(cfg, old(View()).agents[name], now)])
    {
      AgentFound(name);
      hide Valid, View, AgentLocked, Refs;
      var a := AgentLocked(name).value;
      var stale := now - cfg.agentTTL;
      if a.lastHeartbeat > stale { a := a.(lastHeartbeat := stale); }
      PutAgentLocked(name, a.(currentTask := ""));
    }

    method TakeOffline(now: Time)
      requires Valid()
      modifies Cells(st)
      ensures unchanged(this)
      ensures Valid()
      ensures View() == old(View()).(agents := OfflineBut(old(View()).agents, now, {}))
    {
      InView();
      ghost var s := View();
      var left := st.agents.Keys;
      OfflineEnds(s.agents, now, left);
      hide Valid, View, Cells, Refs, AgentLocked, OfflineBut, Offline;
      while left != {}
        invariant unchanged(this) && Valid() && left <= s.agents.Keys
        invariant View() == s.(agents := OfflineBut(s.agents, now, left))
        decreases |left|
      {
        var name :| name in left;
        OfflineNext(s.agents, now, left, name);
        assert name in View().agents by { KeysOfBut(s.agents, now, left); }
        TakeOneOffline(name, now);
        left := left - {name};
      }
    }

    lemma KeysOfBut(agents: map<string, Agent>, now: Time, left: set<string>)
      ensures OfflineBut(agents, now, left).Keys == agents.Keys
    {
    }

    method ShutdownLocked(now: Time, actor: string) returns (out: Outcome, marked: bool)
      requires Valid()
      modifies this`st, this`nextActivityID, this`log, this`len, Cells(st), log
      ensures unchanged(this`archivedThrough, this`dirty, this`kick, this`snapshots)
      ensures Valid() && (log == old(log) || fresh(log))
      ensures forall o :: o in Cells(st) ==> o in old(Cells(st)) || fresh(o)
      ensures var r := ApplyShutdown(cfg, old(View()), now, actor);
        View() == r.state && out == r.outcome && marked == r.marked
    {
      OfflineEnds(View().agents, now, {});
      hide Valid, View, Cells, Log, OfflineBut;
      TakeOffline(now);
      LogLocked(now, if actor == "" then SYSTEM else actor, "", ServerStopped, NoDetail);
      return Ok, true;
    }


    // ----- sweeping -------------------------------------------------------------------

    /** The identifiers of the expired tasks, in map order. */
    static method ExpiredOf(tasks: map<string, Ref<Task>>, now: Time) returns (ids: seq<string>)
      ensures Distinct(ids) && forall id :: id in ids <==> id in tasks && Expired(tasks[id].v, now)
    {
      hide Expired;
      ids := [];
      var left := tasks.Keys;
      while left != {}
        invariant left <= tasks.Keys
        invariant forall id :: id in ids <==> id in tasks.Keys - left && Expired(tasks[id].v, now)
        invariant Distinct(ids)
        decreases |left|
      {
        var id :| id in left;
        if Expired(tasks[id].v, now) { ids := ids + [id]; }
        left := left - {id};
      }
    }

    method CollectExpired(now: Time) returns (ids: seq<string>)
      requires Valid()
      ensures Visits(View().tasks, now, ids)
    {
      InView();
      hide Valid, View, Expired;
      ids := ExpiredOf(st.tasks, now);
    }

    /** `sort.Slice` by idLess. */
    static method SortIds(ids: seq<string>) returns (sorted: seq<string>)
      requires Distinct(ids)
      ensures Distinct(sorted) && forall id :: id in sorted <==> id in ids
      ensures forall i, j :: 0 <= i < j < |sorted| ==> !IdLess(sorted[j], sorted[i])
    {
      hide IdLess;
      sorted := [];
      for n := 0 to |ids|
        invariant Distinct(sorted) && forall id :: id in sorted <==> id in ids[..n]
        invariant forall i, j :: 0 <= i < j < |sorted| ==> !IdLess(sorted[j], sorted[i])
      {
        assert ids[n] !in ids[..n];
        assert ids[..n + 1] == ids[..n] + [ids[n]];
        sorted := InsertId(sorted, ids[n]);
      }
      assert ids[..|ids|] == ids;
    }

    static method InsertId(sorted: seq<string>, id: string) returns (more: seq<string>)
      requires Distinct(sorted) && id !in sorted
      requires forall i, j :: 0 <= i < j < |sorted| ==> !IdLess(sorted[j], sorted[i])
      ensures Distinct(more) && forall x :: x in more <==> x in sorted || x == id
      ensures forall i, j :: 0 <= i < j < |more| ==> !IdLess(more[j], more[i])
    {
      hide IdLess;
      var k := |sorted|;
      while k > 0 && IdLess(id, sorted[k - 1])
        invariant 0 <= k <= |sorted|
        invariant forall j :: k <= j < |sorted| ==> !IdLess(sorted[j], id)
      {
        IdLessOneWay(id, sorted[k - 1]);
        k := k - 1;
      }
      forall i | 0 <= i < k
        ensures !IdLess(id, sorted[i])
      {
        if i < k - 1 { IdOrderTransitive(sorted[i], sorted[k - 1], id); }
      }
      more := sorted[..k] + [id] + sorted[k..];
      assert sorted == sorted[..k] + sorted[k..];
    }

    method ReleaseAll(order: seq<string>, now: Time)
      requires Valid() && forall id :: id in order ==> id in View().tasks
      modifies this`st, this`nextActivityID, this`log, this`len, Cells(st), log
      ensures unchanged(this`archivedThrough, this`dirty, this`kick, this`snapshots)
      ensures Valid() && (log == old(log) || fresh(log))
      ensures forall o :: o in Cells(st) ==> o in old(Cells(st)) || fresh(o)
      ensures View() == SweepAll(old(View()), now, order)
    {
      hide Valid, View, Cells, SweepOne;
      assert order[..0] == [];
      for k := 0 to |order|
        invariant unchanged(this`archivedThrough, this`dirty, this`kick, this`snapshots)
        invariant Valid() && (log == old(log) || fresh(log))
        invariant forall o :: o in Cells(st) ==> o in old(Cells(st)) || fresh(o)
        invariant View() == SweepAll(old(View()), now, order[..k])
      {
        assert order[..k + 1][..k] == order[..k] && order[k] in order;
        SweepOneLocked(order[k], now);
      }
      assert order[..|order|] == order;
    }

    /** The expired tasks in order of identifier. */
    method ExpiredInOrder(now: Time) returns (order: seq<string>)
      requires Valid()
      ensures SweepOrder(View().tasks, now, order)
    {
      ghost var s := View();
      Allocated(st, snapshots);
      hide Valid, View, Expired, IdLess, FrozenCells, FrozenLogs, Refs;
      var expired := CollectExpired(now);
      order := SortIds(expired);
      assert Visits(s.tasks, now, order);
    }

    /** Returns expired tasks to the todo column, in order of identifier. */
    method SweepLocked(now: Time) returns (order: seq<string>)
      requires Valid()
      modifies this`st, this`nextActivityID, this`log, this`len, Cells(st), log
      ensures unchanged(this`archivedThrough, this`dirty, this`kick, this`snapshots)
      ensures Valid() && (log == old(log) || fresh(log))
      ensures forall o :: o in Cells(st) ==> o in old(Cells(st)) || fresh(o)
      ensures SweepOrder(old(View()).tasks, now, order)
      ensures View() == Swept(old(View()), now, order)
    {
      Allocated(st, snapshots);
      hide Valid, View, Cells, FrozenCells, FrozenLogs, Refs, Swept, Expired, IdLess, SweepAll;
      order := ExpiredInOrder(now);
      SweepAllIsSwept(old(View()), now, order);
      assert forall id :: id in order ==> id in ExpiredIds(old(View()).tasks, now);
      ReleaseAll(order, now);
    }

    method SweepOneLocked(id: string, now: Time)
      requires Valid() && id in View().tasks
      modifies this`st, this`nextActivityID, this`log, this`len, Cells(st), log
      ensures unchanged(this`archivedThrough, this`dirty, this`kick, this`snapshots)
      ensures Valid() && (log == old(log) || fresh(log))
      ensures forall o :: o in Cells(st) ==> o in old(Cells(st)) || fresh(o)
      ensures View() == SweepOne(old(View()), now, id)
    {
      TaskFound(id);
      hide Valid, View, Cells, TaskLocked, Refs, Log, ClearCurrent;
      var t := TaskLocked(id).value;
      var prev := t.assignee;
      t := t.(status := Todo, assignee := "", leaseExpires := None, leaseSeconds := 0);
      PutTaskLocked(id, t.(updatedAt := now, updatedBy := SYSTEM));
      ClearCurrentLocked(prev, id);
      LogLocked(now, SYSTEM, id, LeaseExpired, ReleasedFrom(prev));
    }

    // ----- whole calls -------------------------------------------------------------------

    /** persistAndPublishLocked in async mode: note that something is unsaved, and
        leave a wake-up for the writer. */
    method MarkLocked()
      requires Valid()
      modifies this`dirty, this`kick
      ensures Valid() && View() == old(View())
      ensures dirty && kick
    {
      Apart(this, st, log, len, snapshots);
      hide Sound, ViewOf;
      dirty := true;
      kick := true;
    }

    predicate OnTasks(op: Op) {
      op.AddTask? || op.Claim? || op.Release? || op.Complete? || op.Update? || op.Comment?
    }

    method DispatchTasks(op: Op, now: Time) returns (out: Outcome, marked: bool)
      requires Valid() && Admissible(cfg, op) && OnTasks(op)
      modifies this`st, this`nextActivityID, this`log, this`len, Cells(st), log
      ensures unchanged(this`archivedThrough, this`dirty, this`kick, this`snapshots)
      ensures Valid() && (log == old(log) || fresh(log))
      ensures forall o :: o in Cells(st) ==> o in old(Cells(st)) || fresh(o)
      ensures var r := Apply(cfg, old(View()), now, op); View() == r.state && out == r.outcome && marked == r.marked
    {
      hide Valid, View, Cells, ApplyCreateProject, ApplyAddTask, ApplyClaim, ApplyRelease, ApplyComplete,
        ApplyUpdate, ApplyComment, ApplyHeartbeat, ApplyRegister, ApplyRehash, ApplyShutdown, TaskLocked, Refs, Lower;
      match op
      case AddTask(project, kind, parent, title, description, priority, labels, actor) =>
        out, marked := AddTaskLocked(now, project, DefaultKind(kind), parent, title, description,
                                     DefaultPriority(priority), labels.value, actor);
      case Claim(id, agent, lease) => out, marked := ClaimLocked(now, id, agent, EffectiveLease(cfg, lease));
      case Release(id, agent) => out, marked := ReleaseLocked(now, id, agent);
      case Complete(id, agent) => out, marked := CompleteLocked(now, id, agent);
      case Update(id, p) => out, marked := UpdateLocked(now, id, p);
      case Comment(id, actor, text) => out, marked := CommentLocked(now, id, actor, text);
    }

    method DispatchOthers(op: Op, now: Time) returns (out: Outcome, marked: bool)
      requires Valid() && Admissible(cfg, op) && !OnTasks(op)
      modifies this`st, this`nextActivityID, this`log, this`len, Cells(st), log
      ensures unchanged(this`archivedThrough, this`dirty, this`kick, this`snapshots)
      ensures Valid() && (log == old(log) || fresh(log))
      ensures forall o :: o in Cells(st) ==> o in old(Cells(st)) || fresh(o)
      ensures var r := Apply(cfg, old(View()), now, op); View() == r.state && out == r.outcome && marked == r.marked
    {
      if op.Read? && op.wanted.Some? { TaskFound(op.wanted.value); }
      hide Valid, View, Cells, ApplyCreateProject, ApplyAddTask, ApplyClaim, ApplyRelease, ApplyComplete,
        ApplyUpdate, ApplyComment, ApplyHeartbeat, ApplyRegister, ApplyRehash, ApplyShutdown, TaskLocked, Refs, Lower;
      match op
      case CreateProject(key, name, actor) => out, marked := CreateProjectLocked(now, key, name, actor);
      case Heartbeat(name, kind, task, meta) => out, marked := HeartbeatLocked(now, name, kind, task, meta);
      case Register(email, _, _, hash, salt) => out, marked := RegisterLocked(now, Lower(email), hash, salt);
      case Rehash(email, hash, salt) => out, marked := RehashLocked(now, Lower(email), hash, salt);
      case Shutdown(actor) => out, marked := ShutdownLocked(now, actor);
      case Read(wanted) =>
        out := if wanted.Some? && TaskLocked(wanted.value).None? then Failed(NotFound) else Ok;
        marked := false;
      case Sweep => out, marked := Ok, false;
      case UnsavedSweep => out, marked := Ok, false;
    }

    /** The body of a call, after its arguments were found admissible. */
    method Dispatch(op: Op, now: Time) returns (out: Outcome, marked: bool)
      requires Valid() && Admissible(cfg, op)
      modifies this`st, this`nextActivityID, this`log, this`len, Cells(st), log
      ensures unchanged(this`archivedThrough, this`dirty, this`kick, this`snapshots)
      ensures Valid() && (log == old(log) || fresh(log))
      ensures forall o :: o in Cells(st) ==> o in old(Cells(st)) || fresh(o)
      ensures var r := Apply(cfg, old(View()), now, op); View() == r.state && out == r.outcome && marked == r.marked
    {
      hide Valid, View, Cells, Apply, Admissible;
      if OnTasks(op) {
        out, marked := DispatchTasks(op, now);
      } else {
        out, marked := DispatchOthers(op, now);
      }
    }

    lemma OrderInside(tasks: map<string, Task>, now: Time, order: seq<string>)
      requires SweepOrder(tasks, now, order)
      ensures forall id :: id in order ==> id in tasks
    {
      assert forall id :: id in order ==> id in ExpiredIds(tasks, now);
    }

    method SweepAndApply(op: Op, now: Time) returns (out: Outcome, order: seq<string>, marked: bool)
      requires Valid() && Admissible(cfg, op)
      modifies this`st, this`nextActivityID, this`log, this`len, Cells(st), log
      ensures unchanged(this`archivedThrough, this`dirty, this`kick, this`snapshots)
      ensures Valid() && (log == old(log) || fresh(log))
      ensures forall o :: o in Cells(st) ==> o in old(Cells(st)) || fresh(o)
      ensures SweepOrder(old(View()).tasks, now, order) && forall id :: id in order ==> id in old(View()).tasks
      ensures var r := Apply(cfg, Swept(old(View()), now, order), now, op);
        View() == r.state && out == r.outcome && marked == r.marked
    {
      hide Valid, View, Cells, Apply, Swept, Admissible, SweepOrder;
      order := SweepLocked(now);
      OrderInside(old(View()).tasks, now, order);
      out, marked := Dispatch(op, now);
    }

    /** A call on the board, as the specification says. */
    method Perform(op: Op, now: Time) returns (out: Outcome, order: seq<string>)
      requires Valid()
      modifies this`st, this`nextActivityID, this`log, this`len, this`dirty, this`kick, Cells(st), log
      ensures unchanged(this`archivedThrough, this`snapshots)
      ensures Valid() && (log == old(log) || fresh(log))
      ensures forall o :: o in Cells(st) ==> o in old(Cells(st)) || fresh(o)
      ensures Admissible(cfg, op) ==> Legal(old(View()), Call(op, now, order))
      ensures forall id :: id in order ==> id in old(View()).tasks
      ensures var r := Do(cfg, old(View()), Call(op, now, order));
        View() == r.state && out == r.outcome
        && dirty == (old(dirty) || r.marked) && kick == (old(kick) || r.marked)
    {
      hide Valid, View, Cells, Apply, Swept, Admissible, SweepOrder;
      if !Admissible(cfg, op) { return Failed(Invalid), []; }
      var marked;
      out, order, marked := SweepAndApply(op, now);
      if !op.UnsavedSweep? && (order != [] || marked) { MarkLocked(); }
    }

    // ----- saving ---------------------------------------------------------------------------

    static method CopyTables(st: Tables) returns (c: Tables)
      ensures Values(c.projects) == Values(st.projects) && Values(c.tasks) == Values(st.tasks)
      ensures Values(c.agents) == Values(st.agents) && Values(c.users) == Values(st.users)
      ensures forall o :: o in Cells(c) ==> fresh(o)
    {
      Allocated(st, {});
      hide Refs, Values;
      var projects := Copy(st.projects);
      Allocated(Tables(projects, map[], map[], map[]), {});
      var tasks := Copy(st.tasks);
      Allocated(Tables(projects, tasks, map[], map[]), {});
      var agents := Copy(st.agents);
      Allocated(Tables(projects, tasks, agents, map[]), {});
      var users := Copy(st.users);
      c := Tables(projects, tasks, agents, users);
    }

    /** The records are copied; the log is shared. */
    method CopyState() returns (s: Snapshot)
      requires Valid()
      ensures s.taken == View() && s.Intact() && s.log == log && s.len == len
      ensures fresh(s) && (forall o :: o in Cells(s.st) ==> fresh(o))
    {
      Apart(this, st, log, len, snapshots);
      hide Sound, Refs, Values;
      var copy := CopyTables(st);
      s := new Snapshot(copy, log, len, nextActivityID, archivedThrough, View());
    }

    method SnapshotStateLocked() returns (s: Snapshot)
      requires Valid()
      modifies this`snapshots
      ensures Valid() && View() == old(View())
      ensures snapshots == old(snapshots) + {s} && s.taken == View() && s.Intact()
      ensures s.log == log && s.len == len && fresh(s) && (forall o :: o in Cells(s.st) ==> fresh(o))
    {
      Allocated(st, snapshots);
      hide Cells, FrozenCells, FrozenLogs, Sound, ViewOf, Snapshot.Intact;
      s := CopyState();
      Hold(s);
    }

    ghost method Hold(s: Snapshot)
      requires Valid() && s.Intact() && s.log == log && s.len == len && log as object !in Cells(s.st)
      requires this !in Cells(s.st)
      requires Cells(s.st) !! Cells(st) && Cells(s.st) !! FrozenLogs(snapshots)
      modifies this`snapshots
      ensures Valid() && View() == old(View()) && snapshots == old(snapshots) + {s} && s.Intact()
    {
      OneMore(s);
      Apart(this, st, log, len, snapshots + {s});
      hide Sound, ViewOf;
      snapshots := snapshots + {s};
    }

    lemma OneMore(s: Snapshot)
      requires Valid() && s.Intact() && s.log == log && s.len == len && log as object !in Cells(s.st)
      requires this !in Cells(s.st)
      requires Cells(s.st) !! Cells(st) && Cells(s.st) !! FrozenLogs(snapshots)
      ensures Sound(this, st, log, len, snapshots + {s})
    {
      FrozenMore(s);
      hide Refs, Values, Separate, FrozenCells, FrozenLogs, RecordsOk, LogsOk;
    }

    lemma FrozenUnion(s: Snapshot)
      ensures FrozenCells(snapshots + {s}) == FrozenCells(snapshots) + Cells(s.st)
      ensures FrozenLogs(snapshots + {s}) == FrozenLogs(snapshots) + {s.log}
    {
      hide Cells;
    }

    lemma FrozenMore(s: Snapshot)
      requires RecordsOk(snapshots) && LogsOk(log, len, snapshots) && s.Intact() && s.log == log && s.len == len
      ensures FrozenCells(snapshots + {s}) == FrozenCells(snapshots) + Cells(s.st)
      ensures FrozenLogs(snapshots + {s}) == FrozenLogs(snapshots) + {log}
      ensures RecordsOk(snapshots + {s}) && LogsOk(log, len, snapshots + {s})
    {
      FrozenUnion(s);
      hide FrozenCells, FrozenLogs, Cells, Refs, Values, Separate, Snapshot.RecordsIntact, Snapshot.LogIntact;
    }

    method CountArchived(cutID: int) returns (i: nat)
      requires Valid()
      ensures i == DropCount(View().activity, cutID) && i <= len
    {
      i := 0;
      ghost var all := log[..len];
      while i < len && log[i].id <= cutID
        invariant 0 <= i <= len
        invariant DropCount(all, cutID) == i + DropCount(all[i..], cutID)
      {
        i := i + 1;
      }
      DropCountBound(all, cutID);
    }

    /** The second half of archiveOld: what was archived leaves the log, into a
        fresh array that no snapshot shares. */
    method DropArchived(cutID: int)
      requires Valid()
      modifies this`log, this`len, this`archivedThrough, this`dirty
      ensures Valid() && fresh(log) && dirty && unchanged(this`st, this`snapshots)
      ensures View() == Dropped(old(View()), cutID)
    {
      Allocated(st, snapshots);
      hide Refs, Values, Separate, FrozenCells, FrozenLogs, RecordsOk, LogsOk, DropCount;
      var i := CountArchived(cutID);
      Trim(i);
      if cutID > archivedThrough { archivedThrough := cutID; }
      dirty := true;
    }

    static method CopyTail(all: array<Activity>, from: nat, len: nat) returns (kept: array<Activity>)
      requires from <= len <= all.Length
      ensures fresh(kept) && kept[..] == all[..len][from..]
    {
      kept := new Activity[len - from](k requires 0 <= k < len - from && from + k < all.Length reads all =>
        all[from + k]);
    }

    method Trim(i: nat)
      requires Valid() && i <= len
      modifies this`log, this`len
      ensures Valid() && fresh(log)
      ensures View() == old(View()).(activity := old(View()).activity[i..])
    {
      Allocated(st, snapshots);
      hide Cells, Refs, Values, Separate, RecordsOk, FrozenCells;
      var kept := CopyTail(log, i, len);
      assert kept as object !in Cells(st) + FrozenCells(snapshots) + FrozenLogs(snapshots);
      assert LogsOk(log, len, snapshots) && RecordsOk(snapshots);
      log, len := kept, kept.Length;
    }
  }

  /** What can happen to a board while a save holds a snapshot of it. */
  datatype Happening = Calls(op: Op, now: Time) | Trims(cutID: int) | TakesSnapshot

  /** Nothing that happens to the board after a snapshot was taken changes the
      snapshot: neither calls, which append to the log it shares, nor trims of the
      log by the archive, nor further snapshots, in whatever order they come. */
  method SnapshotOutlives(b: Board, events: seq<Happening>) returns (s: Snapshot)
    requires b.Valid()
    modifies b, Cells(b.st), b.log
    ensures b.Valid() && s in b.snapshots && old(b.snapshots) <= b.snapshots
    ensures s.taken == old(b.View()) && forall x :: x in b.snapshots ==> x.Intact()
  {
    s := b.SnapshotStateLocked();
    hide Sound, Cells, ViewOf, Snapshot.Intact, Legal, Do;
    for k := 0 to |events|
      invariant b.Valid() && s in b.snapshots && old(b.snapshots) <= b.snapshots
      invariant forall o :: o in Cells(b.st) ==> o in old(Cells(b.st)) || fresh(o)
      invariant b.log == old(b.log) || fresh(b.log)
    {
      match events[k]
      case Calls(op, now) => var out, order := b.Perform(op, now);
      case Trims(cutID) => b.DropArchived(cutID);
      case TakesSnapshot => var another := b.SnapshotStateLocked();
    }
    forall x | x in b.snapshots ensures x.Intact() { Untouched(b, x); }
  }

  lemma Untouched(b: Board, s: Snapshot)
    requires b.Valid() && s in b.snapshots
    ensures s.Intact()
  {
  }
}
