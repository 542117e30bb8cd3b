/** A board as it comes out of JSON, before anything is known about it, and how
    it is migrated and checked (store.go:288-441). */
module StateDocument {
  import opened Basics
  import opened Model
  import opened TaskId
  import opened BoardSpec
  import opened BoardInvariants
  import BoardCalls

  type Rows<T> = Option<map<string, Option<T>>>

  /** Maps may be missing, and their values may be null. */
  datatype Doc = Doc(
    version: int,
    projects: Rows<Project>,
    tasks: Rows<Task>,
    agents: Rows<Agent>,
    users: Rows<User>,
    activity: seq<Activity>,
    nextActivityID: int,
    archivedThrough: int)

  function Table<T>(rows: Rows<T>): map<string, Option<T>> {
    if rows.Some? then rows.value else map[]
  }

  predicate NoNull<T>(rows: Rows<T>) { forall k :: k in Table(rows) ==> Table(rows)[k].Some? }

  predicate NoNulls(d: Doc) { NoNull(d.projects) && NoNull(d.tasks) && NoNull(d.agents) && NoNull(d.users) }

  function Plain<T>(rows: Rows<T>): map<string, T>
    requires NoNull(rows)
  {
    map k | k in Table(rows) :: Table(rows)[k].value
  }

  function ToState(d: Doc): State
    requires NoNulls(d)
  {
    State(d.version, Plain(d.projects), Plain(d.tasks), Plain(d.agents), Plain(d.users),
          d.activity, d.nextActivityID, d.archivedThrough)
  }

  function Wrapped<T>(m: map<string, T>): Rows<T> { Some(map k | k in m :: Some(m[k])) }

  function ToDoc(s: State): Doc {
    Doc(s.version, Wrapped(s.projects), Wrapped(s.tasks), Wrapped(s.agents), Wrapped(s.users),
        s.activity, s.nextActivityID, s.archivedThrough)
  }

  lemma PlainWrapped<T>(m: map<string, T>)
    ensures NoNull(Wrapped(m)) && Plain(Wrapped(m)) == m
  {
  }

  lemma ToDocAndBack(s: State)
    ensures NoNulls(ToDoc(s)) && ToState(ToDoc(s)) == s
  {
    PlainWrapped(s.projects);
    PlainWrapped(s.tasks);
    PlainWrapped(s.agents);
    PlainWrapped(s.users);
  }

  // ----- migrate ---------------------------------------------------------------------

  /** Files without a version say neither type nor priority. */
  function MigratedTask(t: Option<Task>): Option<Task> {
    if t.None? then None
    else Some(t.value.(kind := DefaultKind(t.value.kind), priority := DefaultPriority(t.value.priority)))
  }

  function Migrated(d: Doc): Doc {
    (if d.version < 1 && d.tasks.Some?
     then d.(tasks := Some(map id | id in d.tasks.value :: MigratedTask(d.tasks.value[id]))) else d)
    .(version := SCHEMA_VERSION)
  }

  /** What becomes of one row: in a file from before there were versions an empty type
      becomes "task" and an empty priority "medium"; everything else stays, as does
      every row of a later file. */
  predicate RowKept(t: Option<Task>, u: Option<Task>, unversioned: bool) {
    if t.None? || !unversioned then u == t
    else
      && u.Some? && u.value == t.value.(kind := u.value.kind, priority := u.value.priority)
      && u.value.kind == (if t.value.kind == OtherKind("") then Leaf else t.value.kind)
      && u.value.priority == (if t.value.priority == OtherPriority("") then Medium else t.value.priority)
  }

  /** What a migration leaves alone. */
  ghost predicate Keeps(d: Doc, r: Doc) {
    && r.version == 3 && r.projects == d.projects && r.agents == d.agents && r.users == d.users
    && r.activity == d.activity && r.nextActivityID == d.nextActivityID && r.archivedThrough == d.archivedThrough
    && r.tasks.Some? == d.tasks.Some? && Table(r.tasks).Keys == Table(d.tasks).Keys
    && forall id :: id in Table(d.tasks) ==> RowKept(Table(d.tasks)[id], Table(r.tasks)[id], d.version < 1)
  }

  /** There is one such document. */
  lemma MigrationKeeps(d: Doc, r: Doc)
    ensures Keeps(d, r) <==> r == Migrated(d)
  {
    if Keeps(d, r) {
      var m := Migrated(d);
      assert Table(r.tasks) == Table(m.tasks) by {
        forall id | id in Table(d.tasks)
          ensures Table(r.tasks)[id] == Table(m.tasks)[id]
        {
          assert RowKept(Table(d.tasks)[id], Table(r.tasks)[id], d.version < 1);
        }
      }
    }
  }

  method Migrate(d: Doc) returns (r: Doc)
    ensures r == Migrated(d) && Keeps(d, r)
  {
    var tasks := Table(d.tasks);
    var rows := tasks;
    if d.version < 1 {
      var left := tasks.Keys;
      while left != {}
        invariant left <= tasks.Keys && rows.Keys == tasks.Keys
        invariant forall id :: id in tasks ==> rows[id] == if id in left then tasks[id] else MigratedTask(tasks[id])
        decreases |left|
      {
        var id :| id in left;
        if rows[id].Some? {
          var t := rows[id].value;
          if t.kind == OtherKind("") { t := t.(kind := Leaf); }
          if t.priority == OtherPriority("") { t := t.(priority := Medium); }
          rows := rows[id := Some(t)];
        }
        left := left - {id};
      }
      if d.tasks.Some? {
        assert rows == map id | id in d.tasks.value :: MigratedTask(d.tasks.value[id]);
      }
    }
    r := d.(tasks := if d.tasks.Some? then Some(rows) else None, version := SCHEMA_VERSION);
    MigrationKeeps(d, r);
    hide Keeps;
  }

  // ----- ValidateState ----------------------------------------------------------------

  predicate HasProject(d: Doc, key: string) { key in Table(d.projects) && Table(d.projects)[key].Some? }

  predicate SoundRow(d: Doc, id: string, row: Option<Task>) {
    && row.Some?
    && row.value.id == id
    && HasProject(d, row.value.project)
    && row.value.status.Valid() && row.value.priority.Valid() && row.value.kind.Valid()
    && !(row.value.startDate.Some? && row.value.endDate.Some? && row.value.endDate.value < row.value.startDate.value)
  }

  function Get(maxSeq: map<string, int>, key: string): int { if key in maxSeq then maxSeq[key] else 0 }

  predicate InProject(rows: map<string, Option<Task>>, id: string, key: string) {
    id in rows && rows[id].Some? && rows[id].value.project == key
  }

  /** The highest number among these tasks of each project, at least zero. */
  ghost predicate Highest(maxSeq: map<string, int>, rows: map<string, Option<Task>>, ids: set<string>) {
    && (forall id :: id in ids ==> id in rows && rows[id].Some? && SplitId(id).1 <= Get(maxSeq, rows[id].value.project))
    && (forall key :: key in maxSeq ==>
          maxSeq[key] > 0 && exists id :: id in ids && InProject(rows, id, key) && SplitId(id).1 == maxSeq[key])
  }

  ghost predicate AllSound(d: Doc) {
    forall id :: id in Table(d.tasks) ==> SoundRow(d, id, Table(d.tasks)[id])
  }

  method ValidateTasks(d: Doc) returns (ok: bool, maxSeq: map<string, int>)
    ensures ok <==> AllSound(d)
    ensures ok ==> Highest(maxSeq, Table(d.tasks), Table(d.tasks).Keys)
  {
    hide SplitId;
    var rows := Table(d.tasks);
    var left := rows.Keys;
    maxSeq := map[];
    while left != {}
      invariant left <= rows.Keys
      invariant forall id :: id in rows.Keys - left ==> SoundRow(d, id, rows[id])
      invariant Highest(maxSeq, rows, rows.Keys - left)
      decreases |left|
    {
      var id :| id in left;
      if !SoundRow(d, id, rows[id]) { return false, maxSeq; }
      var n, key := SplitId(id).1, rows[id].value.project;
      ghost var done := rows.Keys - left;
      HigherNext(maxSeq, rows, done, id);
      assert rows.Keys - (left - {id}) == done + {id};
      if n > Get(maxSeq, key) { maxSeq := maxSeq[key := n]; }
      left := left - {id};
    }
    assert rows.Keys - left == rows.Keys;
    ok := true;
  }

  lemma HigherNext(maxSeq: map<string, int>, rows: map<string, Option<Task>>, ids: set<string>, id: string)
    requires id in rows && rows[id].Some?
    requires Highest(maxSeq, rows, ids)
    ensures var key, n := rows[id].value.project, SplitId(id).1;
      Highest(if n > Get(maxSeq, key) then maxSeq[key := n] else maxSeq, rows, ids + {id})
  {
    hide SplitId;
    var key, n := rows[id].value.project, SplitId(id).1;
    var m := if n > Get(maxSeq, key) then maxSeq[key := n] else maxSeq;
    forall k | k in m
      ensures m[k] > 0 && exists x :: x in ids + {id} && InProject(rows, x, k) && SplitId(x).1 == m[k]
    {
      if k in maxSeq && m[k] == maxSeq[k] {
        var x :| x in ids && InProject(rows, x, k) && SplitId(x).1 == maxSeq[k];
        assert x in ids + {id};
      } else {
        assert id in ids + {id} && InProject(rows, id, k);
      }
    }
  }

  predicate SoundParent(rows: map<string, Option<Task>>, t: Task) {
    t.parent == "" ||
    (t.parent in rows && rows[t.parent].Some? && rows[t.parent].value.project == t.project
     && rows[t.parent].value.kind.Level() < t.kind.Level())
  }

  method ValidateParents(rows: map<string, Option<Task>>) returns (ok: bool)
    requires forall id :: id in rows ==> rows[id].Some?
    ensures ok <==> forall id :: id in rows ==> SoundParent(rows, rows[id].value)
  {
    var left := rows.Keys;
    while left != {}
      invariant left <= rows.Keys
      invariant forall id :: id in rows.Keys - left ==> SoundParent(rows, rows[id].value)
      decreases |left|
    {
      var id :| id in left;
      if !SoundParent(rows, rows[id].value) { return false; }
      left := left - {id};
    }
    assert rows.Keys - left == rows.Keys;
    ok := true;
  }

  method ValidateProjects(rows: map<string, Option<Project>>, maxSeq: map<string, int>) returns (ok: bool)
    ensures ok <==> forall key :: key in rows ==>
      rows[key].Some? && rows[key].value.key == key && rows[key].value.nextSeq >= Get(maxSeq, key)
  {
    var left := rows.Keys;
    while left != {}
      invariant left <= rows.Keys
      invariant forall key :: key in rows.Keys - left ==>
        rows[key].Some? && rows[key].value.key == key && rows[key].value.nextSeq >= Get(maxSeq, key)
      decreases |left|
    {
      var key :| key in left;
      if rows[key].None? || rows[key].value.key != key || rows[key].value.nextSeq < Get(maxSeq, key) { return false; }
      left := left - {key};
    }
    assert rows.Keys - left == rows.Keys;
    ok := true;
  }

  method ValidateAgents(rows: map<string, Option<Agent>>) returns (ok: bool)
    ensures ok <==> forall name :: name in rows ==> rows[name].Some? && rows[name].value.name == name
  {
    var left := rows.Keys;
    while left != {}
      invariant left <= rows.Keys
      invariant forall name :: name in rows.Keys - left ==> rows[name].Some? && rows[name].value.name == name
      decreases |left|
    {
      var name :| name in left;
      if rows[name].None? || rows[name].value.name != name { return false; }
      left := left - {name};
    }
    assert rows.Keys - left == rows.Keys;
    ok := true;
  }

  method ValidateUsers(rows: map<string, Option<User>>) returns (ok: bool)
    ensures ok <==> forall email :: email in rows ==> rows[email].Some? && ValidUser(email, rows[email].value)
  {
    var left := rows.Keys;
    while left != {}
      invariant left <= rows.Keys
      invariant forall email :: email in rows.Keys - left ==> rows[email].Some? && ValidUser(email, rows[email].value)
      decreases |left|
    {
      var email :| email in left;
      if rows[email].None? || !ValidUser(email, rows[email].value) { return false; }
      left := left - {email};
    }
    assert rows.Keys - left == rows.Keys;
    ok := true;
  }

  method ValidateActivity(log: seq<Activity>, next: int) returns (ok: bool)
    ensures ok <==> IdsIncrease(log, next)
  {
    var prev := 0;
    for i := 0 to |log|
      invariant prev == if i == 0 then 0 else log[i - 1].id
      invariant prev >= 0
      invariant forall j :: 0 <= j < i ==> 0 < log[j].id <= prev
      invariant forall j, k :: 0 <= j < k < i ==> log[j].id < log[k].id
    {
      if log[i].id <= prev {
        assert i > 0 ==> log[i - 1].id >= log[i].id;
        return false;
      }
      prev := log[i].id;
    }
    ok := prev <= next;
  }

  /** Accepts exactly the documents without null entries whose board is valid. */
  method ValidateState(d: Doc) returns (ok: bool)
    ensures ok <==> NoNulls(d) && ValidState(ToState(d))
  {
    hide SplitId;
    var sound, maxSeq := ValidateTasks(d);
    if NoNulls(d) && ValidState(ToState(d)) { ValidIsSound(d); }
    if !sound { return false; }
    var parents := ValidateParents(Table(d.tasks));
    var projects := ValidateProjects(Table(d.projects), maxSeq);
    var agents := ValidateAgents(Table(d.agents));
    var users := ValidateUsers(Table(d.users));
    var log := ValidateActivity(d.activity, d.nextActivityID);
    ok := parents && projects && agents && users && log;
    SoundIsValid(d, maxSeq);
  }

  lemma ValidIsSound(d: Doc)
    requires NoNulls(d) && ValidState(ToState(d))
    ensures AllSound(d)
  {
    hide SplitId, IdsIncrease, ValidUser;
    var s := ToState(d);
    forall id | id in Table(d.tasks)
      ensures SoundRow(d, id, Table(d.tasks)[id])
    {
      assert ValidTask(s.projects, id, s.tasks[id]);
    }
  }

  ghost predicate SoundProjects(d: Doc, maxSeq: map<string, int>) {
    forall key :: key in Table(d.projects) ==>
      Table(d.projects)[key].Some? && Table(d.projects)[key].value.key == key
      && Table(d.projects)[key].value.nextSeq >= Get(maxSeq, key)
  }

  ghost predicate SoundParents(d: Doc) {
    forall id :: id in Table(d.tasks) ==>
      Table(d.tasks)[id].Some? && SoundParent(Table(d.tasks), Table(d.tasks)[id].value)
  }

  ghost predicate SoundPeople(d: Doc) {
    && (forall name :: name in Table(d.agents) ==>
          Table(d.agents)[name].Some? && Table(d.agents)[name].value.name == name)
    && (forall email :: email in Table(d.users) ==>
          Table(d.users)[email].Some? && ValidUser(email, Table(d.users)[email].value))
  }

  ghost predicate ValidProjects(s: State) {
    && (forall id :: id in s.tasks ==> Behind(s.projects, id, s.tasks[id]))
    && (forall key :: key in s.projects ==> s.projects[key].key == key && s.projects[key].nextSeq >= 0)
  }

  lemma SoundIsValid(d: Doc, maxSeq: map<string, int>)
    requires AllSound(d) && Highest(maxSeq, Table(d.tasks), Table(d.tasks).Keys)
    ensures NoNulls(d) && ValidState(ToState(d)) <==>
      SoundParents(d) && SoundProjects(d, maxSeq) && SoundPeople(d) && IdsIncrease(d.activity, d.nextActivityID)
  {
    hide SplitId, IdsIncrease, ValidUser, Highest;
    if NoNulls(d) {
      ParentsAgree(d);
      ProjectsAgree(d, maxSeq);
      PeopleAgree(d);
      hide NoNulls, SoundParents, SoundProjects, SoundPeople, SoundRow, Behind, ValidParent;
    }
  }

  lemma ParentsAgree(d: Doc)
    requires NoNulls(d) && AllSound(d)
    ensures var s := ToState(d);
      && (forall id :: id in s.tasks ==> ValidTask(s.projects, id, s.tasks[id]))
      && (SoundParents(d) <==> forall id :: id in s.tasks ==> ValidParent(s.tasks, s.tasks[id]))
  {
    var s := ToState(d);
    forall id | id in s.tasks
      ensures ValidTask(s.projects, id, s.tasks[id])
      ensures ValidParent(s.tasks, s.tasks[id]) <==> SoundParent(Table(d.tasks), Table(d.tasks)[id].value)
    {
      assert SoundRow(d, id, Table(d.tasks)[id]);
    }
    assert s.tasks.Keys == Table(d.tasks).Keys;
  }

  lemma PeopleAgree(d: Doc)
    requires NoNulls(d)
    ensures var s := ToState(d);
      SoundPeople(d) <==> (forall name :: name in s.agents ==> s.agents[name].name == name) && ValidUsers(s.users)
  {
    hide ValidUser;
    var s := ToState(d);
    assert s.agents.Keys == Table(d.agents).Keys && s.users.Keys == Table(d.users).Keys;
    forall email | email in s.users
      ensures s.users[email] == Table(d.users)[email].value
    {
    }
  }

  lemma ProjectsAgree(d: Doc, maxSeq: map<string, int>)
    requires NoNulls(d) && AllSound(d) && Highest(maxSeq, Table(d.tasks), Table(d.tasks).Keys)
    ensures SoundProjects(d, maxSeq) <==> ValidProjects(ToState(d))
  {
    hide SplitId;
    var s := ToState(d);
    if ValidProjects(s) {
      forall key | key in s.projects
        ensures s.projects[key].nextSeq >= Get(maxSeq, key)
      {
        if key in maxSeq {
          var id :| id in Table(d.tasks).Keys && InProject(Table(d.tasks), id, key) && SplitId(id).1 == maxSeq[key];
          assert id in s.tasks && Behind(s.projects, id, s.tasks[id]);
        }
      }
      assert s.projects.Keys == Table(d.projects).Keys;
    }
    if SoundProjects(d, maxSeq) {
      forall id | id in s.tasks
        ensures Behind(s.projects, id, s.tasks[id])
      {
        assert SoundRow(d, id, Table(d.tasks)[id]);
        assert id in Table(d.tasks).Keys;
      }
    }
  }

  // ----- what is refused ----------------------------------------------------------------

  /** A task filed under another identifier, of an unknown project, with a status, a
      priority or a type that does not exist, that ends before it starts, ... */
  predicate BadTask(s: State, id: string)
    requires id in s.tasks
  {
    var t := s.tasks[id];
    || t.id != id || t.project !in s.projects
    || t.status.OtherStatus? || t.priority.OtherPriority? || t.kind.OtherKind?
    || (t.startDate.Some? && t.endDate.Some? && t.startDate.value > t.endDate.value)
  }

  /** ... whose parent does not exist, is of another project or may not hold it, ... */
  predicate BadParent(s: State, id: string)
    requires id in s.tasks
  {
    var t := s.tasks[id];
    t.parent != "" &&
      (t.parent !in s.tasks || s.tasks[t.parent].project != t.project
       || !BoardCalls.MayHold(s.tasks[t.parent].kind, t.kind))
  }

  /** ... or whose number its project has not reached. */
  predicate BadNumber(s: State, id: string)
    requires id in s.tasks
  {
    s.tasks[id].project in s.projects && SplitId(id).1 > s.projects[s.tasks[id].project].nextSeq
  }

  predicate BadProject(s: State, key: string)
    requires key in s.projects
  {
    s.projects[key].key != key || s.projects[key].nextSeq < 0
  }

  /** A user filed under another address, or one with capitals, or without a hash, a
      salt or rounds. */
  predicate BadUser(s: State, email: string)
    requires email in s.users
  {
    var u := s.users[email];
    u.email != email || (exists c :: c in email && 'A' <= c <= 'Z') || |u.passwordHash| == 0 || |u.salt| == 0
    || u.iterations < 1
  }

  ghost predicate BadLog(s: State) {
    || s.nextActivityID < 0
    || (exists i :: 0 <= i < |s.activity| && (s.activity[i].id < 1 || s.activity[i].id > s.nextActivityID))
    || (exists i, j :: 0 <= i < j < |s.activity| && s.activity[i].id >= s.activity[j].id)
  }

  lemma LowerIffNoCapital(email: string)
    ensures Lower(email) == email <==> !exists c :: c in email && 'A' <= c <= 'Z'
  {
    if Lower(email) == email {
      forall c | c in email
        ensures !('A' <= c <= 'Z')
      {
        var i :| 0 <= i < |email| && email[i] == c;
        assert Lower(email)[i] == LowerChar(email[i]);
      }
    } else {
      assert |Lower(email)| == |email|;
      var i :| 0 <= i < |email| && Lower(email)[i] != email[i];
      assert email[i] in email;
    }
  }

  /** A board is refused for one of these defects and for nothing else. */
  lemma RefusedForADefect(s: State)
    ensures ValidState(s) <==>
      && (forall id :: id in s.tasks ==> !BadTask(s, id) && !BadParent(s, id) && !BadNumber(s, id))
      && (forall key :: key in s.projects ==> !BadProject(s, key))
      && (forall name :: name in s.agents ==> s.agents[name].name == name)
      && (forall email :: email in s.users ==> !BadUser(s, email))
      && !BadLog(s)
  {
    hide SplitId, Lower;
    forall id | id in s.tasks
      ensures ValidTask(s.projects, id, s.tasks[id]) <==> !BadTask(s, id)
      ensures ValidTask(s.projects, id, s.tasks[id]) ==> (ValidParent(s.tasks, s.tasks[id]) <==> !BadParent(s, id))
      ensures ValidTask(s.projects, id, s.tasks[id]) ==> (Behind(s.projects, id, s.tasks[id]) <==> !BadNumber(s, id))
    {
    }
    forall email | email in s.users
      ensures ValidUser(email, s.users[email]) <==> !BadUser(s, email)
    {
      LowerIffNoCapital(email);
    }
    assert IdsIncrease(s.activity, s.nextActivityID) <==> !BadLog(s);
    hide ValidTask, ValidParent, Behind, ValidUser, IdsIncrease, BadTask, BadParent, BadNumber, BadUser, BadLog;
  }
}
