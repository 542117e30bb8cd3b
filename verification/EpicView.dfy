/** The hierarchy as the user interface walks it (internal/view/view.go:200-290). */
module EpicView {
  import opened Basics
  import opened Model
  import opened TaskId
  import opened BoardSpec
  import opened BoardInvariants

  const MAX_DEPTH: nat := 8

  type Tasks = map<string, Task>

  // ----- the closure ---------------------------------------------------------------------

  /** Each task of the path is the parent of the one before it. */
  ghost predicate IsPath(byID: Tasks, path: seq<Task>, t: Task, e: Task) {
    && path != [] && path[0] == t && path[|path| - 1] == e
    && forall i :: 0 <= i < |path| - 1 ==> Child(byID, path, i)
  }

  /** The task at position i + 1 is the parent of the one at position i. */
  predicate Child(byID: Tasks, path: seq<Task>, i: nat)
    requires i + 1 < |path|
  {
    HasParent(byID, path[i]) && path[i + 1] == byID[path[i].parent]
  }

  /** e is t, or its parent, or the parent of its parent, and so on. */
  ghost predicate Under(byID: Tasks, t: Task, e: Task) { exists path :: IsPath(byID, path, t, e) }

  /** Parents sit at a higher level than their children. */
  ghost predicate Ordered(byID: Tasks) {
    && (forall id :: id in byID ==> byID[id].id == id && id != "")
    && forall id :: id in byID && byID[id].parent in byID ==>
         byID[byID[id].parent].kind.Level() < byID[id].kind.Level()
  }

  predicate HasParent(byID: Tasks, t: Task) { t.parent != "" && t.parent in byID }

  lemma UnderParent(byID: Tasks, t: Task, e: Task)
    ensures Under(byID, t, e) <==>
      t == e || (t.parent != "" && t.parent in byID && Under(byID, byID[t.parent], e))
  {
    if t == e { assert IsPath(byID, [t], t, e); }
    if HasParent(byID, t) && Under(byID, byID[t.parent], e) {
      var path: seq<Task> :| IsPath(byID, path, byID[t.parent], e);
      var longer := [t] + path;
      forall i | 0 <= i < |longer| - 1
        ensures Child(byID, longer, i)
      {
        if i > 0 { assert Child(byID, path, i - 1); }
      }
      assert IsPath(byID, longer, t, e);
    }
    if Under(byID, t, e) && t != e {
      var path: seq<Task> :| IsPath(byID, path, t, e);
      var rest := path[1..];
      assert Child(byID, path, 0);
      forall i | 0 <= i < |rest| - 1
        ensures Child(byID, rest, i)
      {
        assert Child(byID, path, i + 1);
      }
      assert IsPath(byID, rest, byID[t.parent], e);
    }
  }

  // ----- the walk -------------------------------------------------------------------------

  function Walk(byID: Tasks, t: Task, steps: nat): string
    decreases steps
  {
    if steps == 0 then ""
    else if t.kind.Epic? then t.id
    else if HasParent(byID, t) then Walk(byID, byID[t.parent], steps - 1)
    else ""
  }

  method EpicOf(byID: Tasks, t0: Task) returns (id: string)
    ensures id == Walk(byID, t0, MAX_DEPTH)
  {
    var t := t0;
    for k := 0 to MAX_DEPTH
      invariant Walk(byID, t0, MAX_DEPTH) == Walk(byID, t, MAX_DEPTH - k)
    {
      if t.kind.Epic? { return t.id; }
      if t.parent == "" || t.parent !in byID { return ""; }
      t := byID[t.parent];
    }
    return "";
  }

  /** A walk of more steps than there are levels above the task misses nothing. */
  lemma {:induction false} WalkFindsEpic(byID: Tasks, t: Task, steps: nat, e: Task)
    requires Ordered(byID) && t.id in byID && byID[t.id] == t && steps > t.kind.Level()
    ensures (e.kind.Epic? && Under(byID, t, e)) ==> (Walk(byID, t, steps) == e.id && e.id != "")
    ensures Walk(byID, t, steps) != "" ==>
      (Walk(byID, t, steps) in byID && byID[Walk(byID, t, steps)].kind.Epic?
       && Under(byID, t, byID[Walk(byID, t, steps)]))
    decreases steps
  {
    UnderParent(byID, t, e);
    if t.kind.Epic? {
      UnderParent(byID, t, t);
    } else if HasParent(byID, t) {
      var p := byID[t.parent];
      WalkFindsEpic(byID, p, steps - 1, e);
      var found := Walk(byID, p, steps - 1);
      if found != "" { UnderParent(byID, t, byID[found]); }
    }
  }

  /** On a well-ordered list the walk of eight steps names the one epic that is the
      task itself or above it, and nothing when there is none. */
  lemma WalkIsClosure(byID: Tasks, t: Task, e: Task)
    requires Ordered(byID) && t.id in byID && byID[t.id] == t && e.id in byID && byID[e.id] == e && e.kind.Epic?
    ensures Walk(byID, t, MAX_DEPTH) == e.id <==> Under(byID, t, e)
  {
    WalkFindsEpic(byID, t, MAX_DEPTH, e);
  }

  lemma {:induction false} WalkAlong(byID: Tasks, path: seq<Task>, t: Task, e: Task, steps: nat)
    requires IsPath(byID, path, t, e) && e.kind.Epic? && forall i :: 0 <= i < |path| - 1 ==> !path[i].kind.Epic?
    ensures Walk(byID, t, steps) == if |path| <= steps then e.id else ""
    decreases steps
  {
    if |path| > 1 && steps > 0 {
      assert Child(byID, path, 0);
      var rest := path[1..];
      forall i | 0 <= i < |rest| - 1
        ensures Child(byID, rest, i)
      {
        assert Child(byID, path, i + 1);
      }
      WalkAlong(byID, rest, path[1], e, steps - 1);
    }
  }

  /** On any list, cycles included: the first epic on the way up is found when it is the
      task itself or one of the next seven. */
  lemma WalkSeesEight(byID: Tasks, path: seq<Task>, t: Task, e: Task)
    requires IsPath(byID, path, t, e) && e.kind.Epic? && forall i :: 0 <= i < |path| - 1 ==> !path[i].kind.Epic?
    ensures Walk(byID, t, MAX_DEPTH) == if |path| <= 8 then e.id else ""
  {
    WalkAlong(byID, path, t, e, MAX_DEPTH);
  }

  /** There is at most one epic above a task. */
  lemma OneEpic(byID: Tasks, t: Task, e: Task, f: Task)
    requires Ordered(byID) && t.id in byID && byID[t.id] == t
    requires e.kind.Epic? && f.kind.Epic? && Under(byID, t, e) && Under(byID, t, f)
    requires e.id in byID && byID[e.id] == e && f.id in byID && byID[f.id] == f
    ensures e == f
  {
    WalkFindsEpic(byID, t, MAX_DEPTH, e);
    WalkFindsEpic(byID, t, MAX_DEPTH, f);
  }

  // ----- lists ---------------------------------------------------------------------------------

  /** The last task with each identifier. */
  function Index(tasks: seq<Task>): Tasks {
    if tasks == [] then map[] else Index(tasks[..|tasks| - 1])[tasks[|tasks| - 1].id := tasks[|tasks| - 1]]
  }

  method BuildIndex(tasks: seq<Task>) returns (m: Tasks)
    ensures m == Index(tasks)
  {
    m := map[];
    for i := 0 to |tasks|
      invariant m == Index(tasks[..i])
    {
      assert tasks[..i + 1][..i] == tasks[..i];
      m := m[tasks[i].id := tasks[i]];
    }
    assert tasks[..|tasks|] == tasks;
  }

  /** Of tasks with the same identifier the last one counts. */
  lemma {:induction false} IndexLast(tasks: seq<Task>, i: nat)
    requires i < |tasks| && forall j :: i < j < |tasks| ==> tasks[j].id != tasks[i].id
    ensures tasks[i].id in Index(tasks) && Index(tasks)[tasks[i].id] == tasks[i]
  {
    if i < |tasks| - 1 { IndexLast(tasks[..|tasks| - 1], i); }
  }

  ghost predicate UniqueIds(tasks: seq<Task>) {
    forall i, j :: 0 <= i < j < |tasks| ==> tasks[i].id != tasks[j].id
  }

  lemma {:induction false} IndexHas(tasks: seq<Task>)
    requires UniqueIds(tasks)
    ensures forall t :: t in tasks ==> t.id in Index(tasks) && Index(tasks)[t.id] == t
    ensures forall id :: id in Index(tasks) ==> Index(tasks)[id] in tasks && Index(tasks)[id].id == id
  {
    if tasks != [] { IndexHas(tasks[..|tasks| - 1]); }
  }

  /** The tasks of the list whose walk ends at the epic, in the order of the list. */
  function Those(tasks: seq<Task>, byID: Tasks, epic: string): seq<Task> {
    if tasks == [] then []
    else
      var k := |tasks| - 1;
      Those(tasks[..k], byID, epic) + (if Walk(byID, tasks[k], MAX_DEPTH) == epic then [tasks[k]] else [])
  }

  method InEpic(tasks: seq<Task>, epic: string) returns (out: seq<Task>)
    ensures out == if epic == "" then tasks else Those(tasks, Index(tasks), epic)
  {
    if epic == "" { return tasks; }
    hide Walk;
    var byID := BuildIndex(tasks);
    out := [];
    for i := 0 to |tasks|
      invariant out == Those(tasks[..i], byID, epic)
    {
      assert tasks[..i + 1][..i] == tasks[..i];
      var id := EpicOf(byID, tasks[i]);
      if id == epic { out := out + [tasks[i]]; }
    }
    assert tasks[..|tasks|] == tasks;
  }

  /** b is a with some elements left out. */
  ghost predicate Subsequence(b: seq<Task>, a: seq<Task>)
    decreases |a|
  {
    b == [] || (a != [] && (Subsequence(b, a[..|a| - 1])
                            || (b[|b| - 1] == a[|a| - 1] && Subsequence(b[..|b| - 1], a[..|a| - 1]))))
  }

  lemma OneMoreThose(tasks: seq<Task>, byID: Tasks, epic: string, rest: seq<Task>, all: seq<Task>)
    requires tasks != [] && rest == Those(tasks[..|tasks| - 1], byID, epic) && all == Those(tasks, byID, epic)
    ensures all == if Walk(byID, tasks[|tasks| - 1], MAX_DEPTH) == epic then rest + [tasks[|tasks| - 1]] else rest
  {
    hide Walk;
  }

  lemma SubsequenceGrows(b: seq<Task>, a: seq<Task>)
    requires a != [] && Subsequence(b, a[..|a| - 1])
    ensures Subsequence(b, a) && Subsequence(b + [a[|a| - 1]], a)
  {
    var more := b + [a[|a| - 1]];
    assert more[..|more| - 1] == b;
  }

  lemma {:induction false} ThoseInOrder(tasks: seq<Task>, byID: Tasks, epic: string)
    ensures Subsequence(Those(tasks, byID, epic), tasks)
    ensures forall t :: t in Those(tasks, byID, epic) <==> t in tasks && Walk(byID, t, MAX_DEPTH) == epic
    decreases |tasks|
  {
    hide Walk;
    if tasks != [] {
      var k := |tasks| - 1;
      ThoseInOrder(tasks[..k], byID, epic);
      var rest, all := Those(tasks[..k], byID, epic), Those(tasks, byID, epic);
      OneMoreThose(tasks, byID, epic, rest, all);
      SubsequenceGrows(rest, tasks);
      hide Those, Subsequence;
      assert tasks == tasks[..k] + [tasks[k]];
    }
  }

  /** InEpic keeps exactly the epic and everything beneath it, in order. */
  lemma InEpicIsClosure(tasks: seq<Task>, e: Task)
    requires UniqueIds(tasks) && Ordered(Index(tasks)) && e in tasks && e.kind.Epic?
    ensures Subsequence(Those(tasks, Index(tasks), e.id), tasks) && e in Those(tasks, Index(tasks), e.id)
    ensures forall t :: t in Those(tasks, Index(tasks), e.id) <==> t in tasks && Under(Index(tasks), t, e)
  {
    var byID := Index(tasks);
    IndexHas(tasks);
    ThoseInOrder(tasks, byID, e.id);
    hide Walk, Under, Ordered;
    forall t | t in tasks
      ensures Walk(byID, t, MAX_DEPTH) == e.id <==> Under(byID, t, e)
    {
      WalkIsClosure(byID, t, e);
    }
    UnderParent(byID, e, e);
  }

  // ----- progress ----------------------------------------------------------------------------------

  predicate Counts(byID: Tasks, epic: string, t: Task) { t.kind.Leaf? && Walk(byID, t, MAX_DEPTH) == epic }

  predicate CountsDone(byID: Tasks, epic: string, t: Task) { Counts(byID, epic, t) && t.status == Done }

  /** The positions of the counted tasks, and of those that are done. */
  ghost function Counted(tasks: seq<Task>, byID: Tasks, epic: string): set<int> {
    set i | 0 <= i < |tasks| && Counts(byID, epic, tasks[i])
  }

  ghost function CountedDone(tasks: seq<Task>, byID: Tasks, epic: string): set<int> {
    set i | 0 <= i < |tasks| && CountsDone(byID, epic, tasks[i])
  }

  method EpicProgress(tasks: seq<Task>, epic: string) returns (done: nat, total: nat)
    ensures total == |Counted(tasks, Index(tasks), epic)| && done == |CountedDone(tasks, Index(tasks), epic)|
  {
    hide Walk;
    var byID := BuildIndex(tasks);
    done, total := 0, 0;
    for i := 0 to |tasks|
      invariant total == |Counted(tasks[..i], byID, epic)| && done == |CountedDone(tasks[..i], byID, epic)|
    {
      CountNext(tasks, byID, epic, i);
      CountDoneNext(tasks, byID, epic, i);
      var id := EpicOf(byID, tasks[i]);
      if tasks[i].kind.Leaf? && id == epic {
        total := total + 1;
        if tasks[i].status == Done { done := done + 1; }
      }
    }
    assert tasks[..|tasks|] == tasks;
  }

  lemma CountNext(tasks: seq<Task>, byID: Tasks, epic: string, i: nat)
    requires i < |tasks|
    ensures |Counted(tasks[..i + 1], byID, epic)|
         == |Counted(tasks[..i], byID, epic)| + (if Counts(byID, epic, tasks[i]) then 1 else 0)
  {
    hide Walk, Counts;
    var a, b := Counted(tasks[..i], byID, epic), Counted(tasks[..i + 1], byID, epic);
    assert i !in a;
    if Counts(byID, epic, tasks[i]) {
      assert b == a + {i as int};
    } else {
      assert b == a;
    }
  }

  lemma CountDoneNext(tasks: seq<Task>, byID: Tasks, epic: string, i: nat)
    requires i < |tasks|
    ensures |CountedDone(tasks[..i + 1], byID, epic)|
         == |CountedDone(tasks[..i], byID, epic)| + (if CountsDone(byID, epic, tasks[i]) then 1 else 0)
  {
    hide Walk, Counts, CountsDone;
    var a, b := CountedDone(tasks[..i], byID, epic), CountedDone(tasks[..i + 1], byID, epic);
    assert i !in a;
    if CountsDone(byID, epic, tasks[i]) {
      assert b == a + {i as int};
    } else {
      assert b == a;
    }
  }

  /** What is counted are the leaf tasks beneath the epic, however deep, and as done
      those of them whose status is done. */
  lemma ProgressIsClosure(tasks: seq<Task>, e: Task, i: int)
    requires UniqueIds(tasks) && Ordered(Index(tasks)) && e in tasks && e.kind.Epic? && 0 <= i < |tasks|
    ensures i in Counted(tasks, Index(tasks), e.id) <==> tasks[i].kind.Leaf? && Under(Index(tasks), tasks[i], e)
    ensures i in CountedDone(tasks, Index(tasks), e.id)
       <==> tasks[i].kind.Leaf? && Under(Index(tasks), tasks[i], e) && tasks[i].status == Done
  {
    IndexHas(tasks);
    hide Walk, Under, Ordered;
    WalkIsClosure(Index(tasks), tasks[i], e);
  }

  /** Asked for the empty epic, EpicProgress counts the leaf tasks that have no
      epic above them, where InEpic returns every task. */
  lemma EmptyEpicCountsOrphans(tasks: seq<Task>, i: int)
    requires UniqueIds(tasks) && Ordered(Index(tasks)) && 0 <= i < |tasks|
    ensures i in Counted(tasks, Index(tasks), "") <==>
      tasks[i].kind.Leaf? && forall e :: e in tasks && e.kind.Epic? ==> !Under(Index(tasks), tasks[i], e)
    ensures i in CountedDone(tasks, Index(tasks), "")
       <==> i in Counted(tasks, Index(tasks), "") && tasks[i].status == Done
  {
    IndexHas(tasks);
    var byID, t := Index(tasks), tasks[i];
    var found := Walk(byID, t, MAX_DEPTH);
    forall e | e in tasks && e.kind.Epic? && Under(byID, t, e)
      ensures found != ""
    {
      WalkFindsEpic(byID, t, MAX_DEPTH, e);
    }
    WalkFindsEpic(byID, t, MAX_DEPTH, t);
    if found != "" { assert byID[found] in tasks; }
  }

  // ----- boards -------------------------------------------------------------------------------------

  lemma IdNotEmpty(projects: map<string, Project>, id: string, project: string)
    requires Issued(projects, id, project)
    ensures id != ""
  {
    var n: int :| 1 <= n <= projects[project].nextSeq && id == FormatId(project, n);
    assert |id| >= 1;
  }

  lemma BoardTask(s: State, id: string)
    requires WellFormed(s) && id in s.tasks
    ensures s.tasks[id].id == id && id != ""
    ensures s.tasks[id].parent in s.tasks ==> s.tasks[s.tasks[id].parent].kind.Level() < s.tasks[id].kind.Level()
  {
    assert TaskOk(s.projects, s.tasks, id, s.tasks[id]);
    IdNotEmpty(s.projects, id, s.tasks[id].project);
    if s.tasks[id].parent == "" && "" in s.tasks {
      NoEmptyId(s);
      assert false;
    }
  }

  lemma NoEmptyId(s: State)
    requires WellFormed(s)
    ensures "" !in s.tasks
  {
    hide Issued, ValidTask, ValidParent;
    forall id | id in s.tasks
      ensures id != ""
    {
      assert TaskOk(s.projects, s.tasks, id, s.tasks[id]);
      IdNotEmpty(s.projects, id, s.tasks[id].project);
    }
  }

  lemma BoardIsIndexed(s: State, tasks: seq<Task>)
    requires WellFormed(s) && UniqueIds(tasks)
    requires forall t :: t in tasks <==> t.id in s.tasks && s.tasks[t.id] == t
    ensures Index(tasks) == s.tasks
  {
    IndexHas(tasks);
    hide WellFormed, Index, UniqueIds;
    forall id | id in s.tasks
      ensures s.tasks[id].id == id && s.tasks[id] in tasks
    {
      BoardTask(s, id);
    }
    assert Index(tasks).Keys == s.tasks.Keys;
  }

  /** The tasks of a well-formed board, listed in any order, are well ordered. */
  lemma BoardIsOrdered(s: State, tasks: seq<Task>)
    requires WellFormed(s) && UniqueIds(tasks)
    requires forall t :: t in tasks <==> t.id in s.tasks && s.tasks[t.id] == t
    ensures Index(tasks) == s.tasks && Ordered(Index(tasks))
  {
    BoardIsIndexed(s, tasks);
    hide WellFormed, Index, UniqueIds;
    forall id | id in s.tasks
      ensures s.tasks[id].id == id && id != ""
      ensures s.tasks[id].parent in s.tasks ==> s.tasks[s.tasks[id].parent].kind.Level() < s.tasks[id].kind.Level()
    {
      BoardTask(s, id);
    }
  }
}
