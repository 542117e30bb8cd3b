/** The sweep as the board runs it (board.go:510-527): collect the expired tasks,
    sort them, release them one by one. */
module SweepLoop {
  import opened Basics
  import opened Model
  import opened TaskId
  import opened BoardSpec

  /** One round of the loop. */
  function SweepOne(s: State, now: Time, id: string): State
    requires id in s.tasks
  {
    var t := s.tasks[id];
    var s1 := s.(tasks := s.tasks[id := Freed(t, now)]);
    Log(ClearCurrent(s1, t.assignee, id), now, SYSTEM, id, LeaseExpired, ReleasedFrom(t.assignee))
  }

  function SweepAll(s: State, now: Time, order: seq<string>): (r: State)
    requires forall id :: id in order ==> id in s.tasks
    ensures r.tasks.Keys == s.tasks.Keys
  {
    if order == [] then s
    else
      var k := |order| - 1;
      assert order[k] in order;
      SweepOne(SweepAll(s, now, order[..k]), now, order[k])
  }

  predicate Loses(tasks: map<string, Task>, ids: seq<string>, name: string, a: Agent) {
    a.currentTask in ids && a.currentTask in tasks && tasks[a.currentTask].assignee == name
  }

  function FreedSome(tasks: map<string, Task>, now: Time, ids: seq<string>): map<string, Task> {
    map id | id in tasks :: if id in ids then Freed(tasks[id], now) else tasks[id]
  }

  function ClearedSome(tasks: map<string, Task>, agents: map<string, Agent>, ids: seq<string>): map<string, Agent> {
    map name | name in agents ::
      if Loses(tasks, ids, name, agents[name]) then agents[name].(currentTask := "") else agents[name]
  }

  /** The board after the tasks `ids` have been released. */
  function PartSwept(s: State, now: Time, ids: seq<string>): State
    requires forall id :: id in ids ==> id in s.tasks
  {
    s.(tasks := FreedSome(s.tasks, now, ids),
       agents := ClearedSome(s.tasks, s.agents, ids),
       activity := s.activity + Expirations(s.tasks, now, s.nextActivityID, ids),
       nextActivityID := s.nextActivityID + |ids|)
  }

  lemma FreedNext(tasks: map<string, Task>, now: Time, ids: seq<string>, id: string)
    requires id in tasks
    ensures FreedSome(tasks, now, ids)[id := Freed(tasks[id], now)] == FreedSome(tasks, now, ids + [id])
  {
    hide Freed;
    assert forall x :: x in ids + [id] <==> x in ids || x == id;
  }

  lemma ClearedNext(tasks: map<string, Task>, agents: map<string, Agent>, ids: seq<string>, id: string)
    requires id in tasks
    ensures var before, who := ClearedSome(tasks, agents, ids), tasks[id].assignee;
      ClearedSome(tasks, agents, ids + [id])
      == if who in before && before[who].currentTask == id then before[who := before[who].(currentTask := "")]
         else before
  {
    assert forall x :: x in ids + [id] <==> x in ids || x == id;
  }

  lemma ExpirationsNext(tasks: map<string, Task>, now: Time, next: int, ids: seq<string>, id: string)
    requires (forall x :: x in ids + [id] ==> x in tasks)
    ensures Expirations(tasks, now, next, ids + [id])
         == Expirations(tasks, now, next, ids)
            + [Activity(next + |ids| + 1, now, SYSTEM, id, LeaseExpired, ReleasedFrom(tasks[id].assignee))]
  {
    var more := ids + [id];
    assert more[..|more| - 1] == ids && more[|more| - 1] == id;
  }

  lemma PartSweptNext(s: State, now: Time, ids: seq<string>, id: string)
    requires (forall x :: x in ids ==> x in s.tasks) && id in s.tasks && id !in ids
    ensures SweepOne(PartSwept(s, now, ids), now, id) == PartSwept(s, now, ids + [id])
  {
    assert PartSwept(s, now, ids).tasks[id] == s.tasks[id];
    FreedNext(s.tasks, now, ids, id);
    ClearedNext(s.tasks, s.agents, ids, id);
    ExpirationsNext(s.tasks, now, s.nextActivityID, ids, id);
    hide FreedSome, ClearedSome, Expirations, Freed;
  }

  lemma {:induction false} SweepAllIsPart(s: State, now: Time, ids: seq<string>)
    requires (forall x :: x in ids ==> x in s.tasks) && Distinct(ids)
    ensures SweepAll(s, now, ids) == PartSwept(s, now, ids)
    decreases |ids|
  {
    if ids == [] {
      var p := PartSwept(s, now, []);
      assert p.tasks == s.tasks && p.agents == s.agents && p.activity == s.activity;
    } else {
      var k := |ids| - 1;
      SweepAllIsPart(s, now, ids[..k]);
      assert ids == ids[..k] + [ids[k]];
      PartSweptNext(s, now, ids[..k], ids[k]);
    }
  }

  lemma FreedAll(tasks: map<string, Task>, now: Time, order: seq<string>)
    requires Visits(tasks, now, order)
    ensures FreedSome(tasks, now, order) == SweptTasks(tasks, now)
  {
    hide Freed;
    assert forall id :: id in order <==> id in ExpiredIds(tasks, now);
  }

  lemma ClearedAll(tasks: map<string, Task>, agents: map<string, Agent>, now: Time, order: seq<string>)
    requires Visits(tasks, now, order)
    ensures ClearedSome(tasks, agents, order) == SweptAgents(tasks, agents, now)
  {
    hide Expired;
    assert forall id :: id in order <==> id in ExpiredIds(tasks, now);
  }

  /** Releasing the expired tasks one by one, in any order, sweeps the board. */
  lemma SweepAllIsSwept(s: State, now: Time, order: seq<string>)
    requires Visits(s.tasks, now, order)
    ensures SweepAll(s, now, order) == Swept(s, now, order)
  {
    SweepAllIsPart(s, now, order);
    FreedAll(s.tasks, now, order);
    ClearedAll(s.tasks, s.agents, now, order);
    hide FreedSome, ClearedSome, SweptTasks, SweptAgents, Expirations;
  }

  /** The order of the sweep does not matter to anything but the log. */
  lemma SweepOrderOnlyLogs(s: State, now: Time, a: seq<string>, b: seq<string>)
    requires Visits(s.tasks, now, a) && Visits(s.tasks, now, b)
    ensures SweepAll(s, now, a).tasks == SweepAll(s, now, b).tasks
    ensures SweepAll(s, now, a).agents == SweepAll(s, now, b).agents
    ensures SweepAll(s, now, a).nextActivityID == SweepAll(s, now, b).nextActivityID
  {
    SweepAllIsSwept(s, now, a);
    SweepAllIsSwept(s, now, b);
    SameLength(a, b);
  }

  lemma {:induction false} SameLength(a: seq<string>, b: seq<string>)
    requires Distinct(a) && Distinct(b) && forall id :: id in a <==> id in b
    ensures |a| == |b|
  {
    DistinctCount(a);
    DistinctCount(b);
    assert (set id | id in a) == (set id | id in b);
  }

  lemma {:induction false} DistinctCount(a: seq<string>)
    requires Distinct(a)
    ensures |set id | id in a| == |a|
  {
    if a != [] {
      var k := |a| - 1;
      DistinctCount(a[..k]);
      assert (set id | id in a) == (set id | id in a[..k]) + {a[k]};
    }
  }
}
