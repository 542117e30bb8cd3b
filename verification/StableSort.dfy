/** The sorted lists of the user interface (internal/view/view.go:26-51,
    internal/view/timeline.go:195-209), which rest on `sort.SliceStable`. */
module StableSort {
  import opened Model
  import opened TaskId

  type Less = (Task, Task) -> bool

  /** What a comparison must be for sorting by it to make sense. */
  ghost predicate WeakOrder(less: Less) {
    && (forall a, b :: !(less(a, b) && less(b, a)))
    && (forall a, b, c :: !less(b, a) && !less(c, b) ==> !less(c, a))
  }

  predicate Same(less: Less, a: Task, b: Task) { !less(a, b) && !less(b, a) }

  ghost predicate Sorted(less: Less, s: seq<Task>) {
    forall i, j :: 0 <= i < j < |s| ==> !less(s[j], s[i])
  }

  /** The tasks that sort like t, in the order of the list. */
  function Ties(less: Less, s: seq<Task>, t: Task): seq<Task> {
    if s == [] then []
    else Ties(less, s[..|s| - 1], t) + (if Same(less, s[|s| - 1], t) then [s[|s| - 1]] else [])
  }

  /** out is the list in order, and tasks that sort alike keep their order. */
  ghost predicate StableOrder(less: Less, out: seq<Task>, list: seq<Task>) {
    Sorted(less, out) && forall t :: Ties(less, out, t) == Ties(less, list, t)
  }

  lemma TiesNext(less: Less, s: seq<Task>, x: Task, t: Task)
    ensures Ties(less, s + [x], t) == Ties(less, s, t) + (if Same(less, x, t) then [x] else [])
  {
    assert (s + [x])[..|s|] == s;
  }

  lemma {:induction false} TiesConcat(less: Less, a: seq<Task>, b: seq<Task>, t: Task)
    ensures Ties(less, a + b, t) == Ties(less, a, t) + Ties(less, b, t)
    decreases |b|
  {
    if b == [] {
      assert a + b == a;
    } else {
      var k := |b| - 1;
      TiesConcat(less, a, b[..k], t);
      assert a + b == (a + b[..k]) + [b[k]] && b == b[..k] + [b[k]];
      TiesNext(less, a + b[..k], b[k], t);
      TiesNext(less, b[..k], b[k], t);
    }
  }

  lemma {:induction false} NoTies(less: Less, s: seq<Task>, t: Task)
    requires forall i :: 0 <= i < |s| ==> !Same(less, s[i], t)
    ensures Ties(less, s, t) == []
  {
    if s != [] { NoTies(less, s[..|s| - 1], t); }
  }

  lemma LaterNotSame(less: Less, x: Task, y: Task, t: Task)
    requires WeakOrder(less) && less(x, y) && Same(less, x, t)
    ensures !Same(less, y, t)
  {
    assert !less(y, t) && !less(t, x) ==> !less(y, x);
    assert !less(t, y) && !less(x, t) ==> !less(x, y);
  }

  /** Moving a task in front of tasks that sort after it changes no ties. */
  lemma InsertKeepsTies(less: Less, a: seq<Task>, b: seq<Task>, x: Task, t: Task)
    requires WeakOrder(less) && forall i :: 0 <= i < |b| ==> less(x, b[i])
    ensures Ties(less, a + [x] + b, t) == Ties(less, a + b, t) + (if Same(less, x, t) then [x] else [])
  {
    hide WeakOrder, Ties, Same;
    TiesConcat(less, a + [x], b, t);
    TiesConcat(less, a, b, t);
    TiesNext(less, a, x, t);
    if Same(less, x, t) {
      forall i | 0 <= i < |b|
        ensures !Same(less, b[i], t)
      {
        LaterNotSame(less, x, b[i], t);
      }
      NoTies(less, b, t);
    }
    Commute(Ties(less, a, t), Ties(less, b, t), if Same(less, x, t) then [x] else []);
  }

  lemma Commute(p: seq<Task>, q: seq<Task>, r: seq<Task>)
    requires q == [] || r == []
    ensures p + r + q == p + q + r
  {
    assert p + [] == p;
  }

  method SliceStable(less: Less, list: seq<Task>) returns (out: seq<Task>)
    requires WeakOrder(less)
    ensures StableOrder(less, out, list)
  {
    hide WeakOrder, Sorted, Ties;
    out := [];
    assert Sorted(less, out) by { NothingSorted(less); }
    for n := 0 to |list|
      invariant StableOrder(less, out, list[..n])
    {
      assert list[..n + 1] == list[..n] + [list[n]];
      out := Insert(less, out, list[..n], list[n]);
    }
    assert list[..|list|] == list;
  }

  lemma NothingSorted(less: Less)
    ensures Sorted(less, [])
  {
  }

  method Insert(less: Less, sorted: seq<Task>, ghost list: seq<Task>, x: Task) returns (out: seq<Task>)
    requires WeakOrder(less) && StableOrder(less, sorted, list)
    ensures StableOrder(less, out, list + [x])
  {
    var k := |sorted|;
    while k > 0 && less(x, sorted[k - 1])
      invariant 0 <= k <= |sorted|
      invariant forall i :: k <= i < |sorted| ==> less(x, sorted[i])
    {
      k := k - 1;
    }
    out := sorted[..k] + [x] + sorted[k..];
    InsertSorted(less, sorted, x, k);
    forall t
      ensures Ties(less, out, t) == Ties(less, list + [x], t)
    {
      InsertKeepsTies(less, sorted[..k], sorted[k..], x, t);
      TiesNext(less, list, x, t);
      assert sorted[..k] + sorted[k..] == sorted;
    }
  }

  lemma InsertSorted(less: Less, sorted: seq<Task>, x: Task, k: nat)
    requires WeakOrder(less) && Sorted(less, sorted) && k <= |sorted|
    requires forall i :: k <= i < |sorted| ==> less(x, sorted[i])
    requires k > 0 ==> !less(x, sorted[k - 1])
    ensures Sorted(less, sorted[..k] + [x] + sorted[k..])
  {
    forall i | 0 <= i < k
      ensures !less(x, sorted[i])
    {
      if i < k - 1 { assert !less(sorted[k - 1], sorted[i]) && !less(x, sorted[k - 1]); }
    }
    forall i | k <= i < |sorted|
      ensures !less(sorted[i], x)
    {
      assert less(x, sorted[i]);
    }
  }

  // ----- the order is the only one ---------------------------------------------------------

  lemma {:induction false} InTies(less: Less, s: seq<Task>, t: Task)
    ensures forall x :: x in Ties(less, s, t) <==> x in s && Same(less, x, t)
  {
    if s != [] { InTies(less, s[..|s| - 1], t); }
  }

  /** Lists with the same ties are both empty or both not. */
  lemma SomeTie(less: Less, a: seq<Task>, b: seq<Task>)
    requires WeakOrder(less) && Sorted(less, b) && a != []
    requires forall t :: Ties(less, a, t) == Ties(less, b, t)
    ensures b != [] && !less(b[|b| - 1], a[|a| - 1])
  {
    var x := a[|a| - 1];
    assert !less(x, x) && x in a;
    InTies(less, a, x);
    InTies(less, b, x);
    assert x in Ties(less, a, x) && x in Ties(less, b, x);
    NotBefore(less, b, x);
  }

  lemma LastTie(less: Less, a: seq<Task>, t: Task)
    requires a != [] && Same(less, a[|a| - 1], t)
    ensures Ties(less, a, t) != [] && Ties(less, a, t)[|Ties(less, a, t)| - 1] == a[|a| - 1]
  {
  }

  lemma LastsEqual(less: Less, a: seq<Task>, b: seq<Task>)
    requires WeakOrder(less) && Sorted(less, a) && Sorted(less, b) && a != []
    requires forall t :: Ties(less, a, t) == Ties(less, b, t)
    ensures b != [] && a[|a| - 1] == b[|b| - 1]
  {
    SomeTie(less, a, b);
    SomeTie(less, b, a);
    var x := a[|a| - 1];
    assert !less(x, x);
    hide WeakOrder, Sorted, Ties;
    LastTie(less, a, x);
    LastTie(less, b, x);
  }

  /** What has a tie in a sorted list does not sort after its last element. */
  lemma NotBefore(less: Less, s: seq<Task>, t: Task)
    requires WeakOrder(less) && Sorted(less, s) && s != [] && exists z :: z in s && Same(less, z, t)
    ensures !less(s[|s| - 1], t)
  {
    var z :| z in s && Same(less, z, t);
    var i :| 0 <= i < |s| && s[i] == z;
    assert i < |s| - 1 ==> !less(s[|s| - 1], s[i]);
    assert !less(z, t) && !less(t, z);
  }

  lemma Cancel(a: seq<Task>, b: seq<Task>, c: seq<Task>)
    requires a + c == b + c
    ensures a == b
  {
    assert |a + c| == |b + c|;
    assert a == (a + c)[..|a|] && b == (b + c)[..|b|];
  }

  /** A list has one stable order: what is shown does not depend on the algorithm. */
  lemma {:induction false} StableOrderUnique(less: Less, a: seq<Task>, b: seq<Task>)
    requires WeakOrder(less) && Sorted(less, a) && Sorted(less, b)
    requires forall t :: Ties(less, a, t) == Ties(less, b, t)
    ensures a == b
    decreases |a|
  {
    if a == [] {
      if b != [] { LastsEqual(less, b, a); }
    } else {
      LastsEqual(less, a, b);
      var m, n, x := |a| - 1, |b| - 1, a[|a| - 1];
      forall t
        ensures Ties(less, a[..m], t) == Ties(less, b[..n], t)
      {
        assert a == a[..m] + [x] && b == b[..n] + [x];
        TiesNext(less, a[..m], x, t);
        TiesNext(less, b[..n], x, t);
        Cancel(Ties(less, a[..m], t), Ties(less, b[..n], t), if Same(less, x, t) then [x] else []);
      }
      StableOrderUnique(less, a[..m], b[..n]);
      assert a == a[..m] + [x] && b == b[..n] + [x];
    }
  }

  // ----- the columns of the board -------------------------------------------------------------

  const STATUSES: seq<Status> := [Todo, InProgress, Review, Done, Blocked]

  /** The most urgent first, then the most recently updated. */
  predicate Urgent(a: Task, b: Task) {
    if a.priority.Rank() != b.priority.Rank() then a.priority.Rank() > b.priority.Rank() else a.updatedAt > b.updatedAt
  }

  /** Urgent before high before medium before low; an unknown priority counts as low. */
  predicate MoreUrgent(p: Priority, q: Priority) {
    match p
    case Urgent => !q.Urgent?
    case High => !q.Urgent? && !q.High?
    case Medium => q.Low? || q.OtherPriority?
    case _ => false
  }

  /** From the most urgent down, and among equally urgent ones from the latest update back. */
  ghost predicate TopDown(col: seq<Task>) {
    forall i, j :: 0 <= i < j < |col| ==>
      && !MoreUrgent(col[j].priority, col[i].priority)
      && (!MoreUrgent(col[i].priority, col[j].priority) ==> col[i].updatedAt >= col[j].updatedAt)
  }

  lemma SortedTopDown(col: seq<Task>)
    ensures Sorted(Urgent, col) <==> TopDown(col)
  {
    forall i, j | 0 <= i < j < |col|
      ensures !Urgent(col[j], col[i]) <==>
        !MoreUrgent(col[j].priority, col[i].priority)
        && (!MoreUrgent(col[i].priority, col[j].priority) ==> col[i].updatedAt >= col[j].updatedAt)
    {
    }
  }

  predicate Shown(t: Task, project: string, status: Status) {
    (project == "" || t.project == project) && t.status == status
  }

  function Filter(tasks: seq<Task>, project: string, status: Status): seq<Task> {
    if tasks == [] then []
    else
      var k := |tasks| - 1;
      Filter(tasks[..k], project, status) + (if Shown(tasks[k], project, status) then [tasks[k]] else [])
  }

  /** To do, in progress, review, done, blocked, from left to right. */
  function ColumnOf(s: Status): int {
    if s.Todo? then 0 else if s.InProgress? then 1 else if s.Review? then 2 else if s.Done? then 3
    else if s.Blocked? then 4 else -1
  }

  lemma {:induction false} InFilter(tasks: seq<Task>, project: string, status: Status, t: Task)
    ensures t in Filter(tasks, project, status) <==> t in tasks && Shown(t, project, status)
  {
    if tasks != [] { InFilter(tasks[..|tasks| - 1], project, status, t); }
  }

  /** A stable order holds the same tasks as the list. */
  lemma InStableOrder(less: Less, out: seq<Task>, list: seq<Task>, t: Task)
    requires WeakOrder(less) && StableOrder(less, out, list)
    ensures t in out <==> t in list
  {
    assert !less(t, t);
    hide WeakOrder, Sorted;
    InTies(less, out, t);
    InTies(less, list, t);
    assert Ties(less, out, t) == Ties(less, list, t);
  }

  lemma ColumnShows(tasks: seq<Task>, project: string, col: seq<Task>, c: nat)
    requires c < 5 && StableOrder(Urgent, col, Filter(tasks, project, STATUSES[c]))
    ensures TopDown(col)
    ensures forall t :: t in col <==> t in tasks && (project == "" || t.project == project) && ColumnOf(t.status) == c
  {
    SortedTopDown(col);
    UrgentIsOrder();
    forall t
      ensures t in col <==> t in tasks && (project == "" || t.project == project) && ColumnOf(t.status) == c
    {
      InStableOrder(Urgent, col, Filter(tasks, project, STATUSES[c]), t);
      InFilter(tasks, project, STATUSES[c], t);
    }
    hide WeakOrder, Sorted, Ties, Filter;
  }

  lemma UrgentIsOrder()
    ensures WeakOrder(Urgent)
  {
  }

  function Position(s: Status): nat {
    match s
    case Todo => 0
    case InProgress => 1
    case Review => 2
    case Done => 3
    case Blocked => 4
    case OtherStatus(_) => 5
  }

  /** One column per status, each in its stable order. Tasks of unknown status are
      in none. */
  method Columns(tasks: seq<Task>, project: string) returns (cols: seq<seq<Task>>)
    ensures |cols| == |STATUSES|
    ensures forall c :: 0 <= c < |STATUSES| ==> StableOrder(Urgent, cols[c], Filter(tasks, project, STATUSES[c]))
    ensures |cols| == 5 && forall c :: 0 <= c < 5 ==> TopDown(cols[c])
    ensures forall c, t :: 0 <= c < 5 ==>
              (t in cols[c] <==> t in tasks && (project == "" || t.project == project) && ColumnOf(t.status) == c)
  {
    hide StableOrder, WeakOrder;
    cols := [[], [], [], [], []];
    for i := 0 to |tasks|
      invariant |cols| == |STATUSES|
      invariant forall c :: 0 <= c < |STATUSES| ==> cols[c] == Filter(tasks[..i], project, STATUSES[c])
    {
      assert tasks[..i + 1][..i] == tasks[..i];
      var t := tasks[i];
      if (project == "" || t.project == project) && Position(t.status) < |STATUSES| {
        var c := Position(t.status);
        cols := cols[c := cols[c] + [t]];
      }
    }
    assert tasks[..|tasks|] == tasks;
    cols := SortColumns(tasks, project, cols);
    forall c | 0 <= c < 5 { ColumnShows(tasks, project, cols[c], c); }
    hide Filter, TopDown;
  }

  method SortColumns(ghost tasks: seq<Task>, ghost project: string, cols0: seq<seq<Task>>)
    returns (cols: seq<seq<Task>>)
    requires |cols0| == |STATUSES|
    requires forall c :: 0 <= c < |STATUSES| ==> cols0[c] == Filter(tasks, project, STATUSES[c])
    ensures |cols| == |STATUSES|
    ensures forall c :: 0 <= c < |STATUSES| ==> StableOrder(Urgent, cols[c], Filter(tasks, project, STATUSES[c]))
  {
    hide StableOrder, WeakOrder, Filter;
    cols := cols0;
    UrgentIsOrder();
    for c := 0 to |STATUSES|
      invariant |cols| == |STATUSES|
      invariant forall d :: 0 <= d < c ==> StableOrder(Urgent, cols[d], Filter(tasks, project, STATUSES[d]))
      invariant forall d :: c <= d < |STATUSES| ==> cols[d] == Filter(tasks, project, STATUSES[d])
    {
      var sorted := SliceStable(Urgent, cols[c]);
      cols := cols[c := sorted];
    }
  }

  // ----- the rows of the timeline ---------------------------------------------------------------

  predicate Dated(t: Task) { t.startDate.Some? && t.endDate.Some? }

  function Start(t: Task): Day { if t.startDate.Some? then t.startDate.value else 0 }

  /** The earliest start first, then the smaller identifier, as a string. */
  predicate Earlier(a: Task, b: Task) {
    if Start(a) != Start(b) then Start(a) < Start(b) else StringLess(a.id, b.id)
  }

  lemma EarlierIsOrder()
    ensures WeakOrder(Earlier)
  {
    forall a: Task, b: Task
      ensures !(Earlier(a, b) && Earlier(b, a))
    {
      StringLessTotal(a.id, b.id);
    }
    forall a: Task, b: Task, c: Task | !Earlier(b, a) && !Earlier(c, b)
      ensures !Earlier(c, a)
    {
      NotEarlier(a, b, c);
    }
  }

  lemma NotEarlier(a: Task, b: Task, c: Task)
    requires !Earlier(b, a) && !Earlier(c, b)
    ensures !Earlier(c, a)
  {
    hide StringLess;
    StringLessTotal(a.id, b.id);
    StringLessTotal(b.id, c.id);
    StringLessTotal(a.id, c.id);
    if StringLess(a.id, b.id) && StringLess(b.id, c.id) { StringLessTransitive(a.id, b.id, c.id); }
    if StringLess(c.id, a.id) && StringLess(a.id, b.id) { StringLessTransitive(c.id, a.id, b.id); }
  }

  /** From the first start date on; tasks of the same date by identifier. */
  ghost predicate ByStart(out: seq<Task>) {
    && (forall i :: 0 <= i < |out| ==> out[i].startDate.Some? && out[i].endDate.Some?)
    && (forall i, j :: 0 <= i < j < |out| ==>
          out[i].startDate.value < out[j].startDate.value
          || (out[i].startDate == out[j].startDate && (out[i].id == out[j].id || StringLess(out[i].id, out[j].id))))
  }

  lemma {:induction false} InDatedOnly(tasks: seq<Task>, t: Task)
    ensures t in DatedOnly(tasks) <==> t in tasks && t.startDate.Some? && t.endDate.Some?
  {
    if tasks != [] { InDatedOnly(tasks[..|tasks| - 1], t); }
  }

  lemma ShownByStart(tasks: seq<Task>, out: seq<Task>)
    requires StableOrder(Earlier, out, DatedOnly(tasks))
    ensures ByStart(out) && forall t :: t in out <==> t in tasks && t.startDate.Some? && t.endDate.Some?
  {
    EarlierIsOrder();
    forall t
      ensures t in out <==> t in tasks && t.startDate.Some? && t.endDate.Some?
    {
      InStableOrder(Earlier, out, DatedOnly(tasks), t);
      InDatedOnly(tasks, t);
    }
    forall i | 0 <= i < |out|
      ensures out[i].startDate.Some? && out[i].endDate.Some?
    {
      assert out[i] in out;
    }
    forall i, j | 0 <= i < j < |out|
      ensures out[i].startDate.value < out[j].startDate.value
              || (out[i].startDate == out[j].startDate && (out[i].id == out[j].id || StringLess(out[i].id, out[j].id)))
    {
      StringLessTotal(out[i].id, out[j].id);
      assert !Earlier(out[j], out[i]);
    }
    hide WeakOrder, Ties, DatedOnly, StringLess;
  }

  function DatedOnly(tasks: seq<Task>): seq<Task> {
    if tasks == [] then []
    else
      var k := |tasks| - 1;
      DatedOnly(tasks[..k]) + (if Dated(tasks[k]) then [tasks[k]] else [])
  }

  method SortByStartDate(tasks: seq<Task>) returns (out: seq<Task>)
    ensures StableOrder(Earlier, out, DatedOnly(tasks))
    ensures ByStart(out) && forall t :: t in out <==> t in tasks && t.startDate.Some? && t.endDate.Some?
  {
    hide StableOrder, WeakOrder;
    out := [];
    for i := 0 to |tasks|
      invariant out == DatedOnly(tasks[..i])
    {
      assert tasks[..i + 1][..i] == tasks[..i];
      if Dated(tasks[i]) { out := out + [tasks[i]]; }
    }
    assert tasks[..|tasks|] == tasks;
    EarlierIsOrder();
    out := SliceStable(Earlier, out);
    ShownByStart(tasks, out);
    hide ByStart;
  }
}
