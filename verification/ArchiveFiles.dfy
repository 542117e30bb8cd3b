/** The activity archive (archive.go): monthly files grown member by member, and
    the two readers that remove duplicates and restore the order of the log. */
module ArchiveFiles {
  import opened Basics
  import opened Model
  import Calendar

  const ARCHIVE_VERSION: int := 1
  const DAY_NANOS: int := 86400 * SECOND

  /** Times count from the start of day 0, and the file of an entry is named after
      its month (UTC); file names sort as months do. */
  function FileOf(e: Activity): int { Calendar.MonthOf(e.time / DAY_NANOS) }

  // ----- which file ---------------------------------------------------------------

  /** The entry was made in month k: from its first instant on, and before the next month. */
  predicate InMonth(e: Activity, k: int) {
    Calendar.MonthStart(k) * DAY_NANOS <= e.time < Calendar.MonthStart(k + 1) * DAY_NANOS
  }

  lemma DayOfTime(time: Time, a: int, b: int)
    ensures a <= time / DAY_NANOS < b <==> a * DAY_NANOS <= time < b * DAY_NANOS
  {
    var q, r := time / DAY_NANOS, time % DAY_NANOS;
    assert time == q * DAY_NANOS + r && 0 <= r < DAY_NANOS;
  }

  /** The file of month k holds the entries of month k. */
  lemma FileIsMonth(e: Activity, k: int)
    ensures FileOf(e) == k <==> InMonth(e, k)
  {
    hide Calendar.MonthStart, Calendar.MonthOf;
    var d := e.time / DAY_NANOS;
    DayOfTime(e.time, Calendar.MonthStart(k), Calendar.MonthStart(k + 1));
    if InMonth(e, k) { Calendar.MonthUnique(d, k); }
  }

  /** An entry made at any time of the d-th of month m in year y goes to the file of
      that month of that year. */
  lemma FileOfDate(e: Activity, y: int, m: int, d: int, t: int)
    requires 1 <= m <= 12 && 1 <= d <= Calendar.MonthDays(y, m - 1) && 0 <= t < DAY_NANOS
    requires e.time == Calendar.NewDate(y, m, d) * DAY_NANOS + t
    ensures FileOf(e) == 12 * y + m - 1
  {
    hide Calendar.MonthOf, Calendar.NewDate, Calendar.MonthDays;
    var day := Calendar.NewDate(y, m, d);
    assert e.time / DAY_NANOS == day by { DayOfTime(e.time, day, day + 1); }
    Calendar.DateInItsMonth(y, m, d);
  }

  // ----- merging, as a specification ---------------------------------------------

  ghost predicate Increasing(log: seq<Activity>) {
    forall i, j :: 0 <= i < j < |log| ==> log[i].id < log[j].id
  }

  predicate HasId(log: seq<Activity>, id: int) { exists e :: e in log && e.id == id }

  /** list[k] is the first entry of the list with its identifier. */
  ghost predicate FirstAt(list: seq<Activity>, k: int) {
    0 <= k < |list| && forall j :: 0 <= j < k ==> list[j].id != list[k].id
  }

  ghost predicate IsFirst(list: seq<Activity>, e: Activity) {
    exists k :: FirstAt(list, k) && list[k] == e
  }

  /** out holds the first entry of each identifier in the list, in order of identifier. */
  ghost predicate IsMerge(out: seq<Activity>, list: seq<Activity>) {
    && Increasing(out)
    && (forall i :: 0 <= i < |out| ==> IsFirst(list, out[i]))
    && (forall k :: 0 <= k < |list| ==> HasId(out, list[k].id))
  }

  lemma FirstUnique(list: seq<Activity>, e: Activity, e': Activity)
    requires IsFirst(list, e) && IsFirst(list, e') && e.id == e'.id
    ensures e == e'
  {
    var k :| FirstAt(list, k) && list[k] == e;
    var k' :| FirstAt(list, k') && list[k'] == e';
  }

  ghost predicate Contained(a: seq<Activity>, b: seq<Activity>) {
    forall i :: 0 <= i < |a| ==> a[i] in b
  }

  /** A list has one merge. */
  lemma {:induction false} MergeUnique(a: seq<Activity>, b: seq<Activity>, list: seq<Activity>)
    requires IsMerge(a, list) && IsMerge(b, list)
    ensures a == b
  {
    hide IsMerge;
    MergeContained(a, b, list);
    MergeContained(b, a, list);
    assert Increasing(a) && Increasing(b) by { MergeIncreasing(a, list); MergeIncreasing(b, list); }
    IncreasingEqual(a, b);
  }

  lemma MergeIncreasing(a: seq<Activity>, list: seq<Activity>)
    requires IsMerge(a, list)
    ensures Increasing(a)
  {
  }

  lemma MergeContained(a: seq<Activity>, b: seq<Activity>, list: seq<Activity>)
    requires IsMerge(a, list) && IsMerge(b, list)
    ensures Contained(a, b)
  {
    forall i | 0 <= i < |a|
      ensures a[i] in b
    {
      assert IsFirst(list, a[i]);
      var k :| FirstAt(list, k) && list[k] == a[i];
      assert HasId(b, list[k].id);
      var e :| e in b && e.id == list[k].id;
      var j :| 0 <= j < |b| && b[j] == e;
      FirstUnique(list, a[i], b[j]);
    }
  }

  lemma TailContained(a: seq<Activity>, b: seq<Activity>)
    requires a != [] && b != [] && a[0] == b[0] && Increasing(a) && Contained(a, b)
    ensures Contained(a[1..], b[1..])
  {
    forall i | 0 <= i < |a[1..]|
      ensures a[1..][i] in b[1..]
    {
      assert a[i + 1] in b && a[i + 1].id > a[0].id;
      var m :| 0 <= m < |b| && b[m] == a[i + 1];
      assert b[1..][m - 1] == a[i + 1];
    }
  }

  lemma FirstContained(a: seq<Activity>, b: seq<Activity>)
    requires a != [] && Contained(a, b)
    ensures a[0] in b
  {
  }

  lemma HeadsEqual(a: seq<Activity>, b: seq<Activity>)
    requires a != [] && b != [] && Increasing(a) && Increasing(b) && a[0] in b && b[0] in a
    ensures a[0] == b[0]
  {
    var i :| 0 <= i < |a| && a[i] == b[0];
    var j :| 0 <= j < |b| && b[j] == a[0];
    assert a[0].id <= a[i].id && b[0].id <= b[j].id;
  }

  lemma {:induction false} IncreasingEqual(a: seq<Activity>, b: seq<Activity>)
    requires Increasing(a) && Increasing(b) && Contained(a, b) && Contained(b, a)
    ensures a == b
  {
    hide Contained;
    if a == [] && b != [] {
      FirstContained(b, a);
      assert false;
    } else if a != [] && b == [] {
      FirstContained(a, b);
      assert false;
    } else if a != [] {
      FirstContained(a, b);
      FirstContained(b, a);
      HeadsEqual(a, b);
      TailContained(a, b);
      TailContained(b, a);
      IncreasingEqual(a[1..], b[1..]);
      assert a == [a[0]] + a[1..] && b == [b[0]] + b[1..];
    }
  }

  /** The entry numbered i + 1 stands at position i. */
  ghost predicate Numbered(history: seq<Activity>) {
    forall i :: 0 <= i < |history| ==> history[i].id == i + 1
  }

  /** A list of pieces of one history that misses none of it merges back to it,
      whatever the order of the pieces and however often they are repeated. */
  lemma MergeRestores(out: seq<Activity>, list: seq<Activity>, history: seq<Activity>)
    requires IsMerge(out, list) && Numbered(history)
    requires forall k :: 0 <= k < |list| ==> 1 <= list[k].id <= |history| && list[k] == history[list[k].id - 1]
    requires forall id :: 1 <= id <= |history| ==> HasId(list, id)
    ensures out == history
  {
    forall i | 0 <= i < |out| ensures out[i] in history {
      var k :| FirstAt(list, k) && list[k] == out[i];
      assert history[list[k].id - 1] == out[i];
    }
    assert Contained(out, history);
    forall i | 0 <= i < |history| ensures history[i] in out {
      assert HasId(list, i + 1);
      var e :| e in list && e.id == i + 1;
      var k :| 0 <= k < |list| && list[k] == e;
      assert HasId(out, list[k].id);
      var o :| o in out && o.id == i + 1;
      var j :| 0 <= j < |out| && out[j] == o;
      var m :| FirstAt(list, m) && list[m] == o;
      assert o == history[o.id - 1];
    }
    IncreasingEqual(out, history);
  }

  // ----- the readers --------------------------------------------------------------

  /** `seen` and `out` of both readers: the first entry of each identifier, in the order met. */
  ghost predicate Gathered(out: seq<Activity>, seen: set<int>, list: seq<Activity>) {
    && (forall e :: e in out ==> IsFirst(list, e))
    && (forall i, j :: 0 <= i < j < |out| ==> out[i].id != out[j].id)
    && (forall k :: 0 <= k < |list| ==> list[k].id in seen)
    && (forall id :: id in seen <==> HasId(out, id))
  }

  lemma GatheredNothing()
    ensures Gathered([], {}, [])
  {
  }

  lemma GatheredDistinct(out: seq<Activity>, seen: set<int>, list: seq<Activity>)
    requires Gathered(out, seen, list)
    ensures forall i, j :: 0 <= i < j < |out| ==> out[i].id != out[j].id
  {
  }

  lemma IsFirstGrows(list: seq<Activity>, e: Activity, next: Activity)
    requires IsFirst(list, e)
    ensures IsFirst(list + [next], e)
  {
    var k :| FirstAt(list, k) && list[k] == e;
    assert FirstAt(list + [next], k);
  }

  lemma GatheredNext(out: seq<Activity>, seen: set<int>, list: seq<Activity>, next: Activity)
    requires Gathered(out, seen, list)
    ensures Gathered(if next.id in seen then out else out + [next], seen + {next.id}, list + [next])
  {
    var out' := if next.id in seen then out else out + [next];
    var list' := list + [next];
    forall e | e in out' ensures IsFirst(list', e) {
      if e in out {
        IsFirstGrows(list, e, next);
      } else {
        assert FirstAt(list', |list|) && list'[|list|] == next;
      }
    }
    forall id ensures id in seen + {next.id} <==> HasId(out', id) {
      HasIdNext(out, next, id);
    }
  }

  lemma HasIdNext(out: seq<Activity>, next: Activity, id: int)
    ensures HasId(out + [next], id) <==> HasId(out, id) || next.id == id
  {
    if HasId(out, id) {
      var e :| e in out && e.id == id;
      assert e in out + [next];
    }
    if next.id == id { assert next in out + [next]; }
  }

  /** One pass of a reader over a list, from what it gathered before. */
  method Gather(list: seq<Activity>, seen0: set<int>, out0: seq<Activity>, ghost before: seq<Activity>)
    returns (seen: set<int>, out: seq<Activity>)
    requires Gathered(out0, seen0, before)
    ensures Gathered(out, seen, before + list)
  {
    hide Gathered;
    seen, out := seen0, out0;
    assert before + list[..0] == before;
    for i := 0 to |list|
      invariant Gathered(out, seen, before + list[..i])
    {
      GatheredNext(out, seen, before + list[..i], list[i]);
      assert before + list[..i + 1] == before + list[..i] + [list[i]];
      if list[i].id !in seen {
        seen := seen + {list[i].id};
        out := out + [list[i]];
      } else {
        assert seen == seen + {list[i].id};
      }
    }
    assert list[..|list|] == list;
  }

  lemma InsertedAt(log: seq<Activity>, e: Activity, k: nat)
    requires Increasing(log) && k <= |log|
    requires forall j :: 0 <= j < k ==> log[j].id < e.id
    requires k < |log| ==> e.id < log[k].id
    ensures Increasing(log[..k] + [e] + log[k..])
    ensures forall x :: x in log[..k] + [e] + log[k..] <==> x in log || x == e
  {
    assert log == log[..k] + log[k..];
  }

  method InsertById(log: seq<Activity>, e: Activity) returns (out: seq<Activity>)
    requires Increasing(log) && forall i :: 0 <= i < |log| ==> log[i].id != e.id
    ensures Increasing(out) && forall x :: x in out <==> x in log || x == e
  {
    var k := 0;
    while k < |log| && log[k].id < e.id
      invariant 0 <= k <= |log| && forall j :: 0 <= j < k ==> log[j].id < e.id
    {
      k := k + 1;
    }
    out := log[..k] + [e] + log[k..];
    InsertedAt(log, e, k);
  }

  /** `sort.Slice` by identifier. */
  method SortById(log: seq<Activity>) returns (out: seq<Activity>)
    requires forall i, j :: 0 <= i < j < |log| ==> log[i].id != log[j].id
    ensures Increasing(out) && (forall e :: e in out <==> e in log)
  {
    out := [];
    for i := 0 to |log|
      invariant Increasing(out)
      invariant forall e :: e in out <==> e in log[..i]
    {
      forall k | 0 <= k < |out|
        ensures out[k].id != log[i].id
      {
        assert out[k] in log[..i];
      }
      out := InsertById(out, log[i]);
      assert log[..i + 1] == log[..i] + [log[i]];
    }
    assert log[..|log|] == log;
  }

  lemma GatheredSorted(out: seq<Activity>, seen: set<int>, list: seq<Activity>, sorted: seq<Activity>)
    requires Gathered(out, seen, list) && Increasing(sorted) && (forall e :: e in sorted <==> e in out)
    ensures IsMerge(sorted, list)
  {
    forall k | 0 <= k < |list| ensures HasId(sorted, list[k].id) {
      assert HasId(out, list[k].id);
      var e :| e in out && e.id == list[k].id;
      assert e in sorted;
    }
  }

  method MergeActivity(archived: seq<Activity>, live: seq<Activity>) returns (out: seq<Activity>)
    ensures IsMerge(out, archived + live)
  {
    assert [] + archived == archived;
    var seen, gathered := Gather(archived, {}, [], []);
    seen, gathered := Gather(live, seen, gathered, archived);
    out := SortById(gathered);
    GatheredSorted(gathered, seen, archived + live, out);
  }

  // ----- the files -----------------------------------------------------------------

  /** A gzip member: the version in its header line, and its entries. */
  datatype Member = Member(version: int, entries: seq<Activity>)

  type Files = map<int, seq<Member>>

  function Entries(members: seq<Member>): seq<Activity> {
    if members == [] then [] else Entries(members[..|members| - 1]) + members[|members| - 1].entries
  }

  /** The entries that go to the file of month m, in order. */
  function Group(entries: seq<Activity>, m: int): seq<Activity> {
    if entries == [] then []
    else
      var e := entries[|entries| - 1];
      Group(entries[..|entries| - 1], m) + (if FileOf(e) == m then [e] else [])
  }

  function Members(files: Files, m: int): seq<Member> { if m in files then files[m] else [] }

  /** One member more in each of the files of these months. */
  function Appended(files: Files, entries: seq<Activity>, months: seq<int>): Files {
    if months == [] then files
    else
      var before := Appended(files, entries, months[..|months| - 1]);
      var m := months[|months| - 1];
      before[m := Members(before, m) + [Member(ARCHIVE_VERSION, Group(entries, m))]]
  }

  predicate HasMonth(entries: seq<Activity>, m: int) { exists e :: e in entries && FileOf(e) == m }

  /** The months of the entries, once each, earliest first. */
  ghost predicate MonthsOf(months: seq<int>, entries: seq<Activity>) {
    && (forall i, j :: 0 <= i < j < |months| ==> months[i] < months[j])
    && (forall m :: m in months <==> HasMonth(entries, m))
  }

  /** The groups formed so far: one per month met. */
  ghost predicate Grouped(names: seq<int>, byFile: map<int, seq<Activity>>, entries: seq<Activity>) {
    && (forall m :: m in names <==> m in byFile)
    && (forall m :: m in byFile <==> HasMonth(entries, m))
    && (forall i, j :: 0 <= i < j < |names| ==> names[i] != names[j])
    && (forall m :: m in byFile ==> byFile[m] == Group(entries, m))
  }

  lemma GroupedNothing()
    ensures Grouped([], map[], [])
  {
  }

  lemma HasMonthNext(entries: seq<Activity>, e: Activity, m: int)
    ensures HasMonth(entries + [e], m) <==> HasMonth(entries, m) || FileOf(e) == m
    ensures Group(entries + [e], m) == Group(entries, m) + (if FileOf(e) == m then [e] else [])
  {
    hide FileOf;
    var more := entries + [e];
    assert more[..|more| - 1] == entries;
    if HasMonth(entries, m) {
      var x :| x in entries && FileOf(x) == m;
      assert x in more;
    }
    if FileOf(e) == m { assert e in more; }
  }

  lemma {:induction false} NoMonthNoGroup(entries: seq<Activity>, m: int)
    requires !HasMonth(entries, m)
    ensures Group(entries, m) == []
  {
    hide FileOf;
    if entries != [] {
      var front, e := entries[..|entries| - 1], entries[|entries| - 1];
      assert entries == front + [e];
      HasMonthNext(front, e, m);
      NoMonthNoGroup(front, m);
    }
  }

  lemma GroupedNext(names: seq<int>, byFile: map<int, seq<Activity>>, entries: seq<Activity>, e: Activity)
    requires Grouped(names, byFile, entries)
    ensures var m := FileOf(e);
      Grouped(if m in byFile then names else names + [m],
              byFile[m := (if m in byFile then byFile[m] else []) + [e]], entries + [e])
  {
    hide FileOf;
    forall m { HasMonthNext(entries, e, m); }
    if FileOf(e) !in byFile { NoMonthNoGroup(entries, FileOf(e)); }
  }

  /** Every group holds the entries of its month, and every entry is in the group of its month. */
  ghost predicate ByMonth(byFile: map<int, seq<Activity>>, entries: seq<Activity>) {
    && (forall k, e :: k in byFile ==> (e in byFile[k] <==> e in entries && InMonth(e, k)))
    && (forall e :: e in entries ==> exists k :: k in byFile && InMonth(e, k))
  }

  lemma GroupedByMonth(names: seq<int>, byFile: map<int, seq<Activity>>, entries: seq<Activity>)
    requires Grouped(names, byFile, entries)
    ensures ByMonth(byFile, entries)
  {
    hide FileOf, InMonth, Group;
    forall k, e | k in byFile
      ensures e in byFile[k] <==> e in entries && InMonth(e, k)
    {
      InGroup(entries, k, e);
      FileIsMonth(e, k);
    }
    forall e | e in entries
      ensures FileOf(e) in byFile && InMonth(e, FileOf(e))
    {
      assert HasMonth(entries, FileOf(e));
      FileIsMonth(e, FileOf(e));
    }
  }

  method GroupByMonth(entries: seq<Activity>) returns (names: seq<int>, byFile: map<int, seq<Activity>>)
    ensures Grouped(names, byFile, entries) && ByMonth(byFile, entries)
  {
    hide Grouped, FileOf;
    byFile, names := map[], [];
    GroupedNothing();
    assert entries[..0] == [];
    for i := 0 to |entries|
      invariant Grouped(names, byFile, entries[..i])
    {
      var m := FileOf(entries[i]);
      GroupedNext(names, byFile, entries[..i], entries[i]);
      assert entries[..i + 1] == entries[..i] + [entries[i]];
      if m !in byFile { names := names + [m]; }
      byFile := byFile[m := (if m in byFile then byFile[m] else []) + [entries[i]]];
    }
    assert entries[..|entries|] == entries;
    GroupedByMonth(names, byFile, entries);
    hide ByMonth;
  }

  class ArchiveDir {
    var files: Files

    constructor ()
      ensures files == map[]
    {
      files := map[];
    }

    /** Groups the entries by month and writes one member per file, in file
        order, until a file cannot be written. */
    method AppendArchive(entries: seq<Activity>, writable: set<int>)
      returns (ok: bool, ghost months: seq<int>, ghost done: nat)
      modifies this
      ensures MonthsOf(months, entries) && done <= |months|
      ensures forall i :: 0 <= i < done ==> months[i] in writable
      ensures ok <==> done == |months|
      ensures !ok ==> months[done] !in writable
      ensures files == Appended(old(files), entries, months[..done])
      ensures forall k, e :: InFile(files, k, e) <==>
        InFile(old(files), k, e) || (k in months[..done] && e in entries && InMonth(e, k))
      ensures AllReadable(old(files)) ==> AllReadable(files)
    {
      hide FileOf, HasMonth, InMonth, InFile, AllReadable;
      var names, byFile := GroupByMonth(entries);
      names := SortMonths(names);
      months := names;
      done := 0;
      ok := true;
      for i := 0 to |names|
        invariant done == i && months == names && ok
        invariant forall j :: 0 <= j < i ==> names[j] in writable
        invariant files == Appended(old(files), entries, names[..i])
      {
        var name := names[i];
        if name !in writable {
          ok := false;
          AppendedFiles(old(files), entries, names[..i]);
          if AllReadable(old(files)) { AppendedReadable(old(files), entries, names[..i]); }
          return;
        }
        assert names[..i + 1][..i] == names[..i];
        files := files[name := Members(files, name) + [Member(ARCHIVE_VERSION, byFile[name])]];
        done := i + 1;
      }
      AppendedFiles(old(files), entries, names[..done]);
      if AllReadable(old(files)) { AppendedReadable(old(files), entries, names[..done]); }
    }

    /** Every archived entry once, in order of identifier; None when a member was
        written by a newer version. */
    method ReadArchive() returns (r: Option<seq<Activity>>, ghost order: seq<int>)
      ensures (forall i, j :: 0 <= i < j < |order| ==> order[i] < order[j]) && (forall m :: m in order <==> m in files)
      ensures r.None? <==> exists m, i :: m in files && 0 <= i < |files[m]| && files[m][i].version > 1
      ensures r.Some? ==> IsMerge(r.value, AllEntries(files, order))
    {
      hide Gathered, IsMerge, Readable;
      var names := KeysOf(files);
      names := SortMonths(names);
      order := names;
      var seen: set<int>, out: seq<Activity> := {}, [];
      GatheredNothing();
      for i := 0 to |names|
        invariant Gathered(out, seen, AllEntries(files, names[..i]))
        invariant forall j :: 0 <= j < i ==> Readable(files[names[j]])
      {
        assert names[i] in names;
        var ok;
        ok, seen, out := ReadFile(files[names[i]], seen, out, AllEntries(files, names[..i]));
        if !ok {
          NewerMember(files, names[i]);
          return None, order;
        }
        assert names[..i + 1][..i] == names[..i];
      }
      assert names[..|names|] == names;
      NoNewerMember(files);
      GatheredDistinct(out, seen, AllEntries(files, names));
      var sorted := SortById(out);
      GatheredSorted(out, seen, AllEntries(files, names), sorted);
      r := Some(sorted);
    }
  }

  predicate Readable(members: seq<Member>) {
    forall i :: 0 <= i < |members| ==> members[i].version <= ARCHIVE_VERSION
  }

  lemma NewerMember(files: Files, m: int)
    requires m in files && !Readable(files[m])
    ensures exists m, i :: m in files && 0 <= i < |files[m]| && files[m][i].version > 1
  {
    var i :| 0 <= i < |files[m]| && files[m][i].version > ARCHIVE_VERSION;
    assert files[m][i].version > 1;
  }

  lemma NoNewerMember(files: Files)
    requires forall m :: m in files ==> Readable(files[m])
    ensures !exists m, i :: m in files && 0 <= i < |files[m]| && files[m][i].version > 1
  {
  }

  method ReadFile(members: seq<Member>, seen0: set<int>, out0: seq<Activity>, ghost before: seq<Activity>)
    returns (ok: bool, seen: set<int>, out: seq<Activity>)
    requires Gathered(out0, seen0, before)
    ensures ok <==> Readable(members)
    ensures ok ==> Gathered(out, seen, before + Entries(members))
  {
    hide Gathered;
    seen, out := seen0, out0;
    assert before + Entries(members[..0]) == before;
    for k := 0 to |members|
      invariant Gathered(out, seen, before + Entries(members[..k]))
      invariant Readable(members[..k])
    {
      if members[k].version > ARCHIVE_VERSION { return false, seen, out; }
      seen, out := Gather(members[k].entries, seen, out, before + Entries(members[..k]));
      assert members[..k + 1][..k] == members[..k];
      assert before + Entries(members[..k + 1]) == before + Entries(members[..k]) + members[k].entries;
    }
    assert members[..|members|] == members;
    ok := true;
  }

  /** The entries of the files of these months, file after file. */
  function AllEntries(files: Files, months: seq<int>): seq<Activity> {
    if months == [] then []
    else AllEntries(files, months[..|months| - 1]) + Entries(Members(files, months[|months| - 1]))
  }

  method KeysOf(files: Files) returns (names: seq<int>)
    ensures forall m :: m in names <==> m in files
    ensures forall i, j :: 0 <= i < j < |names| ==> names[i] != names[j]
  {
    names := [];
    var left := files.Keys;
    while left != {}
      invariant left <= files.Keys
      invariant forall m :: m in names <==> m in files.Keys - left
      invariant forall i, j :: 0 <= i < j < |names| ==> names[i] != names[j]
      decreases |left|
    {
      assert (forall k: int :: k !in left) ==> left == {};
      var m :| m in left;
      names := names + [m];
      left := left - {m};
    }
  }

  /** `sort.Strings` on file names. */
  method SortMonths(names: seq<int>) returns (out: seq<int>)
    requires forall i, j :: 0 <= i < j < |names| ==> names[i] != names[j]
    ensures forall i, j :: 0 <= i < j < |out| ==> out[i] < out[j]
    ensures forall m :: m in out <==> m in names
  {
    out := [];
    for i := 0 to |names|
      invariant forall j, k :: 0 <= j < k < |out| ==> out[j] < out[k]
      invariant forall m :: m in out <==> m in names[..i]
    {
      var k := 0;
      while k < |out| && out[k] < names[i]
        invariant 0 <= k <= |out| && forall j :: 0 <= j < k ==> out[j] < names[i]
      {
        k := k + 1;
      }
      assert names[i] !in names[..i];
      ghost var was := out;
      out := out[..k] + [names[i]] + out[k..];
      assert was == was[..k] + was[k..];
      assert names[..i + 1] == names[..i] + [names[i]];
    }
    assert names[..|names|] == names;
  }

  // ----- what the archive holds -----------------------------------------------------

  /** The entry stands in the file of month m. */
  predicate InFile(files: Files, m: int, e: Activity) { m in files && e in Entries(files[m]) }

  ghost predicate Stored(files: Files, e: Activity) { exists m :: InFile(files, m, e) }

  lemma {:induction false} InGroup(entries: seq<Activity>, m: int, e: Activity)
    ensures e in Group(entries, m) <==> e in entries && FileOf(e) == m
  {
    hide FileOf;
    if entries != [] { InGroup(entries[..|entries| - 1], m, e); }
  }

  /** One member adds exactly the entries of its month. */
  lemma MemberAdds(files: Files, entries: seq<Activity>, m: int, e: Activity)
    ensures Stored(Appended(files, entries, [m]), e) <==> Stored(files, e) || (e in entries && FileOf(e) == m)
  {
    hide FileOf, Group;
    var after := Appended(files, entries, [m]);
    var members := Members(files, m) + [Member(ARCHIVE_VERSION, Group(entries, m))];
    assert Appended(files, entries, []) == files && after == files[m := members];
    assert members[..|members| - 1] == Members(files, m);
    assert Entries(members) == Entries(Members(files, m)) + Group(entries, m);
    InGroup(entries, m, e);
    if Stored(files, e) {
      var k :| InFile(files, k, e);
      assert InFile(after, k, e);
    }
    if e in entries && FileOf(e) == m { assert InFile(after, m, e); }
    if Stored(after, e) {
      var k :| InFile(after, k, e);
      assert k != m || e !in Group(entries, m) ==> InFile(files, k, e);
    }
  }

  /** Which entries the files hold afterwards: in each of them, the ones of its month. */
  lemma {:induction false} AppendedFile(files: Files, entries: seq<Activity>, months: seq<int>, k: int, e: Activity)
    ensures InFile(Appended(files, entries, months), k, e)
       <==> InFile(files, k, e) || (k in months && e in entries && InMonth(e, k))
  {
    hide FileOf, Group, InMonth;
    if months != [] {
      var front, m := months[..|months| - 1], months[|months| - 1];
      AppendedFile(files, entries, front, k, e);
      var before := Appended(files, entries, front);
      var members := Members(before, m) + [Member(ARCHIVE_VERSION, Group(entries, m))];
      assert members[..|members| - 1] == Members(before, m);
      assert Entries(members) == Entries(Members(before, m)) + Group(entries, m);
      InGroup(entries, m, e);
      FileIsMonth(e, m);
      assert months == front + [m];
    }
  }

  lemma AppendedFiles(files: Files, entries: seq<Activity>, months: seq<int>)
    ensures forall k, e :: InFile(Appended(files, entries, months), k, e) <==>
                             InFile(files, k, e) || (k in months && e in entries && InMonth(e, k))
  {
    hide InFile, InMonth, Appended;
    forall k, e { AppendedFile(files, entries, months, k, e); }
  }

  ghost predicate AllReadable(files: Files) { forall m :: m in files ==> Readable(files[m]) }

  /** What is written can be read. */
  lemma {:induction false} AppendedReadable(files: Files, entries: seq<Activity>, months: seq<int>)
    requires AllReadable(files)
    ensures AllReadable(Appended(files, entries, months))
  {
    hide FileOf, Group;
    if months != [] { AppendedReadable(files, entries, months[..|months| - 1]); }
  }

  /** The group is the entries at these positions, in order, and they are all those of month m. */
  ghost predicate Picks(at: seq<nat>, group: seq<Activity>, entries: seq<Activity>, m: int) {
    && |at| == |group| && (forall i, j :: 0 <= i < j < |at| ==> at[i] < at[j])
    && (forall i :: 0 <= i < |at| ==> at[i] < |entries| && group[i] == entries[at[i]])
    && (forall k :: 0 <= k < |entries| ==> (k in at <==> InMonth(entries[k], m)))
  }

  lemma PicksNext(at: seq<nat>, group: seq<Activity>, front: seq<Activity>, e: Activity, m: int)
    requires Picks(at, group, front, m)
    ensures InMonth(e, m) ==> Picks(at + [|front|], group + [e], front + [e], m)
    ensures !InMonth(e, m) ==> Picks(at, group, front + [e], m)
  {
    hide InMonth;
    var n := |front|;
    assert forall k :: k in at ==> k < n;
    assert forall k :: k in at + [n] <==> k in at || k == n;
  }

  /** A group is in the order of the entries and takes every entry of its month once. */
  lemma {:induction false} GroupKeepsOrder(entries: seq<Activity>, m: int) returns (at: seq<nat>)
    ensures Picks(at, Group(entries, m), entries, m)
  {
    hide FileOf, InMonth, Picks;
    if entries == [] {
      at := [];
      NothingPicked(m);
    } else {
      var n := |entries| - 1;
      var front, e := entries[..n], entries[n];
      at := GroupKeepsOrder(front, m);
      FileIsMonth(e, m);
      PicksNext(at, Group(front, m), front, e, m);
      assert entries == front + [e];
      if InMonth(e, m) {
        at := at + [n];
        assert Group(entries, m) == Group(front, m) + [e];
      } else {
        assert Group(entries, m) == Group(front, m);
      }
    }
  }

  lemma NothingPicked(m: int)
    ensures Picks([], [], [], m)
  {
  }

  /** Member by member or all in one go: the files are the same. */
  lemma AppendedStepwise(files: Files, entries: seq<Activity>, months: seq<int>, m: int)
    ensures Appended(Appended(files, entries, months), entries, [m]) == Appended(files, entries, months + [m])
  {
    hide FileOf, Group;
    var before, more := Appended(files, entries, months), months + [m];
    assert more[..|more| - 1] == months;
    assert [m][..0] == [] && Appended(before, entries, []) == before;
  }

  lemma {:induction false} InAllEntries(files: Files, months: seq<int>, e: Activity)
    ensures e in AllEntries(files, months) <==> exists m :: m in months && InFile(files, m, e)
  {
    if months != [] {
      var front, m := months[..|months| - 1], months[|months| - 1];
      InAllEntries(files, front, e);
      if exists k :: k in front && InFile(files, k, e) {
        var k :| k in front && InFile(files, k, e);
        assert k in months && InFile(files, k, e);
      }
      if e in Entries(Members(files, m)) { assert m in months && InFile(files, m, e); }
    }
  }

  // ----- the months of a batch --------------------------------------------------------

  lemma {:induction false} InsertMonth(months: seq<int>, m: int) returns (more: seq<int>)
    requires (forall i, j :: 0 <= i < j < |months| ==> months[i] < months[j]) && m !in months
    ensures forall i, j :: 0 <= i < j < |more| ==> more[i] < more[j]
    ensures forall k :: k in more <==> k in months || k == m
  {
    if months == [] || months[|months| - 1] < m {
      more := months + [m];
    } else {
      var front, last := months[..|months| - 1], months[|months| - 1];
      assert months == front + [last];
      var rest := InsertMonth(front, m);
      more := rest + [last];
      forall i | 0 <= i < |rest| ensures rest[i] < last { assert rest[i] in rest; }
    }
  }

  lemma {:induction false} SomeMonths(entries: seq<Activity>) returns (months: seq<int>)
    ensures MonthsOf(months, entries)
  {
    hide FileOf;
    months := [];
    if entries != [] {
      var front, e := entries[..|entries| - 1], entries[|entries| - 1];
      assert entries == front + [e];
      var rest := SomeMonths(front);
      forall m { HasMonthNext(front, e, m); }
      months := rest;
      if FileOf(e) !in rest { months := InsertMonth(rest, FileOf(e)); }
    }
  }

  lemma {:induction false} MonthBound(months: set<int>, entries: seq<Activity>)
    requires forall m :: m in months ==> HasMonth(entries, m)
    ensures |months| <= |entries|
    decreases |entries|
  {
    hide FileOf;
    if entries != [] {
      var front, e := entries[..|entries| - 1], entries[|entries| - 1];
      assert entries == front + [e];
      forall m | m in months - {FileOf(e)}
        ensures HasMonth(front, m)
      {
        HasMonthNext(front, e, m);
      }
      var rest := months - {FileOf(e)};
      MonthBound(rest, front);
      assert months == if FileOf(e) in months then rest + {FileOf(e)} else rest;
    } else {
      assert months == {} by {
        forall m
          ensures m !in months
        {
          assert !HasMonth(entries, m);
        }
      }
    }
  }

  lemma {:induction false} SetOf(months: seq<int>) returns (all: set<int>)
    requires forall i, j :: 0 <= i < j < |months| ==> months[i] < months[j]
    ensures |all| == |months| && forall m :: m in all <==> m in months
  {
    all := {};
    if months != [] {
      var front, last := months[..|months| - 1], months[|months| - 1];
      assert months == front + [last];
      var rest := SetOf(front);
      assert last !in rest;
      all := rest + {last};
    }
  }

  /** There are no more files to write than entries. */
  lemma FewMonths(months: seq<int>, entries: seq<Activity>)
    requires MonthsOf(months, entries)
    ensures |months| <= |entries|
  {
    var all := SetOf(months);
    hide HasMonth;
    forall m | m in all ensures HasMonth(entries, m) { assert m in months; }
    MonthBound(all, entries);
  }
}
