/** The timeline's arithmetic (internal/view/timeline.go): month segments with
    their Mondays, and bars as fractions of a window. */
module Timeline {
  import opened Basics
  import opened Calendar
  import Model

  const DEFAULT_MONTHS: int := 3

  /** One month of the header, clipped to the window. `name` is the month it names. */
  datatype Month = Month(name: MonthNo, start: Day, end: Day, ticks: seq<Day>)

  function DefaultWindow(today: Day): (Day, Day) {
    var start := MonthStart(MonthOf(today));
    (start, AddMonths(start, DEFAULT_MONTHS))
  }

  function ShiftWindow(w: (Day, Day), months: int): (Day, Day) {
    (AddMonths(w.0, months), AddMonths(w.1, months))
  }

  /** A whole number of weeks from January 1, 2024, which was a Monday. */
  predicate OnMonday(d: Day) { (d - NewDate(2024, 1, 1)) % 7 == 0 }

  /** The Monday on or before d. */
  function WeekStart(d: Day): (w: Day)
    ensures OnMonday(w) && w <= d < w + 7
  {
    MondayEveryWeek(AddDays(d, -((Weekday(d) + 6) % 7)));
    AddDays(d, -((Weekday(d) + 6) % 7))
  }

  // ----- month segments ------------------------------------------------------

  /** ticks are the Mondays strictly between start and end, in order. */
  ghost predicate Mondays(ticks: seq<Day>, start: Day, end: Day) {
    && (forall w :: w in ticks <==> OnMonday(w) && start < w < end)
    && (forall i, j :: 0 <= i < j < |ticks| ==> ticks[i] < ticks[j])
  }

  /** m is the part of one calendar month that lies in a window: non-empty,
      inside the month it names, with its Mondays. */
  ghost predicate Segment(m: Month) {
    && MonthStart(m.name) <= m.start < m.end <= MonthStart(m.name + 1)
    && Mondays(m.ticks, m.start, m.end)
  }

  /** The segments follow each other without gap, month after month, from `from` to `to`. */
  ghost predicate Tiles(months: seq<Month>, from: Day, to: Day) {
    && (forall i :: 0 <= i < |months| ==> Segment(months[i]))
    && (forall i :: 0 <= i < |months| - 1 ==>
          months[i].end == months[i + 1].start && months[i + 1].name == months[i].name + 1)
    && (if months == [] then from == to
        else months[0].start == from && months[|months| - 1].end == to)
  }

  method WeekTicks(segStart: Day, segEnd: Day) returns (ticks: seq<Day>)
    requires segStart < segEnd
    ensures Mondays(ticks, segStart, segEnd)
  {
    hide NewDate;
    ticks := [];
    var w := WeekStart(segStart);
    while w < segEnd
      invariant OnMonday(w) && w <= segEnd + 6
      invariant forall x :: x in ticks <==> OnMonday(x) && segStart < x < w && x < segEnd
      invariant forall i, j :: 0 <= i < j < |ticks| ==> ticks[i] < ticks[j]
      invariant forall i :: 0 <= i < |ticks| ==> ticks[i] < w
    {
      if w > segStart { ticks := ticks + [w]; }
      forall x | OnMonday(x)
        ensures !(w < x < w + 7)
      {
        NoMondayBetween(w, x);
      }
      w := AddDays(w, 7);
    }
  }

  lemma NoMondayBetween(w: Day, x: Day)
    requires OnMonday(w) && OnMonday(x)
    ensures !(w < x < w + 7)
  {
    hide NewDate;
  }

  lemma NextMonth(k: MonthNo)
    ensures MonthOf(MonthStart(k)) == k && MonthStart(k) < MonthStart(k + 1)
  {
    MonthLength(k);
    MonthUnique(MonthStart(k), k);
  }

  lemma TilesExtend(out: seq<Month>, m: Month, from: Day)
    requires Segment(m)
    requires if out == [] then m.start == from
             else Tiles(out, from, m.start) && m.name == out[|out| - 1].name + 1
    ensures Tiles(out + [m], from, m.end)
  {
    hide MonthStart;
  }

  /** The whole window is tiled, whatever its ends; an empty or inverted window gives nothing. */
  method MonthsInWindow(start: Day, end: Day) returns (out: seq<Month>)
    ensures start >= end ==> out == []
    ensures start < end ==> out != [] && Tiles(out, start, end)
  {
    hide MonthStart, MonthOf, AddMonths, Tiles, NewDate;
    out := [];
    if start >= end { return; }
    var cur := start;
    while cur < end
      invariant start <= cur
      invariant out == [] ==> cur == start
      invariant out != [] ==> Tiles(out, start, if cur < end then cur else end)
      invariant out != [] && cur < end ==> cur == MonthStart(out[|out| - 1].name + 1)
      decreases end - cur
    {
      var k := MonthOf(cur);
      var monthStart := MonthStart(k);
      var monthEnd := AddMonths(monthStart, 1);
      AddMonthsToFirst(k, 1);
      if out != [] { NextMonth(out[|out| - 1].name + 1); }
      var segStart, segEnd := cur, monthEnd;
      if segEnd > end { segEnd := end; }
      var ticks := WeekTicks(segStart, segEnd);
      TilesExtend(out, Month(k, segStart, segEnd, ticks), start);
      out := out + [Month(k, segStart, segEnd, ticks)];
      cur := monthEnd;
    }
  }

  lemma {:induction false} NamesCount(months: seq<Month>, from: Day, to: Day, i: nat)
    requires Tiles(months, from, to) && i < |months|
    ensures months[i].name == MonthOf(from) + i
  {
    if i == 0 {
      MonthUnique(from, months[0].name);
    } else {
      NamesCount(months, from, to, i - 1);
    }
  }

  /** No calendar month is repeated or left out: the i-th segment lies in the
      i-th month after the first day's, and the last one in the last day's. */
  lemma SegmentsAreMonths(months: seq<Month>, from: Day, to: Day)
    requires from < to && Tiles(months, from, to)
    ensures |months| == MonthOf(to - 1) - MonthOf(from) + 1
    ensures forall i :: 0 <= i < |months| ==> months[i].name == MonthOf(from) + i
    ensures forall i, d :: 0 <= i < |months| && months[i].start <= d < months[i].end ==> MonthOf(d) == months[i].name
  {
    hide MonthStart, MonthOf;
    forall i | 0 <= i < |months|
      ensures months[i].name == MonthOf(from) + i
    {
      NamesCount(months, from, to, i);
    }
    forall i, d | 0 <= i < |months| && months[i].start <= d < months[i].end
      ensures MonthOf(d) == months[i].name
    {
      MonthUnique(d, months[i].name);
    }
  }

  function ShiftAll(w: (Day, Day), shifts: seq<int>): (Day, Day)
    decreases |shifts|
  {
    if shifts == [] then w else ShiftAll(ShiftWindow(w, shifts[0]), shifts[1..])
  }

  function Sum(shifts: seq<int>): int { if shifts == [] then 0 else shifts[0] + Sum(shifts[1..]) }

  lemma {:induction false} ShiftedWindow(k: MonthNo, shifts: seq<int>)
    ensures ShiftAll((MonthStart(k), MonthStart(k + DEFAULT_MONTHS)), shifts)
         == (MonthStart(k + Sum(shifts)), MonthStart(k + Sum(shifts) + DEFAULT_MONTHS))
    decreases |shifts|
  {
    hide MonthStart, MonthOf, AddMonths;
    if shifts != [] {
      AddMonthsToFirst(k, shifts[0]);
      AddMonthsToFirst(k + DEFAULT_MONTHS, shifts[0]);
      ShiftedWindow(k + shifts[0], shifts[1..]);
      assert k + DEFAULT_MONTHS + shifts[0] == k + shifts[0] + DEFAULT_MONTHS;
      assert k + shifts[0] + Sum(shifts[1..]) == k + Sum(shifts);
    }
  }

  /** However it was shifted, a window that started as the default one shows
      exactly three whole months, and shifting back by as much restores it. */
  lemma ShiftedWindowHasThreeMonths(today: Day, shifts: seq<int>, months: seq<Month>)
    requires var w := ShiftAll(DefaultWindow(today), shifts); Tiles(months, w.0, w.1)
    ensures |months| == 3
    ensures ShiftAll(DefaultWindow(today), shifts).0 == MonthStart(MonthOf(today) + Sum(shifts))
    ensures forall i :: 0 <= i < |months| ==>
      && months[i].name == MonthOf(today) + Sum(shifts) + i
      && months[i].start == MonthStart(months[i].name) && months[i].end == MonthStart(months[i].name + 1)
    ensures Sum(shifts) == 0 ==> ShiftAll(DefaultWindow(today), shifts) == DefaultWindow(today)
  {
    hide MonthStart, MonthOf, AddMonths;
    var first := MonthOf(today);
    AddMonthsToFirst(first, DEFAULT_MONTHS);
    ShiftedWindow(first, shifts);
    var k := first + Sum(shifts);
    MonthsGrow(k, k + 3);
    SegmentsAreMonths(months, MonthStart(k), MonthStart(k + 3));
    NextMonth(k);
    MonthsGrow(k + 2, k + 3);
    MonthUnique(MonthStart(k + 3) - 1, k + 2);
    assert months[0].name == k && months[1].name == k + 1 && months[2].name == k + 2;
  }

  // ----- bars -------------------------------------------------------------------

  const DAY_NANOS: int := 86400 * Model.SECOND
  const HOUR_NANOS: int := 3600 * Model.SECOND
  const MAX_DURATION: int := 0x7fff_ffff_ffff_ffff
  const MIN_DURATION: int := -0x8000_0000_0000_0000

  /** The whole days a Duration can express: 106751 is about 292 years. */
  const MAX_DAYS: int := 106751

  /** `b.Sub(a)`: the difference in nanoseconds, saturated at the bounds of a Duration. */
  function Sub(b: Day, a: Day): int {
    var d := (b - a) * DAY_NANOS;
    if d > MAX_DURATION then MAX_DURATION else if d < MIN_DURATION then MIN_DURATION else d
  }

  function Truncate(x: real): int { if x >= 0.0 then x.Floor else -(-x).Floor }

  function DaysBetween(a: Day, b: Day): int {
    Truncate(Sub(b, a) as real / HOUR_NANOS as real / 24.0)
  }

  lemma TruncateQuotient(n: int, q: int)
    requires q > 0
    ensures n >= 0 ==> Truncate(n as real / q as real) == n / q
    ensures n < 0 ==> Truncate(n as real / q as real) == -((-n) / q)
  {
    FloorQuotient(if n >= 0 then n else -n, q);
    if n < 0 { assert -(n as real / q as real) == (-n) as real / q as real; }
  }

  lemma FloorQuotient(n: int, q: int)
    requires q > 0 && n >= 0
    ensures (n as real / q as real).Floor == n / q && n as real / q as real >= 0.0
  {
    var k, r := n / q, n % q;
    assert n == q * k + r;
    assert n as real == q as real * k as real + r as real;
    assert n as real / q as real == k as real + r as real / q as real;
    assert 0.0 <= r as real / q as real < 1.0;
  }

  /** DaysBetween is the exact number of days up to 292 years, and stops there. */
  lemma DaysBetweenSaturates(a: Day, b: Day)
    ensures DaysBetween(a, b) == if b - a > MAX_DAYS then MAX_DAYS else if b - a < -MAX_DAYS then -MAX_DAYS else b - a
  {
    var n := Sub(b, a);
    assert n as real / HOUR_NANOS as real / 24.0 == n as real / DAY_NANOS as real;
    TruncateQuotient(n, DAY_NANOS);
  }

  function Fraction(d: Day, winStart: Day, winEnd: Day): real {
    var total := DaysBetween(winStart, winEnd);
    if total <= 0 then 0.0
    else
      var f := DaysBetween(winStart, d) as real / total as real;
      if f < 0.0 then 0.0 else if f > 1.0 then 1.0 else f
  }

  /** The days a task covers, its end date included; None for an undated or inverted task. */
  function TaskRange(t: Model.Task): Option<(Day, Day)> {
    if t.startDate.None? || t.endDate.None? then None
    else if t.endDate.value < t.startDate.value then None
    else Some((t.startDate.value, AddDays(t.endDate.value, 1)))
  }

  datatype Bar = Bar(left: real, width: real)

  function BarSpan(winStart: Day, winEnd: Day, t: Model.Task): Option<Bar> {
    match TaskRange(t)
    case None => None
    case Some((start, end)) =>
      if start >= winEnd || end <= winStart then None
      else
        var left := Fraction(start, winStart, winEnd);
        var right := Fraction(end, winStart, winEnd);
        if right - left <= 0.0 then None else Some(Bar(left, right - left))
  }

  function Clamped(d: Day, lo: Day, hi: Day): Day { if d < lo then lo else if d > hi then hi else d }

  /** A ratio x of a to a positive total, by x * total == a. */
  lemma RatioLess(a: real, b: real, total: real, x: real, y: real)
    requires total > 0.0 && x * total == a && y * total == b
    ensures a < b <==> x < y
  {
    if x < y {
      assert (y - x) * total > 0.0;
    } else {
      assert (x - y) * total >= 0.0;
    }
  }

  lemma RatioTimesTotal(a: int, total: int)
    requires total > 0
    ensures (a as real / total as real) * total as real == a as real
  {
  }

  lemma RatioOrder(a: int, b: int, total: int)
    requires total > 0
    ensures a < b <==> a as real / total as real < b as real / total as real
    ensures a <= 0 ==> a as real / total as real <= 0.0
    ensures a >= 0 ==> a as real / total as real >= 0.0
    ensures a <= total <==> a as real / total as real <= 1.0
    ensures a == 0 ==> a as real / total as real == 0.0
    ensures a == total ==> a as real / total as real == 1.0
  {
    RatioTimesTotal(a, total);
    RatioTimesTotal(b, total);
    var t, x, y := total as real, a as real / total as real, b as real / total as real;
    RatioLess(a as real, b as real, t, x, y);
    RatioLess(a as real, 0.0, t, x, 0.0);
    RatioLess(0.0, a as real, t, 0.0, x);
    RatioLess(a as real, t, t, x, 1.0);
    RatioLess(t, a as real, t, 1.0, x);
  }

  /** Within a window of at most 292 years a fraction is the exact share of the
      window before the day, clamped to the window, however far off the day is. */
  lemma FractionIsShare(d: Day, winStart: Day, winEnd: Day)
    requires 0 < winEnd - winStart <= MAX_DAYS
    ensures Fraction(d, winStart, winEnd)
         == (Clamped(d, winStart, winEnd) - winStart) as real / (winEnd - winStart) as real
  {
    DaysBetweenSaturates(winStart, winEnd);
    DaysBetweenSaturates(winStart, d);
    var total := winEnd - winStart;
    var n := DaysBetween(winStart, d);
    RatioOrder(n, 0, total);
    RatioOrder(0, 0, total);
    RatioOrder(total, 0, total);
  }

  /** The task has both dates, in order, and its days, the end date included, meet the
      non-empty window. */
  predicate Meets(winStart: Day, winEnd: Day, t: Model.Task) {
    && t.startDate.Some? && t.endDate.Some? && t.startDate.value <= t.endDate.value
    && winStart < winEnd && t.startDate.value < winEnd && winStart <= t.endDate.value
  }

  /** The bar of a task: there is one exactly when its days meet the window and start less
      than 292 years into it; it lies within the window and has a positive width. */
  lemma BarExists(winStart: Day, winEnd: Day, t: Model.Task)
    ensures BarSpan(winStart, winEnd, t).Some? <==>
      Meets(winStart, winEnd, t) && t.startDate.value - winStart < MAX_DAYS
    ensures BarSpan(winStart, winEnd, t).Some? ==>
      var bar := BarSpan(winStart, winEnd, t).value; 0.0 <= bar.left && bar.width > 0.0 && bar.left + bar.width <= 1.0
  {
    if TaskRange(t).Some? {
      var (start, end) := TaskRange(t).value;
      DaysBetweenSaturates(winStart, winEnd);
      DaysBetweenSaturates(winStart, start);
      DaysBetweenSaturates(winStart, end);
      var total := DaysBetween(winStart, winEnd);
      if total > 0 {
        RatioOrder(DaysBetween(winStart, start), DaysBetween(winStart, end), total);
        RatioOrder(DaysBetween(winStart, end), 0, total);
        RatioOrder(DaysBetween(winStart, start), 0, total);
        RatioOrder(DaysBetween(winStart, start), total, total);
        RatioOrder(total, 0, total);
      }
    }
  }

  /** In a window of at most 292 years the bar's edges are the exact shares of the window
      before the start date, and up to and including the end date. */
  lemma BarIsExact(winStart: Day, winEnd: Day, t: Model.Task)
    requires winEnd - winStart <= MAX_DAYS
    ensures BarSpan(winStart, winEnd, t).Some? <==> Meets(winStart, winEnd, t)
    ensures BarSpan(winStart, winEnd, t).Some? ==>
      var first, last := t.startDate.value, t.endDate.value;
      var bar := BarSpan(winStart, winEnd, t).value;
      var total := (winEnd - winStart) as real;
      && bar.left == (if first <= winStart then 0.0 else (first - winStart) as real / total)
      && bar.left + bar.width == (if last >= winEnd then 1.0 else (last + 1 - winStart) as real / total)
  {
    BarExists(winStart, winEnd, t);
    if BarSpan(winStart, winEnd, t).Some? {
      FractionIsShare(t.startDate.value, winStart, winEnd);
      FractionIsShare(t.endDate.value + 1, winStart, winEnd);
      RatioOrder(0, 0, winEnd - winStart);
      RatioOrder(winEnd - winStart, 0, winEnd - winStart);
      hide Fraction;
    }
  }

  /** A task whose days meet the window is dropped only in windows beyond 292 years. */
  lemma BarLostInHugeWindow(winStart: Day, t: Model.Task, day: Day)
    requires day - winStart >= MAX_DAYS && t.startDate == Some(day) && t.endDate == Some(day)
    ensures BarSpan(winStart, day + 1, t).None?
  {
    BarExists(winStart, day + 1, t);
  }

  // ----- rows --------------------------------------------------------------------

  datatype Row = Row(task: Model.Task, bar: Bar)

  /** The rows of the tasks that have a bar, in the order of the tasks. */
  function RowsOf(tasks: seq<Model.Task>, winStart: Day, winEnd: Day): seq<Row> {
    if tasks == [] then []
    else
      var t := tasks[|tasks| - 1];
      var bar := BarSpan(winStart, winEnd, t);
      RowsOf(tasks[..|tasks| - 1], winStart, winEnd) + (if bar.Some? then [Row(t, bar.value)] else [])
  }

  method TimelineRows(tasks: seq<Model.Task>, winStart: Day, winEnd: Day) returns (out: seq<Row>)
    ensures out == RowsOf(tasks, winStart, winEnd)
  {
    out := [];
    for i := 0 to |tasks|
      invariant out == RowsOf(tasks[..i], winStart, winEnd)
    {
      assert tasks[..i + 1][..i] == tasks[..i];
      var bar := BarSpan(winStart, winEnd, tasks[i]);
      if bar.Some? { out := out + [Row(tasks[i], bar.value)]; }
    }
    assert tasks[..|tasks|] == tasks;
  }

  /** The i-th row is the bar of the task at position at[i]. */
  ghost predicate RowAt(tasks: seq<Model.Task>, winStart: Day, winEnd: Day, row: Row, k: nat) {
    k < |tasks| && row.task == tasks[k] && BarSpan(winStart, winEnd, tasks[k]) == Some(row.bar)
  }

  /** Which tasks have a row, and in which order: rows are the images of a strictly
      increasing choice of positions that takes every task with a bar. */
  lemma {:induction false} RowsKeepOrder(tasks: seq<Model.Task>, winStart: Day, winEnd: Day) returns (at: seq<nat>)
    ensures var rows := RowsOf(tasks, winStart, winEnd);
      && |at| == |rows|
      && (forall i, j :: 0 <= i < j < |at| ==> at[i] < at[j])
      && (forall i :: 0 <= i < |at| ==> RowAt(tasks, winStart, winEnd, rows[i], at[i]))
    ensures forall k :: 0 <= k < |tasks| && BarSpan(winStart, winEnd, tasks[k]).Some? ==> k in at
  {
    hide BarSpan;
    if tasks == [] { return []; }
    var n := |tasks| - 1;
    var front, last := tasks[..n], tasks[n];
    var rows, before := RowsOf(tasks, winStart, winEnd), RowsOf(front, winStart, winEnd);
    var at0 := RowsKeepOrder(front, winStart, winEnd);
    forall i | 0 <= i < |at0|
      ensures RowAt(tasks, winStart, winEnd, rows[i], at0[i]) && at0[i] < n
    {
      assert RowAt(front, winStart, winEnd, before[i], at0[i]);
    }
    assert forall k :: 0 <= k < n ==> tasks[k] == front[k];
    if BarSpan(winStart, winEnd, last).Some? {
      at := at0 + [n];
      assert RowAt(tasks, winStart, winEnd, rows[|at0|], n);
      assert at[|at0|] == n;
      assert forall k :: k in at0 ==> k in at;
    } else {
      at := at0;
    }
  }
}
