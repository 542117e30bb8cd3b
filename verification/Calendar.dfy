/** The proleptic Gregorian calendar behind `model.Date`: a date is a day number
    (day 0 is Monday, January 1 of year 1) and a month is the number
    12 * year + month - 1. */
module Calendar {

  type Day = int
  type MonthNo = int

  predicate Leap(y: int) { y % 4 == 0 && (y % 100 != 0 || y % 400 == 0) }

  /** The day number of January 1 of year y. */
  function YearStart(y: int): Day {
    365 * (y - 1) + (y - 1) / 4 - (y - 1) / 100 + (y - 1) / 400
  }

  /** Days of year y before its month m (0 is January, 12 the whole year):
      0, 31, 59 or 60, 90 or 91, ... */
  function DaysBefore(y: int, m: int): int {
    (367 * m + 5) / 12 - (if m < 2 then 0 else if Leap(y) then 1 else 2)
  }

  /** The days of a month of year y (0 is January). */
  function MonthDays(y: int, m: int): int
    requires 0 <= m < 12
  {
    [31, if Leap(y) then 29 else 28, 31, 30, 31, 30, 31, 31, 30, 31, 30, 31][m]
  }

  /** The formula is the table of month lengths. */
  lemma MonthLengths(y: int, m: int)
    requires 0 <= m < 12
    ensures DaysBefore(y, m + 1) - DaysBefore(y, m) == MonthDays(y, m)
  {
    assert m < 6 ==> DaysBefore(y, m + 1) - DaysBefore(y, m) == MonthDays(y, m);
  }

  function MonthStart(k: MonthNo): Day { YearStart(k / 12) + DaysBefore(k / 12, k % 12) }

  /** `time.Date(year, month, day)` in UTC: months and days out of range carry over. */
  function NewDate(year: int, month: int, day: int): Day { MonthStart(12 * year + month - 1) + day - 1 }

  lemma DivStep(y: int, k: int)
    requires k > 1
    ensures y / k - (y - 1) / k == if y % k == 0 then 1 else 0
  {
    assert y == k * (y / k) + y % k && y - 1 == k * ((y - 1) / k) + (y - 1) % k;
    assert k * (y / k - (y - 1) / k) == 1 + (y - 1) % k - y % k;
    var q := y / k - (y - 1) / k;
    assert -k < k * q < k + 1;
    assert q == 0 || q == 1 by {
      assert q >= 2 ==> k * q >= 2 * k;
      assert q <= -1 ==> k * q <= -k;
    }
  }

  lemma YearLength(y: int)
    ensures YearStart(y + 1) == YearStart(y) + (if Leap(y) then 366 else 365)
  {
    DivStep(y, 4);
    DivStep(y, 100);
    DivStep(y, 400);
  }

  lemma MonthParts(y: int, m: int)
    requires 0 <= m < 12
    ensures (12 * y + m) / 12 == y && (12 * y + m) % 12 == m
  {
  }

  /** A month starts after the days before it. */
  lemma MonthStarts(y: int, m: int)
    requires 0 <= m <= 12
    ensures MonthStart(12 * y + m) == YearStart(y) + DaysBefore(y, m)
  {
    if m < 12 {
      MonthParts(y, m);
    } else {
      MonthParts(y + 1, 0);
      YearLength(y);
      hide YearStart;
    }
  }

  lemma MonthLength(k: MonthNo)
    ensures MonthStart(k + 1) == MonthStart(k) + MonthDays(k / 12, k % 12)
    ensures 28 <= MonthStart(k + 1) - MonthStart(k) <= 31
  {
    var y, m := k / 12, k % 12;
    assert k == 12 * y + m;
    MonthStarts(y, m);
    MonthStarts(y, m + 1);
    MonthLengths(y, m);
    hide MonthStart, YearStart, DaysBefore, Leap;
  }

  predicate Step(f: int -> int, k: int) { 28 <= f(k + 1) - f(k) <= 31 }

  /** A function that rises by 28 to 31 at each step. */
  ghost predicate Climbs(f: int -> int) { forall k :: Step(f, k) }

  lemma {:induction false} ClimbsFar(f: int -> int, k: int, j: int)
    requires Climbs(f) && k <= j
    ensures f(j) - f(k) >= 28 * (j - k)
    decreases j - k
  {
    if k < j {
      ClimbsFar(f, k, j - 1);
      assert Step(f, j - 1);
    }
  }

  lemma BracketUnique(f: int -> int, d: int, k: int, j: int)
    requires Climbs(f) && f(k) <= d < f(k + 1) && f(j) <= d < f(j + 1)
    ensures k == j
  {
    if k < j { ClimbsFar(f, k + 1, j); }
    if j < k { ClimbsFar(f, j + 1, k); }
  }

  ghost function Months(): int -> int { k => MonthStart(k) }

  lemma MonthsClimb()
    ensures Climbs(Months())
  {
    hide MonthStart, MonthDays;
    forall k: int
      ensures Step(Months(), k)
    {
      MonthLength(k);
    }
  }

  lemma MonthsGrow(k: MonthNo, j: MonthNo)
    requires k <= j
    ensures MonthStart(j) - MonthStart(k) >= 28 * (j - k)
  {
    hide MonthStart;
    MonthsClimb();
    ClimbsFar(Months(), k, j);
  }

  /** The year of a day: whole cycles of 400, 100, 4 and 1 years. */
  function YearOf(d: Day): (y: int)
    ensures YearStart(y) <= d < YearStart(y + 1)
  {
    var a, r := d / 146097, d % 146097;
    var b := if r / 36524 == 4 then 3 else r / 36524;
    var r1 := r - 36524 * b;
    var c, r2 := r1 / 1461, r1 % 1461;
    var e := if r2 / 365 == 4 then 3 else r2 / 365;
    CycleStart(a, b, c, e);
    var y := 400 * a + 100 * b + 4 * c + e + 1;
    YearLength(y);
    CycleLeap(a, b, c, e);
    y
  }

  lemma CycleStart(a: int, b: int, c: int, e: int)
    requires 0 <= b < 4 && 0 <= c < 25 && 0 <= e < 4
    ensures YearStart(400 * a + 100 * b + 4 * c + e + 1) == 146097 * a + 36524 * b + 1461 * c + 365 * e
  {
    var y := 400 * a + 100 * b + 4 * c + e;
    assert y / 4 == 100 * a + 25 * b + c;
    assert y / 100 == 4 * a + b;
    assert y / 400 == a;
  }

  lemma CycleLeap(a: int, b: int, c: int, e: int)
    requires 0 <= b < 4 && 0 <= c < 25 && 0 <= e < 4
    ensures Leap(400 * a + 100 * b + 4 * c + e + 1) <==> e == 3 && (c != 24 || b == 3)
  {
  }

  function MonthInYear(y: int, n: int): (m: int)
    requires 0 <= n < (if Leap(y) then 366 else 365)
    ensures 0 <= m < 12 && DaysBefore(y, m) <= n < DaysBefore(y, m + 1)
  {
    if n < DaysBefore(y, 1) then 0 else if n < DaysBefore(y, 2) then 1 else if n < DaysBefore(y, 3) then 2
    else if n < DaysBefore(y, 4) then 3 else if n < DaysBefore(y, 5) then 4 else if n < DaysBefore(y, 6) then 5
    else if n < DaysBefore(y, 7) then 6 else if n < DaysBefore(y, 8) then 7 else if n < DaysBefore(y, 9) then 8
    else if n < DaysBefore(y, 10) then 9 else if n < DaysBefore(y, 11) then 10 else 11
  }

  /** The month a day lies in. */
  function MonthOf(d: Day): (k: MonthNo)
    ensures MonthStart(k) <= d < MonthStart(k + 1)
  {
    hide MonthStart;
    var y := YearOf(d);
    YearLength(y);
    var m := MonthInYear(y, d - YearStart(y));
    MonthStarts(y, m);
    MonthStarts(y, m + 1);
    12 * y + m
  }

  lemma MonthUnique(d: Day, k: MonthNo)
    requires MonthStart(k) <= d < MonthStart(k + 1)
    ensures MonthOf(d) == k
  {
    hide MonthStart, MonthOf;
    MonthsClimb();
    BracketUnique(Months(), d, MonthOf(d), k);
  }

  lemma DayOfMonth(k: MonthNo, d: int)
    ensures MonthOf(MonthStart(k) + d - 1) == k <==> 1 <= d <= MonthStart(k + 1) - MonthStart(k)
  {
    hide MonthStart, MonthOf;
    var day := MonthStart(k) + d - 1;
    if MonthStart(k) <= day < MonthStart(k + 1) { MonthUnique(day, k); }
  }

  lemma LengthOfMonth(y: int, m: int, k: MonthNo)
    requires 0 <= m < 12 && k == 12 * y + m
    ensures MonthStart(k + 1) - MonthStart(k) == MonthDays(y, m)
  {
    hide MonthStart, MonthDays;
    MonthParts(y, m);
    MonthLength(k);
  }

  /** A date lies in the month it was made with exactly when the month has that day;
      otherwise the day carries over. */
  lemma DateInItsMonth(y: int, m: int, d: int)
    requires 1 <= m <= 12
    ensures MonthOf(NewDate(y, m, d)) == 12 * y + m - 1 <==> 1 <= d <= MonthDays(y, m - 1)
  {
    hide MonthStart, MonthOf, MonthDays;
    LengthOfMonth(y, m - 1, 12 * y + m - 1);
    DayOfMonth(12 * y + m - 1, d);
  }

  /** Every day is the date of exactly one year, month and day of the month. */
  lemma EveryDayIsADate(day: Day, y: int, m: int, d: int)
    requires 1 <= m <= 12
    ensures NewDate(y, m, d) == day && 1 <= d <= MonthDays(y, m - 1)
       <==> 12 * y + m - 1 == MonthOf(day) && d == day - MonthStart(MonthOf(day)) + 1
  {
    hide MonthStart, MonthOf, MonthDays;
    DateInItsMonth(y, m, d);
    LengthOfMonth(y, m - 1, 12 * y + m - 1);
  }

  function AddDays(d: Day, n: int): Day { d + n }

  /** `AddDate(0, n, 0)`: the same day n months later, carried over when that
      month is too short. */
  function AddMonths(d: Day, n: int): Day {
    var k := MonthOf(d);
    MonthStart(k + n) + (d - MonthStart(k))
  }

  lemma AddMonthsToFirst(k: MonthNo, n: int)
    ensures AddMonths(MonthStart(k), n) == MonthStart(k + n)
  {
    MonthLength(k);
    MonthUnique(MonthStart(k), k);
  }

  /** The same day of the month, n months later; a day that the month lacks carries over. */
  lemma AddMonthsToDate(y: int, m: int, d: int, n: int)
    requires 1 <= m <= 12 && 1 <= d <= MonthDays(y, m - 1)
    ensures AddMonths(NewDate(y, m, d), n) == NewDate(y, m + n, d)
  {
    hide MonthStart, MonthOf, MonthDays;
    DateInItsMonth(y, m, d);
    assert 12 * y + m - 1 + n == 12 * y + (m + n) - 1;
  }

  /** Going n months on and n months back returns to the same day exactly when
      the month in between has that day. */
  lemma AddMonthsBack(d: Day, n: int)
    ensures AddMonths(AddMonths(d, n), -n) == d
       <==> d - MonthStart(MonthOf(d)) < MonthStart(MonthOf(d) + n + 1) - MonthStart(MonthOf(d) + n)
  {
    hide MonthStart, MonthOf;
    MonthsClimb();
    ThereAndBack(Months(), d, MonthOf(d), n, AddMonths(d, n), MonthOf(AddMonths(d, n)));
  }

  lemma ThereAndBack(f: int -> int, d: int, k: int, n: int, e: int, j: int)
    requires Climbs(f)
    requires f(k) <= d < f(k + 1) && e == f(k + n) + (d - f(k)) && f(j) <= e < f(j + 1)
    ensures f(j - n) + (e - f(j)) == d <==> d - f(k) < f(k + n + 1) - f(k + n)
  {
    assert Step(f, k) && Step(f, k + n) && Step(f, k + n + 1);
    if d - f(k) < f(k + n + 1) - f(k + n) {
      BracketUnique(f, e, j, k + n);
    } else {
      BracketUnique(f, e, j, k + n + 1);
      assert j - n == k + 1;
    }
  }

  /** `time.Weekday`: Sunday is 0. */
  function Weekday(d: Day): int { (d + 1) % 7 }

  predicate IsMonday(d: Day) { Weekday(d) == 1 }

  // ----- the calendar against what is known of it -------------------------------------

  lemma DateParts(y: int, m: int, d: int)
    requires 1 <= m <= 13
    ensures NewDate(y, m, d) == YearStart(y) + DaysBefore(y, m - 1) + d - 1
  {
    MonthStarts(y, m - 1);
    hide MonthStart, YearStart, DaysBefore;
  }

  /** Days that everybody can look up: the start of Unix time and of 2024. */
  lemma KnownDates()
    ensures NewDate(1, 1, 1) == 0 && NewDate(1970, 1, 1) == 719162 && NewDate(2024, 1, 1) == 738885
  {
    hide MonthStart, NewDate;
    DateParts(1, 1, 1);
    DateParts(1970, 1, 1);
    DateParts(2024, 1, 1);
  }

  /** February in a leap century and in an ordinary one. */
  lemma KnownFebruaries()
    ensures NewDate(2000, 3, 1) - NewDate(2000, 2, 1) == 29 && NewDate(1900, 3, 1) - NewDate(1900, 2, 1) == 28
  {
    hide MonthStart, NewDate, YearStart;
    DateParts(2000, 2, 1);
    DateParts(2000, 3, 1);
    DateParts(1900, 2, 1);
    DateParts(1900, 3, 1);
  }

  lemma By4(y: int)
    ensures (y + 400) / 4 == y / 4 + 100 && (y + 400) % 4 == y % 4
  {
  }

  lemma By100(y: int)
    ensures (y + 400) / 100 == y / 100 + 4 && (y + 400) % 100 == y % 100
  {
  }

  lemma By400(y: int)
    ensures (y + 400) / 400 == y / 400 + 1 && (y + 400) % 400 == y % 400
  {
  }

  lemma LeapRepeats(y: int)
    ensures Leap(y + 400) == Leap(y) && YearStart(y + 400) == YearStart(y) + 146097
  {
    assert Leap(y + 400) == Leap(y) by {
      By4(y);
      By100(y);
      By400(y);
    }
    assert y + 400 - 1 == (y - 1) + 400;
    By4(y - 1);
    By100(y - 1);
    By400(y - 1);
    hide Leap;
  }

  lemma Weeks(d: int, n: int)
    ensures (d + 7 * n) % 7 == d % 7
  {
  }

  /** Every 400 years the calendar repeats, after 146097 days, which are whole weeks. */
  lemma FourCenturies(y: int, m: int, d: int)
    requires 1 <= m <= 12
    ensures NewDate(y + 400, m, d) == NewDate(y, m, d) + 146097
    ensures Weekday(NewDate(y + 400, m, d)) == Weekday(NewDate(y, m, d))
  {
    DateParts(y, m, d);
    DateParts(y + 400, m, d);
    LeapRepeats(y);
    hide MonthStart, YearStart, Leap, NewDate;
    Weeks(NewDate(y, m, d) + 1, 20871);
  }

  lemma LeapDaysBefore(y: int)
    ensures (y / 4 - y / 100 + y / 400) - ((y - 1) / 4 - (y - 1) / 100 + (y - 1) / 400) == if Leap(y) then 1 else 0
  {
    DivStep(y, 4);
    DivStep(y, 100);
    DivStep(y, 400);
  }

  /** How far the months before it, from March on, shift the day of the week. */
  lemma MonthShift(m: int)
    requires 3 <= m <= 12
    ensures (367 * (m - 1) + 5) / 12 == 13 * (m + 1) / 5 + 9 + 7 * (4 * m - 6)
  {
  }

  /** Zeller's rule: the months are counted from 3 for March to 14 for the February after. */
  function Zeller(y: int, m: int, d: int): int { d + 13 * (m + 1) / 5 + y + y / 4 - y / 100 + y / 400 }

  lemma ZellerShift(y: int, m: int, d: int)
    requires 3 <= m <= 14
    ensures NewDate(y, m, d) + 1 == Zeller(y, m, d) + 6 + 7 * (52 * y + 4 * m - 58)
  {
    if m <= 12 {
      DateParts(y, m, d);
      LeapDaysBefore(y);
      MonthShift(m);
      hide NewDate, Leap;
    } else {
      DateParts(y + 1, m - 12, d);
      assert NewDate(y, m, d) == NewDate(y + 1, m - 12, d) by { assert 12 * y + m - 1 == 12 * (y + 1) + (m - 12) - 1; }
      hide NewDate, Leap;
    }
  }

  /** The day of the week of any date, Sunday 0 to Saturday 6. */
  lemma WeekdayOfDate(y: int, m: int, d: int)
    requires 3 <= m <= 14
    ensures Weekday(NewDate(y, m, d)) == (Zeller(y, m, d) + 6) % 7
  {
    hide NewDate, Zeller;
    ZellerShift(y, m, d);
    Weeks(Zeller(y, m, d) + 6, 52 * y + 4 * m - 58);
  }

  /** Mondays are the days a whole number of weeks from January 1, 2024. */
  lemma MondayEveryWeek(d: Day)
    ensures IsMonday(d) <==> (d - NewDate(2024, 1, 1)) % 7 == 0
  {
    hide NewDate;
    KnownDates();
  }
}
