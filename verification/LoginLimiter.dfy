/** The limiter of failed logins (sessions.go:127-193, auth_server.go:44-60). */
module LoginLimiter {
  import opened Basics
  import opened Model

  const MAX_FAILURES: nat := 10
  const WINDOW: int := 15 * 60 * SECOND

  // ----- as functions on lists of times -------------------------------------------------

  /** The times after the cut, in order. */
  function Kept(times: seq<Time>, cut: Time): seq<Time> {
    if times == [] then []
    else
      var k := |times| - 1;
      Kept(times[..k], cut) + (if times[k] > cut then [times[k]] else [])
  }

  lemma {:induction false} KeptBounds(times: seq<Time>, cut: Time)
    ensures |Kept(times, cut)| <= |times|
    ensures forall t :: t in Kept(times, cut) <==> t in times && t > cut
  {
    if times != [] { KeptBounds(times[..|times| - 1], cut); }
  }

  lemma KeptNext(times: seq<Time>, t: Time, cut: Time)
    ensures Kept(times + [t], cut) == Kept(times, cut) + (if t > cut then [t] else [])
  {
    assert (times + [t])[..|times|] == times;
  }

  /** Filtering again with a later cut forgets the earlier one. */
  lemma {:induction false} KeptTwice(times: seq<Time>, cut: Time, later: Time)
    requires cut <= later
    ensures Kept(Kept(times, cut), later) == Kept(times, later)
    ensures |Kept(times, later)| <= |Kept(times, cut)|
  {
    if times != [] {
      var k := |times| - 1;
      KeptTwice(times[..k], cut, later);
      if times[k] > cut {
        KeptNext(Kept(times[..k], cut), times[k], later);
      } else {
        assert Kept(times, cut) == Kept(times[..k], cut);
      }
    }
  }

  // ----- the limiter ----------------------------------------------------------------------

  /** A slice: an array and how much of it is used. */
  datatype Slice = Slice(data: array<Time>, len: nat)

  type Book = map<string, seq<Time>>

  function Times(book: Book, email: string): seq<Time> { if email in book then book[email] else [] }

  ghost function Arrays(failures: map<string, Slice>): set<object> {
    set e | e in failures :: failures[e].data as object
  }

  /** No two accounts share an array. */
  ghost predicate Separate(failures: map<string, Slice>) {
    && (forall e :: e in failures ==> failures[e].len <= failures[e].data.Length)
    && (forall e, f :: e in failures && f in failures && failures[e].data == failures[f].data ==> e == f)
  }

  function Used(s: Slice): seq<Time>
    reads s.data
  {
    if s.len <= s.data.Length then s.data[..s.len] else []
  }

  ghost function Booked(failures: map<string, Slice>): Book
    reads Arrays(failures)
  {
    map e | e in failures :: assert failures[e].data as object in Arrays(failures); Used(failures[e])
  }

  lemma BookedWith(failures: map<string, Slice>, email: string, s: Slice)
    ensures Booked(failures[email := s]) == Booked(failures)[email := Used(s)]
    ensures Arrays(failures[email := s]) <= Arrays(failures) + {s.data}
    ensures Separate(failures) && s.len <= s.data.Length
            && (s.data !in Arrays(failures) || (email in failures && failures[email].data == s.data)) ==>
      Separate(failures[email := s])
  {
    forall e | e in failures
      ensures failures[e].data as object in Arrays(failures)
    {
    }
  }

  lemma BookedWithout(failures: map<string, Slice>, email: string)
    ensures Booked(failures - {email}) == Booked(failures) - {email}
    ensures Arrays(failures - {email}) <= Arrays(failures)
    ensures Separate(failures) ==> Separate(failures - {email})
  {
    forall e | e in failures
      ensures failures[e].data as object in Arrays(failures)
    {
    }
  }

  lemma ArraysAllocated(failures: map<string, Slice>)
    ensures forall o :: o in Arrays(failures) ==> allocated(o)
  {
  }

  class Limiter {
    var failures: map<string, Slice>

    ghost predicate Valid()
      reads this
    {
      Separate(failures)
    }

    ghost function View(): Book
      reads this, Arrays(failures)
    {
      Booked(failures)
    }

    constructor ()
      ensures Valid() && View() == map[] && Arrays(failures) == {}
    {
      failures := map[];
    }

    /** Filters the failures of the account in their own array: exactly those in
        the window stay, in order, and no other account is touched. */
    method Allowed(email: string, now: Time) returns (ok: bool)
      requires Valid()
      modifies this, Arrays(failures)
      ensures Valid() && Arrays(failures) <= old(Arrays(failures))
      ensures var kept := Kept(Times(old(View()), email), now - WINDOW);
        && (ok <==> |kept| < MAX_FAILURES)
        && View() == if kept == [] then old(View()) - {email} else old(View())[email := kept]
    {
      if email !in failures {
        assert old(View()) - {email} == old(View());
        return true;
      }
      hide Kept;
      var n := FilterEntry(email, now - WINDOW);
      Shorten(email, n);
      ok := n < MAX_FAILURES;
    }

    /** Stores the first n entries of the account's array, or drops the account. */
    method Shorten(email: string, n: nat)
      requires Valid() && email in failures && n <= failures[email].len
      modifies this
      ensures Valid() && Arrays(failures) <= old(Arrays(failures))
      ensures View() == if n == 0 then old(View()) - {email} else old(View())[email := old(failures[email].data[..n])]
    {
      var data := failures[email].data;
      var next := if n == 0 then failures - {email} else failures[email := Slice(data, n)];
      assert data as object in Arrays(failures) && Used(Slice(data, n)) == data[..n];
      if n == 0 { BookedWithout(failures, email); } else { BookedWith(failures, email, Slice(data, n)); }
      assert Separate(next) && Arrays(next) <= Arrays(failures);
      assert this !in Arrays(next);
      hide Separate, Booked, Arrays, Used;
      failures := next;
    }

    method FilterEntry(email: string, cut: Time) returns (n: nat)
      requires Valid() && email in failures
      modifies failures[email].data
      ensures n <= failures[email].len
      ensures var kept := Kept(Times(old(View()), email), cut);
        failures[email].data[..n] == kept && View()[email := kept] == old(View())[email := kept]
        && View() - {email} == old(View()) - {email}
    {
      var s := failures[email];
      n := FilterInPlace(s.data, s.len, cut);
      forall e | e in failures && e != email
        ensures Used(failures[e]) == old(Used(failures[e]))
      {
      }
    }

    static method FilterInPlace(a: array<Time>, len: nat, cut: Time) returns (n: nat)
      requires len <= a.Length
      modifies a
      ensures n <= len && a[..n] == Kept(old(a[..len]), cut)
    {
      ghost var was := a[..len];
      n := 0;
      for i := 0 to len
        invariant n <= i && a[..n] == Kept(was[..i], cut)
        invariant a[i..len] == was[i..]
      {
        var t := a[i];
        assert t == was[i];
        assert was[..i + 1] == was[..i] + [t];
        KeptNext(was[..i], t, cut);
        if t > cut {
          assert a[i + 1..len] == was[i + 1..];
          a[n] := t;
          n := n + 1;
          assert a[..n] == Kept(was[..i], cut) + [t];
        }
      }
      assert was[..len] == was;
    }

    method RecordFailure(email: string, now: Time)
      requires Valid()
      modifies this, Arrays(failures)
      ensures Valid() && (forall o :: o in Arrays(failures) ==> o in old(Arrays(failures)) || fresh(o))
      ensures View() == old(View())[email := Times(old(View()), email) + [now]]
    {
      ghost var was := failures;
      var s := OneMore(email, now);
      BookedWith(was, email, s);
      assert this !in Arrays(was) + {s.data};
      hide Separate, Booked, Arrays, Used;
      failures := failures[email := s];
    }

    /** The failures of the account with one more, in its array or in a new one. */
    method OneMore(email: string, now: Time) returns (s: Slice)
      requires Valid()
      modifies Arrays(failures)
      ensures View() == old(View())
      ensures s.len <= s.data.Length && Used(s) == Times(View(), email) + [now]
      ensures s.data as object !in Arrays(failures) || (email in failures && failures[email].data == s.data)
      ensures s.data as object in Arrays(failures) || fresh(s.data)
    {
      ArraysAllocated(failures);
      if email in failures {
        assert failures[email].data as object in Arrays(failures);
        hide Separate, Booked, Arrays;
        s := NextFailure(email, now);
      } else {
        hide Separate, Booked, Arrays;
        s := FirstFailure(now);
      }
    }

    static method FirstFailure(now: Time) returns (s: Slice)
      ensures fresh(s.data) && s.len <= s.data.Length && Used(s) == [now]
    {
      var first := new Time[1](_ => now);
      s := Slice(first, 1);
    }

    /** append: in place where there is room, else into a larger array. */
    method NextFailure(email: string, t: Time) returns (r: Slice)
      requires Valid() && email in failures
      modifies failures[email].data
      ensures View() == old(View())
      ensures r.len <= r.data.Length && (r.data == failures[email].data || fresh(r.data))
      ensures Used(r) == Times(View(), email) + [t]
    {
      var s := failures[email];
      if s.len < s.data.Length {
        s.data[s.len] := t;
        r := Slice(s.data, s.len + 1);
      } else {
        var grown := new Time[2 * s.len + 1](_ => t);
        forall i | 0 <= i < s.len { grown[i] := s.data[i]; }
        r := Slice(grown, s.len + 1);
      }
      assert Used(r) == old(Used(s)) + [t];
      assert Used(s) == old(Used(s));
      forall e | e in failures && e != email
        ensures Used(failures[e]) == old(Used(failures[e]))
      {
      }
    }

    method RecordSuccess(email: string)
      requires Valid()
      modifies this
      ensures Valid() && Arrays(failures) <= old(Arrays(failures))
      ensures View() == old(View()) - {email}
    {
      failures := failures - {email};
    }
  }

  // ----- logins over time -------------------------------------------------------------------

  /** One account: what the limiter has stored, all failures since the last
      success, and how many logins have passed the check and not yet ended. */
  datatype Account = Account(stored: seq<Time>, history: seq<Time>, pending: nat, checked: Time, clock: Time)

  datatype Event = Check(now: Time) | Fail(now: Time) | Succeed(now: Time)

  predicate Passes(a: Account, now: Time) { |Kept(a.stored, now - WINDOW)| < MAX_FAILURES }

  /** The clock does not go back, only logins that passed the check end, and no
      more than `limit` of them overlap. */
  predicate Possible(limit: nat, a: Account, e: Event) {
    a.clock <= e.now
    && match e
       case Check(now) => Passes(a, now) ==> a.pending < limit
       case _ => a.pending > 0
  }

  function After(a: Account, e: Event): Account {
    match e
    case Check(now) =>
      a.(stored := Kept(a.stored, now - WINDOW), pending := if Passes(a, now) then a.pending + 1 else a.pending,
         checked := now, clock := now)
    case Fail(now) =>
      a.(stored := a.stored + [now], history := a.history + [now],
         pending := if a.pending > 0 then a.pending - 1 else 0, clock := now)
    case Succeed(now) =>
      a.(stored := [], history := [], pending := if a.pending > 0 then a.pending - 1 else 0, clock := now)
  }

  ghost predicate History(limit: nat, a: Account, events: seq<Event>)
    decreases |events|
  {
    events == [] || (Possible(limit, a, events[0]) && History(limit, After(a, events[0]), events[1..]))
  }

  function Ends(a: Account, events: seq<Event>): Account
    decreases |events|
  {
    if events == [] then a else Ends(After(a, events[0]), events[1..])
  }

  function Fresh(now: Time): Account { Account([], [], 0, now, now) }

  /** The failures after `from`, up to fifteen minutes later. */
  function InWindow(times: seq<Time>, from: Time): seq<Time> {
    if times == [] then []
    else
      var k := |times| - 1;
      InWindow(times[..k], from) + (if from < times[k] <= from + 900_000_000_000 then [times[k]] else [])
  }

  ghost predicate NoneAfter(times: seq<Time>, clock: Time) { forall t :: t in times ==> t <= clock }

  ghost predicate NeverCrowded(limit: nat, times: seq<Time>) {
    forall from :: |InWindow(times, from)| <= 9 + limit
  }

  ghost predicate Throttled(limit: nat, a: Account) {
    && a.checked <= a.clock
    && NoneAfter(a.history, a.clock)
    && a.pending <= limit
    && Kept(a.history, a.checked - WINDOW) == Kept(a.stored, a.checked - WINDOW)
    && |Kept(a.history, a.checked - WINDOW)| + a.pending <= MAX_FAILURES - 1 + limit
    && NeverCrowded(limit, a.history)
  }

  lemma {:induction false} WindowIsKept(times: seq<Time>, from: Time)
    ensures |InWindow(times, from)| <= |Kept(times, from)|
  {
    if times != [] { WindowIsKept(times[..|times| - 1], from); }
  }

  lemma WindowNext(times: seq<Time>, t: Time, from: Time)
    ensures InWindow(times + [t], from) == InWindow(times, from) + (if from < t <= from + WINDOW then [t] else [])
  {
    assert (times + [t])[..|times|] == times;
  }

  lemma StillSame(history: seq<Time>, stored: seq<Time>, was: Time, cut: Time)
    requires was <= cut && Kept(history, was) == Kept(stored, was)
    ensures Kept(history, cut) == Kept(stored, cut) == Kept(Kept(stored, cut), cut)
    ensures |Kept(history, cut)| <= |Kept(history, was)|
  {
    KeptTwice(history, was, cut);
    KeptTwice(stored, was, cut);
    KeptTwice(stored, cut, cut);
  }

  lemma CheckThrottles(limit: nat, a: Account, now: Time)
    requires Throttled(limit, a) && Possible(limit, a, Check(now))
    ensures Throttled(limit, After(a, Check(now)))
  {
    var cut := now - WINDOW;
    StillSame(a.history, a.stored, a.checked - WINDOW, cut);
    Later(a.history, a.clock, now);
    CheckedAfter(a, now);
    hide Kept, NeverCrowded, NoneAfter, After;
    if |Kept(a.stored, cut)| < MAX_FAILURES {
      assert a.pending < limit;
    }
  }

  lemma CheckedAfter(a: Account, now: Time)
    ensures var kept := Kept(a.stored, now - WINDOW);
      After(a, Check(now))
      == Account(kept, a.history, if |kept| < MAX_FAILURES then a.pending + 1 else a.pending, now, now)
  {
    hide Kept;
  }

  lemma Later(times: seq<Time>, clock: Time, now: Time)
    requires NoneAfter(times, clock) && clock <= now
    ensures NoneAfter(times, now)
  {
  }

  lemma FailThrottles(limit: nat, a: Account, now: Time)
    requires Throttled(limit, a) && Possible(limit, a, Fail(now))
    ensures Throttled(limit, After(a, Fail(now)))
  {
    var cut, more := a.checked - WINDOW, a.history + [now];
    KeptNext(a.history, now, cut);
    KeptNext(a.stored, now, cut);
    forall from
      ensures |InWindow(more, from)| <= MAX_FAILURES - 1 + limit
    {
      WindowNext(a.history, now, from);
      if from < now <= from + WINDOW {
        WindowIsKept(more, from);
        KeptTwice(more, cut, from);
      }
    }
  }

  lemma EventThrottles(limit: nat, a: Account, e: Event)
    requires Throttled(limit, a) && Possible(limit, a, e)
    ensures Throttled(limit, After(a, e))
  {
    match e
    case Check(now) => CheckThrottles(limit, a, now);
    case Fail(now) => FailThrottles(limit, a, now);
    case Succeed(now) =>
  }

  lemma {:induction false} EventsThrottle(limit: nat, a: Account, events: seq<Event>)
    requires Throttled(limit, a) && History(limit, a, events)
    ensures Throttled(limit, Ends(a, events))
    decreases |events|
  {
    hide Throttled;
    if events != [] {
      EventThrottles(limit, a, events[0]);
      EventsThrottle(limit, After(a, events[0]), events[1..]);
    }
  }

  /** However logins are spread over time, no window of fifteen minutes holds more
      than ten failures of an account since its last success when logins come one
      after another, and at most one more for each login that may overlap. */
  lemma AtMostTenFailures(limit: nat, start: Time, events: seq<Event>, from: Time)
    requires History(limit, Fresh(start), events)
    ensures |InWindow(Ends(Fresh(start), events).history, from)| <= MAX_FAILURES - 1 + limit
  {
    EventsThrottle(limit, Fresh(start), events);
  }

  // ----- the bound is met ---------------------------------------------------------------------

  /** n logins one after another, all at once, each failing before the next begins. */
  function Serial(n: nat, now: Time): seq<Event> {
    if n == 0 then [] else [Check(now), Fail(now)] + Serial(n - 1, now)
  }

  /** Nine failures in a row, then as many logins as may overlap, which all check
      before any of them fails. */
  function Worst(limit: nat, now: Time): seq<Event> {
    Serial(MAX_FAILURES - 1, now) + (seq(limit, _ => Check(now)) + seq(limit, _ => Fail(now)))
  }

  /** The account after k failures, all at this time, with logins pending. */
  function Failed(k: nat, pending: nat, now: Time): Account {
    Account(seq(k, _ => now), seq(k, _ => now), pending, now, now)
  }

  lemma {:induction false} AllKept(k: nat, now: Time)
    ensures Kept(seq(k, _ => now), now - WINDOW) == seq(k, _ => now)
    decreases k
  {
    if k > 0 {
      var times: seq<Time> := seq(k, _ => now);
      assert times[..k - 1] == seq(k - 1, _ => now);
      AllKept(k - 1, now);
    }
  }

  lemma CheckPasses(limit: nat, k: nat, pending: nat, now: Time)
    requires k < MAX_FAILURES && pending < limit
    ensures Possible(limit, Failed(k, pending, now), Check(now))
    ensures After(Failed(k, pending, now), Check(now)) == Failed(k, pending + 1, now)
  {
    AllKept(k, now);
  }

  lemma FailAdds(limit: nat, k: nat, pending: nat, now: Time)
    requires pending > 0
    ensures Possible(limit, Failed(k, pending, now), Fail(now))
    ensures After(Failed(k, pending, now), Fail(now)) == Failed(k + 1, pending - 1, now)
  {
    assert seq(k, _ => now) + [now] == seq(k + 1, _ => now);
  }

  lemma {:induction false} SerialFails(limit: nat, n: nat, k: nat, now: Time, rest: seq<Event>)
    requires limit >= 1 && k + n < MAX_FAILURES && History(limit, Failed(k + n, 0, now), rest)
    ensures History(limit, Failed(k, 0, now), Serial(n, now) + rest)
    ensures Ends(Failed(k, 0, now), Serial(n, now) + rest) == Ends(Failed(k + n, 0, now), rest)
    decreases n
  {
    var events := Serial(n, now) + rest;
    hide Possible, After;
    if n == 0 {
      assert events == rest;
    } else {
      CheckPasses(limit, k, 0, now);
      FailAdds(limit, k, 1, now);
      assert events[0] == Check(now) && events[1..][0] == Fail(now);
      assert events[1..][1..] == Serial(n - 1, now) + rest;
      SerialFails(limit, n - 1, k + 1, now, rest);
    }
  }

  lemma {:induction false} ChecksPass(limit: nat, n: nat, k: nat, pending: nat, now: Time, rest: seq<Event>)
    requires k < MAX_FAILURES && pending + n <= limit && History(limit, Failed(k, pending + n, now), rest)
    ensures History(limit, Failed(k, pending, now), seq(n, _ => Check(now)) + rest)
    ensures Ends(Failed(k, pending, now), seq(n, _ => Check(now)) + rest) == Ends(Failed(k, pending + n, now), rest)
    decreases n
  {
    var events := seq(n, _ => Check(now)) + rest;
    hide Possible, After;
    if n == 0 {
      assert events == rest;
    } else {
      CheckPasses(limit, k, pending, now);
      assert events[1..] == seq(n - 1, _ => Check(now)) + rest;
      ChecksPass(limit, n - 1, k, pending + 1, now, rest);
    }
  }

  lemma {:induction false} FailsCount(limit: nat, n: nat, k: nat, now: Time)
    ensures History(limit, Failed(k, n, now), seq(n, _ => Fail(now)))
    ensures Ends(Failed(k, n, now), seq(n, _ => Fail(now))) == Failed(k + n, 0, now)
    decreases n
  {
    var events := seq(n, _ => Fail(now));
    hide Possible, After;
    if n > 0 {
      FailAdds(limit, k, n, now);
      assert events[1..] == seq(n - 1, _ => Fail(now));
      FailsCount(limit, n - 1, k + 1, now);
    }
  }

  lemma {:induction false} AllInWindow(n: nat, now: Time)
    ensures InWindow(seq(n, _ => now), now - 1) == seq(n, _ => now)
    decreases n
  {
    if n > 0 {
      var times: seq<Time> := seq(n, _ => now);
      assert times[..n - 1] == seq(n - 1, _ => now);
      AllInWindow(n - 1, now);
    }
  }

  /** Nine failures plus one for each login that may overlap: the bound is met. */
  lemma BoundIsMet(limit: nat, now: Time)
    requires limit >= 1
    ensures History(limit, Fresh(now), Worst(limit, now))
    ensures |InWindow(Ends(Fresh(now), Worst(limit, now)).history, now - 1)| == MAX_FAILURES - 1 + limit
  {
    var nine, fails := MAX_FAILURES - 1, seq(limit, _ => Fail(now));
    FailsCount(limit, limit, nine, now);
    ChecksPass(limit, limit, nine, 0, now, fails);
    SerialFails(limit, nine, 0, now, seq(limit, _ => Check(now)) + fails);
    assert Fresh(now) == Failed(0, 0, now);
    AllInWindow(nine + limit, now);
  }

  /** Every history of an account keeps to ten failures per window. */
  ghost predicate KeepsToTen(limit: nat) {
    forall start, events, from :: History(limit, Fresh(start), events) ==>
      |InWindow(Ends(Fresh(start), events).history, from)| <= MAX_FAILURES
  }

  /** The limit of ten holds exactly when logins of an account do not overlap. */
  lemma TenExactlyWithoutOverlap(limit: nat)
    ensures KeepsToTen(limit) <==> limit <= 1
  {
    hide InWindow, History, Ends, Worst;
    if limit <= 1 {
      forall start, events, from | History(limit, Fresh(start), events)
        ensures |InWindow(Ends(Fresh(start), events).history, from)| <= MAX_FAILURES
      {
        AtMostTenFailures(limit, start, events, from);
      }
    } else {
      BoundIsMet(limit, 0);
    }
  }

  // ----- what overlaps -----------------------------------------------------------------------

  /** How many checks let a login through. */
  function PassedChecks(a: Account, events: seq<Event>): nat
    decreases |events|
  {
    if events == [] then 0
    else
      (if events[0].Check? && Passes(a, events[0].now) then 1 else 0) + PassedChecks(After(a, events[0]), events[1..])
  }

  /** How many logins came to an end, one way or the other. */
  function EndedLogins(events: seq<Event>): nat {
    if events == [] then 0 else (if events[0].Check? then 0 else 1) + EndedLogins(events[1..])
  }

  /** `pending` counts the logins that overlap: those let through that have not ended. */
  lemma {:induction false} PendingCounts(limit: nat, a: Account, events: seq<Event>)
    requires History(limit, a, events)
    ensures Ends(a, events).pending + EndedLogins(events) == a.pending + PassedChecks(a, events)
    decreases |events|
  {
    hide Kept;
    if events != [] { PendingCounts(limit, After(a, events[0]), events[1..]); }
  }
}
