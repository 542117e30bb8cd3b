/** Logged-in sessions (sessions.go:20-130). */
module Sessions {
  import opened Basics
  import opened Model

  datatype Session = Session(email: string, expiresAt: Time)
  type Table = map<string, Session>

  const DEFAULT_TTL: int := 24 * 3600 * SECOND

  // ----- as functions on tables -----------------------------------------------------------

  datatype Op = Create(id: string, email: string) | Validate(id: string) | Invalidate(id: string) | Sweep
  datatype Call = Call(op: Op, now: Time)

  predicate Live(t: Table, id: string, now: Time) { id in t && now <= t[id].expiresAt }

  function Swept(t: Table, now: Time): Table {
    map id | id in t && now <= t[id].expiresAt :: t[id]
  }

  /** The e-mail address of the session, if the call names a live one. */
  function Answer(t: Table, c: Call): Option<string> {
    if c.op.Validate? && c.op.id != "" && Live(t, c.op.id, c.now) then Some(t[c.op.id].email) else None
  }

  function After(ttl: int, t: Table, c: Call): Table {
    match c.op
    case Create(id, email) => t[id := Session(email, c.now + ttl)]
    case Validate(id) =>
      if id == "" || id !in t then t
      else if Live(t, id, c.now) then t[id := t[id].(expiresAt := c.now + ttl)]
      else t - {id}
    case Invalidate(id) => if id == "" then t else t - {id}
    case Sweep => Swept(t, c.now)
  }

  // ----- the store ---------------------------------------------------------------------------

  class SessionRef {
    var v: Session
    constructor (v: Session)
      ensures this.v == v
    {
      this.v := v;
    }
  }

  ghost function Refs(byID: map<string, SessionRef>): set<object> { set id | id in byID :: byID[id] as object }

  ghost function TableOf(byID: map<string, SessionRef>): Table
    reads Refs(byID)
  {
    map id | id in byID :: assert byID[id] as object in Refs(byID); byID[id].v
  }

  lemma SweptRefs(was: map<string, SessionRef>, left: map<string, SessionRef>, now: Time)
    requires forall id :: id in left <==> id in was && now <= was[id].v.expiresAt
    requires forall id :: id in left ==> left[id] == was[id]
    ensures TableOf(left) == Swept(TableOf(was), now) && Refs(left) <= Refs(was)
    ensures |TableOf(left)| == |left.Keys| && |TableOf(was)| == |was.Keys|
  {
    assert TableOf(left).Keys == left.Keys && TableOf(was).Keys == was.Keys;
  }

  class SessionStore {
    const ttl: int
    var byID: map<string, SessionRef>

    ghost predicate Valid()
      reads this
    {
      forall i, j :: i in byID && j in byID && byID[i] == byID[j] ==> i == j
    }

    ghost function View(): Table
      reads this, Refs(byID)
    {
      TableOf(byID)
    }

    constructor (ttl: int)
      ensures Valid() && View() == map[] && Refs(byID) == {}
      ensures this.ttl == if ttl <= 0 then 86_400 * SECOND else ttl
    {
      this.ttl := if ttl <= 0 then DEFAULT_TTL else ttl;
      byID := map[];
    }

    /** `id` is what newSessionID delivers. */
    method CreateSession(id: string, email: string, now: Time)
      requires Valid()
      modifies this
      ensures Valid() && fresh(Refs(byID) - old(Refs(byID)))
      ensures View() == After(ttl, old(View()), Call(Create(id, email), now))
    {
      var ref := new SessionRef(Session(email, now + ttl));
      byID := byID[id := ref];
    }

    method ValidateSession(id: string, now: Time) returns (email: Option<string>)
      requires Valid()
      modifies this, Refs(byID)
      ensures Valid() && Refs(byID) <= old(Refs(byID))
      ensures email == Answer(old(View()), Call(Validate(id), now))
      ensures View() == After(ttl, old(View()), Call(Validate(id), now))
    {
      if id == "" || id !in byID { return None; }
      var ref := byID[id];
      assert ref as object in Refs(byID);
      if now > ref.v.expiresAt {
        byID := byID - {id};
        return None;
      }
      ref.v := ref.v.(expiresAt := now + ttl);
      return Some(ref.v.email);
    }

    method InvalidateSession(id: string)
      requires Valid()
      modifies this
      ensures Valid() && Refs(byID) <= old(Refs(byID))
      ensures forall now :: View() == After(ttl, old(View()), Call(Invalidate(id), now))
    {
      if id != "" { byID := byID - {id}; }
    }

    method SweepSessions(now: Time) returns (n: nat)
      requires Valid()
      modifies this
      ensures Valid() && Refs(byID) <= old(Refs(byID))
      ensures View() == After(ttl, old(View()), Call(Sweep, now))
      ensures n == |old(View())| - |View()|
    {
      ghost var was := byID;
      assert this !in Refs(byID);
      hide TableOf, Refs;
      var left := byID.Keys;
      n := 0;
      while left != {}
        invariant left <= was.Keys && left <= byID.Keys
        invariant forall id :: id in byID <==> id in was && (id in left || now <= was[id].v.expiresAt)
        invariant forall id :: id in byID ==> byID[id] == was[id]
        invariant n == |was.Keys| - |byID.Keys| && Valid()
        decreases |left|
      {
        var id :| id in left;
        if now > byID[id].v.expiresAt {
          assert (byID - {id}).Keys == byID.Keys - {id};
          byID := byID - {id};
          n := n + 1;
        }
        left := left - {id};
      }
      SweptRefs(was, byID, now);
    }
  }

  // ----- sweeping is optional ---------------------------------------------------------------

  /** The same sessions are live, now and ever after. */
  ghost predicate Agree(a: Table, b: Table, now: Time) {
    forall id :: (Live(a, id, now) <==> Live(b, id, now)) && (Live(a, id, now) ==> a[id] == b[id])
  }

  lemma SameCallAgrees(ttl: int, a: Table, b: Table, c: Call)
    requires Agree(a, b, c.now)
    ensures Answer(a, c) == Answer(b, c)
    ensures Agree(After(ttl, a, c), After(ttl, b, c), c.now)
  {
    var a', b' := After(ttl, a, c), After(ttl, b, c);
    forall id
      ensures (Live(a', id, c.now) <==> Live(b', id, c.now)) && (Live(a', id, c.now) ==> a'[id] == b'[id])
    {
      assert Live(a, id, c.now) <==> Live(b, id, c.now);
      if !c.op.Sweep? { assert Live(a, c.op.id, c.now) <==> Live(b, c.op.id, c.now); }
    }
  }

  lemma SweepAgrees(a: Table, b: Table, now: Time)
    requires Agree(a, b, now)
    ensures Agree(Swept(a, now), b, now)
  {
  }

  lemma AgreeLater(a: Table, b: Table, now: Time, later: Time)
    requires Agree(a, b, now) && now <= later
    ensures Agree(a, b, later)
  {
    forall id
      ensures (Live(a, id, later) <==> Live(b, id, later)) && (Live(a, id, later) ==> a[id] == b[id])
    {
      assert Live(a, id, now) <==> Live(b, id, now);
    }
  }

  ghost predicate Monotone(from: Time, calls: seq<Call>)
    decreases |calls|
  {
    calls == [] || (from <= calls[0].now && Monotone(calls[0].now, calls[1..]))
  }

  /** What the calls other than sweeps answer, in order. */
  function Answers(ttl: int, t: Table, calls: seq<Call>): seq<Option<string>>
    decreases |calls|
  {
    if calls == [] then []
    else (if calls[0].op.Sweep? then [] else [Answer(t, calls[0])]) + Answers(ttl, After(ttl, t, calls[0]), calls[1..])
  }

  function WithoutSweeps(calls: seq<Call>): seq<Call> {
    if calls == [] then []
    else (if calls[0].op.Sweep? then [] else [calls[0]]) + WithoutSweeps(calls[1..])
  }

  lemma {:induction false} SameAnswers(ttl: int, a: Table, b: Table, from: Time, calls: seq<Call>)
    requires Agree(a, b, from) && Monotone(from, calls)
    ensures Answers(ttl, a, calls) == Answers(ttl, b, WithoutSweeps(calls))
    decreases |calls|
  {
    hide Agree;
    if calls != [] {
      var c := calls[0];
      AgreeLater(a, b, from, c.now);
      if c.op.Sweep? {
        SweepAgrees(a, b, c.now);
        SameAnswers(ttl, Swept(a, c.now), b, c.now, calls[1..]);
        assert WithoutSweeps(calls) == WithoutSweeps(calls[1..]);
      } else {
        SameCallAgrees(ttl, a, b, c);
        SameAnswers(ttl, After(ttl, a, c), After(ttl, b, c), c.now, calls[1..]);
        assert WithoutSweeps(calls) == [c] + WithoutSweeps(calls[1..]);
        assert WithoutSweeps(calls)[1..] == WithoutSweeps(calls[1..]);
      }
    }
  }

  /** Sweeps anywhere in a run change no answer of any other call. */
  lemma SweepIsOptional(ttl: int, t: Table, from: Time, calls: seq<Call>)
    requires Monotone(from, calls)
    ensures Answers(ttl, t, calls) == Answers(ttl, t, WithoutSweeps(calls))
  {
    SameAnswers(ttl, t, t, from, calls);
  }

  // ----- how long a session lives ---------------------------------------------------------------

  function Ends(ttl: int, t: Table, calls: seq<Call>): Table
    decreases |calls|
  {
    if calls == [] then t else Ends(ttl, After(ttl, t, calls[0]), calls[1..])
  }

  ghost predicate NeverCreates(calls: seq<Call>, id: string) {
    forall k :: 0 <= k < |calls| ==> !(calls[k].op.Create? && calls[k].op.id == id)
  }

  function ClockAt(from: Time, calls: seq<Call>): Time { if calls == [] then from else calls[|calls| - 1].now }

  /** A session that has ended, by logout or by expiry, is never valid again. */
  lemma {:induction false} DeadStaysDead(ttl: int, t: Table, from: Time, calls: seq<Call>, id: string, now: Time)
    requires Monotone(from, calls) && NeverCreates(calls, id) && !Live(t, id, from) && ClockAt(from, calls) <= now
    ensures !Live(Ends(ttl, t, calls), id, now)
    decreases |calls|
  {
    if calls != [] {
      var c := calls[0];
      assert !Live(t, id, c.now);
      assert !Live(After(ttl, t, c), id, c.now);
      assert forall k :: 0 <= k < |calls[1..]| ==> calls[1..][k] == calls[k + 1];
      DeadStaysDead(ttl, After(ttl, t, c), c.now, calls[1..], id, now);
    }
  }

  ghost predicate NeverEnds(calls: seq<Call>, id: string) {
    forall k :: 0 <= k < |calls| ==>
      !(calls[k].op.Invalidate? && calls[k].op.id == id) && !(calls[k].op.Create? && calls[k].op.id == id)
  }

  predicate Uses(c: Call, id: string) { c.op.Validate? && c.op.id == id }

  /** The session is used again no later than the ttl after the last use at `used`. */
  ghost predicate UsedInTime(ttl: int, used: Time, calls: seq<Call>, id: string, now: Time)
    decreases |calls|
  {
    if calls == [] then now <= used + ttl
    else if Uses(calls[0], id) then calls[0].now <= used + ttl && UsedInTime(ttl, calls[0].now, calls[1..], id, now)
    else UsedInTime(ttl, used, calls[1..], id, now)
  }

  /** A session lives exactly as long as no two uses of it lie further apart than
      the ttl, whatever else happens, sweeps included. */
  lemma {:induction false} LivesWhileUsed(ttl: int, t: Table, from: Time, used: Time, calls: seq<Call>, id: string,
                                          now: Time)
    requires Monotone(from, calls) && NeverEnds(calls, id) && ClockAt(from, calls) <= now && id != "" && ttl >= 0
    requires used <= from && (Live(t, id, from) ==> t[id].expiresAt == used + ttl)
    requires Live(t, id, from) <==> from <= used + ttl
    ensures Live(Ends(ttl, t, calls), id, now) <==> UsedInTime(ttl, used, calls, id, now)
    decreases |calls|
  {
    if calls != [] {
      var c := calls[0];
      var t' := After(ttl, t, c);
      assert forall k :: 0 <= k < |calls[1..]| ==> calls[1..][k] == calls[k + 1];
      if Uses(c, id) {
        if c.now <= used + ttl {
          LivesWhileUsed(ttl, t', c.now, c.now, calls[1..], id, now);
        } else {
          assert !Live(t', id, c.now);
          DeadStaysDead(ttl, t', c.now, calls[1..], id, now);
        }
      } else {
        LivesWhileUsed(ttl, t', c.now, used, calls[1..], id, now);
      }
    }
  }

  // ----- whose session it is ---------------------------------------------------------------------

  /** The session was last created for this address. */
  ghost predicate CreatedFor(calls: seq<Call>, id: string, email: string) {
    exists k :: 0 <= k < |calls| && calls[k].op == Create(id, email) && NeverCreates(calls[k + 1..], id)
  }

  lemma CreatedEarlier(calls: seq<Call>, id: string, email: string)
    requires calls != [] && CreatedFor(calls[1..], id, email)
    ensures CreatedFor(calls, id, email)
  {
    var k :| 0 <= k < |calls[1..]| && calls[1..][k].op == Create(id, email) && NeverCreates(calls[1..][k + 1..], id);
    assert calls[1..][k + 1..] == calls[k + 1 + 1..];
    assert calls[k + 1].op == Create(id, email);
  }

  lemma {:induction false} OwnerKept(ttl: int, t: Table, calls: seq<Call>, id: string)
    requires id in Ends(ttl, t, calls)
    ensures var email := Ends(ttl, t, calls)[id].email;
      CreatedFor(calls, id, email) || (NeverCreates(calls, id) && id in t && t[id].email == email)
    decreases |calls|
  {
    if calls != [] {
      var c, rest := calls[0], calls[1..];
      var t', email := After(ttl, t, c), Ends(ttl, t, calls)[id].email;
      OwnerKept(ttl, t', rest, id);
      if CreatedFor(rest, id, email) {
        CreatedEarlier(calls, id, email);
      } else if c.op.Create? && c.op.id == id {
        assert calls[0].op == Create(id, email) && NeverCreates(calls[0 + 1..], id);
      } else {
        assert calls == [c] + rest;
      }
    }
  }

  /** Whoever is let in with a session is who it was last created for. */
  lemma AnswersItsOwner(ttl: int, calls: seq<Call>, id: string, now: Time)
    requires var email := Answer(Ends(ttl, map[], calls), Call(Validate(id), now)); email.Some?
    ensures CreatedFor(calls, id, Answer(Ends(ttl, map[], calls), Call(Validate(id), now)).value)
  {
    OwnerKept(ttl, map[], calls, id);
  }

  lemma {:induction false} SameOwner(ttl: int, t: Table, calls: seq<Call>, id: string)
    requires NeverCreates(calls, id) && id in Ends(ttl, t, calls)
    ensures id in t && t[id].email == Ends(ttl, t, calls)[id].email
    decreases |calls|
  {
    if calls != [] {
      assert forall k :: 0 <= k < |calls[1..]| ==> calls[1..][k] == calls[k + 1];
      SameOwner(ttl, After(ttl, t, calls[0]), calls[1..], id);
    }
  }

  /** After a login, and until a logout or another login of that identifier, the session
      answers with the address of the login exactly as long as no two uses of it lie
      further apart than the ttl. */
  lemma LoginAnswers(ttl: int, t: Table, id: string, email: string, at: Time, calls: seq<Call>, now: Time)
    requires id != "" && ttl >= 0 && Monotone(at, calls) && NeverEnds(calls, id) && ClockAt(at, calls) <= now
    ensures var logged := After(ttl, t, Call(Create(id, email), at));
      Answer(Ends(ttl, logged, calls), Call(Validate(id), now))
        == if UsedInTime(ttl, at, calls, id, now) then Some(email) else None
  {
    var logged := After(ttl, t, Call(Create(id, email), at));
    LivesWhileUsed(ttl, logged, at, at, calls, id, now);
    var end := Ends(ttl, logged, calls);
    assert NeverCreates(calls, id);
    if id in end { SameOwner(ttl, logged, calls, id); }
    hide UsedInTime, Ends;
  }

  /** After a logout, and until another login of that identifier, nobody is let in with it;
      no other session is touched. */
  lemma LogoutIsFinal(ttl: int, t: Table, id: string, at: Time, calls: seq<Call>, now: Time)
    requires id != "" && Monotone(at, calls) && NeverCreates(calls, id) && ClockAt(at, calls) <= now
    ensures var out := After(ttl, t, Call(Invalidate(id), at));
      && Answer(Ends(ttl, out, calls), Call(Validate(id), now)) == None
      && (forall other :: other != id ==> (other in out <==> other in t) && (other in t ==> out[other] == t[other]))
  {
    DeadStaysDead(ttl, After(ttl, t, Call(Invalidate(id), at)), at, calls, id, now);
  }

  /** An empty identifier names no session. */
  lemma NoNameNoSession(ttl: int, t: Table, now: Time)
    ensures Answer(t, Call(Validate(""), now)) == None
    ensures After(ttl, t, Call(Validate(""), now)) == t && After(ttl, t, Call(Invalidate(""), now)) == t
  {
  }
}
