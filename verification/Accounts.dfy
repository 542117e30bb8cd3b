/** From registration to login (auth.go:65-102, login.go:22-86): the hash that is stored
    lets in its password, for as long as the account lives. */
module Accounts {
  import opened Basics
  import opened Model
  import opened BoardSpec
  import opened BoardCalls
  import Pbkdf2

  /** What a login is told of an account. */
  datatype PublicUser = PublicUser(email: string, createdAt: Time)

  /** `rehash` says that the stored hash is of an older make and is replaced. */
  datatype Login = Accepted(user: PublicUser, rehash: bool) | BadCredentials

  /** What Authenticate finds on the board it has swept. */
  function Authenticate(prf: Pbkdf2.Prf, s: State, rawEmail: string, password: Bytes): Login {
    var email := Lower(rawEmail);
    if email !in s.users then BadCredentials
    else
      var u := s.users[email];
      if !Pbkdf2.Verifies(prf, password, u.passwordHash, u.salt, u.iterations) then BadCredentials
      else Accepted(PublicUser(email, u.createdAt), u.iterations < PBKDF2_ITERATIONS)
  }

  /** The hash is what hashPassword makes of the password today. */
  ghost predicate HashOf(prf: Pbkdf2.Prf, password: Bytes, hash: Bytes, salt: Bytes, iterations: int) {
    iterations == 600_000 && hash == Pbkdf2.DerivedKey(prf, password, salt, 600_000, 32)
  }

  ghost predicate AccountOf(prf: Pbkdf2.Prf, s: State, email: string, password: Bytes) {
    email in s.users
    && HashOf(prf, password, s.users[email].passwordHash, s.users[email].salt, s.users[email].iterations)
  }

  /** Hashes are only ever made of the password of the account: Register makes the first
      one, and a login with the password makes the others. */
  ghost predicate OwnHash(prf: Pbkdf2.Prf, c: Call, email: string, password: Bytes) {
    c.op.Rehash? && IsLowered(c.op.email, email) ==> HashOf(prf, password, c.op.hash, c.op.salt, 600_000)
  }

  /** Such an account lets in its password, and any other exactly when both derive the
      same key under its salt. */
  lemma AccountLetsIn(prf: Pbkdf2.Prf, s: State, rawEmail: string, email: string, password: Bytes, other: Bytes)
    requires IsLowered(rawEmail, email) && AccountOf(prf, s, email, password)
    ensures Authenticate(prf, s, rawEmail, password) == Accepted(PublicUser(email, s.users[email].createdAt), false)
    ensures Authenticate(prf, s, rawEmail, other).Accepted? <==>
      Pbkdf2.DerivedKey(prf, other, s.users[email].salt, 600_000, 32)
        == Pbkdf2.DerivedKey(prf, password, s.users[email].salt, 600_000, 32)
  {
    LoweredIs(rawEmail);
    OneLowered(rawEmail, email, Lower(rawEmail));
    var u := s.users[email];
    Pbkdf2.VerifiesItsOwn(prf, password, other, u.salt, 600_000, 32);
    hide Pbkdf2.DerivedKey, IsLowered, Lower;
  }

  lemma OneLowered(raw: string, a: string, b: string)
    requires IsLowered(raw, a) && IsLowered(raw, b)
    ensures a == b
  {
  }

  /** A hash that still verifies the password, but was made with fewer rounds, is
      reported as such. */
  lemma OldHashIsReported(prf: Pbkdf2.Prf, s: State, rawEmail: string, email: string, password: Bytes)
    requires IsLowered(rawEmail, email) && email in s.users
    requires var u := s.users[email];
      1 <= u.iterations && u.passwordHash == Pbkdf2.DerivedKey(prf, password, u.salt, u.iterations, |u.passwordHash|)
    ensures Authenticate(prf, s, rawEmail, password)
         == Accepted(PublicUser(email, s.users[email].createdAt), s.users[email].iterations < 600_000)
  {
    LoweredIs(rawEmail);
    OneLowered(rawEmail, email, Lower(rawEmail));
    hide Pbkdf2.DerivedKey, IsLowered, Lower;
  }

  /** An unknown address lets nobody in. */
  lemma UnknownIsRefused(prf: Pbkdf2.Prf, s: State, rawEmail: string, email: string, password: Bytes)
    requires IsLowered(rawEmail, email) && email !in s.users
    ensures Authenticate(prf, s, rawEmail, password) == BadCredentials
  {
    LoweredIs(rawEmail);
    OneLowered(rawEmail, email, Lower(rawEmail));
  }

  // ----- what calls do to accounts ------------------------------------------------------

  lemma TaskBodiesKeepUsers(b: State, now: Time, id: string, who: string, lease: int, text: string)
    ensures ApplyClaim(b, now, id, who, lease).state.users == b.users
    ensures ApplyRelease(b, now, id, who).state.users == b.users
    ensures ApplyComplete(b, now, id, who).state.users == b.users
    ensures ApplyComment(b, now, id, who, text).state.users == b.users
  {
    hide Touched, ClaimedTask, CompletedTask, ReleasedTask;
  }

  lemma UpdateKeepsUsers(b: State, now: Time, id: string, p: Patch)
    ensures ApplyUpdate(b, now, id, p).state.users == b.users
  {
    if id in b.tasks { NotedLeaves(b, now, id, b.tasks[id], p, Changed(b.tasks[id], p)); }
    hide UpdateNoted, UpdateRefusal, Changed, UpdatedTask;
  }

  /** No call but Register and Rehash changes the users. */
  lemma UsersStay(cfg: Config, s: State, c: Call)
    requires Legal(s, c) && !c.op.Register? && !c.op.Rehash?
    ensures Do(cfg, s, c).state.users == s.users
  {
    SweepFrees(s, c);
    Splits(cfg, s, c);
    var b, op := Seen(s, c), c.op;
    hide Swept, Do, Legal, Admissible, NewTask, CheckParent, Touched, RenewAll, Seen, ApplyClaim, ApplyRelease,
      ApplyComplete, ApplyUpdate, ApplyComment;
    if Admissible(cfg, op) {
      match op
      case Claim(id, who, lease) =>
        TaskBodiesKeepUsers(b, c.now, id, who, EffectiveLease(cfg, lease), "");
      case Release(id, who) => TaskBodiesKeepUsers(b, c.now, id, who, 0, "");
      case Complete(id, who) => TaskBodiesKeepUsers(b, c.now, id, who, 0, "");
      case Update(id, p) => UpdateKeepsUsers(b, c.now, id, p);
      case Comment(id, who, text) => TaskBodiesKeepUsers(b, c.now, id, who, 0, text);
      case _ =>
    }
  }

  lemma AccountSurvivesCall(cfg: Config, prf: Pbkdf2.Prf, s: State, c: Call, email: string, password: Bytes)
    requires Legal(s, c) && AccountOf(prf, s, email, password) && OwnHash(prf, c, email, password)
    ensures AccountOf(prf, Do(cfg, s, c).state, email, password)
    ensures Do(cfg, s, c).state.users[email].createdAt == s.users[email].createdAt
  {
    SweepFrees(s, c);
    if c.op.Register? {
      RegisterFiles(cfg, s, c);
      if Do(cfg, s, c).outcome.Failed? { RefusedKeepsUsers(cfg, s, c); }
    } else if c.op.Rehash? {
      RehashReplaces(cfg, s, c);
    } else {
      UsersStay(cfg, s, c);
    }
    hide Legal, Swept, Seen, Do, Pbkdf2.DerivedKey, IsLowered, RegisterFits;
  }

  lemma RefusedKeepsUsers(cfg: Config, s: State, c: Call)
    requires Legal(s, c) && c.op.Register? && Do(cfg, s, c).outcome.Failed?
    ensures Do(cfg, s, c).state.users == s.users
  {
    SweepFrees(s, c);
    Splits(cfg, s, c);
    hide Swept, Do, Admissible, Legal;
  }

  lemma {:induction false} AccountSurvives(cfg: Config, prf: Pbkdf2.Prf, s: State, from: Time, calls: seq<Call>,
                                           email: string, password: Bytes)
    requires Run(cfg, s, from, calls) && AccountOf(prf, s, email, password)
    requires forall i :: 0 <= i < |calls| ==> OwnHash(prf, calls[i], email, password)
    ensures AccountOf(prf, Final(cfg, s, from, calls), email, password)
    ensures Final(cfg, s, from, calls).users[email].createdAt == s.users[email].createdAt
    decreases |calls|
  {
    assert email in s.users;
    hide AccountOf, OwnHash, Do;
    if calls != [] {
      AccountSurvivesCall(cfg, prf, s, calls[0], email, password);
      AccountSurvives(cfg, prf, Do(cfg, s, calls[0]).state, calls[0].now, calls[1..], email, password);
    }
  }

  /** Who has registered can log in, at any time after, with that password and with no
      other of another key, in whatever letters the address is written; the account is
      as old as the registration. */
  lemma RegisteredLogsIn(cfg: Config, prf: Pbkdf2.Prf, s: State, c: Call, calls: seq<Call>, rawEmail: string,
                         password: Bytes, other: Bytes)
    requires Legal(s, c) && c.op.Register? && Do(cfg, s, c).outcome.Ok?
    requires HashOf(prf, password, c.op.hash, c.op.salt, 600_000)
    requires Run(cfg, Do(cfg, s, c).state, c.now, calls) && Lower(rawEmail) == Lower(c.op.email)
    requires forall i :: 0 <= i < |calls| ==> OwnHash(prf, calls[i], Lower(rawEmail), password)
    ensures var later, email := Final(cfg, Do(cfg, s, c).state, c.now, calls), Lower(rawEmail);
      && Authenticate(prf, later, rawEmail, password) == Accepted(PublicUser(email, c.now), false)
      && email in later.users
      && (Authenticate(prf, later, rawEmail, other).Accepted? <==>
            Pbkdf2.DerivedKey(prf, other, later.users[email].salt, 600_000, 32)
              == Pbkdf2.DerivedKey(prf, password, later.users[email].salt, 600_000, 32))
  {
    var after, email := Do(cfg, s, c).state, Lower(rawEmail);
    LoweredIs(rawEmail);
    RegisterFiles(cfg, s, c);
    var filed :| IsLowered(c.op.email, filed) && filed in after.users
      && after.users[filed] == User(filed, c.op.hash, c.op.salt, 600_000, c.now, c.now);
    LoweredIs(c.op.email);
    OneLowered(c.op.email, filed, email);
    hide Do, Swept, Lower, IsLowered, Legal, Pbkdf2.DerivedKey, Run, Final, Authenticate, RegisterFits;
    AccountSurvives(cfg, prf, after, c.now, calls, email, password);
    AccountLetsIn(prf, Final(cfg, after, c.now, calls), rawEmail, email, password, other);
  }
}
