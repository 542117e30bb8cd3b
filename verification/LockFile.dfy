/** The lock file of a data directory (lock.go) as a protocol: one step is one
    file-system call of one process, steps interleave freely, processes may die. */
module LockFile {
  import opened Basics

  const ATTEMPTS: nat := 3

  /** A lock file holds the token of its owner, or nothing readable yet. */
  datatype File = NoFile | Unreadable(creator: nat) | Names(token: nat)

  /** Where a call stands. `k` counts the attempts made. */
  datatype Place =
    | Trying(k: nat)               // about to create the file
    | Exists(k: nat)               // found one there
    | Saw(h: nat, k: nat)          // read the token of a holder of this host
    | Stale(h: nat, k: nat)        // whose process is gone
    | Removing(h: nat, k: nat)     // and whose file was still there
    | Created                      // has created the file
    | Held                         // has written it: holds the lock
    | Giving                       // in Release: the file is its own
    | Over                         // released, refused or failed
    | ForceStart                   // in ForceUnlock
    | ForceSaw(h: nat)
    | ForceRemoving(h: nat)

  datatype Taker = Taker(process: nat, host: nat, place: Place)

  datatype World = World(file: File, takers: map<nat, Taker>, dead: set<nat>)

  datatype Action =
    | Acquire(process: nat, host: nat) | Force(process: nat, host: nat)
    | OpenExclusive | WriteInfo | WriteFails | ReadHolder | CheckAlive | Reread | Remove
    | SetAddr | ReadOwn | RemoveOwn
    | ForceRead | ForceCheck | ForceRemove
    | Die

  /** A step of the call with this token; for Die, the death of its process. */
  datatype Step = Step(token: nat, action: Action)

  function At(w: World, t: nat, p: Place): World
    requires t in w.takers
  {
    w.(takers := w.takers[t := w.takers[t].(place := p)])
  }

  predicate Enabled(w: World, s: Step) {
    if s.action.Acquire? || s.action.Force? then s.token !in w.takers
    else
      s.token in w.takers && w.takers[s.token].process !in w.dead
      && var p := w.takers[s.token].place;
      match s.action
      case OpenExclusive => p.Trying?
      case WriteInfo => p.Created?
      case WriteFails => p.Created?
      case ReadHolder => p.Exists?
      case CheckAlive => p.Saw?
      case Reread => p.Stale?
      case Remove => p.Removing?
      case SetAddr => p.Held?
      case ReadOwn => p.Held?
      case RemoveOwn => p.Giving?
      case ForceRead => p.ForceStart?
      case ForceCheck => p.ForceSaw?
      case ForceRemove => p.ForceRemoving?
      case _ => true
  }

  function Gone(w: World, h: nat): bool { h in w.takers && w.takers[h].process in w.dead }

  function Fire(w: World, s: Step): World
    requires Enabled(w, s)
  {
    match s.action
    case Acquire(process, host) => w.(takers := w.takers[s.token := Taker(process, host, Trying(0))])
    case Force(process, host) => w.(takers := w.takers[s.token := Taker(process, host, ForceStart)])
    case OpenExclusive =>
      var k := w.takers[s.token].place.k;
      if k >= ATTEMPTS then At(w, s.token, Over)
      else if w.file.NoFile? then At(w, s.token, Created).(file := Unreadable(s.token))
      else At(w, s.token, Exists(k))
    case WriteInfo =>
      At(w, s.token, Held).(file := if w.file == Unreadable(s.token) then Names(s.token) else w.file)
    case WriteFails => At(w, s.token, Over).(file := NoFile)
    case ReadHolder =>
      var k := w.takers[s.token].place.k;
      if w.file.NoFile? then At(w, s.token, Trying(k + 1))
      else if w.file.Unreadable? || w.file.token !in w.takers
              || w.takers[w.file.token].host != w.takers[s.token].host then At(w, s.token, Over)
      else At(w, s.token, Saw(w.file.token, k))
    case CheckAlive =>
      var p := w.takers[s.token].place;
      At(w, s.token, if Gone(w, p.h) then Stale(p.h, p.k) else Over)
    case Reread =>
      var p := w.takers[s.token].place;
      At(w, s.token, if w.file == Names(p.h) then Removing(p.h, p.k) else Trying(p.k + 1))
    case Remove => At(w, s.token, Trying(w.takers[s.token].place.k + 1)).(file := NoFile)
    case SetAddr => w.(file := Names(s.token))
    case ReadOwn => At(w, s.token, if w.file == Names(s.token) then Giving else Over)
    case RemoveOwn => At(w, s.token, Over).(file := NoFile)
    case ForceRead =>
      if w.file.Names? && w.file.token in w.takers && w.takers[w.file.token].host == w.takers[s.token].host
      then At(w, s.token, ForceSaw(w.file.token)) else At(w, s.token, Over)
    case ForceCheck =>
      var h := w.takers[s.token].place.h;
      At(w, s.token, if Gone(w, h) then ForceRemoving(h) else Over)
    case ForceRemove => At(w, s.token, Over).(file := NoFile)
    case Die => w.(dead := w.dead + {w.takers[s.token].process})
  }

  ghost predicate Trace(w: World, steps: seq<Step>)
    decreases |steps|
  {
    steps == [] || (Enabled(w, steps[0]) && Trace(Fire(w, steps[0]), steps[1..]))
  }

  ghost function After(w: World, steps: seq<Step>): World
    requires Trace(w, steps)
    decreases |steps|
  {
    if steps == [] then w else After(Fire(w, steps[0]), steps[1..])
  }

  const EMPTY: World := World(NoFile, map[], {})

  // ----- what holds in every interleaving ------------------------------------------------

  predicate Live(w: World, t: nat) { t in w.takers && w.takers[t].process !in w.dead }

  predicate Holds(w: World, t: nat) { Live(w, t) && (w.takers[t].place.Held? || w.takers[t].place.Giving?) }

  /** A call remembers a holder that exists, and calls it stale only when its
      process is gone. */
  ghost predicate Known(w: World) {
    forall t :: t in w.takers ==>
      match w.takers[t].place
      case Saw(h, _) => h in w.takers
      case Stale(h, _) => Gone(w, h)
      case Removing(h, _) => Gone(w, h)
      case ForceSaw(h) => h in w.takers
      case ForceRemoving(h) => Gone(w, h)
      case _ => true
  }

  /** The file names a call that wrote it and has not released it, dead or alive. */
  ghost predicate Owned(w: World) {
    && (w.file.Names? ==>
          w.file.token in w.takers && (w.takers[w.file.token].place.Held? || w.takers[w.file.token].place.Giving?))
    && (w.file.Unreadable? ==> w.file.creator in w.takers && w.takers[w.file.creator].place.Created?)
  }

  ghost predicate Consistent(w: World) { Known(w) && Owned(w) }

  lemma ConsistentStep(w: World, s: Step)
    requires Consistent(w) && Enabled(w, s)
    ensures Consistent(Fire(w, s))
  {
  }

  lemma {:induction false} ConsistentTrace(w: World, steps: seq<Step>)
    requires Consistent(w) && Trace(w, steps)
    ensures Consistent(After(w, steps))
    decreases |steps|
  {
    hide Consistent, Enabled, Fire;
    if steps != [] {
      ConsistentStep(w, steps[0]);
      ConsistentTrace(Fire(w, steps[0]), steps[1..]);
    }
  }

  // ----- mutual exclusion ------------------------------------------------------------------

  /** A live call that is about to remove the lock file of another. */
  predicate About(w: World, t: nat) {
    Live(w, t) && (w.takers[t].place.Removing? || w.takers[t].place.ForceRemoving?)
  }

  /** The file of a process that died between creating and writing it. */
  predicate Orphan(w: World) { w.file.Unreadable? && Gone(w, w.file.creator) }

  ghost predicate Crowded(w: World, t: nat, u: nat) { t != u && About(w, t) && About(w, u) }

  /** ForceUnlock is about to remove a file other than the one it read. */
  ghost predicate Stray(w: World, t: nat) {
    About(w, t) && w.takers[t].place.ForceRemoving? && w.file != Names(w.takers[t].place.h) && !Orphan(w)
  }

  /** At most one call is about to remove the file, and ForceUnlock only the one it read. */
  ghost predicate Calm(w: World) {
    (forall t, u :: !Crowded(w, t, u)) && (forall t :: !Stray(w, t))
  }

  /** Whoever holds the lock is named in the file, so there is at most one; whoever
      is creating the file has it to itself. */
  ghost predicate Exclusive(w: World) {
    forall t :: Live(w, t) ==>
      && (Holds(w, t) ==> w.file == Names(t))
      && (w.takers[t].place.Created? ==> w.file == Unreadable(t))
  }

  /** What a taker is about to remove is what it read. */
  ghost predicate Sure(w: World) {
    forall t :: About(w, t) && w.takers[t].place.Removing? ==> w.file == Names(w.takers[t].place.h)
  }

  ghost predicate Sound(w: World) { Consistent(w) && Exclusive(w) && Sure(w) }

  /** In a calm world no live call owns the file that is about to be removed. */
  lemma RemovedIsNobodys(w: World, t: nat)
    requires Sound(w) && Calm(w) && About(w, t)
    ensures forall u :: Live(w, u) ==> !Holds(w, u) && !w.takers[u].place.Created?
  {
    assert !Stray(w, t);
    forall u | Live(w, u)
      ensures !Holds(w, u) && !w.takers[u].place.Created?
    {
    }
  }

  lemma RemovalKeepsExclusive(w: World, s: Step)
    requires Sound(w) && Calm(w) && Enabled(w, s) && (s.action.Remove? || s.action.ForceRemove?)
    ensures Exclusive(Fire(w, s))
  {
    assert About(w, s.token);
    RemovedIsNobodys(w, s.token);
    hide Sound, Calm;
  }

  lemma OthersKeepExclusive(w: World, s: Step)
    requires Exclusive(w) && Enabled(w, s) && !s.action.Remove? && !s.action.ForceRemove?
    ensures Exclusive(Fire(w, s))
  {
  }

  lemma ExclusiveStep(w: World, s: Step)
    requires Sound(w) && Calm(w) && Enabled(w, s)
    ensures Exclusive(Fire(w, s))
  {
    if s.action.Remove? || s.action.ForceRemove? {
      RemovalKeepsExclusive(w, s);
    } else {
      OthersKeepExclusive(w, s);
    }
  }

  /** A file that somebody else is about to remove does not change. */
  lemma AwaitedFileStays(w: World, s: Step, t: nat)
    requires Sound(w) && Calm(w) && Enabled(w, s) && t != s.token && About(w, t) && w.takers[t].place.Removing?
    ensures Fire(w, s).file == w.file
  {
    assert !Crowded(w, t, s.token);
    RemovedIsNobodys(w, t);
    hide Calm, Exclusive, Known;
  }

  lemma SureStep(w: World, s: Step)
    requires Sound(w) && Calm(w) && Enabled(w, s)
    ensures Sure(Fire(w, s))
  {
    var v := Fire(w, s);
    forall t | About(v, t) && v.takers[t].place.Removing?
      ensures v.file == Names(v.takers[t].place.h)
    {
      if t != s.token {
        assert About(w, t) && w.takers[t] == v.takers[t];
        AwaitedFileStays(w, s, t);
      }
    }
  }

  lemma SoundStep(w: World, s: Step)
    requires Sound(w) && Calm(w) && Enabled(w, s)
    ensures Sound(Fire(w, s))
  {
    ConsistentStep(w, s);
    ExclusiveStep(w, s);
    SureStep(w, s);
    hide Consistent, Exclusive, Sure, Fire, Calm;
  }

  /** Every step of the trace is taken in a calm world. */
  ghost predicate AllCalm(w: World, steps: seq<Step>)
    requires Trace(w, steps)
    decreases |steps|
  {
    steps == [] || (Calm(w) && AllCalm(Fire(w, steps[0]), steps[1..]))
  }

  lemma {:induction false} SoundTrace(w: World, steps: seq<Step>)
    requires Sound(w) && Trace(w, steps) && AllCalm(w, steps)
    ensures Sound(After(w, steps))
    decreases |steps|
  {
    hide Sound, Calm, Enabled, Fire;
    if steps != [] {
      SoundStep(w, steps[0]);
      SoundTrace(Fire(w, steps[0]), steps[1..]);
    }
  }

  /** Processes may die at any moment, holding the lock or not, and ForceUnlock may
      run: while the worlds stay calm, at most one live call holds the lock. */
  lemma OneLiveHolder(steps: seq<Step>, t: nat, u: nat)
    requires Trace(EMPTY, steps) && AllCalm(EMPTY, steps)
    requires Holds(After(EMPTY, steps), t) && Holds(After(EMPTY, steps), u)
    ensures t == u && After(EMPTY, steps).file == Names(t)
  {
    SoundTrace(EMPTY, steps);
  }

  /** Release and SetAddr then touch only their own file. */
  lemma TouchesOnlyItsOwn(steps: seq<Step>, s: Step)
    requires Trace(EMPTY, steps) && AllCalm(EMPTY, steps)
    requires Enabled(After(EMPTY, steps), s) && (s.action.RemoveOwn? || s.action.SetAddr?)
    ensures After(EMPTY, steps).file == Names(s.token)
  {
    SoundTrace(EMPTY, steps);
    assert Holds(After(EMPTY, steps), s.token);
  }

  // ----- when no holder dies -----------------------------------------------------------------

  /** ForceUnlock is not used, and no process dies between creating the lock file
      and removing it again. */
  predicate Orderly(w: World, s: Step) {
    && !s.action.Force?
    && (s.action.Die? && s.token in w.takers ==>
          forall t :: t in w.takers && w.takers[t].process == w.takers[s.token].process ==>
            !w.takers[t].place.Created? && !w.takers[t].place.Held? && !w.takers[t].place.Giving?)
  }

  /** The owner of the file is alive, and nobody is about to remove it. */
  ghost predicate Peaceful(w: World) {
    && (w.file.Names? ==> !Gone(w, w.file.token))
    && forall t :: t in w.takers ==>
         && !w.takers[t].place.Removing? && !w.takers[t].place.ForceStart?
         && !w.takers[t].place.ForceSaw? && !w.takers[t].place.ForceRemoving?
  }

  lemma PeacefulIsCalm(w: World)
    requires Peaceful(w)
    ensures Calm(w)
  {
  }

  lemma FileStepPeaceful(w: World, s: Step)
    requires Consistent(w) && Peaceful(w) && Enabled(w, s)
    requires s.action.OpenExclusive? || s.action.WriteInfo? || s.action.WriteFails? || s.action.SetAddr?
             || s.action.RemoveOwn?
    ensures Peaceful(Fire(w, s))
  {
    hide Known, Owned;
  }

  lemma ReadStepPeaceful(w: World, s: Step)
    requires Consistent(w) && Peaceful(w) && Enabled(w, s)
    requires s.action.ReadHolder? || s.action.CheckAlive? || s.action.Reread? || s.action.ReadOwn?
    ensures Peaceful(Fire(w, s))
  {
    hide Owned;
  }

  lemma ArrivalPeaceful(w: World, s: Step)
    requires Consistent(w) && Peaceful(w) && Enabled(w, s) && s.action.Acquire?
    ensures Peaceful(Fire(w, s))
  {
    hide Known;
  }

  lemma DeathPeaceful(w: World, s: Step)
    requires Consistent(w) && Peaceful(w) && Enabled(w, s) && s.action.Die? && Orderly(w, s)
    ensures Peaceful(Fire(w, s))
  {
    hide Known;
  }

  lemma PeacefulStep(w: World, s: Step)
    requires Consistent(w) && Peaceful(w) && Enabled(w, s) && Orderly(w, s)
    ensures Peaceful(Fire(w, s))
  {
    assert !s.action.Remove? && !s.action.ForceRead? && !s.action.ForceCheck? && !s.action.ForceRemove?;
    hide Consistent, Peaceful, Fire, Enabled;
    match s.action
    case Acquire(_, _) => ArrivalPeaceful(w, s);
    case Die => DeathPeaceful(w, s);
    case ReadHolder => ReadStepPeaceful(w, s);
    case CheckAlive => ReadStepPeaceful(w, s);
    case Reread => ReadStepPeaceful(w, s);
    case ReadOwn => ReadStepPeaceful(w, s);
    case _ => FileStepPeaceful(w, s);
  }

  ghost predicate AllOrderly(w: World, steps: seq<Step>)
    requires Trace(w, steps)
    decreases |steps|
  {
    steps == [] || (Orderly(w, steps[0]) && AllOrderly(Fire(w, steps[0]), steps[1..]))
  }

  lemma {:induction false} OrderlyIsCalm(w: World, steps: seq<Step>)
    requires Consistent(w) && Peaceful(w) && Trace(w, steps) && AllOrderly(w, steps)
    ensures AllCalm(w, steps)
    decreases |steps|
  {
    hide Consistent, Peaceful, Calm, Enabled, Fire, Orderly;
    if steps != [] {
      PeacefulIsCalm(w);
      ConsistentStep(w, steps[0]);
      PeacefulStep(w, steps[0]);
      OrderlyIsCalm(Fire(w, steps[0]), steps[1..]);
    }
  }

  /** While no holder dies, at most one call holds the lock, in every interleaving. */
  lemma OneHolder(steps: seq<Step>, t: nat, u: nat)
    requires Trace(EMPTY, steps) && AllOrderly(EMPTY, steps)
    requires Holds(After(EMPTY, steps), t) && Holds(After(EMPTY, steps), u)
    ensures t == u && After(EMPTY, steps).file == Names(t)
  {
    OrderlyIsCalm(EMPTY, steps);
    OneLiveHolder(steps, t, u);
  }

  // ----- worlds that are not calm --------------------------------------------------------------

  lemma {:induction false} Then(w: World, steps: seq<Step>, s: Step)
    requires Trace(w, steps) && Enabled(After(w, steps), s)
    ensures Trace(w, steps + [s]) && After(w, steps + [s]) == Fire(After(w, steps), s)
    decreases |steps|
  {
    hide Enabled, Fire;
    if steps == [] {
      assert [s][1..] == [] && [] + [s] == [s];
    } else {
      Then(Fire(w, steps[0]), steps[1..], s);
      assert (steps + [s])[1..] == steps[1..] + [s];
    }
  }

  /** The trace goes on by one step, to a world that is described. */
  lemma Next(w0: World, steps: seq<Step>, s: Step, v: World, w: World) returns (more: seq<Step>)
    requires Trace(w0, steps) && After(w0, steps) == v
    requires Enabled(v, s) && Fire(v, s) == w
    ensures more == steps + [s] && Trace(w0, more) && After(w0, more) == w
  {
    hide Trace, After, Enabled, Fire;
    Then(w0, steps, s);
    more := steps + [s];
  }

  /** v with a call added or moved, and another file. */
  function Put(v: World, t: nat, process: nat, host: nat, place: Place, file: File): World {
    v.(file := file, takers := v.takers[t := Taker(process, host, place)])
  }

  /** Where there is no lock file, a new call gets the lock. */
  lemma NewHolder(w0: World, steps: seq<Step>, v: World, a: nat, p: nat, host: nat) returns (more: seq<Step>)
    requires Trace(w0, steps) && After(w0, steps) == v && v.file.NoFile? && a !in v.takers && p !in v.dead
    ensures |more| == |steps| + 3 && steps <= more && Trace(w0, more)
    ensures After(w0, more) == Put(v, a, p, host, Held, Names(a))
  {
    hide Trace, After;
    var v1 := Put(v, a, p, host, Trying(0), NoFile);
    var v2 := Put(v, a, p, host, Created, Unreadable(a));
    more := Next(w0, steps, Step(a, Acquire(p, host)), v, v1);
    more := Next(w0, more, Step(a, OpenExclusive), v1, v2);
    more := Next(w0, more, Step(a, WriteInfo), v2, Put(v, a, p, host, Held, Names(a)));
  }

  /** What removal leaves: no file, and the call elsewhere. */
  lemma Removal(w0: World, steps: seq<Step>, v: World, t: nat) returns (more: seq<Step>, w: World)
    requires Trace(w0, steps) && After(w0, steps) == v && About(v, t)
    ensures |more| == |steps| + 1 && steps <= more && Trace(w0, more) && After(w0, more) == w
    ensures w.file.NoFile? && w.dead == v.dead && w.takers.Keys == v.takers.Keys
    ensures forall u :: u in v.takers && u != t ==> w.takers[u] == v.takers[u]
  {
    hide Trace, After;
    var s := Step(t, if v.takers[t].place.Removing? then Remove else ForceRemove);
    w := Fire(v, s);
    more := Next(w0, steps, s, v, w);
  }

  /** From any world where two calls are about to remove the file, two new calls
      both get the lock, in eight steps. */
  lemma CrowdedLoses(w: World, t: nat, u: nat, a: nat, b: nat, p: nat, host: nat) returns (steps: seq<Step>)
    requires Crowded(w, t, u) && a !in w.takers && b !in w.takers && a != b && p !in w.dead
    ensures |steps| == 8 && Trace(w, steps)
    ensures Holds(After(w, steps), a) && Holds(After(w, steps), b)
  {
    assert Trace(w, []) && After(w, []) == w;
    hide Trace, After;
    var w1, w3;
    steps, w1 := Removal(w, [], w, t);
    steps := NewHolder(w, steps, w1, a, p, host);
    var w2 := Put(w1, a, p, host, Held, Names(a));
    assert About(w2, u);
    steps, w3 := Removal(w, steps, w2, u);
    steps := NewHolder(w, steps, w3, b, p, host);
  }

  /** Once ForceUnlock removes the file of a live holder, a new call joins it. */
  lemma RemovedUnderHolder(w0: World, steps: seq<Step>, v: World, t: nat, x: nat, b: nat, p: nat, host: nat)
    returns (more: seq<Step>)
    requires Trace(w0, steps) && After(w0, steps) == v && About(v, t) && Holds(v, x) && t != x
    requires b !in v.takers && p !in v.dead
    ensures steps <= more && Trace(w0, more) && Holds(After(w0, more), x) && Holds(After(w0, more), b)
  {
    hide Trace, After;
    var w1;
    more, w1 := Removal(w0, steps, v, t);
    more := NewHolder(w0, more, w1, b, p, host);
  }

  /** A new call takes over the lock of a dead holder. */
  lemma TakenOver(w: World, x: nat, a: nat, p: nat) returns (steps: seq<Step>)
    requires w.file == Names(x) && Gone(w, x) && a !in w.takers && p !in w.dead
    ensures Trace(w, steps)
    ensures After(w, steps) == Put(w, a, p, w.takers[x].host, Held, Names(a))
  {
    assert Trace(w, []) && After(w, []) == w;
    hide Trace, After;
    var host := w.takers[x].host;
    var w1 := Put(w, a, p, host, Trying(0), Names(x));
    var w2 := Put(w, a, p, host, Exists(0), Names(x));
    var w3 := Put(w, a, p, host, Saw(x, 0), Names(x));
    steps := Next(w, [], Step(a, Acquire(p, host)), w, w1);
    steps := Next(w, steps, Step(a, OpenExclusive), w1, w2);
    steps := Next(w, steps, Step(a, ReadHolder), w2, w3);
    steps := StaleRemoved(w, steps, x, a, p, host);
  }

  lemma StaleRemoved(w: World, steps0: seq<Step>, x: nat, a: nat, p: nat, host: nat) returns (steps: seq<Step>)
    requires w.file == Names(x) && Gone(w, x) && a !in w.takers && p !in w.dead
    requires Trace(w, steps0) && After(w, steps0) == Put(w, a, p, host, Saw(x, 0), Names(x))
    ensures Trace(w, steps) && After(w, steps) == Put(w, a, p, host, Held, Names(a))
  {
    hide Trace, After;
    var w3 := Put(w, a, p, host, Saw(x, 0), Names(x));
    var w4 := Put(w, a, p, host, Stale(x, 0), Names(x));
    var w5 := Put(w, a, p, host, Removing(x, 0), Names(x));
    var w6 := Put(w, a, p, host, Trying(1), NoFile);
    steps := Next(w, steps0, Step(a, CheckAlive), w3, w4);
    steps := Next(w, steps, Step(a, Reread), w4, w5);
    steps := Next(w, steps, Step(a, Remove), w5, w6);
    steps := CreatedAgain(w, steps, a, p, host);
  }

  lemma CreatedAgain(w: World, steps0: seq<Step>, a: nat, p: nat, host: nat) returns (steps: seq<Step>)
    requires a !in w.takers && p !in w.dead
    requires Trace(w, steps0) && After(w, steps0) == Put(w, a, p, host, Trying(1), NoFile)
    ensures Trace(w, steps) && After(w, steps) == Put(w, a, p, host, Held, Names(a))
  {
    hide Trace, After;
    var w7 := Put(w, a, p, host, Created, Unreadable(a));
    steps := Next(w, steps0, Step(a, OpenExclusive), Put(w, a, p, host, Trying(1), NoFile), w7);
    steps := Next(w, steps, Step(a, WriteInfo), w7, Put(w, a, p, host, Held, Names(a)));
  }

  /** From any consistent world where ForceUnlock is about to remove another file
      than it read, two calls get the lock: the owner of that file, or a new call
      that takes its place, and one more. */
  lemma StrayLoses(w: World, t: nat, a: nat, b: nat, p: nat) returns (steps: seq<Step>, x: nat)
    requires Consistent(w) && Stray(w, t) && a !in w.takers && b !in w.takers && a != b && p !in w.dead
    ensures Trace(w, steps) && x != b
    ensures Holds(After(w, steps), x) && Holds(After(w, steps), b)
  {
    assert Trace(w, []) && After(w, []) == w;
    hide Trace, After;
    if w.file.NoFile? {
      x := a;
      steps := NewHolder(w, [], w, a, p, 0);
      steps := RemovedUnderHolder(w, steps, Put(w, a, p, 0, Held, Names(a)), t, a, b, p, 0);
    } else if w.file.Unreadable? {
      x := w.file.creator;
      var v := At(w, x, Held).(file := Names(x));
      steps := Next(w, [], Step(x, WriteInfo), w, v);
      steps := RemovedUnderHolder(w, steps, v, t, x, b, p, 0);
    } else if Gone(w, w.file.token) {
      x := a;
      steps := TakenOver(w, w.file.token, a, p);
      steps := RemovedUnderHolder(w, steps, Put(w, a, p, w.takers[w.file.token].host, Held, Names(a)), t, a, b, p, 0);
    } else {
      x := w.file.token;
      steps := RemovedUnderHolder(w, [], w, t, x, b, p, 0);
    }
  }

  lemma {:induction false} FreshNumber(used: set<nat>) returns (n: nat)
    ensures forall k :: k in used ==> k < n
    decreases |used|
  {
    if k: nat :| k in used {
      var m := FreshNumber(used - {k});
      n := if m > k then m else k + 1;
      assert forall j :: j in used && j != k ==> j in used - {k};
    } else {
      n := 0;
    }
  }

  lemma {:induction false} Joined(w: World, a: seq<Step>, b: seq<Step>)
    requires Trace(w, a) && Trace(After(w, a), b)
    ensures Trace(w, a + b) && After(w, a + b) == After(After(w, a), b)
    decreases |a|
  {
    hide Enabled, Fire;
    if a == [] {
      assert a + b == b;
    } else {
      Joined(Fire(w, a[0]), a[1..], b);
      assert (a + b)[1..] == a[1..] + b;
    }
  }

  /** Calmness is exact: any trace that reaches a world which is not calm goes on to
      one where two live calls hold the lock. */
  lemma NotCalmLoses(steps: seq<Step>) returns (more: seq<Step>, x: nat, y: nat)
    requires Trace(EMPTY, steps) && !Calm(After(EMPTY, steps))
    ensures steps <= more && Trace(EMPTY, more)
    ensures x != y && Holds(After(EMPTY, more), x) && Holds(After(EMPTY, more), y)
  {
    var w := After(EMPTY, steps);
    ConsistentTrace(EMPTY, steps);
    hide Trace, After, Crowded, Stray, Consistent;
    var a := FreshNumber(w.takers.Keys);
    var b := FreshNumber(w.takers.Keys + {a});
    assert a in w.takers.Keys + {a};
    var p := FreshNumber(w.dead);
    var rest;
    if t, u :| Crowded(w, t, u) {
      rest := CrowdedLoses(w, t, u, a, b, p, 0);
      x, y := a, b;
    } else {
      var t :| Stray(w, t);
      rest, x := StrayLoses(w, t, a, b, p);
      y := b;
    }
    Joined(EMPTY, steps, rest);
    more := steps + rest;
  }

  // ----- such worlds are reached ------------------------------------------------------------------

  /** Three processes on one host, with one call each. */
  function Three(file: File, p0: Place, p1: Place, p2: Place, dead: set<nat>): World {
    World(file, map[0 := Taker(0, 0, p0), 1 := Taker(1, 0, p1), 2 := Taker(2, 0, p2)], dead)
  }

  lemma ThreeStart(force: bool) returns (steps: seq<Step>)
    ensures Trace(EMPTY, steps)
    ensures After(EMPTY, steps) == Three(NoFile, Trying(0), Trying(0), if force then ForceStart else Trying(0), {})
  {
    assert Trace(EMPTY, []) && After(EMPTY, []) == EMPTY;
    hide Trace, After;
    var w1 := World(NoFile, map[0 := Taker(0, 0, Trying(0))], {});
    var w2 := World(NoFile, map[0 := Taker(0, 0, Trying(0)), 1 := Taker(1, 0, Trying(0))], {});
    steps := Next(EMPTY, [], Step(0, Acquire(0, 0)), EMPTY, w1);
    steps := Next(EMPTY, steps, Step(1, Acquire(1, 0)), w1, w2);
    steps := Next(EMPTY, steps, if force then Step(2, Force(2, 0)) else Step(2, Acquire(2, 0)), w2,
                  Three(NoFile, Trying(0), Trying(0), if force then ForceStart else Trying(0), {}));
  }

  lemma TakersCanBothHoldPart1(steps: seq<Step>) returns (more: seq<Step>)
    requires Trace(EMPTY, steps) && After(EMPTY, steps) == Three(NoFile, Trying(0), Trying(0), Trying(0), {})
    ensures Trace(EMPTY, more) && After(EMPTY, more) == Three(Names(0), Held, Saw(0, 0), Exists(0), {0})
  {
    hide Trace, After;
    more := steps;
    more := Next(EMPTY, more, Step(0, OpenExclusive), Three(NoFile, Trying(0), Trying(0), Trying(0), {}),
                 Three(Unreadable(0), Created, Trying(0), Trying(0), {}));
    more := Next(EMPTY, more, Step(0, WriteInfo), Three(Unreadable(0), Created, Trying(0), Trying(0), {}),
                 Three(Names(0), Held, Trying(0), Trying(0), {}));
    more := Next(EMPTY, more, Step(0, Die), Three(Names(0), Held, Trying(0), Trying(0), {}),
                 Three(Names(0), Held, Trying(0), Trying(0), {0}));
    more := Next(EMPTY, more, Step(1, OpenExclusive), Three(Names(0), Held, Trying(0), Trying(0), {0}),
                 Three(Names(0), Held, Exists(0), Trying(0), {0}));
    more := Next(EMPTY, more, Step(2, OpenExclusive), Three(Names(0), Held, Exists(0), Trying(0), {0}),
                 Three(Names(0), Held, Exists(0), Exists(0), {0}));
    more := Next(EMPTY, more, Step(1, ReadHolder), Three(Names(0), Held, Exists(0), Exists(0), {0}),
                 Three(Names(0), Held, Saw(0, 0), Exists(0), {0}));
  }

  lemma TakersCanBothHoldPart2(steps: seq<Step>) returns (more: seq<Step>)
    requires Trace(EMPTY, steps) && After(EMPTY, steps) == Three(Names(0), Held, Saw(0, 0), Exists(0), {0})
    ensures Trace(EMPTY, more) && After(EMPTY, more) == Three(Names(0), Held, Removing(0, 0), Removing(0, 0), {0})
  {
    hide Trace, After;
    more := steps;
    more := Next(EMPTY, more, Step(2, ReadHolder), Three(Names(0), Held, Saw(0, 0), Exists(0), {0}),
                 Three(Names(0), Held, Saw(0, 0), Saw(0, 0), {0}));
    more := Next(EMPTY, more, Step(1, CheckAlive), Three(Names(0), Held, Saw(0, 0), Saw(0, 0), {0}),
                 Three(Names(0), Held, Stale(0, 0), Saw(0, 0), {0}));
    more := Next(EMPTY, more, Step(2, CheckAlive), Three(Names(0), Held, Stale(0, 0), Saw(0, 0), {0}),
                 Three(Names(0), Held, Stale(0, 0), Stale(0, 0), {0}));
    more := Next(EMPTY, more, Step(1, Reread), Three(Names(0), Held, Stale(0, 0), Stale(0, 0), {0}),
                 Three(Names(0), Held, Removing(0, 0), Stale(0, 0), {0}));
    more := Next(EMPTY, more, Step(2, Reread), Three(Names(0), Held, Removing(0, 0), Stale(0, 0), {0}),
                 Three(Names(0), Held, Removing(0, 0), Removing(0, 0), {0}));
  }

  /** Two takers that both re-read the file of a dead holder before either removes it
      can end up holding the lock together. */
  lemma TakersCanBothHold() returns (steps: seq<Step>, more: seq<Step>, x: nat, y: nat)
    ensures Trace(EMPTY, steps) && Crowded(After(EMPTY, steps), 1, 2)
    ensures steps <= more && Trace(EMPTY, more)
    ensures x != y && Holds(After(EMPTY, more), x) && Holds(After(EMPTY, more), y)
  {
    hide Trace, After;
    steps := ThreeStart(false);
    steps := TakersCanBothHoldPart1(steps);
    steps := TakersCanBothHoldPart2(steps);
    assert Crowded(After(EMPTY, steps), 1, 2);
    more, x, y := NotCalmLoses(steps);
  }

  lemma ForceUnlockCanFreeALiveLockPart1(steps: seq<Step>) returns (more: seq<Step>)
    requires Trace(EMPTY, steps) && After(EMPTY, steps) == Three(NoFile, Trying(0), Trying(0), ForceStart, {})
    ensures Trace(EMPTY, more) && After(EMPTY, more) == Three(NoFile, Over, Trying(0), ForceSaw(0), {})
  {
    hide Trace, After;
    more := steps;
    more := Next(EMPTY, more, Step(0, OpenExclusive), Three(NoFile, Trying(0), Trying(0), ForceStart, {}),
                 Three(Unreadable(0), Created, Trying(0), ForceStart, {}));
    more := Next(EMPTY, more, Step(0, WriteInfo), Three(Unreadable(0), Created, Trying(0), ForceStart, {}),
                 Three(Names(0), Held, Trying(0), ForceStart, {}));
    more := Next(EMPTY, more, Step(2, ForceRead), Three(Names(0), Held, Trying(0), ForceStart, {}),
                 Three(Names(0), Held, Trying(0), ForceSaw(0), {}));
    more := Next(EMPTY, more, Step(0, ReadOwn), Three(Names(0), Held, Trying(0), ForceSaw(0), {}),
                 Three(Names(0), Giving, Trying(0), ForceSaw(0), {}));
    more := Next(EMPTY, more, Step(0, RemoveOwn), Three(Names(0), Giving, Trying(0), ForceSaw(0), {}),
                 Three(NoFile, Over, Trying(0), ForceSaw(0), {}));
  }

  lemma ForceUnlockCanFreeALiveLockPart2(steps: seq<Step>) returns (more: seq<Step>)
    requires Trace(EMPTY, steps) && After(EMPTY, steps) == Three(NoFile, Over, Trying(0), ForceSaw(0), {})
    ensures Trace(EMPTY, more) && After(EMPTY, more) == Three(Names(1), Over, Held, ForceRemoving(0), {0})
  {
    hide Trace, After;
    more := steps;
    more := Next(EMPTY, more, Step(0, Die), Three(NoFile, Over, Trying(0), ForceSaw(0), {}),
                 Three(NoFile, Over, Trying(0), ForceSaw(0), {0}));
    more := Next(EMPTY, more, Step(1, OpenExclusive), Three(NoFile, Over, Trying(0), ForceSaw(0), {0}),
                 Three(Unreadable(1), Over, Created, ForceSaw(0), {0}));
    more := Next(EMPTY, more, Step(1, WriteInfo), Three(Unreadable(1), Over, Created, ForceSaw(0), {0}),
                 Three(Names(1), Over, Held, ForceSaw(0), {0}));
    more := Next(EMPTY, more, Step(2, ForceCheck), Three(Names(1), Over, Held, ForceSaw(0), {0}),
                 Three(Names(1), Over, Held, ForceRemoving(0), {0}));
  }

  /** ForceUnlock does not read again before it removes: the file can by then be that of
      a live holder, even when nobody ever died holding the lock. */
  lemma ForceUnlockCanFreeALiveLock() returns (steps: seq<Step>, more: seq<Step>, x: nat, y: nat)
    ensures Trace(EMPTY, steps) && Stray(After(EMPTY, steps), 2) && Holds(After(EMPTY, steps), 1)
    ensures steps <= more && Trace(EMPTY, more)
    ensures x != y && Holds(After(EMPTY, more), x) && Holds(After(EMPTY, more), y)
  {
    hide Trace, After;
    steps := ThreeStart(true);
    steps := ForceUnlockCanFreeALiveLockPart1(steps);
    steps := ForceUnlockCanFreeALiveLockPart2(steps);
    assert Stray(After(EMPTY, steps), 2);
    more, x, y := NotCalmLoses(steps);
  }

  // ----- a call that nobody disturbs ----------------------------------------------------------------

  predicate Takeable(w: World, host: nat) {
    w.file.NoFile? ||
    (w.file.Names? && w.file.token in w.takers && w.takers[w.file.token].host == host && Gone(w, w.file.token))
  }

  /** AcquireLock while no other call moves: it takes the lock exactly when there is
      no lock file or a stale one of this host, and otherwise leaves the file alone. */
  method AcquireLock(w0: World, token: nat, process: nat, host: nat)
    returns (w: World, ok: bool, ghost steps: seq<Step>)
    requires token !in w0.takers && process !in w0.dead && w0.file != Names(token)
    ensures Trace(w0, steps) && w == After(w0, steps)
    ensures ok <==> Holds(w, token)
    ensures ok <==> Takeable(w0, host)
    ensures !ok ==> w.file == w0.file
  {
    assert Trace(w0, []) && After(w0, []) == w0;
    hide Trace, After;
    w, steps := Move(w0, w0, [], Step(token, Acquire(process, host)));
    var attempt := 0;
    while attempt < ATTEMPTS
      invariant 0 <= attempt <= 1 && Trace(w0, steps) && w == After(w0, steps)
      invariant w == Alone(w0, token, process, host, Trying(attempt), w.file)
      invariant attempt == 0 ==> w.file == w0.file
      invariant attempt == 1 ==> w.file.NoFile? && Takeable(w0, host)
      decreases ATTEMPTS - attempt
    {
      w, steps := Move(w0, w, steps, Step(token, OpenExclusive));
      if w.takers[token].place.Created? {
        w, steps := Move(w0, w, steps, Step(token, WriteInfo));
        return w, true, steps;
      }
      var again;
      w, again, steps := RemoveStale(w0, w, steps, token, process, host);
      if !again { return w, false, steps; }
      attempt := attempt + 1;
    }
    ok := false;
  }

  /** w0 with this call added. */
  function Alone(w0: World, token: nat, process: nat, host: nat, place: Place, file: File): World {
    w0.(file := file, takers := w0.takers[token := Taker(process, host, place)])
  }

  /** The rest of an attempt that found a lock file. */
  method RemoveStale(w0: World, w1: World, ghost steps1: seq<Step>, token: nat, process: nat, host: nat)
    returns (w: World, again: bool, ghost steps: seq<Step>)
    requires token !in w0.takers && process !in w0.dead && w0.file != Names(token) && !w0.file.NoFile?
    requires Trace(w0, steps1) && w1 == After(w0, steps1) && w1 == Alone(w0, token, process, host, Exists(0), w0.file)
    ensures Trace(w0, steps) && w == After(w0, steps) && (again <==> Takeable(w0, host))
    ensures w == if again then Alone(w0, token, process, host, Trying(1), NoFile)
                 else Alone(w0, token, process, host, Over, w0.file)
  {
    hide Trace, After;
    w, steps := Move(w0, w1, steps1, Step(token, ReadHolder));
    if w.takers[token].place.Over? { return w, false, steps; }
    w, steps := Move(w0, w, steps, Step(token, CheckAlive));
    if w.takers[token].place.Over? { return w, false, steps; }
    w, steps := Move(w0, w, steps, Step(token, Reread));
    w, steps := Move(w0, w, steps, Step(token, Remove));
    again := true;
  }

  method Move(w0: World, w: World, ghost steps: seq<Step>, s: Step) returns (w': World, ghost more: seq<Step>)
    requires Trace(w0, steps) && w == After(w0, steps) && Enabled(w, s)
    ensures w' == Fire(w, s) && Trace(w0, more) && w' == After(w0, more)
  {
    w' := Fire(w, s);
    hide Trace, After, Enabled, Fire;
    Then(w0, steps, s);
    more := steps + [s];
  }

  /** A holder that releases leaves no file, and the next call gets the lock. */
  lemma ReleasedIsFree(w: World, t: nat, a: nat, p: nat, host: nat) returns (steps: seq<Step>)
    requires Sound(w) && Holds(w, t) && w.takers[t].place.Held? && a !in w.takers && p !in w.dead
    ensures Trace(w, steps) && |steps| == 5 && steps[..2] == [Step(t, ReadOwn), Step(t, RemoveOwn)]
    ensures Trace(w, steps[..2]) && After(w, steps[..2]).file.NoFile?
    ensures Holds(After(w, steps), a) && !Holds(After(w, steps), t)
  {
    assert Trace(w, []) && After(w, []) == w;
    assert w.file == Names(t);
    hide Trace, After, Sound;
    var v1 := At(w, t, Giving);
    var v2 := At(w, t, Over).(file := NoFile);
    var two := Next(w, [], Step(t, ReadOwn), w, v1);
    two := Next(w, two, Step(t, RemoveOwn), v1, v2);
    steps := NewHolder(w, two, v2, a, p, host);
    assert steps[..2] == two;
  }

  /** ForceUnlock while no other call moves: it removes the file of a holder of this host
      whose process is gone, and leaves every other file alone. */
  lemma ForceUnlockAlone(w: World, t: nat, p: nat, host: nat) returns (steps: seq<Step>)
    requires t !in w.takers && p !in w.dead && w.file != Names(t)
    ensures Trace(w, steps)
    ensures After(w, steps) == Put(w, t, p, host, Over, if w.file.Names? && Takeable(w, host) then NoFile else w.file)
  {
    assert Trace(w, []) && After(w, []) == w;
    hide Trace, After;
    var v1 := Put(w, t, p, host, ForceStart, w.file);
    steps := Next(w, [], Step(t, Force(p, host)), w, v1);
    if w.file.Names? && w.file.token in w.takers && w.takers[w.file.token].host == host {
      var h := w.file.token;
      var v2 := Put(w, t, p, host, ForceSaw(h), w.file);
      steps := Next(w, steps, Step(t, ForceRead), v1, v2);
      if Gone(w, h) {
        var v3 := Put(w, t, p, host, ForceRemoving(h), w.file);
        steps := Next(w, steps, Step(t, ForceCheck), v2, v3);
        steps := Next(w, steps, Step(t, ForceRemove), v3, Put(w, t, p, host, Over, NoFile));
      } else {
        steps := Next(w, steps, Step(t, ForceCheck), v2, Put(w, t, p, host, Over, w.file));
      }
    } else {
      steps := Next(w, steps, Step(t, ForceRead), v1, Put(w, t, p, host, Over, w.file));
    }
  }

  // ----- how often it tries ---------------------------------------------------------------------------

  /** How many times the call has tried to create the file, while it has not got it and
      has not given up. */
  function Tries(p: Place): int {
    match p
    case Trying(k) => k
    case Exists(k) => k + 1
    case Saw(_, k) => k + 1
    case Stale(_, k) => k + 1
    case Removing(_, k) => k + 1
    case _ => -1
  }

  function Opens(steps: seq<Step>, t: nat): nat {
    if steps == [] then 0 else (if steps[0] == Step(t, OpenExclusive) then 1 else 0) + Opens(steps[1..], t)
  }

  lemma TryIsCounted(w: World, s: Step, t: nat)
    requires t in w.takers && Enabled(w, s)
    ensures var v := Fire(w, s);
      && t in v.takers
      && (Tries(w.takers[t].place) < 0 ==> Tries(v.takers[t].place) < 0)
      && (Tries(v.takers[t].place) >= 0 && Tries(w.takers[t].place) >= 0 ==>
            Tries(v.takers[t].place) == Tries(w.takers[t].place) + Opens([s], t))
  {
    assert [s][1..] == [];
  }

  lemma {:induction false} TriesAreCounted(w: World, steps: seq<Step>, t: nat)
    requires t in w.takers && Trace(w, steps)
    ensures t in After(w, steps).takers
    ensures var before, after := Tries(w.takers[t].place), Tries(After(w, steps).takers[t].place);
      && (before < 0 ==> after < 0)
      && (before >= 0 && after >= 0 ==> after == before + Opens(steps, t))
    decreases |steps|
  {
    hide Enabled, Fire;
    if steps != [] {
      TryIsCounted(w, steps[0], t);
      TriesAreCounted(Fire(w, steps[0]), steps[1..], t);
      assert [steps[0]][1..] == [];
    }
  }

  /** A call makes three attempts: before the fourth it gives up, and leaves the file alone. */
  lemma GivesUpAfterThree(w: World, t: nat, p: nat, host: nat, steps: seq<Step>)
    requires Enabled(w, Step(t, Acquire(p, host))) && Trace(Fire(w, Step(t, Acquire(p, host))), steps)
    requires Enabled(After(Fire(w, Step(t, Acquire(p, host))), steps), Step(t, OpenExclusive))
    ensures var v := After(Fire(w, Step(t, Acquire(p, host))), steps);
      var v' := Fire(v, Step(t, OpenExclusive));
      v'.takers[t].place == (if Opens(steps, t) >= 3 then Over else if v.file.NoFile? then Created
                             else Exists(Opens(steps, t)))
      && (Opens(steps, t) >= 3 ==> v'.file == v.file)
  {
    var w1 := Fire(w, Step(t, Acquire(p, host)));
    TriesAreCounted(w1, steps, t);
  }
}
