/** The limit of 1 GiB on the JSON of a board (store.go:180-254) is reached, whatever the
    JSON looks like: there are more boards than short files. */
module FileLimit {
  import opened Basics
  import opened Model
  import opened BoardSpec
  import opened BoardInvariants
  import opened BoardEffects
  import opened StateDocument
  import opened FileFormat

  // ----- counting byte strings --------------------------------------------------------

  function Power257(n: nat): nat { if n == 0 then 1 else 257 * Power257(n - 1) }

  /** Bytes as digits 1 to 256 of a number in base 257. */
  function Number(b: Bytes): nat {
    if b == [] then 0 else 257 * Number(b[..|b| - 1]) + (b[|b| - 1] as int + 1)
  }

  lemma {:induction false} NumberBound(b: Bytes, limit: nat)
    requires |b| <= limit
    ensures Number(b) < Power257(limit)
    decreases limit
  {
    if b != [] {
      NumberBound(b[..|b| - 1], limit - 1);
    } else if limit > 0 {
      NumberBound(b, limit - 1);
    }
  }

  lemma {:induction false} NumberInjective(a: Bytes, b: Bytes)
    requires Number(a) == Number(b)
    ensures a == b
    decreases |a|
  {
    if a != [] && b != [] {
      LastDigit(Number(a[..|a| - 1]), a[|a| - 1], Number(b[..|b| - 1]), b[|b| - 1]);
      NumberInjective(a[..|a| - 1], b[..|b| - 1]);
      assert a == a[..|a| - 1] + [a[|a| - 1]] && b == b[..|b| - 1] + [b[|b| - 1]];
    }
  }

  lemma LastDigit(m: nat, x: bv8, n: nat, y: bv8)
    requires 257 * m + (x as int + 1) == 257 * n + (y as int + 1)
    ensures m == n && x == y
  {
  }

  lemma {:induction false} ImageSize(f: nat -> nat, n: nat)
    requires forall i, j :: 0 <= i < j < n ==> f(i) != f(j)
    ensures |set i: nat | i < n :: f(i)| == n
  {
    if n > 0 {
      ImageSize(f, n - 1);
      assert (set i: nat | i < n :: f(i)) == (set i: nat | i < n - 1 :: f(i)) + {f(n - 1)};
    }
  }

  lemma {:induction false} BigSet(s: set<nat>, n: nat) returns (x: nat)
    requires |s| > n
    ensures x in s && x >= n
  {
    if n == 0 {
      x :| x in s;
    } else {
      x := BigSet(s - {n - 1}, n - 1);
    }
  }

  /** Among n + 1 different numbers one is at least n. */
  lemma SomeAbove(f: nat -> nat, n: nat) returns (i: nat)
    requires forall i, j :: 0 <= i < j <= n ==> f(i) != f(j)
    ensures f(i) >= n
  {
    ImageSize(f, n + 1);
    var x := BigSet(set k: nat | k < n + 1 :: f(k), n);
    i :| i < n + 1 && f(i) == x;
  }

  // ----- boards with longer and longer logs ---------------------------------------------

  const STOP: Call := Call(Shutdown(""), 0, [])

  lemma {:induction false} StopsLog(cfg: Config, s: State, n: nat)
    requires s.tasks == map[]
    ensures Run(cfg, s, 0, seq(n, _ => STOP))
    ensures |Final(cfg, s, 0, seq(n, _ => STOP)).activity| == |s.activity| + n
    decreases n
  {
    var calls := seq(n, _ => STOP);
    if n > 0 {
      assert ExpiredIds(s.tasks, 0) == {};
      SweptNothing(s, 0);
      var s1 := Do(cfg, s, STOP).state;
      assert s1.tasks == map[] && |s1.activity| == |s.activity| + 1;
      hide Do;
      StopsLog(cfg, s1, n - 1);
      assert calls[1..] == seq(n - 1, _ => STOP);
    }
  }

  ghost function Busy(cfg: Config, n: nat): State {
    StopsLog(cfg, NEW_STATE, n);
    Final(cfg, NEW_STATE, 0, seq(n, _ => STOP))
  }

  lemma MarshalTells(c: Codec, s: State, t: State)
    requires RoundTrips(c) && c.marshal(s) == c.marshal(t)
    ensures s.activity == t.activity
  {
    assert ToDoc(Stripped(s)) == ToDoc(Stripped(t));
  }

  /** Whatever the JSON looks like, some run of calls leads to a board whose JSON is
      longer than any limit. */
  lemma SomeRunIsLonger(c: Codec, cfg: Config, limit: nat) returns (calls: seq<Call>)
    requires RoundTrips(c)
    ensures Run(cfg, NEW_STATE, 0, calls) && |c.marshal(Final(cfg, NEW_STATE, 0, calls))| > limit
  {
    var f: nat -> nat := n => Number(c.marshal(Busy(cfg, n)));
    hide RoundTrips, Number, Power257, Final, Run;
    forall i, j | 0 <= i < j <= Power257(limit)
      ensures f(i) != f(j)
    {
      StopsLog(cfg, NEW_STATE, i);
      StopsLog(cfg, NEW_STATE, j);
      if f(i) == f(j) {
        NumberInjective(c.marshal(Busy(cfg, i)), c.marshal(Busy(cfg, j)));
        MarshalTells(c, Busy(cfg, i), Busy(cfg, j));
      }
    }
    var n := SomeAbove(f, Power257(limit));
    calls := seq(n, _ => STOP);
    StopsLog(cfg, NEW_STATE, n);
    if |c.marshal(Busy(cfg, n))| <= limit { NumberBound(c.marshal(Busy(cfg, n)), limit); }
  }

  /** So some reachable board is written and then refused. */
  lemma SomeRunIsRefused(c: Codec, cfg: Config, capacity: nat) returns (calls: seq<Call>)
    requires RoundTrips(c)
    ensures Run(cfg, NEW_STATE, 0, calls)
    ensures var s := Final(cfg, NEW_STATE, 0, calls);
      |Payload(c, s)| < TWO_64 ==> ReadFile(c, Slice(FileOf(Payload(c, s)), capacity)) == Rejected(Corrupt)
  {
    hide RoundTrips, ReadFile, FileOf, Final, Run, ValidState, Stripped;
    calls := SomeRunIsLonger(c, cfg, MAX_DECOMPRESSED);
    var s := Final(cfg, NEW_STATE, 0, calls);
    RunWellFormed(cfg, NEW_STATE, 0, calls);
    assert Current(s) == s;
    if |Payload(c, s)| < TWO_64 { RoundTrip(c, s, capacity); }
  }
}
