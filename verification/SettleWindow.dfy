/** How long the writer waits before it saves, and between failed saves
    (board.go:282-318). */
module SettleWindow {
  import opened Model

  const MILLISECOND: int := 1_000_000
  const FIRST_BACKOFF: int := 100 * MILLISECOND
  const MAX_BACKOFF: int := 5 * SECOND

  function Min(a: int, b: int): int { if a < b then a else b }
  function Max(a: int, b: int): int { if a > b then a else b }

  // ----- settling -----------------------------------------------------------------------

  ghost predicate Kicks(first: Time, kicks: seq<Time>) {
    (forall i :: 0 <= i < |kicks| ==> first <= kicks[i])
    && (forall i, j :: 0 <= i < j < |kicks| ==> kicks[i] <= kicks[j])
  }

  /** No kick came in the `debounce` before the end. */
  ghost predicate Quiet(kicks: seq<Time>, from: Time, to: Time) {
    forall i :: 0 <= i < |kicks| ==> !(from < kicks[i] < to)
  }

  /** What passes between the deadline of the timer, as set for the n-th time, and
      its firing. */
  ghost predicate Lags(lag: nat -> int, late: int) { forall n :: 0 <= lag(n) <= late }

  /** The settle loop. `first` is when the writer took the first kick; `ties` says of
      each kick whether it is seen before a timer that fires as it comes. Apart from
      the lateness of the timer, the end lies within the larger of the two delays. It
      does not come before the smaller, and either nobody kicked for a whole debounce
      or the largest latency is used up; and it does not wait longer than a debounce
      after the last kick. */
  method Settle(debounce: int, maxLatency: int, first: Time, kicks: seq<Time>, ties: nat -> bool, lag: nat -> int,
                ghost late: int)
    returns (end: Time)
    requires debounce >= 0 && Kicks(first, kicks) && Lags(lag, late)
    ensures first <= end <= first + Max(debounce, maxLatency) + late
    ensures end >= first + Min(debounce, maxLatency)
    ensures Quiet(kicks, end - debounce, end) || end >= first + maxLatency
    ensures kicks == [] ==> end == first + debounce + lag(0)
    ensures end <= first + debounce + late
            || exists i :: 0 <= i < |kicks| && kicks[i] <= end <= kicks[i] + debounce + late
  {
    var fires := first + debounce + lag(0);
    for i := 0 to |kicks|
      invariant first <= fires <= first + Max(debounce, maxLatency) + late
      invariant fires >= first + Min(debounce, maxLatency)
      invariant Quiet(kicks[..i], fires - debounce, fires) || fires >= first + maxLatency
      invariant i > 0 ==> kicks[i - 1] <= fires
      invariant i == 0 ==> fires == first + debounce + lag(0)
      invariant i > 0 ==> fires <= kicks[i - 1] + debounce + late
    {
      var k := kicks[i];
      if k > fires || (k == fires && !ties(i)) { return fires; }
      var left := maxLatency - (k - first);
      if left <= 0 { return k; }
      fires := k + Min(debounce, left) + lag(i + 1);
    }
    end := fires;
  }

  /** A single kick is saved within the largest latency exactly when the debounce and
      the lateness of the timer fit in it: a longer debounce is not capped. */
  method SettleAlone(debounce: int, maxLatency: int, first: Time, ties: nat -> bool, lag: nat -> int, ghost late: int)
    returns (end: Time)
    requires debounce >= 0 && Lags(lag, late)
    ensures end <= first + maxLatency <==> debounce + lag(0) <= maxLatency
  {
    end := Settle(debounce, maxLatency, first, [], ties, lag, late);
  }

  // ----- backing off ------------------------------------------------------------------------

  function Power2(k: nat): nat { if k == 0 then 1 else 2 * Power2(k - 1) }

  /** The wait before retry k, as the loop doubles it. */
  function Backoff(k: nat): int {
    if k == 0 then FIRST_BACKOFF else Min(Backoff(k - 1) * 2, MAX_BACKOFF)
  }

  lemma {:induction false} BackoffIsPower(k: nat)
    ensures Backoff(k) == Min(100_000_000 * Power2(k), 5_000_000_000)
    ensures FIRST_BACKOFF <= Backoff(k) <= MAX_BACKOFF
  {
    if k > 0 { BackoffIsPower(k - 1); }
  }

  /** When attempt n starts, if attempt k fails after `took(k)`. */
  function AttemptAt(start: Time, took: nat -> int, n: nat): Time {
    if n == 0 then start else AttemptAt(start, took, n - 1) + took(n - 1) + Backoff(n - 1)
  }

  lemma {:induction false} AttemptsGoOn(start: Time, took: nat -> int, n: nat)
    requires forall k :: took(k) >= 0
    ensures AttemptAt(start, took, n) >= start + n * FIRST_BACKOFF
  {
    if n > 0 {
      AttemptsGoOn(start, took, n - 1);
      BackoffIsPower(n - 1);
    }
  }

  /** An attempt that starts at `works` or later succeeds. */
  ghost predicate WorksFrom(start: Time, took: nat -> int, fails: nat -> bool, works: Time) {
    forall k :: fails(k) ==> AttemptAt(start, took, k) < works
  }

  /** Attempt n is the first that succeeds. */
  ghost predicate FirstSuccess(fails: nat -> bool, n: nat) { !fails(n) && forall j :: 0 <= j < n ==> fails(j) }

  /** Some attempt succeeds. */
  lemma SavedInTheEnd(start: Time, took: nat -> int, fails: nat -> bool, works: Time, from: nat) returns (n: nat)
    requires (forall k :: took(k) >= 0) && WorksFrom(start, took, fails, works)
    requires forall j :: 0 <= j < from ==> fails(j)
    ensures FirstSuccess(fails, n)
    decreases works - start - from * FIRST_BACKOFF
  {
    n := from;
    if fails(from) {
      AttemptsGoOn(start, took, from);
      n := SavedInTheEnd(start, took, fails, works, from + 1);
    }
  }

  /** It starts at most five seconds, and the time that one failing attempt takes,
      after the store works again. */
  lemma SavedSoonAfter(start: Time, took: nat -> int, fails: nat -> bool, works: Time, n: nat)
    requires (forall k :: took(k) >= 0) && WorksFrom(start, took, fails, works) && FirstSuccess(fails, n)
    ensures if n == 0 then AttemptAt(start, took, n) == start
            else AttemptAt(start, took, n) < works + 5_000_000_000 + took(n - 1)
  {
    if n > 0 { BackoffIsPower(n - 1); }
  }

  /** No bound below it holds: an attempt may fail in the last moment before the store
      works, and the wait after it is the longest. */
  lemma SoonIsNotSooner(start: Time, took: nat -> int, n: nat) returns (works: Time, fails: nat -> bool)
    requires (forall k :: took(k) >= 0) && n >= 7
    ensures WorksFrom(start, took, fails, works) && FirstSuccess(fails, n)
    ensures AttemptAt(start, took, n) == works - 1 + took(n - 1) + MAX_BACKOFF
  {
    works := AttemptAt(start, took, n - 1) + 1;
    fails := k => k < n;
    forall k | fails(k)
      ensures AttemptAt(start, took, k) < works
    {
      AttemptsInOrder(start, took, k, n - 1);
    }
    BackoffIsPower(n - 1);
    PowersGrow(6, n - 1);
  }

  lemma {:induction false} AttemptsInOrder(start: Time, took: nat -> int, i: nat, j: nat)
    requires (forall k :: took(k) >= 0) && i <= j
    ensures AttemptAt(start, took, i) <= AttemptAt(start, took, j)
  {
    if i < j {
      AttemptsInOrder(start, took, i, j - 1);
      BackoffIsPower(j - 1);
    }
  }

  lemma {:induction false} PowersGrow(i: nat, j: nat)
    requires i <= j
    ensures Power2(i) <= Power2(j)
  {
    if i < j { PowersGrow(i, j - 1); }
  }

  /** The retry loop: which attempt saves, and when it is done. */
  method RetryUntilSaved(start: Time, took: nat -> int, fails: nat -> bool, ghost works: Time)
    returns (n: nat, saved: Time)
    requires (forall k :: took(k) >= 0) && WorksFrom(start, took, fails, works)
    ensures FirstSuccess(fails, n) && saved == AttemptAt(start, took, n) + took(n)
    ensures n > 0 ==> saved < works + 5_000_000_000 + took(n - 1) + took(n)
  {
    n := 0;
    var now, backoff := start, FIRST_BACKOFF;
    ghost var last := SavedInTheEnd(start, took, fails, works, 0);
    while fails(n)
      invariant n <= last && now == AttemptAt(start, took, n) && backoff == Backoff(n)
      invariant forall j :: 0 <= j < n ==> fails(j)
      decreases last - n
    {
      now := now + took(n) + backoff;
      backoff := Min(backoff * 2, MAX_BACKOFF);
      n := n + 1;
    }
    saved := now + took(n);
    SavedSoonAfter(start, took, fails, works, n);
  }
}
