/** The client's reconnect loop: cmd/tunnl/main.go. Times are in milliseconds. */
module Reconnect {
  import opened Wrappers

  const CAP := 30_000

  /** One attempt to run the tunnel: whether it got as far as the welcome, how it ended, and, for the pause after it,
      the jitter and whether the user stopped the client during it. */
  datatype End = Stopped | Rejected | Lost

  datatype Attempt = Attempt(ready: bool, end: End, jitter: nat, stoppedInPause: bool) {
    /** The loop goes on to another attempt. */
    predicate GoesOn() { end.Lost? && !stoppedInPause }
  }

  datatype Exit = Cleanly | WithRejection

  function Power(k: nat): nat {
    if k == 0 then 1 else 2 * Power(k - 1)
  }

  function Min(a: nat, b: nat): nat {
    if a <= b then a else b
  }

  /** The pause after `k` failures in a row: doubling from one second up to thirty. */
  function Base(k: nat): nat {
    Min(1000 * Power(k), CAP)
  }

  lemma Doubling(k: nat)
    ensures Base(k + 1) == if Base(k) < CAP then Min(2 * Base(k), CAP) else Base(k)
  {
  }

  /** Failures since the last welcome, just before attempt `n` has failed. */
  function Failures(attempts: seq<Attempt>, n: nat): nat
    requires n < |attempts|
  {
    if attempts[n].ready || n == 0 then 0 else Failures(attempts, n - 1) + 1
  }

  /** Pause `n` was the base for the failures so far plus the jitter. */
  predicate Waited(attempts: seq<Attempt>, waits: seq<nat>, n: nat) {
    && n < |attempts| && n < |waits| && attempts[n].GoesOn()
    && waits[n] == Base(Failures(attempts, n)) + attempts[n].jitter
  }

  /** The loop; `waits` are the pauses between attempts. It ends at the first attempt that is stopped or rejected, or
      whose pause is stopped, and only a rejection is reported. None: it is still going after all of `attempts`. */
  method Run(attempts: seq<Attempt>) returns (waits: seq<nat>, exit: Option<Exit>)
    ensures |waits| <= |attempts|
    ensures forall n: nat :: n < |waits| ==> Waited(attempts, waits, n)
    ensures exit.None? <==> |waits| == |attempts|
    ensures exit.Some? ==> !attempts[|waits|].GoesOn()
                           && (exit == Some(WithRejection) <==> attempts[|waits|].end.Rejected?)
  {
    waits := [];
    var delay := 1000;
    for n := 0 to |attempts|
      invariant |waits| == n
      invariant forall m: nat :: m < n ==> Waited(attempts, waits, m)
      invariant delay == if n == 0 then 1000 else Base(Failures(attempts, n - 1) + 1)
    {
      if attempts[n].ready {
        delay := 1000;
      }
      if !attempts[n].end.Lost? {
        return waits, Some(if attempts[n].end.Rejected? then WithRejection else Cleanly);
      }
      if attempts[n].stoppedInPause {
        return waits, Some(Cleanly);
      }
      BaseAt(attempts, n);
      ghost var before := waits;
      waits := waits + [delay + attempts[n].jitter];
      Doubling(Failures(attempts, n));
      assert forall m: nat :: m < n ==> Waited(attempts, before, m) ==> Waited(attempts, waits, m);
      assert Waited(attempts, waits, n);
      delay := Longer(delay);
    }
    exit := None;
  }

  lemma BaseAt(attempts: seq<Attempt>, n: nat)
    requires n < |attempts|
    ensures Base(Failures(attempts, n))
            == if n == 0 || attempts[n].ready then 1000 else Base(Failures(attempts, n - 1) + 1)
  {
  }

  method Longer(delay: nat) returns (longer: nat)
    ensures longer == if delay < CAP then Min(2 * delay, CAP) else delay
  {
    longer := delay;
    if longer < CAP {
      longer := longer * 2;
      if longer > CAP {
        longer := CAP;
      }
    }
  }

  function Total(waits: seq<nat>): nat {
    if waits == [] then 0 else Total(waits[..|waits| - 1]) + waits[|waits| - 1]
  }

  function ClosedForm(n: nat): int {
    if n <= 5 then 1000 * (Power(n) - 1) else 31_000 + 30_000 * (n - 5)
  }

  lemma ClosedStep(n: nat)
    ensures ClosedForm(n + 1) == ClosedForm(n) + Base(n)
  {
    PowerValues(n);
    PowerValues(n + 1);
  }

  /** In a run of failures with no welcome, `n` pauses sum to the closed form: doubling up to the cap, then the cap. */
  lemma WaitsSum(attempts: seq<Attempt>, waits: seq<nat>)
    requires |waits| <= |attempts| && forall n :: 0 <= n < |attempts| ==> !attempts[n].ready && attempts[n].jitter < 500
    requires forall n :: 0 <= n < |waits| ==> waits[n] == Base(Failures(attempts, n)) + attempts[n].jitter
    ensures ClosedForm(|waits|) <= Total(waits) <= ClosedForm(|waits|) + 499 * |waits|
  {
    forall n | 0 <= n < |waits|
      ensures waits[n] == Base(n) + attempts[n].jitter
    {
      AllFailed(attempts, n);
    }
    TotalBounds(waits);
  }

  lemma {:induction false} TotalBounds(waits: seq<nat>)
    requires forall n :: 0 <= n < |waits| ==> Base(n) <= waits[n] <= Base(n) + 499
    ensures ClosedForm(|waits|) <= Total(waits) <= ClosedForm(|waits|) + 499 * |waits|
  {
    if waits != [] {
      var n := |waits| - 1;
      TotalBounds(waits[..n]);
      ClosedStep(n);
    }
  }

  /** Failures are counted from the last attempt that got as far as the welcome. */
  lemma {:induction false} FailuresCount(attempts: seq<Attempt>, last: nat, n: nat)
    requires last <= n < |attempts| && (last == 0 || attempts[last].ready)
    requires forall m :: last < m <= n ==> !attempts[m].ready
    ensures Failures(attempts, n) == n - last
  {
    if last < n {
      FailuresCount(attempts, last, n - 1);
    }
  }

  /** The pauses themselves: 1, 2, 4, 8 and 16 seconds, then 30. */
  lemma BaseValues(k: nat)
    ensures Base(k) == if k < 5 then [1000, 2000, 4000, 8000, 16_000][k] else 30_000
  {
    PowerValues(k);
  }

  lemma {:induction false} AllFailed(attempts: seq<Attempt>, n: nat)
    requires n < |attempts| && forall m :: 0 <= m < |attempts| ==> !attempts[m].ready
    ensures Failures(attempts, n) == n
  {
    if n > 0 {
      AllFailed(attempts, n - 1);
    }
  }

  lemma {:induction false} PowerValues(n: nat)
    ensures n <= 5 ==> Power(n) == [1, 2, 4, 8, 16, 32][n]
    ensures n >= 5 ==> Power(n) >= 32
  {
    if n > 0 {
      PowerValues(n - 1);
    }
  }
}
