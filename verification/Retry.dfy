/** `retry_with_backoff` of `src/proxy.rs`: connection attempts with exponential backoff
    under one total deadline, on an ideal clock counted in nanoseconds from the call. */
module Retry {
  import opened Wrappers

  /** `Duration::MAX`: 2^64 - 1 seconds and 999999999 nanoseconds. */
  const DURATION_MAX: nat := 0x1_0000_0000_0000_0000 * 1_000_000_000 - 1

  type Duration = d: nat | d <= DURATION_MAX
  type U32 = x: nat | x < 0x1_0000_0000

  datatype Policy = Policy(maxAttempts: U32, initialBackoff: Duration, maxBackoff: Duration, totalTimeout: Duration)

  /** What the n-th attempt would do if it were left to run. */
  datatype Attempt<T, E> = Finishes(after: nat, outcome: Result<T, E>) | Hangs

  datatype Verdict<T, E> =
    | Success(value: T)
    | Failed(error: E)
    | GaveUp(lastError: E, attempts: nat)
    | TimedOutDuring(attempt: nat)
    | TimedOutAfter(attempt: nat)

  /** The verdict, when each attempt started, every sleep taken, and the time of return. */
  datatype Report<T, E> = Report(verdict: Verdict<T, E>, starts: seq<nat>, sleeps: seq<nat>, end: nat)

  /** `RetryPolicy::default()` */
  const DEFAULT_POLICY := Policy(4, 500_000_000, 5_000_000_000, 30_000_000_000)

  function Min(a: nat, b: nat): nat {
    if a <= b then a else b
  }

  /** How many attempts the policy allows, never less than one. */
  function Limit(p: Policy): nat {
    if p.maxAttempts < 1 then 1 else p.maxAttempts
  }

  /** `current.saturating_mul(2).min(max)` */
  function NextBackoff(current: Duration, max: Duration): Duration {
    Min(Min(2 * current, DURATION_MAX), max)
  }

  function Pow2(k: nat): nat {
    if k == 0 then 1 else 2 * Pow2(k - 1)
  }

  /** `d` doubled `k` times, without any cap. */
  function Doubled(d: nat, k: nat): nat {
    if k == 0 then d else 2 * Doubled(d, k - 1)
  }

  /** The full wait between attempt `k` and attempt `k + 1`. */
  function Backoff(p: Policy, k: nat): Duration
    requires k >= 1
  {
    if k == 1 then p.initialBackoff else Min(Doubled(p.initialBackoff, k - 1), p.maxBackoff)
  }

  lemma {:induction false} DoubledIsPower(d: nat, k: nat)
    ensures Doubled(d, k) == d * Pow2(k)
  {
    if k > 0 {
      DoubledIsPower(d, k - 1);
      var q := Pow2(k - 1);
      assert d * (2 * q) == 2 * (d * q);
    }
  }

  lemma BackoffClosedForm(p: Policy, k: nat)
    requires k >= 1
    ensures Backoff(p, k) == if k == 1 then p.initialBackoff else Min(p.initialBackoff * Pow2(k - 1), p.maxBackoff)
  {
    DoubledIsPower(p.initialBackoff, k - 1);
  }

  /** Doubling, saturating and capping step by step gives these waits, for every policy:
      also one whose first backoff exceeds the cap, and one that reaches saturation. */
  lemma BackoffDoubles(p: Policy, k: nat)
    requires k >= 1
    ensures Backoff(p, k + 1) == NextBackoff(Backoff(p, k), p.maxBackoff)
  {
    assert Doubled(p.initialBackoff, k) == 2 * Doubled(p.initialBackoff, k - 1);
    assert k == 1 ==> Doubled(p.initialBackoff, 0) == p.initialBackoff;
  }

  /** Attempt `k` fails retryably with room for its whole backoff. */
  predicate Continues<T, E>(p: Policy, script: nat -> Attempt<T, E>, retryable: E -> bool, k: nat, now: nat)
    requires k >= 1
  {
    k < Limit(p) && script(k).Finishes? && script(k).outcome.Err? && retryable(script(k).outcome.error)
    && now + script(k).after < p.totalTimeout && now + script(k).after + Backoff(p, k) <= p.totalTimeout
  }

  /** The report if attempt `k`, starting at time `now`, is the last one made. */
  function Stop<T, E>(p: Policy, script: nat -> Attempt<T, E>, retryable: E -> bool, k: nat, now: nat): Report<T, E>
    requires 1 <= k <= Limit(p) && now <= p.totalTimeout
  {
    var a := script(k);
    if a.Hangs? || now + a.after > p.totalTimeout then
      Report(TimedOutDuring(k), [now], [], p.totalTimeout)
    else
      var t := now + a.after;
      if a.outcome.Ok? then Report(Success(a.outcome.value), [now], [], t)
      else if !retryable(a.outcome.error) then Report(Failed(a.outcome.error), [now], [], t)
      else if k == Limit(p) then
        Report(if k > 1 then GaveUp(a.outcome.error, k) else Failed(a.outcome.error), [now], [], t)
      else if t == p.totalTimeout then Report(TimedOutAfter(k), [now], [], t)
      else Report(TimedOutAfter(k), [now], [p.totalTimeout - t], p.totalTimeout)
  }

  /** The specification: from attempt `k`, starting at time `now`, by recursion over the
      script. */
  function Run<T, E>(p: Policy, script: nat -> Attempt<T, E>, retryable: E -> bool, k: nat, now: nat): Report<T, E>
    requires 1 <= k <= Limit(p) && now <= p.totalTimeout
    decreases Limit(p) - k
  {
    if Continues(p, script, retryable, k, now) then
      var rest := Run(p, script, retryable, k + 1, now + script(k).after + Backoff(p, k));
      Following([now], [Backoff(p, k)], rest)
    else Stop(p, script, retryable, k, now)
  }

  /** The record of earlier attempts followed by a report on the rest. */
  function Following<T, E>(starts: seq<nat>, sleeps: seq<nat>, rest: Report<T, E>): Report<T, E> {
    Report(rest.verdict, starts + rest.starts, sleeps + rest.sleeps, rest.end)
  }

  lemma FollowingShifts<T, E>(starts: seq<nat>, sleeps: seq<nat>, start: nat, sleep: nat, rest: Report<T, E>)
    ensures Following(starts + [start], sleeps + [sleep], rest) == Following(starts, sleeps, Following([start], [sleep], rest))
  {
    assert (starts + [start]) + rest.starts == starts + ([start] + rest.starts);
    assert (sleeps + [sleep]) + rest.sleeps == sleeps + ([sleep] + rest.sleeps);
  }

  /** What one turn of the loop that goes on keeps. */
  lemma RunContinues<T, E>(p: Policy, script: nat -> Attempt<T, E>, retryable: E -> bool, k: nat, now: nat,
                           whole: Report<T, E>, starts: seq<nat>, sleeps: seq<nat>, next: nat)
    requires 1 <= k && Continues(p, script, retryable, k, now)
    requires starts != [] && sleeps != [] && starts[|starts| - 1] == now && sleeps[|sleeps| - 1] == Backoff(p, k)
    requires next == now + script(k).after + Backoff(p, k)
    requires whole == Following(starts[..|starts| - 1], sleeps[..|sleeps| - 1], Run(p, script, retryable, k, now))
    ensures whole == Following(starts, sleeps, Run(p, script, retryable, k + 1, next))
    ensures Backoff(p, k + 1) == NextBackoff(Backoff(p, k), p.maxBackoff)
  {
    BackoffDoubles(p, k);
    var m, n := |starts| - 1, |sleeps| - 1;
    assert starts == starts[..m] + [now] && sleeps == sleeps[..n] + [Backoff(p, k)];
    FollowingShifts(starts[..m], sleeps[..n], now, Backoff(p, k), Run(p, script, retryable, k + 1, next));
  }

  lemma RunCutOff<T, E>(p: Policy, script: nat -> Attempt<T, E>, retryable: E -> bool,
                        k: nat, now: nat, sleep: nat, end: nat)
    requires 1 <= k < Limit(p) && script(k).Finishes? && script(k).outcome.Err? && retryable(script(k).outcome.error)
    requires now + script(k).after < end == p.totalTimeout && sleep == end - now - script(k).after < Backoff(p, k)
    ensures Run(p, script, retryable, k, now) == Report(TimedOutAfter(k), [now], [sleep], end)
  {
  }

  /** The loop of the source, its clock and its records made explicit. */
  method RetryWithBackoff<T, E>(p: Policy, script: nat -> Attempt<T, E>, retryable: E -> bool)
    returns (report: Report<T, E>)
    ensures report == Run(p, script, retryable, 1, 0)
  {
    var deadline := p.totalTimeout;
    var maxAttempts: U32 := if p.maxAttempts < 1 then 1 else p.maxAttempts;
    var backoff: Duration := p.initialBackoff;
    var attempt: U32 := 1;
    var now: nat, starts: seq<nat>, sleeps: seq<nat> := 0, [], [];
    ghost var whole := Run(p, script, retryable, 1, 0);
    while true
      invariant 1 <= attempt <= maxAttempts == Limit(p) && now <= deadline
      invariant backoff == Backoff(p, attempt)
      invariant whole == Following(starts, sleeps, Run(p, script, retryable, attempt, now))
      decreases maxAttempts - attempt
    {
      var a := script(attempt);
      if a.Hangs? || now + a.after > deadline {
        return Following(starts, sleeps, Report(TimedOutDuring(attempt), [now], [], deadline));
      }
      var done := now + a.after;
      if a.outcome.Ok? {
        return Following(starts, sleeps, Report(Success(a.outcome.value), [now], [], done));
      } else if !retryable(a.outcome.error) {
        return Following(starts, sleeps, Report(Failed(a.outcome.error), [now], [], done));
      } else if attempt < maxAttempts {
        var remaining := deadline - done;
        if remaining == 0 {
          return Following(starts, sleeps, Report(TimedOutAfter(attempt), [now], [], done));
        }
        var sleepFor := Min(backoff, remaining);
        if sleepFor < backoff {
          RunCutOff(p, script, retryable, attempt, now, sleepFor, done + sleepFor);
          return Following(starts, sleeps, Report(TimedOutAfter(attempt), [now], [sleepFor], done + sleepFor));
        }
        ghost var before := now;
        starts, sleeps, now := starts + [now], sleeps + [sleepFor], done + sleepFor;
        RunContinues(p, script, retryable, attempt, before, whole, starts, sleeps, now);
        backoff := NextBackoff(backoff, p.maxBackoff);
        attempt := attempt + 1;
      } else if attempt > 1 {
        return Following(starts, sleeps, Report(GaveUp(a.outcome.error, attempt), [now], [], done));
      } else {
        return Following(starts, sleeps, Report(Failed(a.outcome.error), [now], [], done));
      }
    }
  }

  // ----- What the specification means, without recursion over the loop -----

  function Took<T, E>(a: Attempt<T, E>): nat {
    if a.Hangs? then 0 else a.after
  }

  /** When attempt `n` starts if every attempt before it fails and waits in full. */
  function StartOf<T, E>(p: Policy, script: nat -> Attempt<T, E>, n: nat): nat
    requires n >= 1
  {
    if n == 1 then 0
    else StartOf(p, script, n - 1) + Took(script(n - 1)) + Backoff(p, n - 1)
  }

  predicate InTime<T, E>(p: Policy, script: nat -> Attempt<T, E>, n: nat)
    requires n >= 1
  {
    script(n).Finishes? && StartOf(p, script, n) + script(n).after <= p.totalTimeout
  }

  /** Attempt `n` failed in time with an error worth retrying. */
  predicate Retries<T, E>(p: Policy, script: nat -> Attempt<T, E>, retryable: E -> bool, n: nat)
    requires n >= 1
  {
    InTime(p, script, n) && script(n).outcome.Err? && retryable(script(n).outcome.error)
  }

  /** Attempt `n` failed retryably, before the deadline, with room for its whole backoff. */
  predicate MovesOn<T, E>(p: Policy, script: nat -> Attempt<T, E>, retryable: E -> bool, n: nat)
    requires n >= 1
  {
    Retries(p, script, retryable, n)
    && StartOf(p, script, n) + script(n).after < p.totalTimeout
    && StartOf(p, script, n + 1) <= p.totalTimeout
  }

  /** Attempt `n` is made: the policy allows it and every attempt before it moves on. */
  predicate Reached<T, E>(p: Policy, script: nat -> Attempt<T, E>, retryable: E -> bool, n: nat) {
    1 <= n && (n == 1 || n <= p.maxAttempts) && forall i :: 1 <= i < n ==> MovesOn(p, script, retryable, i)
  }

  function VerdictAt<T, E>(p: Policy, script: nat -> Attempt<T, E>, retryable: E -> bool, last: nat): Verdict<T, E>
    requires last >= 1
  {
    if !InTime(p, script, last) then TimedOutDuring(last)
    else if script(last).outcome.Ok? then Success(script(last).outcome.value)
    else if !retryable(script(last).outcome.error) then Failed(script(last).outcome.error)
    else if last < p.maxAttempts then TimedOutAfter(last)
    else if last > 1 then GaveUp(script(last).outcome.error, last)
    else Failed(script(last).outcome.error)
  }

  /** When the call returns if attempt `last` is the last one made. */
  function EndAt<T, E>(p: Policy, script: nat -> Attempt<T, E>, retryable: E -> bool, last: nat): nat
    requires last >= 1
  {
    if VerdictAt(p, script, retryable, last).TimedOutDuring? || VerdictAt(p, script, retryable, last).TimedOutAfter?
    then p.totalTimeout
    else StartOf(p, script, last) + Took(script(last))
  }

  /** The sleep after the last attempt: only what was left, and only where the deadline
      cuts a full wait short. */
  function CutSleep<T, E>(p: Policy, script: nat -> Attempt<T, E>, retryable: E -> bool, last: nat): seq<nat>
    requires last >= 1
  {
    var t := StartOf(p, script, last) + Took(script(last));
    if VerdictAt(p, script, retryable, last).TimedOutAfter? && t < p.totalTimeout then [p.totalTimeout - t] else []
  }

  /** Where attempt `k` moves on, the specification records it and continues; where it
      does not, the specification stops with that attempt's verdict. */
  lemma RunStep<T, E>(p: Policy, script: nat -> Attempt<T, E>, retryable: E -> bool, k: nat)
    requires 1 <= k <= Limit(p) && StartOf(p, script, k) <= p.totalTimeout
    ensures var now := StartOf(p, script, k); var r := Run(p, script, retryable, k, now);
      if k < Limit(p) && MovesOn(p, script, retryable, k) then
        var rest := Run(p, script, retryable, k + 1, StartOf(p, script, k + 1));
        r == Following([now], [Backoff(p, k)], rest)
      else
        r == Report(VerdictAt(p, script, retryable, k), [now], CutSleep(p, script, retryable, k), EndAt(p, script, retryable, k))
  {
  }

  function Starts<T, E>(p: Policy, script: nat -> Attempt<T, E>, k: nat, last: nat): seq<nat>
    requires 1 <= k
    decreases last - k
  {
    if k > last then [] else [StartOf(p, script, k)] + Starts(p, script, k + 1, last)
  }

  function Waits(p: Policy, k: nat, last: nat): seq<nat>
    requires 1 <= k
    decreases last - k
  {
    if k >= last then [] else [Backoff(p, k)] + Waits(p, k + 1, last)
  }

  /** `r` is the record of attempts `k` to `last`: each started on schedule, a full wait
      between any two, possibly one wait that the deadline cut short at the end, and the
      verdict and time of return that attempt `last` determines. */
  ghost predicate Explains<T, E>(p: Policy, script: nat -> Attempt<T, E>, retryable: E -> bool,
                                 k: nat, r: Report<T, E>, last: nat)
    requires 1 <= k <= last
  {
    && Reached(p, script, retryable, last) && !(last < p.maxAttempts && MovesOn(p, script, retryable, last))
    && r.starts == Starts(p, script, k, last)
    && r.sleeps == Waits(p, k, last) + CutSleep(p, script, retryable, last)
    && r.verdict == VerdictAt(p, script, retryable, last)
    && r.end == EndAt(p, script, retryable, last)
    && StartOf(p, script, last) <= r.end <= p.totalTimeout
  }

  lemma {:induction false} StartsAndWaits<T, E>(p: Policy, script: nat -> Attempt<T, E>, k: nat, last: nat)
    requires 1 <= k <= last
    ensures |Starts(p, script, k, last)| == last - k + 1 && |Waits(p, k, last)| == last - k
    ensures forall i :: 0 <= i <= last - k ==> Starts(p, script, k, last)[i] == StartOf(p, script, k + i)
    ensures forall i :: 0 <= i < last - k ==> Waits(p, k, last)[i] == Backoff(p, k + i)
    decreases last - k
  {
    if k < last {
      StartsAndWaits(p, script, k + 1, last);
    }
  }

  lemma {:induction false} RunFrom<T, E>(p: Policy, script: nat -> Attempt<T, E>, retryable: E -> bool, k: nat)
    returns (last: nat)
    requires Reached(p, script, retryable, k) && StartOf(p, script, k) <= p.totalTimeout
    ensures k <= last && Explains(p, script, retryable, k, Run(p, script, retryable, k, StartOf(p, script, k)), last)
    decreases Limit(p) - k
  {
    RunStep(p, script, retryable, k);
    if k < Limit(p) && MovesOn(p, script, retryable, k) {
      last := RunFrom(p, script, retryable, k + 1);
      PrependRecord(p, script, retryable, k, Run(p, script, retryable, k + 1, StartOf(p, script, k + 1)), last);
    } else {
      last := k;
      assert Starts(p, script, k, k) == [StartOf(p, script, k)];
      assert [] + CutSleep(p, script, retryable, k) == CutSleep(p, script, retryable, k);
    }
  }

  lemma PrependRecord<T, E>(p: Policy, script: nat -> Attempt<T, E>, retryable: E -> bool,
                            k: nat, rest: Report<T, E>, last: nat)
    requires 1 <= k < last && Explains(p, script, retryable, k + 1, rest, last)
    ensures Explains(p, script, retryable, k,
      Following([StartOf(p, script, k)], [Backoff(p, k)], rest), last)
  {
    var cut := CutSleep(p, script, retryable, last);
    assert [Backoff(p, k)] + (Waits(p, k + 1, last) + cut) == ([Backoff(p, k)] + Waits(p, k + 1, last)) + cut;
  }

  /** For every policy and every script: which attempts are made and when, what is slept
      between them, when the call returns, and with which verdict. */
  lemma RunExplained<T, E>(p: Policy, script: nat -> Attempt<T, E>, retryable: E -> bool)
    returns (last: nat)
    ensures 1 <= last && (last == 1 || last <= p.maxAttempts)
    ensures Explains(p, script, retryable, 1, Run(p, script, retryable, 1, 0), last)
    ensures forall n :: n >= 1 ==> (n <= last <==> Reached(p, script, retryable, n))
  {
    last := RunFrom(p, script, retryable, 1);
    forall n: nat | n >= 1 ensures n <= last <==> Reached(p, script, retryable, n) {
    }
  }

  /** At most `max(1, max_attempts)` attempts, none starting and nothing ending after the
      deadline; every sleep but a final cut-off one is the closed-form backoff. */
  lemma RetryBounds<T, E>(p: Policy, script: nat -> Attempt<T, E>, retryable: E -> bool)
    ensures var r := Run(p, script, retryable, 1, 0);
      && 1 <= |r.starts| && (|r.starts| == 1 || |r.starts| <= p.maxAttempts)
      && r.end <= p.totalTimeout
      && (forall i :: 0 <= i < |r.starts| ==> r.starts[i] <= r.end)
      && (forall i :: 0 <= i < |r.sleeps| ==> r.sleeps[i] <= Backoff(p, i + 1))
      && (forall i :: 0 <= i < |r.sleeps| && r.sleeps[i] < Backoff(p, i + 1) ==>
            i == |r.starts| - 1 && r.end == p.totalTimeout && r.verdict == TimedOutAfter(i + 1))
  {
    var last := RunExplained(p, script, retryable);
    StartsAndWaits(p, script, 1, last);
    forall n: nat | 1 <= n <= last ensures StartOf(p, script, n) <= StartOf(p, script, last) {
      StartsGrow(p, script, n, last);
    }
  }

  lemma {:induction false} StartsGrow<T, E>(p: Policy, script: nat -> Attempt<T, E>, m: nat, n: nat)
    requires 1 <= m <= n
    ensures StartOf(p, script, m) <= StartOf(p, script, n)
  {
    if m < n {
      StartsGrow(p, script, m, n - 1);
    }
  }

  /** Success is reported exactly when some attempt that is made succeeds in time, and
      then with that attempt's own value; no attempt follows it. */
  lemma SucceedsIff<T, E>(p: Policy, script: nat -> Attempt<T, E>, retryable: E -> bool, v: T)
    ensures Run(p, script, retryable, 1, 0).verdict == Success(v) <==>
      exists n :: n >= 1 && Reached(p, script, retryable, n) && InTime(p, script, n) && script(n).outcome == Ok(v)
  {
    var last := RunExplained(p, script, retryable);
    EarlierFailed(p, script, retryable, last);
    forall n: nat | n >= 1 && Reached(p, script, retryable, n) && InTime(p, script, n) && script(n).outcome.Ok?
      ensures n == last
    {
    }
  }

  lemma EarlierFailed<T, E>(p: Policy, script: nat -> Attempt<T, E>, retryable: E -> bool, last: nat)
    requires Reached(p, script, retryable, last)
    ensures forall i :: 1 <= i < last ==>
      script(i).Finishes? && script(i).outcome.Err? && retryable(script(i).outcome.error)
  {
    forall i | 1 <= i < last
      ensures script(i).Finishes? && script(i).outcome.Err? && retryable(script(i).outcome.error)
    {
      assert MovesOn(p, script, retryable, i);
    }
  }

  /** "giving up" is reported exactly when the policy allows more than one attempt, the
      last allowed attempt is made, and it too fails retryably in time. */
  lemma GivesUpIff<T, E>(p: Policy, script: nat -> Attempt<T, E>, retryable: E -> bool)
    ensures var max := p.maxAttempts; var r := Run(p, script, retryable, 1, 0);
      r.verdict.GaveUp? <==>
        max > 1 && Reached(p, script, retryable, max) && Retries(p, script, retryable, max)
    ensures var max := p.maxAttempts; var r := Run(p, script, retryable, 1, 0);
      r.verdict.GaveUp? ==> (max >= 1 && script(max).Finishes? && script(max).outcome.Err?
        && r.verdict == GaveUp(script(max).outcome.error, max) && |r.starts| == max)
  {
    var last := RunExplained(p, script, retryable);
    StartsAndWaits(p, script, 1, last);
  }

  /** A permanent error ends the call at once and unchanged, whichever attempt meets it. */
  lemma PermanentErrorUnchanged<T, E>(p: Policy, script: nat -> Attempt<T, E>, retryable: E -> bool, n: nat)
    requires n >= 1 && Reached(p, script, retryable, n) && InTime(p, script, n)
    requires script(n).outcome.Err? && !retryable(script(n).outcome.error)
    ensures var r := Run(p, script, retryable, 1, 0);
      r.verdict == Failed(script(n).outcome.error) && |r.starts| == n && |r.sleeps| == n - 1
      && r.end == StartOf(p, script, n) + script(n).after
  {
    var last := RunExplained(p, script, retryable);
    EarlierFailed(p, script, retryable, last);
    StartsAndWaits(p, script, 1, last);
  }

  /** Attempt `n` is made, and on schedule, exactly if the policy allows that many and each
      attempt before it failed in time, with an error worth retrying, before the deadline
      and with room for its whole wait. */
  lemma AttemptMadeIff<T, E>(p: Policy, script: nat -> Attempt<T, E>, retryable: E -> bool, n: nat)
    requires n >= 1
    ensures var r := Run(p, script, retryable, 1, 0);
      && (n <= |r.starts| <==>
            (n == 1 || n <= p.maxAttempts) && forall i :: 1 <= i < n ==> MovesOn(p, script, retryable, i))
      && (n <= |r.starts| ==> r.starts[n - 1] == StartOf(p, script, n))
  {
    var last := RunExplained(p, script, retryable);
    StartsAndWaits(p, script, 1, last);
    assert n <= last <==> Reached(p, script, retryable, n);
  }

  /** What moving on takes, in terms of the script and the policy alone. */
  lemma MovesOnIff<T, E>(p: Policy, script: nat -> Attempt<T, E>, retryable: E -> bool, n: nat)
    requires n >= 1
    ensures var wait := if n == 1 then p.initialBackoff else Min(p.initialBackoff * Pow2(n - 1), p.maxBackoff);
      MovesOn(p, script, retryable, n) <==>
        && script(n).Finishes? && script(n).outcome.Err? && retryable(script(n).outcome.error)
        && StartOf(p, script, n) + script(n).after < p.totalTimeout
        && StartOf(p, script, n) + script(n).after + wait <= p.totalTimeout
  {
    BackoffClosedForm(p, n);
  }

  /** The two timeouts: during the attempt that would not be over by the deadline, and
      after one that failed retryably but leaves too little time for its wait. */
  lemma TimesOutIff<T, E>(p: Policy, script: nat -> Attempt<T, E>, retryable: E -> bool, n: nat)
    requires n >= 1
    ensures var r := Run(p, script, retryable, 1, 0);
      && (r.verdict == TimedOutDuring(n) <==>
            n <= |r.starts| && (script(n).Hangs? || StartOf(p, script, n) + script(n).after > p.totalTimeout))
      && (r.verdict == TimedOutAfter(n) <==>
            n <= |r.starts| && n < p.maxAttempts && Retries(p, script, retryable, n)
            && (StartOf(p, script, n) + script(n).after == p.totalTimeout
                || StartOf(p, script, n) + script(n).after + Backoff(p, n) > p.totalTimeout))
      && (r.verdict.TimedOutDuring? || r.verdict.TimedOutAfter? ==> r.end == p.totalTimeout)
  {
    var last := RunExplained(p, script, retryable);
    StartsAndWaits(p, script, 1, last);
    if n < last {
      assert MovesOn(p, script, retryable, n);
    }
  }

  predicate FailsAtOnce<T, E>(a: Attempt<T, E>, retryable: E -> bool) {
    a.Finishes? && a.after == 0 && a.outcome.Err? && retryable(a.outcome.error)
  }

  /** The default policy as documented: four attempts, 0.5s, 1s and 2s apart, within 30s. */
  lemma DefaultPolicyWaits<T, E>(script: nat -> Attempt<T, E>, retryable: E -> bool)
    ensures Backoff(DEFAULT_POLICY, 1) == 500_000_000
      && Backoff(DEFAULT_POLICY, 2) == 1_000_000_000 && Backoff(DEFAULT_POLICY, 3) == 2_000_000_000
    ensures (forall i :: 1 <= i <= 4 ==> FailsAtOnce(script(i), retryable)) ==>
      Run(DEFAULT_POLICY, script, retryable, 1, 0)
        == Report(GaveUp(script(4).outcome.error, 4), [0, 500_000_000, 1_500_000_000, 3_500_000_000],
                  [500_000_000, 1_000_000_000, 2_000_000_000], 3_500_000_000)
  {
    var p := DEFAULT_POLICY;
    assert Doubled(p.initialBackoff, 0) == 500_000_000;
    assert Doubled(p.initialBackoff, 1) == 1_000_000_000;
    assert Doubled(p.initialBackoff, 2) == 2_000_000_000;
    if forall i :: 1 <= i <= 4 ==> FailsAtOnce(script(i), retryable) {
      assert FailsAtOnce(script(1), retryable) && FailsAtOnce(script(2), retryable);
      assert FailsAtOnce(script(3), retryable) && FailsAtOnce(script(4), retryable);
      var r4 := Run(p, script, retryable, 4, 3_500_000_000);
      var r3 := Run(p, script, retryable, 3, 1_500_000_000);
      var r2 := Run(p, script, retryable, 2, 500_000_000);
      assert r3 == Following([1_500_000_000], [2_000_000_000], r4);
      assert r2 == Following([500_000_000], [1_000_000_000], r3);
    }
  }
}
