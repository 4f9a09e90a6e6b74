/** The `retry` decorator's wrapper: up to `retries` attempts, the first
    success returned at once, a sleep of `delay * backoff^(k-1)` after the
    k-th retried failure unless it was the last attempt, and the last error
    re-raised when attempts run out. The wrapped call's successive outcomes
    are an input; sleeps and debug log calls are recorded, not performed. */
module Retry {

  /** An exception the wrapped call raises: `isException` tells whether it
      is an instance of `Exception` (retried) or only of `BaseException`
      (propagated at once, as cancellation is). */
  datatype Exc = Exc(name: string, isException: bool)

  /** What the k-th call of the wrapped function does. */
  datatype Outcome<T> = Returns(value: T) | Raises(error: Exc)

  /** How the wrapper finishes: with a value, with `None` when it never
      called the function, or with an exception. */
  datatype Completion<T> = Returned(value: T) | ReturnedNone | Raised(error: Exc)

  /** The wrapper's debug log calls: the attempt announcement, the failure
      report (with the delay it is about to wait), and the exhaustion
      notice. */
  datatype Event = Attempting(attempt: nat) | Failed(attempt: nat, error: Exc, delay: real) | Exhausted

  /** Everything one run of the wrapper produces. */
  datatype Run<T> = Run(result: Completion<T>, calls: nat, sleeps: seq<real>, log: seq<Event>)

  predicate Retried<T>(o: Outcome<T>) { o.Raises? && o.error.isException }

  function Complete<T>(o: Outcome<T>): Completion<T>
  {
    match o
    case Returns(v) => Returned(v)
    case Raises(e) => Raised(e)
  }

  /** The run as it is before attempt `k` is prefixed: `sleeps`, `log` and
      `calls` already accumulated. */
  function Extend<T>(sleeps: seq<real>, log: seq<Event>, calls: nat, r: Run<T>): Run<T>
  {
    Run(r.result, calls + r.calls, sleeps + r.sleeps, log + r.log)
  }

  /** The wrapper's behaviour from attempt `k` on, with `delay` the current
      delay: the specification the loop is proved against. */
  function RunFrom<T>(attempt: nat -> Outcome<T>, k: nat, retries: int, delay: real, backoff: real): Run<T>
    decreases retries - k
  {
    if k > retries then Run(ReturnedNone, 0, [], [])
    else match attempt(k)
      case Returns(v) => Run(Returned(v), 1, [], [Attempting(k)])
      case Raises(e) =>
        if !e.isException then Run(Raised(e), 1, [], [Attempting(k)])
        else if k == retries then Run(Raised(e), 1, [], [Attempting(k), Failed(k, e, delay), Exhausted])
        else Extend([delay], [Attempting(k), Failed(k, e, delay)], 1,
                    RunFrom(attempt, k + 1, retries, delay * backoff, backoff))
  }

  /** The number of consecutive retried failures from attempt `k` on, up to
      attempt `retries`. */
  function Leading<T>(attempt: nat -> Outcome<T>, k: nat, retries: int): (n: nat)
    ensures k <= retries + 1 ==> n <= retries - k + 1
    decreases retries - k
  {
    if k > retries || !Retried(attempt(k)) then 0 else 1 + Leading(attempt, k + 1, retries)
  }

  function Pow(b: real, n: nat): real
  {
    if n == 0 then 1.0 else b * Pow(b, n - 1)
  }

  /** The first `m` delays starting from `delay`, each `backoff` times the
      one before. */
  function Delays(delay: real, backoff: real, m: nat): (r: seq<real>)
    ensures |r| == m
    decreases m
  {
    if m == 0 then [] else [delay] + Delays(delay * backoff, backoff, m - 1)
  }

  lemma {:induction false} DelaysAt(delay: real, backoff: real, m: nat, j: nat)
    requires j < m
    ensures Delays(delay, backoff, m)[j] == delay * Pow(backoff, j)
    decreases j
  {
    if j > 0 {
      DelaysAt(delay * backoff, backoff, m - 1, j - 1);
      assert delay * backoff * Pow(backoff, j - 1) == delay * (backoff * Pow(backoff, j - 1));
    }
  }

  function Exhaustions(log: seq<Event>): nat
  {
    if log == [] then 0 else (if log[0].Exhausted? then 1 else 0) + Exhaustions(log[1..])
  }

  function FailureReports(log: seq<Event>): nat
  {
    if log == [] then 0 else (if log[0].Failed? then 1 else 0) + FailureReports(log[1..])
  }

  function AttemptNumbers(log: seq<Event>): seq<nat>
  {
    if log == [] then [] else (if log[0].Attempting? then [log[0].attempt] else []) + AttemptNumbers(log[1..])
  }

  /** The numbers `from`, `from + 1`, ..., `to - 1`. */
  function Range(from: nat, to: nat): (r: seq<nat>)
    ensures |r| == (if to >= from then to - from else 0)
    decreases if from >= to then 0 else to - from
  {
    if from >= to then [] else [from] + Range(from + 1, to)
  }

  lemma ExhaustionsConcat(a: seq<Event>, b: seq<Event>)
    ensures Exhaustions(a + b) == Exhaustions(a) + Exhaustions(b)
  {
    if a == [] {
      assert a + b == b;
    } else {
      ExhaustionsConcat(a[1..], b);
      assert (a + b)[1..] == a[1..] + b;
    }
  }

  lemma FailureReportsConcat(a: seq<Event>, b: seq<Event>)
    ensures FailureReports(a + b) == FailureReports(a) + FailureReports(b)
  {
    if a == [] {
      assert a + b == b;
    } else {
      FailureReportsConcat(a[1..], b);
      assert (a + b)[1..] == a[1..] + b;
    }
  }

  lemma AttemptNumbersConcat(a: seq<Event>, b: seq<Event>)
    ensures AttemptNumbers(a + b) == AttemptNumbers(a) + AttemptNumbers(b)
  {
    if a == [] {
      assert a + b == b;
    } else {
      AttemptNumbersConcat(a[1..], b);
      assert (a + b)[1..] == a[1..] + b;
    }
  }

  /** The log calls of a retried failure followed by the rest of the run. */
  lemma FailureThenRestLog(k: nat, e: Exc, delay: real, rest: seq<Event>)
    ensures var log := [Attempting(k), Failed(k, e, delay)] + rest;
            && FailureReports(log) == 1 + FailureReports(rest)
            && Exhaustions(log) == Exhaustions(rest)
            && AttemptNumbers(log) == [k] + AttemptNumbers(rest)
  {
    var head := [Attempting(k), Failed(k, e, delay)];
    ExhaustionsConcat(head, rest);
    FailureReportsConcat(head, rest);
    AttemptNumbersConcat(head, rest);
    assert head[1..] == [Failed(k, e, delay)];
  }

  /** The log calls of a failed last attempt. */
  lemma LastFailureLog(k: nat, e: Exc, delay: real)
    ensures var log := [Attempting(k), Failed(k, e, delay), Exhausted];
            FailureReports(log) == 1 && Exhaustions(log) == 1 && AttemptNumbers(log) == [k]
  {
    var log := [Attempting(k), Failed(k, e, delay), Exhausted];
    assert log[1..] == [Failed(k, e, delay), Exhausted];
    assert log[1..][1..] == [Exhausted];
    assert log[1..][1..][1..] == [];
    assert FailureReports([Exhausted]) == 0 && Exhaustions([Exhausted]) == 1;
    assert FailureReports(log[1..]) == 1 && Exhaustions(log[1..]) == 1;
    assert AttemptNumbers([Exhausted]) == [] && AttemptNumbers(log[1..]) == [];
  }

  /** What the run from attempt `k` does, told by the number `n` of
      consecutive retried failures it meets: either every remaining attempt
      fails and the last error is re-raised, or attempt `k + n` ends the run
      with its own outcome. The sleeps are the geometric delays between
      attempts only. */
  lemma {:induction false} RunOutcome<T>(attempt: nat -> Outcome<T>, k: nat, retries: int, delay: real, backoff: real)
    requires 1 <= k <= retries
    ensures var n := Leading(attempt, k, retries);
            var r := RunFrom(attempt, k, retries, delay, backoff);
            && (k + n > retries ==>
                  && Retried(attempt(retries))
                  && r.result == Raised(attempt(retries).error)
                  && r.calls == n
                  && r.sleeps == Delays(delay, backoff, n - 1))
            && (k + n <= retries ==>
                  && !Retried(attempt(k + n))
                  && r.result == Complete(attempt(k + n))
                  && r.calls == n + 1
                  && r.sleeps == Delays(delay, backoff, n))
    decreases retries - k
  {
    if Retried(attempt(k)) && k < retries {
      RunOutcome(attempt, k + 1, retries, delay * backoff, backoff);
    }
  }

  /** The debug log of the run from attempt `k`: one failure report per
      retried failure met, one exhaustion notice exactly when every
      remaining attempt failed, and attempts announced as `k` upwards. */
  lemma {:induction false} RunLog<T>(attempt: nat -> Outcome<T>, k: nat, retries: int, delay: real, backoff: real)
    requires 1 <= k <= retries
    ensures var n := Leading(attempt, k, retries);
            var r := RunFrom(attempt, k, retries, delay, backoff);
            && FailureReports(r.log) == n
            && Exhaustions(r.log) == (if k + n > retries then 1 else 0)
            && AttemptNumbers(r.log) == Range(k, k + r.calls)
    decreases retries - k
  {
    var r := RunFrom(attempt, k, retries, delay, backoff);
    assert Range(k, k + 1) == [k];
    match attempt(k)
    case Returns(v) =>
    case Raises(e) =>
      if !e.isException {
      } else if k == retries {
        assert Leading(attempt, k + 1, retries) == 0;
        LastFailureLog(k, e, delay);
      } else {
        var rest := RunFrom(attempt, k + 1, retries, delay * backoff, backoff);
        RunLog(attempt, k + 1, retries, delay * backoff, backoff);
        FailureThenRestLog(k, e, delay, rest.log);
        assert Range(k, k + r.calls) == [k] + Range(k + 1, k + 1 + rest.calls);
      }
  }

  /** What the wrapper promises of a run `r` of its loop: no call when
      `retries` is not positive; otherwise at most `retries` calls, a sleep
      between consecutive attempts only, the sleeps growing by `backoff`
      each time, one failure report per retried failure, attempts numbered
      from 1, and either the last error re-raised after one exhaustion
      notice or the outcome of the first attempt that is not a retried
      failure, returned or raised as it is. */
  ghost predicate Promised<T>(r: Run<T>, attempt: nat -> Outcome<T>, retries: int, delay: real, backoff: real)
  {
    && (retries <= 0 ==> r == Run(ReturnedNone, 0, [], []))
    && (retries >= 1 ==>
          var n := Leading(attempt, 1, retries);
          && 1 <= r.calls <= retries
          && r.sleeps == Delays(delay, backoff, r.calls - 1)
          && FailureReports(r.log) == n
          && AttemptNumbers(r.log) == Range(1, r.calls + 1)
          && (n == retries ==>
                && Retried(attempt(retries)) && r.result == Raised(attempt(retries).error)
                && r.calls == retries && Exhaustions(r.log) == 1)
          && (n < retries ==> r.result == Complete(attempt(n + 1)) && r.calls == n + 1 && Exhaustions(r.log) == 0))
  }

  /** The specification of the loop keeps those promises. */
  lemma RunFromStart<T>(attempt: nat -> Outcome<T>, retries: int, delay: real, backoff: real)
    ensures Promised(RunFrom(attempt, 1, retries, delay, backoff), attempt, retries, delay, backoff)
  {
    if retries >= 1 {
      RunOutcome(attempt, 1, retries, delay, backoff);
      RunLog(attempt, 1, retries, delay, backoff);
    }
  }

  /** One retried failure before the last attempt moves one sleep and two
      log calls from the rest of the run into what is already done. */
  lemma ExtendByFailure<T>(sleeps: seq<real>, log: seq<Event>, calls: nat, delay: real, k: nat, e: Exc, r: Run<T>)
    ensures Extend(sleeps, log, calls, Extend([delay], [Attempting(k), Failed(k, e, delay)], 1, r))
         == Extend(sleeps + [delay], log + [Attempting(k)] + [Failed(k, e, delay)], calls + 1, r)
  {
    assert log + ([Attempting(k), Failed(k, e, delay)] + r.log) == log + [Attempting(k)] + [Failed(k, e, delay)] + r.log;
  }

  /** `wrapper(*args, **kwargs)`: the `for attempt` loop of the source. */
  method Wrapper<T>(retries: int, delay: real, backoff: real, attempt: nat -> Outcome<T>)
    returns (result: Completion<T>, calls: nat, sleeps: seq<real>, log: seq<Event>)
    ensures Run(result, calls, sleeps, log) == RunFrom(attempt, 1, retries, delay, backoff)
    ensures Promised(Run(result, calls, sleeps, log), attempt, retries, delay, backoff)
  {
    var currentDelay := delay;
    result, calls, sleeps, log := ReturnedNone, 0, [], [];
    var k := 1;
    while k <= retries
      invariant 1 <= k && calls == k - 1
      invariant retries >= 1 ==> k <= retries
      invariant RunFrom(attempt, 1, retries, delay, backoff)
             == Extend(sleeps, log, calls, RunFrom(attempt, k, retries, currentDelay, backoff))
      decreases retries - k
    {
      var outcome := attempt(k);
      if !Retried(outcome) {
        log := log + [Attempting(k)];
        calls := calls + 1;
        result := Complete(outcome);
        break;
      }
      if k == retries {
        log := log + [Attempting(k)] + [Failed(k, outcome.error, currentDelay)] + [Exhausted];
        calls := calls + 1;
        result := Raised(outcome.error);
        break;
      }
      ExtendByFailure(sleeps, log, calls, currentDelay, k, outcome.error,
                      RunFrom(attempt, k + 1, retries, currentDelay * backoff, backoff));
      log := log + [Attempting(k)] + [Failed(k, outcome.error, currentDelay)];
      calls := calls + 1;
      sleeps := sleeps + [currentDelay];
      currentDelay := currentDelay * backoff;
      k := k + 1;
    }
    RunFromStart(attempt, retries, delay, backoff);
  }

  /** Failing twice and then succeeding, with three attempts allowed:
      the value comes back after two failure reports, two sleeps and no
      exhaustion notice. */
  lemma TwoFailuresThenSuccess(e: Exc, attempt: nat -> Outcome<int>)
    requires e.isException
    requires attempt(1) == Raises(e) && attempt(2) == Raises(e) && attempt(3) == Returns(7)
    ensures var r := RunFrom(attempt, 1, 3, 1.0, 2.0);
            r.result == Returned(7) && r.calls == 3 && r.sleeps == [1.0, 2.0]
            && FailureReports(r.log) == 2 && Exhaustions(r.log) == 0
  {
    RunOutcome(attempt, 1, 3, 1.0, 2.0);
    RunLog(attempt, 1, 3, 1.0, 2.0);
    assert Leading(attempt, 3, 3) == 0;
    assert Leading(attempt, 1, 3) == 2;
  }
}
