/** The Go circuit breaker. */
module Breaker {

  datatype State = Closed | Open | HalfOpen

  // ---- Stateless meaning ---------------------------------------------------

  /** What callers have reported, oldest first. */
  datatype Report = Succeeded | Failed(at: int)

  function TrailingFailures(h: seq<Report>): nat {
    if h == [] || h[|h| - 1].Succeeded? then 0 else 1 + TrailingFailures(h[..|h| - 1])
  }

  function LastFailure(h: seq<Report>): int
    requires TrailingFailures(h) > 0
  {
    h[|h| - 1].at
  }

  /** A call is let through unless the last `threshold` reports are failures and
      the latest of them is more recent than the recovery timeout. */
  predicate Admits(threshold: int, recovery: int, h: seq<Report>, now: int)
    requires threshold > 0
  {
    TrailingFailures(h) < threshold || now - LastFailure(h) >= recovery
  }

  /** The state is Closed exactly below the threshold. */
  predicate IsClosed(threshold: int, h: seq<Report>) {
    TrailingFailures(h) < threshold
  }

  lemma OneMoreFailure(h: seq<Report>, at: int)
    ensures TrailingFailures(h + [Failed(at)]) == TrailingFailures(h) + 1 && LastFailure(h + [Failed(at)]) == at
  {
    assert (h + [Failed(at)])[..|h|] == h;
  }

  // ---- The breaker ---------------------------------------------------------

  class CircuitBreaker {
    var state: State
    var failures: int
    var lastFailure: int
    const failureThreshold: int
    const recoveryTimeout: int
    ghost var history: seq<Report>
    /** The latest reading of the clock, which never goes back. */
    ghost var clock: int

    ghost predicate Valid()
      reads this
    {
      && failureThreshold > 0 && recoveryTimeout > 0
      && failures == TrailingFailures(history)
      && (failures > 0 ==> lastFailure == LastFailure(history) <= clock)
      && (state == Closed <==> IsClosed(failureThreshold, history))
      && (state == HalfOpen ==> clock - lastFailure >= recoveryTimeout)
    }

    /** Non-positive settings fall back to 5 failures and 30 seconds. */
    constructor (threshold: int, recovery: int, ghost now: int)
      ensures Valid() && history == [] && clock == now
      ensures failureThreshold == (if threshold <= 0 then 5 else threshold)
      ensures recoveryTimeout == (if recovery <= 0 then 30 else recovery)
    {
      state, failures, lastFailure := Closed, 0, 0;
      failureThreshold := if threshold <= 0 then 5 else threshold;
      recoveryTimeout := if recovery <= 0 then 30 else recovery;
      history, clock := [], now;
    }

    method Allow(now: int) returns (ok: bool)
      requires Valid() && clock <= now
      modifies this
      ensures Valid() && history == old(history) && clock == now
      ensures ok == Admits(failureThreshold, recoveryTimeout, history, now)
    {
      clock := now;
      match state
      case Closed => ok := true;
      case Open =>
        if now - lastFailure >= recoveryTimeout {
          state := HalfOpen;
          return true;
        }
        ok := false;
      case HalfOpen => ok := true;
    }

    method RecordSuccess(ghost now: int)
      requires Valid() && clock <= now
      modifies this
      ensures Valid() && history == old(history) + [Succeeded] && clock == now
    {
      failures := 0;
      state := Closed;
      history, clock := history + [Succeeded], now;
    }

    method RecordFailure(now: int)
      requires Valid() && clock <= now
      modifies this
      ensures Valid() && history == old(history) + [Failed(now)] && clock == now
    {
      OneMoreFailure(history, now);
      history, clock := history + [Failed(now)], now;
      failures := failures + 1;
      lastFailure := now;
      if state == HalfOpen || failures >= failureThreshold {
        state := Open;
      }
    }
  }

  // ---- Runs ----------------------------------------------------------------

  datatype Call = Ask(at: int) | Success(at: int) | Failure(at: int)

  /** The clock never goes back over the run. */
  predicate Ordered(calls: seq<Call>) {
    forall i, j :: 0 <= i < j < |calls| ==> calls[i].at <= calls[j].at
  }

  /** What had been reported before call n. */
  function Reports(calls: seq<Call>, n: nat): seq<Report>
    requires n <= |calls|
  {
    if n == 0 then []
    else Reports(calls, n - 1) + match calls[n - 1]
                                 case Ask(_) => []
                                 case Success(_) => [Succeeded]
                                 case Failure(at) => [Failed(at)]
  }

  /** The answer the reports before call i call for. */
  predicate RightAnswer(threshold: int, recovery: int, calls: seq<Call>, i: nat, answer: bool)
    requires threshold > 0 && i < |calls|
  {
    calls[i].Ask? ==> answer == Admits(threshold, recovery, Reports(calls, i), calls[i].at)
  }

  method Perform(b: CircuitBreaker, calls: seq<Call>, n: nat) returns (ok: bool)
    requires n < |calls| && b.Valid() && b.clock <= calls[n].at && b.history == Reports(calls, n)
    modifies b
    ensures b.Valid() && b.clock == calls[n].at && b.history == Reports(calls, n + 1)
    ensures RightAnswer(b.failureThreshold, b.recoveryTimeout, calls, n, ok)
  {
    ok := true;
    match calls[n]
    case Ask(at) =>
      ok := b.Allow(at);
      assert b.history + [] == b.history;
    case Success(at) => b.RecordSuccess(at);
    case Failure(at) => b.RecordFailure(at);
  }

  /** Any run, on a new breaker: every Allow answers as the reports before it say. */
  method Replay(threshold: int, recovery: int, calls: seq<Call>) returns (answers: seq<bool>)
    requires threshold > 0 && recovery > 0 && Ordered(calls)
    ensures |answers| == |calls|
    ensures forall i :: 0 <= i < |calls| ==> RightAnswer(threshold, recovery, calls, i, answers[i])
  {
    var b := new CircuitBreaker(threshold, recovery, if calls == [] then 0 else calls[0].at);
    answers := [];
    for n := 0 to |calls|
      invariant b.Valid() && fresh(b) && b.failureThreshold == threshold && b.recoveryTimeout == recovery
      invariant b.history == Reports(calls, n)
      invariant n < |calls| ==> b.clock <= calls[n].at
      invariant |answers| == n
      invariant forall i :: 0 <= i < n ==> RightAnswer(threshold, recovery, calls, i, answers[i])
    {
      var ok := Perform(b, calls, n);
      answers := answers + [ok];
    }
  }

  /** Half-open is no single probe: once the timeout has passed, every further
      call is admitted, however many, until one of them reports. */
  lemma {:induction false} NoSingleProbe(threshold: int, recovery: int, calls: seq<Call>, i: nat, n: nat)
    requires threshold > 0 && Ordered(calls) && i <= n < |calls|
    requires forall k :: i <= k <= n ==> calls[k].Ask?
    requires Admits(threshold, recovery, Reports(calls, i), calls[i].at)
    ensures Reports(calls, n) == Reports(calls, i)
    ensures Admits(threshold, recovery, Reports(calls, n), calls[n].at)
    decreases n
  {
    if i < n {
      NoSingleProbe(threshold, recovery, calls, i, n - 1);
      assert Reports(calls, n) == Reports(calls, n - 1);
    }
  }
}
