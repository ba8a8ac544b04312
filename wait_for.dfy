/**
 * WaitFor, the polling helper of the OTG end-to-end test. It fills in
 * defaults for its options (in the caller's options object when there is
 * one), then calls a predicate until it errs, holds, or is still false after
 * the timeout, sleeping one interval between calls.
 *
 * The clock is abstract: each call of the predicate is recorded as a Poll
 * carrying what the predicate returned and the time elapsed since the start
 * when the timeout is checked after it. Durations are in nanoseconds.
 */
module Polling {
  import opened Wrappers

  const DefaultCondition := "condition to be true"
  /** 500 ms. */
  const DefaultInterval := 500_000_000
  /** 30 s. */
  const DefaultTimeout := 30_000_000_000

  /** The caller's options; WaitFor writes the defaults into them. */
  class WaitForOpts {
    var condition: string
    var interval: int
    var timeout: int

    constructor(condition: string, interval: int, timeout: int)
      ensures this.condition == condition && this.interval == interval && this.timeout == timeout
    {
      this.condition := condition;
      this.interval := interval;
      this.timeout := timeout;
    }
  }

  /** A zero duration stands for the default. */
  function OrDefault(d: int, default: int): int
  {
    if d == 0 then default else d
  }

  /** Fill in the defaults: a missing options object becomes a fresh one with
      the default condition, and a zero interval or timeout becomes the default. */
  method ApplyDefaults(opts: WaitForOpts?) returns (o: WaitForOpts)
    modifies opts
    ensures opts == null ==>
      fresh(o) && o.condition == DefaultCondition && o.interval == DefaultInterval && o.timeout == DefaultTimeout
    ensures opts != null ==>
      && o == opts
      && o.condition == old(opts.condition)
      && o.interval == OrDefault(old(opts.interval), DefaultInterval)
      && o.timeout == OrDefault(old(opts.timeout), DefaultTimeout)
  {
    if opts == null {
      o := new WaitForOpts(DefaultCondition, 0, 0);
    } else {
      o := opts;
    }
    if o.interval == 0 {
      o.interval := DefaultInterval;
    }
    if o.timeout == 0 {
      o.timeout := DefaultTimeout;
    }
  }

  /** One call of the predicate: what it returned, and the time elapsed since
      the start when the timeout is checked after it. */
  datatype Poll = Poll(result: Result<bool, string>, elapsed: int)

  /** How WaitFor ends; StillPolling when the recorded polls run out first. */
  datatype WaitOutcome = Done | Failed(message: string) | TimedOut(message: string) | StillPolling

  /** A poll after which WaitFor returns: the predicate erred, held, or is
      false with the timeout strictly exceeded. */
  predicate Decisive(p: Poll, timeout: int)
  {
    p.result.Err? || p.result.value || p.elapsed > timeout
  }

  /** What WaitFor returns after a decisive poll, checked in the loop's order:
      the error first, then success, then the timeout. */
  function Verdict(p: Poll, condition: string, timeout: int): (r: WaitOutcome)
    requires Decisive(p, timeout)
    ensures r.Failed? <==> p.result.Err?
    ensures r == Done <==> p.result == Ok(true)
    ensures r.TimedOut? <==> p.result == Ok(false)
  {
    if p.result.Err? then Failed("error waiting for " + condition + ": " + p.result.error)
    else if p.result.value then Done
    else TimedOut("timeout occurred while waiting for " + condition)
  }

  /** The index of the first decisive poll, or the number of polls if none is. */
  function FirstDecisive(polls: seq<Poll>, timeout: int): (n: nat)
    ensures n <= |polls|
    ensures forall k :: 0 <= k < n ==> !Decisive(polls[k], timeout)
    ensures n < |polls| ==> Decisive(polls[n], timeout)
    decreases |polls|
  {
    if |polls| == 0 then 0
    else if Decisive(polls[0], timeout) then 0
    else
      var rest := FirstDecisive(polls[1..], timeout);
      assert forall k :: 1 <= k < rest + 1 ==> polls[k] == polls[1..][k - 1];
      1 + rest
  }

  /** The polling loop of WaitFor, with the options already defaulted. */
  method PollUntil(polls: seq<Poll>, condition: string, timeout: int) returns (outcome: WaitOutcome, calls: nat)
    ensures var n := FirstDecisive(polls, timeout);
      n < |polls| ==> outcome == Verdict(polls[n], condition, timeout) && calls == n + 1
    ensures FirstDecisive(polls, timeout) == |polls| ==> outcome == StillPolling && calls == |polls|
  {
    calls := 0;
    while calls < |polls|
      invariant calls <= |polls|
      invariant forall k :: 0 <= k < calls ==> !Decisive(polls[k], timeout)
    {
      var p := polls[calls];
      calls := calls + 1;
      if p.result.Err? {
        return Failed("error waiting for " + condition + ": " + p.result.error), calls;
      }
      if p.result.value {
        return Done, calls;
      }
      if p.elapsed > timeout {
        return TimedOut("timeout occurred while waiting for " + condition), calls;
      }
      // Here WaitFor sleeps one interval; the clock's advance shows in the next poll's elapsed time.
    }
    return StillPolling, calls;
  }

  /** WaitFor: apply the defaults, then poll. */
  method WaitFor(polls: seq<Poll>, opts: WaitForOpts?) returns (outcome: WaitOutcome, calls: nat)
    modifies opts
    ensures opts != null ==>
      && opts.condition == old(opts.condition)
      && opts.interval == OrDefault(old(opts.interval), DefaultInterval)
      && opts.timeout == OrDefault(old(opts.timeout), DefaultTimeout)
    ensures var condition := if opts == null then DefaultCondition else old(opts.condition);
      var timeout := if opts == null then DefaultTimeout else OrDefault(old(opts.timeout), DefaultTimeout);
      var n := FirstDecisive(polls, timeout);
      (n < |polls| ==> outcome == Verdict(polls[n], condition, timeout) && calls == n + 1)
      && (n == |polls| ==> outcome == StillPolling && calls == |polls|)
  {
    var o := ApplyDefaults(opts);
    outcome, calls := PollUntil(polls, o.condition, o.timeout);
  }

  /** Polls that are all false, with the clock advancing at least one interval
      between them. */
  ghost predicate FalseEveryInterval(polls: seq<Poll>, interval: int)
  {
    forall k :: 0 <= k < |polls| ==> polls[k].result == Ok(false) && polls[k].elapsed >= k * interval
  }

  lemma PastTimeout(timeout: int, interval: int)
    requires interval > 0 && timeout >= 0
    ensures (timeout / interval + 1) * interval > timeout
  {
    var q := timeout / interval;
    assert timeout == q * interval + timeout % interval;
    assert (q + 1) * interval == q * interval + interval;
  }

  /** A predicate that stays false times out within timeout / interval + 2
      calls: the wait is bounded, whatever the predicate costs. */
  lemma TimeoutBound(polls: seq<Poll>, timeout: int, interval: int)
    requires interval > 0 && timeout >= 0
    requires FalseEveryInterval(polls, interval)
    requires |polls| > timeout / interval + 1
    ensures FirstDecisive(polls, timeout) <= timeout / interval + 1
    ensures Verdict(polls[FirstDecisive(polls, timeout)], "", timeout).TimedOut?
  {
    var m := timeout / interval + 1;
    PastTimeout(timeout, interval);
    assert polls[m].elapsed >= m * interval;
    assert Decisive(polls[m], timeout);
  }

  /** Polls that are all false, with the k-th timeout check (counting from 0)
      falling within [k * interval, (k + 1) * interval) of the start. */
  ghost predicate FalseOnSchedule(polls: seq<Poll>, interval: int)
  {
    forall k :: 0 <= k < |polls| ==>
      polls[k].result == Ok(false) && k * interval <= polls[k].elapsed < (k + 1) * interval
  }

  /** With the timeout set to two intervals, a predicate that stays false and
      checks on that schedule, the timeout is reported on the third or fourth
      call, never earlier: the check is strict and comes after the call. */
  lemma TwoIntervalTimeoutPolls(polls: seq<Poll>, interval: int)
    requires interval > 0 && |polls| >= 4
    requires FalseOnSchedule(polls, interval)
    ensures 2 <= FirstDecisive(polls, 2 * interval) <= 3
    ensures Verdict(polls[FirstDecisive(polls, 2 * interval)], "", 2 * interval).TimedOut?
  {
    assert polls[0].elapsed < interval && polls[1].elapsed < 2 * interval;
    assert !Decisive(polls[0], 2 * interval) && !Decisive(polls[1], 2 * interval);
    assert polls[3].elapsed >= 3 * interval;
    assert Decisive(polls[3], 2 * interval);
  }

  /** Off that schedule the timeout can come sooner: with calls of 6 and an
      interval of 10, the second check sees 22, past a timeout of 20. */
  lemma SlowCallsTimeOutOnSecondCall()
    ensures var polls := [Poll(Ok(false), 6), Poll(Ok(false), 22)];
      FirstDecisive(polls, 20) == 1 && Verdict(polls[1], "", 20).TimedOut?
  {
    var polls := [Poll(Ok(false), 6), Poll(Ok(false), 22)];
    assert !Decisive(polls[0], 20);
  }

  /** A predicate that holds on the third call succeeds when the timeout is at
      least three intervals and the first two checks come within one and two
      intervals of the start. */
  lemma SuccessOnThirdPoll(polls: seq<Poll>, interval: int, timeout: int)
    requires interval > 0 && timeout >= 3 * interval && |polls| >= 3
    requires polls[0].result == Ok(false) && polls[1].result == Ok(false) && polls[2].result == Ok(true)
    requires forall k :: 0 <= k < 2 ==> polls[k].elapsed < (k + 1) * interval
    ensures FirstDecisive(polls, timeout) == 2
    ensures Verdict(polls[2], "", timeout) == Done
  {
    assert polls[0].elapsed < interval && polls[1].elapsed < 2 * interval;
    assert !Decisive(polls[0], timeout) && !Decisive(polls[1], timeout);
  }

  /** Success is reported even when it comes after the timeout: the result is
      checked before the clock. */
  lemma SuccessAfterTimeout(polls: seq<Poll>, timeout: int, n: nat)
    requires n < |polls|
    requires forall k :: 0 <= k < n ==> polls[k].result == Ok(false) && polls[k].elapsed <= timeout
    requires polls[n].result == Ok(true) && polls[n].elapsed > timeout
    ensures FirstDecisive(polls, timeout) == n
    ensures Verdict(polls[n], "", timeout) == Done
  {
  }
}
