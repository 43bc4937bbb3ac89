/**
 * The front worker's callback registry and its adaptive waiting loop:
 * poll `get_userbot_result` until a result with a `join_success` entry
 * appears or the timeout elapses, sleeping `min(5 s, remaining / 2)`
 * between polls, and call the group's registered callback at most once.
 */
module SyncManager {
  import opened Wrappers
  import opened Json
  import opened Database
  import opened Polling

  /** The longest sleep between two polls. */
  const MAX_SLEEP := 5 * MILLIS_PER_SECOND
  /** The timeout used when the caller gives none. */
  const DEFAULT_TIMEOUT := 300 * MILLIS_PER_SECOND

  /** A handle naming the coroutine function registered as a callback. */
  type Callback = nat

  /** One call of a registered callback, with the result it was given. */
  datatype Invocation = Invocation(callback: Callback, result: Fields)

  /** A delivered result, or the timeout dictionary (`'timeout': True`) carrying the budget. */
  datatype WaitOutcome = Delivered(result: Fields) | TimedOut(timeout: int)

  /** `result and result.get('join_success') is not None`. */
  predicate Qualifies(r: Option<Fields>): (q: bool)
    ensures q <==> r.Some? && "join_success" in r.value && r.value["join_success"] != JNull
  {
    TruthyDict(r) && Get(r.value, "join_success") != JNull
  }

  /**
   * The sleep taken after an unsuccessful poll that ends at `now`:
   * `min(5, (timeout - now) / 2)` when that is positive, otherwise none.
   */
  function SleepAfter(timeout: int, now: int): (w: int)
    ensures 0 <= w <= MAX_SLEEP
    ensures w > 0 ==> now + w < timeout
    ensures timeout - now >= 2 ==> w > 0
    ensures timeout - now >= 2 * MAX_SLEEP ==> w == MAX_SLEEP
  {
    var half := (timeout - now) / 2;
    var w := if half < MAX_SLEEP then half else MAX_SLEEP;
    if w > 0 then w else 0
  }

  /** All iterations but a delivering last one found nothing and slept as `SleepAfter` says. */
  ghost predicate AdaptiveSteps(trace: seq<PollStep>, env: nat -> Poll, timeout: int, upTo: int) {
    forall k :: 0 <= k < |trace| && k < upTo ==>
      !Qualifies(trace[k].seen) && trace[k].sleep == SleepAfter(timeout, trace[k].start + env(k).latency)
  }

  lemma AdaptiveStepsExtend(trace: seq<PollStep>, env: nat -> Poll, timeout: int, step: PollStep)
    requires AdaptiveSteps(trace, env, timeout, |trace|)
    requires !Qualifies(step.seen) && step.sleep == SleepAfter(timeout, step.start + env(|trace|).latency)
    ensures AdaptiveSteps(trace + [step], env, timeout, |trace| + 1)
  {
    var t := trace + [step];
    forall k | 0 <= k < |t|
      ensures !Qualifies(t[k].seen) && t[k].sleep == SleepAfter(timeout, t[k].start + env(k).latency)
    {
      if k < |trace| { assert t[k] == trace[k]; }
    }
  }

  lemma AdaptiveStepsPrefix(trace: seq<PollStep>, env: nat -> Poll, timeout: int, step: PollStep)
    requires AdaptiveSteps(trace, env, timeout, |trace|)
    ensures AdaptiveSteps(trace + [step], env, timeout, |trace|)
  {
    var t := trace + [step];
    forall k | 0 <= k < |trace|
      ensures !Qualifies(t[k].seen) && t[k].sleep == SleepAfter(timeout, t[k].start + env(k).latency)
    {
      assert t[k] == trace[k];
    }
  }

  /** What holds after every unsuccessful iteration of the adaptive loop, `elapsed` being the clock. */
  ghost predicate Waited(trace: seq<PollStep>, env: nat -> Poll, groupId: int, timeout: int, elapsed: int) {
    && Chained(trace, env) && BeforeDeadline(trace, env, groupId, timeout)
    && AdaptiveSteps(trace, env, timeout, |trace|)
    && (|trace| == 0 ==> elapsed == 0)
    && (|trace| > 0 ==> elapsed == StepEnd(trace, env, |trace| - 1))
    && (|trace| > 0 && elapsed >= timeout ==> trace[|trace| - 1].sleep == 0)
  }

  /** An unsuccessful iteration keeps `Waited`, with the clock advanced by the read and the sleep. */
  lemma WaitedExtend(trace: seq<PollStep>, env: nat -> Poll, groupId: int, timeout: int, elapsed: int, step: PollStep)
    requires Waited(trace, env, groupId, timeout, elapsed) && elapsed < timeout
    requires step.start == elapsed && step.seen == GetUserbotResult(env(|trace|).checks, groupId)
    requires !Qualifies(step.seen) && step.sleep == SleepAfter(timeout, elapsed + env(|trace|).latency)
    ensures Waited(trace + [step], env, groupId, timeout, elapsed + env(|trace|).latency + step.sleep)
  {
    ChainedExtend(trace, env, step);
    BeforeDeadlineExtend(trace, env, groupId, timeout, step);
    AdaptiveStepsExtend(trace, env, timeout, step);
    var t := trace + [step];
    assert t[|t| - 1] == step;
    assert StepEnd(t, env, |t| - 1) == elapsed + env(|trace|).latency + step.sleep;
  }

  /** A delivering iteration ends the trace; the earlier iterations keep their properties. */
  lemma DeliveredExtend(trace: seq<PollStep>, env: nat -> Poll, groupId: int, timeout: int, elapsed: int, step: PollStep)
    requires Waited(trace, env, groupId, timeout, elapsed) && elapsed < timeout
    requires step.start == elapsed && step.seen == GetUserbotResult(env(|trace|).checks, groupId)
    ensures var t := trace + [step];
      && Chained(t, env) && BeforeDeadline(t, env, groupId, timeout)
      && AdaptiveSteps(t, env, timeout, |t| - 1) && t[|t| - 1] == step
  {
    ChainedExtend(trace, env, step);
    BeforeDeadlineExtend(trace, env, groupId, timeout, step);
    AdaptiveStepsPrefix(trace, env, timeout, step);
  }

  /** A loop that ran out of time: the last read reached the deadline and no sleep followed it. */
  lemma WaitedUntilTimeout(trace: seq<PollStep>, env: nat -> Poll, groupId: int, timeout: int, elapsed: int)
    requires Waited(trace, env, groupId, timeout, elapsed) && elapsed >= timeout
    ensures Chained(trace, env) && BeforeDeadline(trace, env, groupId, timeout)
    ensures AdaptiveSteps(trace, env, timeout, |trace|) && AdaptiveSteps(trace, env, timeout, |trace| - 1)
    ensures |trace| == 0 ==> timeout <= 0
    ensures |trace| > 0 ==> timeout <= StepEnd(trace, env, |trace| - 1) && trace[|trace| - 1].sleep == 0
  {
  }

  /** The timeout dictionary carries no `join_success`, so it never passes for a result. */
  lemma TimeoutNeverQualifies(message: string)
    ensures !Qualifies(Some(map["timeout" := JBool(true), "error" := JStr(message)]))
  {
    assert "join_success" !in map["timeout" := JBool(true), "error" := JStr(message)];
  }

  class SyncManager {
    /** `self.callbacks`: at most one callback per group id. */
    var callbacks: map<int, Callback>
    /** The callback calls made so far, in order (the callbacks' own effects are not modelled). */
    var invocations: seq<Invocation>

    constructor ()
      ensures callbacks == map[] && invocations == []
    {
      callbacks, invocations := map[], [];
    }

    /** `register_callback`: the new callback replaces any earlier one for the group. */
    method RegisterCallback(groupId: int, callback: Callback)
      modifies this
      ensures callbacks == old(callbacks)[groupId := callback]
      ensures invocations == old(invocations)
    {
      callbacks := callbacks[groupId := callback];
    }

    /**
     * `wait_for_userbot_result`: the polling loop, then the callback for
     * a delivered result, or the removal of the registration on timeout.
     */
    method WaitForUserbotResult(groupId: int, env: nat -> Poll, timeout: int := DEFAULT_TIMEOUT)
      returns (outcome: WaitOutcome, trace: seq<PollStep>)
      requires forall k :: env(k).latency >= 1
      modifies this
      ensures Chained(trace, env) && BeforeDeadline(trace, env, groupId, timeout)
      ensures AdaptiveSteps(trace, env, timeout, |trace| - 1)
      ensures outcome.Delivered? ==>
                |trace| > 0 && trace[|trace| - 1].seen == Some(outcome.result)
                && Qualifies(Some(outcome.result)) && trace[|trace| - 1].sleep == 0
      ensures outcome.TimedOut? ==>
                outcome.timeout == timeout && AdaptiveSteps(trace, env, timeout, |trace|)
                && (|trace| == 0 ==> timeout <= 0)
                && (|trace| > 0 ==> timeout <= StepEnd(trace, env, |trace| - 1)
                                    && trace[|trace| - 1].sleep == 0)
      ensures callbacks == old(callbacks) - {groupId}
      ensures invocations ==
                if outcome.Delivered? && groupId in old(callbacks)
                then old(invocations) + [Invocation(old(callbacks)[groupId], outcome.result)]
                else old(invocations)
    {
      var found;
      found, trace := PollForResult(groupId, env, timeout);
      if found.Some? {
        if groupId in callbacks {
          invocations := invocations + [Invocation(callbacks[groupId], found.value)];
        }
        outcome := Delivered(found.value);
      } else {
        outcome := TimedOut(timeout);
      }
      callbacks := callbacks - {groupId};
    }
  }

  /**
   * One iteration of the loop: read the store, and either stop with a
   * passing result or sleep as `SleepAfter` says.
   */
  method PollOnce(groupId: int, env: nat -> Poll, timeout: int, trace: seq<PollStep>, elapsed: int)
    returns (result: Option<Fields>, step: PollStep, next: int)
    requires env(|trace|).latency >= 1
    requires Waited(trace, env, groupId, timeout, elapsed) && elapsed < timeout
    ensures result == GetUserbotResult(env(|trace|).checks, groupId)
    ensures step.start == elapsed && step.seen == result
    ensures Qualifies(result) ==> step.sleep == 0
    ensures !Qualifies(result) ==> next > elapsed && Waited(trace + [step], env, groupId, timeout, next)
  {
    result := GetUserbotResult(env(|trace|).checks, groupId);
    if Qualifies(result) {
      step, next := PollStep(elapsed, result, 0), elapsed;
      return;
    }
    var now := elapsed + env(|trace|).latency;
    step := PollStep(elapsed, result, SleepAfter(timeout, now));
    WaitedExtend(trace, env, groupId, timeout, elapsed, step);
    next := now + step.sleep;
  }

  /**
   * The `while` loop of `wait_for_userbot_result`. Every store read
   * takes at least one millisecond, which is what makes the loop end
   * once the halved sleeps shrink to nothing.
   */
  method PollForResult(groupId: int, env: nat -> Poll, timeout: int)
    returns (found: Option<Fields>, trace: seq<PollStep>)
    requires forall k :: env(k).latency >= 1
    ensures Chained(trace, env) && BeforeDeadline(trace, env, groupId, timeout)
    ensures AdaptiveSteps(trace, env, timeout, |trace| - 1)
    ensures found.Some? ==>
              |trace| > 0 && trace[|trace| - 1].seen == found
              && Qualifies(found) && trace[|trace| - 1].sleep == 0
    ensures found.None? ==>
              && AdaptiveSteps(trace, env, timeout, |trace|)
              && (|trace| == 0 ==> timeout <= 0)
              && (|trace| > 0 ==> timeout <= StepEnd(trace, env, |trace| - 1)
                                  && trace[|trace| - 1].sleep == 0)
  {
    var elapsed := 0;
    trace := [];
    while elapsed < timeout
      invariant Waited(trace, env, groupId, timeout, elapsed)
      decreases timeout - elapsed
    {
      var result, step, next := PollOnce(groupId, env, timeout, trace, elapsed);
      if Qualifies(result) {
        DeliveredExtend(trace, env, groupId, timeout, elapsed, step);
        found, trace := result, trace + [step];
        return;
      }
      trace, elapsed := trace + [step], next;
    }
    WaitedUntilTimeout(trace, env, groupId, timeout, elapsed);
    found := None;
  }
}
