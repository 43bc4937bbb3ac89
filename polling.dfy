/**
 * The abstract clock and the observations shared by the two waiting
 * loops. Time is an integer count of milliseconds since the wait began;
 * it advances by the time each store read takes and by the sleeps.
 * What the other process has written by the k-th poll is given as
 * the `group_checks` table that poll reads.
 */
module Polling {
  import opened Wrappers
  import opened Json
  import opened Database

  const MILLIS_PER_SECOND := 1000

  /** What the k-th poll of a wait sees: the table, and how long reading it takes. */
  datatype Poll = Poll(checks: seq<CheckRow>, latency: nat)

  /** One iteration of a waiting loop: its start time, what the query returned, the sleep that followed (0: none). */
  datatype PollStep = PollStep(start: int, seen: Option<Fields>, sleep: int)

  /** The time at which the iteration recorded in `trace[k]` ended. */
  function StepEnd(trace: seq<PollStep>, env: nat -> Poll, k: nat): int
    requires k < |trace|
  {
    trace[k].start + env(k).latency + trace[k].sleep
  }

  /** Every iteration starts when the previous one ended, the first one at time 0. */
  ghost predicate Chained(trace: seq<PollStep>, env: nat -> Poll) {
    && (|trace| > 0 ==> trace[0].start == 0)
    && (forall k :: 0 <= k < |trace| - 1 ==> trace[k + 1].start == StepEnd(trace, env, k))
  }

  /** Every iteration started before the deadline and saw `get_userbot_result` of its own poll. */
  ghost predicate BeforeDeadline(trace: seq<PollStep>, env: nat -> Poll, groupId: int, timeout: int) {
    forall k :: 0 <= k < |trace| ==>
      trace[k].start < timeout && trace[k].seen == GetUserbotResult(env(k).checks, groupId)
  }

  lemma ChainedExtend(trace: seq<PollStep>, env: nat -> Poll, step: PollStep)
    requires Chained(trace, env)
    requires |trace| == 0 ==> step.start == 0
    requires |trace| > 0 ==> step.start == StepEnd(trace, env, |trace| - 1)
    ensures Chained(trace + [step], env)
  {
    var t := trace + [step];
    forall k | 0 <= k < |t| - 1 ensures t[k + 1].start == StepEnd(t, env, k) {
      assert t[k] == trace[k];
      assert StepEnd(t, env, k) == StepEnd(trace, env, k);
      if k + 1 < |trace| {
        assert t[k + 1] == trace[k + 1];
        assert trace[k + 1].start == StepEnd(trace, env, k);
      } else {
        assert t[k + 1] == step;
      }
    }
  }

  lemma BeforeDeadlineExtend(trace: seq<PollStep>, env: nat -> Poll, groupId: int, timeout: int, step: PollStep)
    requires BeforeDeadline(trace, env, groupId, timeout)
    requires step.start < timeout && step.seen == GetUserbotResult(env(|trace|).checks, groupId)
    ensures BeforeDeadline(trace + [step], env, groupId, timeout)
  {
    var t := trace + [step];
    forall k | 0 <= k < |t|
      ensures t[k].start < timeout && t[k].seen == GetUserbotResult(env(k).checks, groupId)
    {
      if k < |trace| { assert t[k] == trace[k]; }
    }
  }
}
