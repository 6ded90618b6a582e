/**
 * The periodic task of wave/app.py: an action run at a fixed interval, and the
 * time at which it is next due. The clock is a parameter of every operation.
 */
module WaveTask {
  import opened Wrappers

  /** What one invocation of a task's action did: it returned, or it raised. */
  datatype ActionOutcome = Returned | Raised

  /** A task with next-run time `nextRunAt` is due at clock `t`. */
  predicate Due(nextRunAt: Option<real>, t: real)
    ensures nextRunAt == None ==> Due(nextRunAt, t)
    ensures !Due(nextRunAt, t) ==> nextRunAt.Some? && t < nextRunAt.value
    ensures nextRunAt.Some? && t < nextRunAt.value ==> !Due(nextRunAt, t)
  {
    match nextRunAt
    case None => true
    case Some(at) => t >= at
  }

  /** The next-run time after `get_next_run(now)`: rescheduled from `now` when due. */
  function PeekedNextRun(nextRunAt: Option<real>, interval: real, now: real): (r: real)
    ensures interval > 0.0 ==> r > now
    ensures !Due(nextRunAt, now) ==> r == nextRunAt.value
    ensures Due(nextRunAt, now) ==> r == now + interval
  {
    if Due(nextRunAt, now) then now + interval else nextRunAt.value
  }

  /** Once peeked at `now`, a task with a positive interval is no longer due at `now`, so a second peek changes nothing. */
  lemma PeekIsIdempotent(nextRunAt: Option<real>, interval: real, now: real)
    requires interval > 0.0
    ensures !Due(Some(PeekedNextRun(nextRunAt, interval, now)), now)
    ensures PeekedNextRun(Some(PeekedNextRun(nextRunAt, interval, now)), interval, now)
         == PeekedNextRun(nextRunAt, interval, now)
  {
  }

  class Task {
    const name: string
    const runInterval: real
    /** Unset until the task is first run or peeked at. */
    var nextRunAt: Option<real>
    /** Every invocation of the action so far, oldest first. */
    ghost var invocations: seq<ActionOutcome>

    constructor (name: string, interval: real)
      ensures this.name == name && runInterval == interval
      ensures nextRunAt == None && invocations == []
      ensures forall t :: IsPastNextRun(t)
    {
      this.name := name;
      runInterval := interval;
      nextRunAt := None;
      invocations := [];
    }

    predicate IsPastNextRun(t: real)
      reads this
      ensures nextRunAt == None ==> IsPastNextRun(t)
      ensures !IsPastNextRun(t) ==> nextRunAt.Some? && t < nextRunAt.value
      ensures nextRunAt.Some? && t < nextRunAt.value ==> !IsPastNextRun(t)
    {
      Due(nextRunAt, t)
    }

    method ScheduleNextRun(t: real)
      modifies this`nextRunAt
      ensures nextRunAt == Some(t + runInterval)
    {
      nextRunAt := Some(t + runInterval);
    }

    /**
     * `run`: the action has been invoked exactly once and ended with `outcome`,
     * the clock reading `finishedAt` afterwards. Whatever it raised is swallowed
     * (Run has no failure result) and the task is rescheduled from `finishedAt`.
     */
    method Run(outcome: ActionOutcome, finishedAt: real)
      modifies this
      ensures invocations == old(invocations) + [outcome]
      ensures nextRunAt == Some(finishedAt + runInterval)
      ensures forall t :: IsPastNextRun(t) <==> t >= finishedAt + runInterval
    {
      invocations := invocations + [outcome];
      ScheduleNextRun(finishedAt);
    }

    /** `maybe_run(now)`: `outcome` is what the action does if it is invoked. */
    method MaybeRun(now: real, outcome: ActionOutcome, finishedAt: real) returns (ran: bool)
      modifies this
      ensures ran == old(IsPastNextRun(now))
      ensures ran ==> invocations == old(invocations) + [outcome] && nextRunAt == Some(finishedAt + runInterval)
      ensures !ran ==> invocations == old(invocations) && nextRunAt == old(nextRunAt)
    {
      ran := IsPastNextRun(now);
      if ran {
        Run(outcome, finishedAt);
      }
    }

    /** `get_next_run(now)`: reschedules from `now` whenever the task is due, then reports the next-run time. */
    method GetNextRun(now: real) returns (next: real)
      modifies this`nextRunAt
      ensures old(IsPastNextRun(now)) ==> nextRunAt == Some(now + runInterval)
      ensures !old(IsPastNextRun(now)) ==> nextRunAt == old(nextRunAt)
      ensures nextRunAt == Some(next)
      ensures next == PeekedNextRun(old(nextRunAt), runInterval, now)
      ensures runInterval > 0.0 ==> next > now && !IsPastNextRun(now)
    {
      if IsPastNextRun(now) {
        ScheduleNextRun(now);
      }
      next := nextRunAt.value;
    }
  }

  /** Two peeks at the same clock reading, with no run between them, report the same time. */
  method PeekTwice(task: Task, now: real) returns (first: real, second: real)
    requires task.runInterval > 0.0
    modifies task
    ensures first == second
    ensures task.invocations == old(task.invocations)
  {
    first := task.GetNextRun(now);
    second := task.GetNextRun(now);
  }
}
