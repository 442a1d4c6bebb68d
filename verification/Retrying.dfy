/** Retries with exponential backoff, over whole histories. */
module Retrying {
  import opened Prelude
  import opened ScheduleService
  import opened Lifecycle
  import opened RunRows
  import Wakeups

  // ---- how often a run executes ----

  /** The step creates the task that executes run `r`. */
  ghost predicate Launches(s: State, step: Step, r: nat) {
    match step
    case Fire(id, _) => r == s.nextRun && id in s.schedules && OutcomeOf(s, s.schedules[id]) == Dispatched
    case Trigger(script, _) => r == s.nextRun && !Active(s, script)
    case PickRetry(q, _) => r == q
    case DrainQueue(_, pick, _) => pick == Some(r)
    case _ => false
  }

  ghost function Executions(cal: Calendar, steps: seq<Step>, r: nat): nat
    requires Possible(cal, EMPTY, steps)
  {
    if |steps| == 0 then 0
    else
      var n := |steps| - 1;
      Executions(cal, steps[..n], r) + if Launches(After(cal, EMPTY, steps[..n]), steps[n], r) then 1 else 0
  }

  /** What the row itself says about how often it has been launched. */
  function Launched(s: State, r: nat): nat {
    if r !in s.runs then 0
    else s.runs[r].attempt + if s.runs[r].status in {Pending, PendingRetry, Skipped} then 0 else 1
  }

  lemma FireLaunches(cal: Calendar, s: State, id: nat, now: Instant, r: nat)
    requires Inv(s) && id in s.schedules
    ensures Launched(ApplyFire(cal, s, id, now), r) ==
            Launched(s, r) + if Launches(s, Fire(id, now), r) then 1 else 0
  {
    NoRowBeyond(s);
  }

  lemma FinishLaunches(s: State, task: Task, result: ProcessResult, now: Instant, r: nat)
    requires Inv(s) && task in s.tasks && task.run in s.runs && task.work != Drain
    ensures Launched(ApplyFinish(s, task, result, now), r) == Launched(s, r)
  {
    assert RowFine(s, task.run);
  }

  lemma TriggerLaunches(s: State, script: nat, now: Instant, r: nat)
    requires Inv(s)
    ensures Launched(ApplyTrigger(s, script, now), r) ==
            Launched(s, r) + if Launches(s, Trigger(script, now), r) then 1 else 0
  {
    NoRowBeyond(s);
  }

  lemma StartLaunches(s: State, q: nat, r: nat)
    requires q in s.runs && (s.runs[q].status == Pending || s.runs[q].status == PendingRetry)
    ensures Launched(ApplyStart(s, q), r) == Launched(s, r) + if r == q then 1 else 0
  {
  }

  lemma EditLaunches(cal: Calendar, s: State, step: Step, r: nat)
    requires Enabled(cal, s, step)
    requires step.CreateSchedule? || step.UpdateSchedule? || step.SetEnabled? || step.DeleteSchedule? || step.Cancel?
    ensures Launched(Apply(cal, s, step), r) == Launched(s, r)
  {
  }

  lemma LaunchedStep(cal: Calendar, s: State, step: Step, r: nat)
    requires Inv(s) && Enabled(cal, s, step)
    ensures Launched(Apply(cal, s, step), r) == Launched(s, r) + if Launches(s, step, r) then 1 else 0
  {
    match step
    case Fire(id, now) => FireLaunches(cal, s, id, now, r);
    case Finish(task, result, now) => FinishLaunches(s, task, result, now, r);
    case Trigger(script, now) => TriggerLaunches(s, script, now, r);
    case PickRetry(q, _) => StartLaunches(s, q, r);
    case DrainQueue(q, pick, _) =>
      if pick.Some? {
        StartLaunches(Retire(s, Task(q, Drain)), pick.value, r);
      }
    case _ => EditLaunches(cal, s, step, r);
  }

  /** The attempt column counts executions: over any history a run has been executed once for
      each attempt behind it, and once more if its current attempt has begun. */
  lemma {:induction false} AttemptCountsExecutions(cal: Calendar, steps: seq<Step>, r: nat)
    requires Possible(cal, EMPTY, steps)
    ensures Executions(cal, steps, r) == Launched(After(cal, EMPTY, steps), r)
    decreases |steps|
  {
    if |steps| > 0 {
      var n := |steps| - 1;
      AttemptCountsExecutions(cal, steps[..n], r);
      EveryReachableState(cal, steps[..n]);
      LaunchedStep(cal, After(cal, EMPTY, steps[..n]), steps[n], r);
    }
  }

  // ---- how soon ----

  /** Backing off k times from `backoff`, doubling: backoff * (2^k - 1) seconds in all. */
  function Wait(backoff: nat, k: nat): int {
    backoff * (Pow2(k) - 1) * SECOND
  }

  lemma {:induction false} WaitAdds(backoff: nat, more: nat, k: nat)
    requires backoff <= more
    ensures Wait(backoff, k + 1) <= Wait(backoff, k) + Delay(more, k)
  {
    var p := Pow2(k);
    calc {
      backoff * (2 * p - 1);
      backoff * (p - 1) + backoff * p;
    <= { Scaled(backoff, more, p); }
      backoff * (p - 1) + more * p;
    }
  }

  /** The settings `id` retries with are within these bounds. */
  ghost predicate RetriesWithin(s: State, id: nat, retryMax: nat, backoff: nat) {
    id in s.schedules ==>
      s.schedules[id].settings.retryMax <= retryMax && backoff <= s.schedules[id].settings.retryBackoff
  }

  ghost predicate RetriesStayWithin(cal: Calendar, steps: seq<Step>, id: nat, retryMax: nat, backoff: nat)
    requires Possible(cal, EMPTY, steps)
  {
    |steps| == 0 ||
    var n := |steps| - 1;
    && RetriesStayWithin(cal, steps[..n], id, retryMax, backoff)
    && RetriesWithin(After(cal, EMPTY, steps[..n]), id, retryMax, backoff)
  }

  /** No more than `retryMax` attempts behind it, and none begun too early. */
  predicate InTime(run: Run, clock: Instant, retryMax: nat, backoff: nat) {
    && run.attempt <= retryMax
    && (InFlight(run.status) ==> run.startedAt + Wait(backoff, run.attempt) <= clock)
    && (run.status == PendingRetry && run.nextAttemptAt.Some? ==>
          run.startedAt + Wait(backoff, run.attempt) <= run.nextAttemptAt.value)
  }

  predicate RowInTime(s: State, id: nat, retryMax: nat, backoff: nat, r: nat) {
    r in s.runs && s.runs[r].schedule == Some(id) ==> InTime(s.runs[r], s.clock, retryMax, backoff)
  }

  lemma NewRowFirstAttempt(cal: Calendar, s: State, step: Step, r: nat)
    requires Inv(s) && Enabled(cal, s, step) && r !in s.runs && r in Apply(cal, s, step).runs
    ensures Apply(cal, s, step).runs[r].attempt == 0 && Apply(cal, s, step).runs[r].status != PendingRetry
  {
    NewRow(cal, s, step, r);
  }

  lemma RetryInTime(s: State, run: Run, now: Instant, id: nat, retryMax: nat, backoff: nat)
    requires run.schedule == Some(id) && RetriesWithin(s, id, retryMax, backoff)
    requires InFlight(run.status) && InTime(run, s.clock, retryMax, backoff) && s.clock <= now
    requires run.attempt < RetryMax(s, run)
    ensures InTime(RetryRun(s, run, now), now, retryMax, backoff)
  {
    WaitAdds(backoff, RetryBackoff(s, run), run.attempt);
  }

  lemma StepInTime(cal: Calendar, s: State, step: Step, id: nat, retryMax: nat, backoff: nat, r: nat)
    requires Inv(s) && Enabled(cal, s, step) && RetriesWithin(s, id, retryMax, backoff)
    requires RowInTime(s, id, retryMax, backoff, r)
    ensures RowInTime(Apply(cal, s, step), id, retryMax, backoff, r)
  {
    var t := Apply(cal, s, step);
    if r in t.runs && t.runs[r].schedule == Some(id) {
      assert RowFine(s, r);
      if r in s.runs {
        RowAfterStep(cal, s, step, r);
        RowChangeInTime(cal, s, step, id, retryMax, backoff, r, t.runs[r]);
      } else {
        NewRowFirstAttempt(cal, s, step, r);
        StepKeeps(cal, s, step);
        assert RowFine(t, r);
      }
    }
  }

  lemma RowChangeInTime(cal: Calendar, s: State, step: Step, id: nat, retryMax: nat, backoff: nat, r: nat, becomes: Run)
    requires Inv(s) && Enabled(cal, s, step) && RetriesWithin(s, id, retryMax, backoff)
    requires r in s.runs && RowChange(s, step, r, becomes) && becomes.schedule == Some(id)
    requires InTime(s.runs[r], s.clock, retryMax, backoff)
    ensures InTime(becomes, step.now, retryMax, backoff)
  {
    var was := s.runs[r];
    assert RowFine(s, r);
    if InFlight(was.status) && step.Finish? && step.task.run == r && Retries(s, step.task, step.result) {
      RetryInTime(s, was, step.now, id, retryMax, backoff);
    }
  }

  /** Backoff over whole histories: while a schedule keeps its retry settings, each of its runs
      has at most retry_max attempts behind it, executes at most retry_max + 1 times, and is
      executing attempt k no earlier than backoff * (2^k - 1) seconds after it started. */
  lemma {:induction false} BackoffOverHistory(cal: Calendar, steps: seq<Step>, id: nat,
                                               retryMax: nat, backoff: nat, r: nat)
    requires Possible(cal, EMPTY, steps) && RetriesStayWithin(cal, steps, id, retryMax, backoff)
    ensures var s := After(cal, EMPTY, steps);
            r in s.runs && s.runs[r].schedule == Some(id) ==>
              && InTime(s.runs[r], s.clock, retryMax, backoff)
              && Executions(cal, steps, r) <= retryMax + 1
    decreases |steps|
  {
    AttemptCountsExecutions(cal, steps, r);
    if |steps| > 0 {
      var n := |steps| - 1;
      BackoffOverHistory(cal, steps[..n], id, retryMax, backoff, r);
      EveryReachableState(cal, steps[..n]);
      StepInTime(cal, After(cal, EMPTY, steps[..n]), steps[n], id, retryMax, backoff, r);
    }
  }

  // ---- no run fails early ----

  /** A run that was started by hand has no schedule. */
  predicate ManualUnscheduled(s: State, r: nat) {
    s.tasks[Task(r, ManualRun)] > 0 && r in s.runs ==> s.runs[r].schedule == None
  }

  lemma ManualUnscheduledStep(cal: Calendar, s: State, step: Step, r: nat)
    requires Inv(s) && Enabled(cal, s, step) && ManualUnscheduled(s, r)
    ensures ManualUnscheduled(Apply(cal, s, step), r)
  {
    var t := Apply(cal, s, step);
    if t.tasks[Task(r, ManualRun)] > s.tasks[Task(r, ManualRun)] {
      Wakeups.ManualAppears(cal, s, step, r);
    } else if r in s.runs {
      RowAfterStep(cal, s, step, r);
    } else {
      assert RowFine(s, r);
    }
  }

  lemma {:induction false} AlwaysUnscheduled(cal: Calendar, steps: seq<Step>, r: nat)
    requires Possible(cal, EMPTY, steps)
    ensures ManualUnscheduled(After(cal, EMPTY, steps), r)
    decreases |steps|
  {
    if |steps| > 0 {
      var n := |steps| - 1;
      AlwaysUnscheduled(cal, steps[..n], r);
      EveryReachableState(cal, steps[..n]);
      ManualUnscheduledStep(cal, After(cal, EMPTY, steps[..n]), steps[n], r);
    }
  }

  predicate RetryMaxIs(s: State, id: nat, retryMax: nat) {
    id in s.schedules ==> s.schedules[id].settings.retryMax == retryMax
  }

  /** The schedule keeps this retry_max, and is not deleted. */
  ghost predicate KeepsRetryMax(cal: Calendar, steps: seq<Step>, id: nat, retryMax: nat)
    requires Possible(cal, EMPTY, steps)
  {
    |steps| == 0 ||
    var n := |steps| - 1;
    && KeepsRetryMax(cal, steps[..n], id, retryMax)
    && RetryMaxIs(After(cal, EMPTY, steps[..n]), id, retryMax)
    && !(steps[n].DeleteSchedule? && steps[n].id == id)
  }

  /** A run of the schedule that says failure is out of attempts. */
  predicate Exhausted(s: State, id: nat, retryMax: nat, r: nat) {
    r in s.runs && s.runs[r].schedule == Some(id) ==>
      id in s.schedules && (s.runs[r].status == Failure ==> s.runs[r].attempt >= retryMax)
  }

  lemma ScheduleStays(cal: Calendar, s: State, step: Step, id: nat)
    requires Enabled(cal, s, step) && id in s.schedules && !(step.DeleteSchedule? && step.id == id)
    ensures id in Apply(cal, s, step).schedules
  {
    if step.PickRetry? || step.Trigger? || step.Cancel? || step.Finish? || step.DrainQueue? {
      RunStepsKeepSchedules(cal, s, step);
    }
  }

  lemma NewRowScheduled(cal: Calendar, s: State, step: Step, r: nat)
    requires Inv(s) && Enabled(cal, s, step) && r !in s.runs && r in Apply(cal, s, step).runs
    ensures var row := Apply(cal, s, step).runs[r];
            row.status != Failure && (row.schedule.Some? ==> row.schedule.value in s.schedules)
  {
    NewRow(cal, s, step, r);
  }

  lemma FailsOutOfAttempts(cal: Calendar, s: State, step: Step, id: nat, retryMax: nat, r: nat)
    requires Inv(s) && Enabled(cal, s, step) && RetryMaxIs(s, id, retryMax) && ManualUnscheduled(s, r)
    requires r in s.runs && s.runs[r].schedule == Some(id) && Exhausted(s, id, retryMax, r)
    ensures r in Apply(cal, s, step).runs
    ensures var row := Apply(cal, s, step).runs[r]; row.status == Failure ==> row.attempt >= retryMax
  {
    RowAfterStep(cal, s, step, r);
    assert RowFine(s, r);
    if step.Finish? && step.task.run == r {
      assert step.task in s.tasks;
    }
  }

  lemma ExhaustedStep(cal: Calendar, s: State, step: Step, id: nat, retryMax: nat, r: nat)
    requires Inv(s) && Enabled(cal, s, step) && RetryMaxIs(s, id, retryMax) && ManualUnscheduled(s, r)
    requires Exhausted(s, id, retryMax, r) && !(step.DeleteSchedule? && step.id == id)
    ensures Exhausted(Apply(cal, s, step), id, retryMax, r)
  {
    if r in s.runs {
      RowAfterStep(cal, s, step, r);
      if s.runs[r].schedule == Some(id) {
        ScheduleStays(cal, s, step, id);
        FailsOutOfAttempts(cal, s, step, id, retryMax, r);
      }
    } else if r in Apply(cal, s, step).runs {
      NewRowScheduled(cal, s, step, r);
      if id in s.schedules {
        ScheduleStays(cal, s, step, id);
      }
    }
  }

  lemma {:induction false} AlwaysExhausted(cal: Calendar, steps: seq<Step>, id: nat, retryMax: nat, r: nat)
    requires Possible(cal, EMPTY, steps) && KeepsRetryMax(cal, steps, id, retryMax)
    ensures Exhausted(After(cal, EMPTY, steps), id, retryMax, r)
    ensures RetriesStayWithin(cal, steps, id, retryMax, 0)
    decreases |steps|
  {
    if |steps| > 0 {
      var n := |steps| - 1;
      AlwaysExhausted(cal, steps[..n], id, retryMax, r);
      EveryReachableState(cal, steps[..n]);
      AlwaysUnscheduled(cal, steps[..n], r);
      ExhaustedStep(cal, After(cal, EMPTY, steps[..n]), steps[n], id, retryMax, r);
    }
  }

  /** No run fails early: over any history in which a schedule keeps its retry_max, a run of it
      that says failure has retry_max attempts behind it and was executed retry_max + 1 times. */
  lemma {:induction false} FailedRunsUsedEveryAttempt(cal: Calendar, steps: seq<Step>, id: nat, retryMax: nat, r: nat)
    requires Possible(cal, EMPTY, steps) && KeepsRetryMax(cal, steps, id, retryMax)
    requires r in After(cal, EMPTY, steps).runs && After(cal, EMPTY, steps).runs[r].schedule == Some(id)
    requires After(cal, EMPTY, steps).runs[r].status == Failure
    ensures After(cal, EMPTY, steps).runs[r].attempt == retryMax
    ensures Executions(cal, steps, r) == retryMax + 1
  {
    AlwaysExhausted(cal, steps, id, retryMax, r);
    BackoffOverHistory(cal, steps, id, retryMax, 0, r);
    AttemptCountsExecutions(cal, steps, r);
  }

  // ---- settings that cannot overflow ----

  lemma {:induction false} Pow2Grows(a: nat, b: nat)
    requires a <= b
    ensures Pow2(a) <= Pow2(b)
    decreases b
  {
    if a < b {
      Pow2Grows(a, b - 1);
    }
  }

  lemma DelayGrows(backoff: nat, a: nat, b: nat)
    requires a <= b
    ensures 0 <= Delay(backoff, a) <= Delay(backoff, b)
  {
    Pow2Grows(a, b);
    Scaled(Pow2(a), Pow2(b), backoff);
    Scaled(0, Pow2(a), backoff);
  }

  /** The schedule's last retry, asked for as late as `until`, is still in datetime's range. */
  predicate Affordable(settings: Settings, until: Instant) {
    settings.retryMax > 0 ==> until + Delay(settings.retryBackoff, settings.retryMax - 1) <= LAST_INSTANT
  }

  predicate AllAffordable(s: State, until: Instant) {
    forall id | id in s.schedules :: Affordable(s.schedules[id].settings, until)
  }

  /** Through a history that ends by `until`, every schedule has such settings. */
  ghost predicate StaysAffordable(cal: Calendar, steps: seq<Step>, until: Instant)
    requires Possible(cal, EMPTY, steps)
  {
    |steps| == 0 ||
    var n := |steps| - 1;
    && StaysAffordable(cal, steps[..n], until)
    && AllAffordable(After(cal, EMPTY, steps[..n]), until) && steps[n].now <= until
  }

  lemma AffordableStep(cal: Calendar, s: State, step: Step, until: Instant, r: nat)
    requires Enabled(cal, s, step) && AllAffordable(s, until) && 0 <= s.clock && step.now <= until
    ensures !StrandsRow(s, step, r)
  {
    if step.Finish? && r in s.runs && step.task.run == r && Retries(s, step.task, step.result) {
      var run := s.runs[r];
      var settings := s.schedules[run.schedule.value].settings;
      assert Affordable(settings, until);
      DelayGrows(settings.retryBackoff, run.attempt, settings.retryMax - 1);
    }
  }

  lemma {:induction false} ClockNotNegative(cal: Calendar, steps: seq<Step>)
    requires Possible(cal, EMPTY, steps)
    ensures 0 <= After(cal, EMPTY, steps).clock
    decreases |steps|
  {
    if |steps| > 0 {
      ClockNotNegative(cal, steps[..|steps| - 1]);
    }
  }

  /** With settings whose last retry is affordable, no run's end ever overflows. */
  lemma {:induction false} AffordableNeverOverflows(cal: Calendar, steps: seq<Step>, until: Instant, r: nat)
    requires Possible(cal, EMPTY, steps) && StaysAffordable(cal, steps, until)
    ensures !Overflowed(cal, steps, r)
    decreases |steps|
  {
    if |steps| > 0 {
      var n := |steps| - 1;
      AffordableNeverOverflows(cal, steps[..n], until, r);
      ClockNotNegative(cal, steps[..n]);
      AffordableStep(cal, After(cal, EMPTY, steps[..n]), steps[n], until, r);
    }
  }
}
