/** What every reachable state looks like: each row against the tasks in flight for it. */
module RunRows {
  import opened Prelude
  import opened ScheduleService
  import opened Lifecycle

  function Executing(s: State, r: nat): nat {
    s.tasks[Task(r, ScheduledRun)] + s.tasks[Task(r, ManualRun)]
  }

  function Draining(s: State, r: nat): nat {
    s.tasks[Task(r, Drain)]
  }

  predicate InFlight(status: Status) {
    status == Running || status == Cancelled
  }

  /** The columns of one row agree with each other and with the clock. */
  predicate Shape(run: Run, clock: Instant) {
    && run.startedAt <= clock
    && (Terminal(run.status) <==> run.endedAt.Some?)
    && (run.endedAt.Some? <==> run.exitCode.Some?)
    && (run.endedAt.Some? ==> run.startedAt <= run.endedAt.value <= clock)
    && (run.status == Success <==> run.exitCode == Some(0))
    && (run.status == Error || run.status == Skipped ==> run.exitCode == Some(-1))
    && (run.status == Skipped <==> run.skipReason.Some?)
    && (run.status == PendingRetry ==> run.attempt > 0)
    && (run.attempt > 0 ==> run.nextAttemptAt.Some?)
    && (run.status == Pending || run.status == Skipped ==> run.attempt == 0)
  }

  /** A running or cancelled row has at most one task executing it (OneTaskExactlyWhen says when
      it has none); a row that ended has at most one task left, about to drain; any other row, and
      any id without a row, has none. */
  predicate RowFine(s: State, r: nat) {
    if r in s.runs then
      var run := s.runs[r];
      && r < s.nextRun
      && Shape(run, s.clock)
      && Executing(s, r) <= (if InFlight(run.status) then 1 else 0)
      && Draining(s, r) <= (if Terminal(run.status) && run.status != Skipped then 1 else 0)
    else
      Executing(s, r) == 0 && Draining(s, r) == 0
  }

  ghost predicate Inv(s: State) {
    forall r: nat :: RowFine(s, r)
  }

  lemma NoRowBeyond(s: State)
    requires Inv(s)
    ensures s.nextRun !in s.runs
  {
    assert RowFine(s, s.nextRun);
  }

  lemma PlacedKeeps(s: State, id: nat, outcome: Outcome, now: Instant)
    requires Inv(s) && s.clock <= now && id in s.schedules
    ensures Inv(Placed(s, id, outcome, now).(clock := now))
  {
    var t := Placed(s, id, outcome, now).(clock := now);
    forall r: nat ensures RowFine(t, r) {
      assert RowFine(s, r) && RowFine(s, s.nextRun);
    }
  }

  lemma FireKeeps(cal: Calendar, s: State, id: nat, now: Instant)
    requires Inv(s) && s.clock <= now && id in s.schedules
    ensures Inv(ApplyFire(cal, s, id, now).(clock := now))
  {
    EditKeeps(s, Advance(cal, s, id));
    PlacedKeeps(Advance(cal, s, id), id, OutcomeOf(s, s.schedules[id]), now);
  }

  lemma StartKeeps(s: State, r: nat, now: Instant)
    requires Inv(s) && s.clock <= now && r in s.runs
    requires s.runs[r].status == Pending || s.runs[r].status == PendingRetry
    ensures Inv(ApplyStart(s, r).(clock := now))
  {
    forall q: nat ensures RowFine(ApplyStart(s, r).(clock := now), q) {
      assert RowFine(s, q) && RowFine(s, r);
    }
  }

  lemma RetryKeeps(s: State, task: Task, now: Instant)
    requires Inv(s) && s.clock <= now && task in s.tasks && task.run in s.runs && task.work == ScheduledRun
    ensures Inv(ApplyRetry(s, task, now).(clock := now))
  {
    forall r: nat ensures RowFine(ApplyRetry(s, task, now).(clock := now), r) {
      assert RowFine(s, r) && RowFine(s, task.run);
    }
  }

  lemma RetireKeeps(s: State, task: Task, now: Instant)
    requires Inv(s) && s.clock <= now && task in s.tasks
    ensures Inv(Retire(s, task).(clock := now))
  {
    forall r: nat ensures RowFine(Retire(s, task).(clock := now), r) {
      assert RowFine(s, r);
    }
  }

  lemma SettleKeeps(s: State, task: Task, status: Status, code: int, now: Instant)
    requires Inv(s) && s.clock <= now && task in s.tasks && task.run in s.runs && task.work != Drain
    requires status == Success <==> code == 0
    requires status == Success || status == Failure || (status == Error && code == -1)
    ensures var t := Retire(PutRun(s, task.run, EndRun(s.runs[task.run], status, code, now)), task).(clock := now);
            Inv(t) && Draining(t, task.run) == 0
  {
    var t := Retire(PutRun(s, task.run, EndRun(s.runs[task.run], status, code, now)), task).(clock := now);
    assert RowFine(s, task.run);
    forall r: nat ensures RowFine(t, r) {
      assert RowFine(s, r);
    }
  }

  lemma DrainMayFollow(s: State, r: nat)
    requires Inv(s) && r in s.runs && Draining(s, r) == 0
    requires Terminal(s.runs[r].status) && s.runs[r].status != Skipped
    ensures Inv(Spawn(s, Task(r, Drain)))
  {
    forall q: nat ensures RowFine(Spawn(s, Task(r, Drain)), q) {
      assert RowFine(s, q);
    }
  }

  lemma EndKeeps(s: State, task: Task, result: ProcessResult, now: Instant)
    requires Inv(s) && s.clock <= now && task in s.tasks && task.run in s.runs && task.work != Drain
    ensures Inv(ApplyEnd(s, task, result, now).(clock := now))
  {
    SettleKeeps(s, task, StatusOf(result), CodeOf(result), now);
    if task.work == ScheduledRun {
      var run := EndRun(s.runs[task.run], StatusOf(result), CodeOf(result), now);
      DrainMayFollow(Retire(PutRun(s, task.run, run), task).(clock := now), task.run);
    }
  }

  lemma FinishKeeps(s: State, task: Task, result: ProcessResult, now: Instant)
    requires Inv(s) && s.clock <= now && task in s.tasks && task.run in s.runs && task.work != Drain
    ensures Inv(ApplyFinish(s, task, result, now).(clock := now))
  {
    if Strands(s, task, result, now) {
      RetireKeeps(s, task, now);
    } else if Retries(s, task, result) {
      RetryKeeps(s, task, now);
    } else {
      EndKeeps(s, task, result, now);
    }
  }

  lemma DrainKeeps(s: State, r: nat, pick: Option<nat>, now: Instant)
    requires Inv(s) && s.clock <= now && Task(r, Drain) in s.tasks
    requires pick.Some? ==> pick.value in s.runs && s.runs[pick.value].status == Pending
    ensures Inv(ApplyDrain(s, r, pick).(clock := now))
  {
    RetireKeeps(s, Task(r, Drain), now);
    if pick.Some? {
      StartKeeps(Retire(s, Task(r, Drain)).(clock := now), pick.value, now);
    }
  }

  lemma TriggerKeeps(s: State, script: nat, now: Instant)
    requires Inv(s) && s.clock <= now
    ensures Inv(ApplyTrigger(s, script, now).(clock := now))
  {
    forall r: nat ensures RowFine(ApplyTrigger(s, script, now).(clock := now), r) {
      assert RowFine(s, r) && RowFine(s, s.nextRun);
    }
  }

  lemma CancelKeeps(s: State, r: nat, now: Instant)
    requires Inv(s) && s.clock <= now && r in s.runs
    ensures Inv(ApplyCancel(s, r).(clock := now))
  {
    forall q: nat ensures RowFine(ApplyCancel(s, r).(clock := now), q) {
      assert RowFine(s, q);
    }
  }

  lemma EditKeeps(s: State, t: State)
    requires Inv(s) && s.clock <= t.clock && t.tasks == s.tasks && t.nextRun == s.nextRun
    requires t.runs.Keys == s.runs.Keys
    requires forall r | r in s.runs :: t.runs[r] == s.runs[r] || t.runs[r] == s.runs[r].(schedule := None)
    ensures Inv(t)
  {
    forall r: nat ensures RowFine(t, r) {
      assert RowFine(s, r);
    }
  }

  lemma {:induction false} StepKeeps(cal: Calendar, s: State, step: Step)
    requires Inv(s) && Enabled(cal, s, step)
    ensures Inv(Apply(cal, s, step))
  {
    match step
    case Fire(id, now) => FireKeeps(cal, s, id, now);
    case PickRetry(r, now) => StartKeeps(s, r, now);
    case Trigger(script, now) => TriggerKeeps(s, script, now);
    case Cancel(r, now) => CancelKeeps(s, r, now);
    case Finish(task, result, now) => FinishKeeps(s, task, result, now);
    case DrainQueue(r, pick, now) => DrainKeeps(s, r, pick, now);
    case _ => EditKeeps(s, Apply(cal, s, step));
  }

  lemma {:induction false} EveryReachableState(cal: Calendar, steps: seq<Step>)
    requires Possible(cal, EMPTY, steps)
    ensures Inv(After(cal, EMPTY, steps))
    decreases |steps|
  {
    if |steps| == 0 {
      forall r: nat ensures RowFine(EMPTY, r) {}
    } else {
      var n := |steps| - 1;
      EveryReachableState(cal, steps[..n]);
      StepKeeps(cal, After(cal, EMPTY, steps[..n]), steps[n]);
    }
  }

  // ---- new rows ----

  /** The row a step adds: a fire's, by its outcome, or a trigger's. */
  predicate Adds(s: State, step: Step, r: nat, row: Run) {
    || (&& step.Fire? && step.id in s.schedules
        && row == FiredRun(OutcomeOf(s, s.schedules[step.id]), s.schedules[step.id].script, step.id, step.now))
    || (&& step.Trigger? && !Active(s, step.script)
        && row == NewRun(step.script, None, Running, step.now))
  }

  lemma FinishAddsNone(s: State, task: Task, result: ProcessResult, now: Instant)
    requires task.run in s.runs
    ensures ApplyFinish(s, task, result, now).runs.Keys == s.runs.Keys
  {
  }

  lemma NewRow(cal: Calendar, s: State, step: Step, r: nat)
    requires Enabled(cal, s, step) && r !in s.runs && r in Apply(cal, s, step).runs
    ensures r == s.nextRun && Adds(s, step, r, Apply(cal, s, step).runs[r])
  {
    match step
    case Fire(_, _) =>
    case Trigger(_, _) =>
    case CreateSchedule(_, _, _) =>
    case UpdateSchedule(_, _, _) =>
    case SetEnabled(_, _, _) =>
    case DeleteSchedule(_, _, _) =>
    case PickRetry(_, _) =>
    case Cancel(_, _) =>
    case Finish(task, result, now) => FinishAddsNone(s, task, result, now);
    case DrainQueue(_, _, _) =>
  }

  // ---- what one step can do to a row ----

  predicate SameRow(was: Run, becomes: Run) {
    becomes == was || becomes == was.(schedule := None)
  }

  /** A row in flight can only be changed by a cancel, which a second cancel does not repeat,
      or by the end of its own task, whatever its status said, unless the task is stranded. */
  predicate InFlightChange(s: State, step: Step, r: nat, becomes: Run)
    requires r in s.runs
  {
    var was := s.runs[r];
    || (step.Cancel? && step.run == r && was.status == Running && becomes == was.(status := Cancelled))
    || (step.Finish? && step.task.run == r && !Strands(s, step.task, step.result, step.now) &&
        becomes == if Retries(s, step.task, step.result) then RetryRun(s, was, step.now)
               else EndRun(was, StatusOf(step.result), CodeOf(step.result), step.now))
  }

  predicate WaitingChange(s: State, step: Step, r: nat, becomes: Run)
    requires r in s.runs
  {
    && (step.PickRetry? || step.DrainQueue?)
    && (if step.PickRetry? then step.run == r else step.pick == Some(r))
    && becomes == s.runs[r].(status := Running)
  }

  /** Every change a step makes to an existing row, by the row's status: rows that ended are
      never written again, a cancelled row is still waiting for its task to overwrite it, and
      a waiting row can only start. */
  predicate RowChange(s: State, step: Step, r: nat, becomes: Run)
    requires r in s.runs
  {
    var was := s.runs[r];
    || becomes == was
    || (step.DeleteSchedule? && was.schedule == Some(step.id) && becomes == was.(schedule := None))
    || (InFlight(was.status) && InFlightChange(s, step, r, becomes))
    || (was.status == Pending && step.DrainQueue? && WaitingChange(s, step, r, becomes))
    || (was.status == PendingRetry && step.PickRetry? && WaitingChange(s, step, r, becomes))
  }

  lemma {:induction false} RowAfterStep(cal: Calendar, s: State, step: Step, r: nat)
    requires Inv(s) && Enabled(cal, s, step) && r in s.runs
    ensures r in Apply(cal, s, step).runs
    ensures RowChange(s, step, r, Apply(cal, s, step).runs[r])
  {
    match step
    case Fire(id, now) => FireRow(cal, s, id, now, r);
    case Finish(task, result, now) => FinishRow(s, task, result, now, r);
    case DrainQueue(q, pick, now) => DrainRow(s, q, pick, now, r);
    case PickRetry(q, now) => RetryRow(s, q, now, r);
    case Trigger(script, now) => TriggerRow(s, script, now, r);
    case Cancel(q, now) => CancelRow(s, q, now, r);
    case _ => EditRow(cal, s, step, r);
  }

  lemma FireRow(cal: Calendar, s: State, id: nat, now: Instant, r: nat)
    requires Inv(s) && id in s.schedules && r in s.runs
    ensures r in ApplyFire(cal, s, id, now).runs && ApplyFire(cal, s, id, now).runs[r] == s.runs[r]
  {
    NoRowBeyond(s);
  }

  lemma TriggerRow(s: State, script: nat, now: Instant, r: nat)
    requires Inv(s) && r in s.runs
    ensures r in ApplyTrigger(s, script, now).runs && ApplyTrigger(s, script, now).runs[r] == s.runs[r]
  {
    NoRowBeyond(s);
  }

  lemma CancelRow(s: State, q: nat, now: Instant, r: nat)
    requires q in s.runs && r in s.runs
    ensures r in ApplyCancel(s, q).runs && RowChange(s, Cancel(q, now), r, ApplyCancel(s, q).runs[r])
  {
  }

  lemma RetryRow(s: State, q: nat, now: Instant, r: nat)
    requires q in s.runs && s.runs[q].status == PendingRetry && r in s.runs
    ensures r in ApplyStart(s, q).runs && RowChange(s, PickRetry(q, now), r, ApplyStart(s, q).runs[r])
  {
  }

  lemma DrainRow(s: State, q: nat, pick: Option<nat>, now: Instant, r: nat)
    requires r in s.runs && (pick.Some? ==> pick.value in s.runs && s.runs[pick.value].status == Pending)
    ensures r in ApplyDrain(s, q, pick).runs
    ensures RowChange(s, DrainQueue(q, pick, now), r, ApplyDrain(s, q, pick).runs[r])
  {
  }

  lemma EditRow(cal: Calendar, s: State, step: Step, r: nat)
    requires Enabled(cal, s, step) && r in s.runs
    requires step.CreateSchedule? || step.UpdateSchedule? || step.SetEnabled? || step.DeleteSchedule?
    ensures r in Apply(cal, s, step).runs
    ensures RowChange(s, step, r, Apply(cal, s, step).runs[r])
  {
  }

  lemma FinishRow(s: State, task: Task, result: ProcessResult, now: Instant, r: nat)
    requires Inv(s) && task in s.tasks && task.run in s.runs && task.work != Drain && r in s.runs
    ensures r in ApplyFinish(s, task, result, now).runs
    ensures RowChange(s, Finish(task, result, now), r, ApplyFinish(s, task, result, now).runs[r])
  {
    assert RowFine(s, task.run);
  }

  lemma EndedRowStays(cal: Calendar, s: State, step: Step, r: nat, first: Run)
    requires Inv(s) && Enabled(cal, s, step) && r in s.runs && Terminal(first.status) && SameRow(first, s.runs[r])
    ensures r in Apply(cal, s, step).runs && SameRow(first, Apply(cal, s, step).runs[r])
  {
    RowAfterStep(cal, s, step, r);
  }

  lemma {:induction false} EndedRowsNeverChange(cal: Calendar, s: State, steps: seq<Step>, r: nat)
    requires Inv(s) && Possible(cal, s, steps) && r in s.runs && Terminal(s.runs[r].status)
    ensures Inv(After(cal, s, steps))
    ensures r in After(cal, s, steps).runs && SameRow(s.runs[r], After(cal, s, steps).runs[r])
    decreases |steps|
  {
    if |steps| > 0 {
      var n := |steps| - 1;
      LastStep(cal, s, steps);
      EndedRowsNeverChange(cal, s, steps[..n], r);
      var before := After(cal, s, steps[..n]);
      StepKeeps(cal, before, steps[n]);
      EndedRowStays(cal, before, steps[n], r, s.runs[r]);
    }
  }

  // ---- stranded rows ----

  /** A row in flight that nothing will ever settle: no task is executing it. */
  predicate Stranded(s: State, r: nat) {
    r in s.runs && InFlight(s.runs[r].status) && Executing(s, r) == 0
  }

  /** The step is the end of run `r` in which computing the next attempt overflows. */
  predicate StrandsRow(s: State, step: Step, r: nat) {
    step.Finish? && step.task.run == r && r in s.runs && Strands(s, step.task, step.result, step.now)
  }

  lemma FireStrands(cal: Calendar, s: State, id: nat, now: Instant, r: nat)
    requires Inv(s) && id in s.schedules
    ensures Stranded(ApplyFire(cal, s, id, now), r) <==> Stranded(s, r)
  {
    assert RowFine(s, s.nextRun) && RowFine(s, r);
  }

  lemma TriggerStrands(s: State, script: nat, now: Instant, r: nat)
    requires Inv(s)
    ensures Stranded(ApplyTrigger(s, script, now), r) <==> Stranded(s, r)
  {
    assert RowFine(s, s.nextRun) && RowFine(s, r);
  }

  lemma StartStrands(s: State, q: nat, r: nat)
    requires q in s.runs && (s.runs[q].status == Pending || s.runs[q].status == PendingRetry)
    ensures Stranded(ApplyStart(s, q), r) <==> Stranded(s, r)
  {
  }

  lemma DrainStrands(s: State, q: nat, pick: Option<nat>, r: nat)
    requires Task(q, Drain) in s.tasks
    requires pick.Some? ==> pick.value in s.runs && s.runs[pick.value].status == Pending
    ensures Stranded(ApplyDrain(s, q, pick), r) <==> Stranded(s, r)
  {
    if pick.Some? {
      StartStrands(Retire(s, Task(q, Drain)), pick.value, r);
    }
  }

  lemma RetireStrands(s: State, task: Task, r: nat)
    requires Inv(s) && task in s.tasks && task.run in s.runs && task.work != Drain
    ensures Stranded(Retire(s, task), r) <==> Stranded(s, r) || r == task.run
  {
    assert RowFine(s, task.run);
  }

  lemma SettledStrands(s: State, task: Task, run: Run, r: nat)
    requires Inv(s) && task in s.tasks && task.run in s.runs && task.work != Drain && !InFlight(run.status)
    ensures Stranded(Retire(PutRun(s, task.run, run), task), r) <==> Stranded(s, r)
  {
    assert RowFine(s, task.run);
  }

  lemma FinishStrands(s: State, task: Task, result: ProcessResult, now: Instant, r: nat)
    requires Inv(s) && task in s.tasks && task.run in s.runs && task.work != Drain
    ensures Stranded(ApplyFinish(s, task, result, now), r) <==>
            Stranded(s, r) || (r == task.run && Strands(s, task, result, now))
  {
    if Strands(s, task, result, now) {
      RetireStrands(s, task, r);
    } else if Retries(s, task, result) {
      SettledStrands(s, task, RetryRun(s, s.runs[task.run], now), r);
    } else {
      SettledStrands(s, task, EndRun(s.runs[task.run], StatusOf(result), CodeOf(result), now), r);
    }
  }

  lemma OtherStrands(cal: Calendar, s: State, step: Step, r: nat)
    requires Enabled(cal, s, step)
    requires step.CreateSchedule? || step.UpdateSchedule? || step.SetEnabled? || step.DeleteSchedule? || step.Cancel?
    ensures Stranded(Apply(cal, s, step), r) <==> Stranded(s, r)
  {
  }

  /** Over every step: a row is stranded exactly if it was, or if its own end overflows. */
  lemma StrandedStep(cal: Calendar, s: State, step: Step, r: nat)
    requires Inv(s) && Enabled(cal, s, step)
    ensures Stranded(Apply(cal, s, step), r) <==> Stranded(s, r) || StrandsRow(s, step, r)
  {
    match step
    case Fire(id, now) => FireStrands(cal, s, id, now, r);
    case PickRetry(q, _) => StartStrands(s, q, r);
    case Trigger(script, now) => TriggerStrands(s, script, now, r);
    case Finish(task, result, now) => FinishStrands(s, task, result, now, r);
    case DrainQueue(q, pick, _) => DrainStrands(s, q, pick, r);
    case _ => OtherStrands(cal, s, step, r);
  }

  /** At some point of the history the end of run `r` overflowed. */
  ghost predicate Overflowed(cal: Calendar, steps: seq<Step>, r: nat)
    requires Possible(cal, EMPTY, steps)
  {
    |steps| > 0 &&
    var n := |steps| - 1;
    Overflowed(cal, steps[..n], r) || StrandsRow(After(cal, EMPTY, steps[..n]), steps[n], r)
  }

  lemma {:induction false} StrandedIsOverflowed(cal: Calendar, steps: seq<Step>, r: nat)
    requires Possible(cal, EMPTY, steps)
    ensures Stranded(After(cal, EMPTY, steps), r) <==> Overflowed(cal, steps, r)
    decreases |steps|
  {
    if |steps| > 0 {
      var n := |steps| - 1;
      StrandedIsOverflowed(cal, steps[..n], r);
      EveryReachableState(cal, steps[..n]);
      StrandedStep(cal, After(cal, EMPTY, steps[..n]), steps[n], r);
    }
  }

  /** In every reachable state, a running or cancelled row has exactly one task executing it if
      and only if computing its next attempt never overflowed; otherwise it has none, for good. */
  lemma {:induction false} OneTaskExactlyWhen(cal: Calendar, steps: seq<Step>, r: nat)
    requires Possible(cal, EMPTY, steps)
    requires r in After(cal, EMPTY, steps).runs && InFlight(After(cal, EMPTY, steps).runs[r].status)
    ensures Executing(After(cal, EMPTY, steps), r) == if Overflowed(cal, steps, r) then 0 else 1
  {
    EveryReachableState(cal, steps);
    assert RowFine(After(cal, EMPTY, steps), r);
    StrandedIsOverflowed(cal, steps, r);
  }

  /** Once nothing is in flight, a row says running or cancelled exactly if its end overflowed:
      otherwise a cancel never sticks. */
  lemma {:induction false} NothingInFlight(cal: Calendar, steps: seq<Step>, r: nat)
    requires Possible(cal, EMPTY, steps) && After(cal, EMPTY, steps).tasks == multiset{}
    requires r in After(cal, EMPTY, steps).runs
    ensures InFlight(After(cal, EMPTY, steps).runs[r].status) <==> Overflowed(cal, steps, r)
  {
    StrandedIsOverflowed(cal, steps, r);
  }

  // ---- who waits ----

  /** The step is a fire that queues a run of `script`. */
  ghost predicate Enqueues(s: State, step: Step, script: nat) {
    && step.Fire? && step.id in s.schedules && s.schedules[step.id].script == script
    && OutcomeOf(s, s.schedules[step.id]) == Queued
  }

  /** The step is a drain that starts the queued run `step.pick.value` of `script`. */
  predicate Promotes(s: State, step: Step, script: nat) {
    step.DrainQueue? && step.pick.Some? && step.run in s.runs && s.runs[step.run].script == script
  }

  lemma FireWaits(cal: Calendar, s: State, id: nat, now: Instant, script: nat, q: nat)
    requires Inv(s) && id in s.schedules
    ensures WaitsOn(ApplyFire(cal, s, id, now), q, script) <==>
            WaitsOn(s, q, script) || (Enqueues(s, Fire(id, now), script) && q == s.nextRun)
  {
    NoRowBeyond(s);
  }

  lemma FinishWaits(s: State, task: Task, result: ProcessResult, now: Instant, script: nat, q: nat)
    requires Inv(s) && task in s.tasks && task.run in s.runs && task.work != Drain
    ensures WaitsOn(ApplyFinish(s, task, result, now), q, script) <==> WaitsOn(s, q, script)
  {
    assert RowFine(s, task.run);
  }

  lemma TriggerWaits(s: State, sc: nat, now: Instant, script: nat, q: nat)
    requires Inv(s)
    ensures WaitsOn(ApplyTrigger(s, sc, now), q, script) <==> WaitsOn(s, q, script)
  {
    NoRowBeyond(s);
  }

  lemma DrainWaits(s: State, r: nat, pick: Option<nat>, now: Instant, script: nat, q: nat)
    requires r in s.runs && (pick.Some? ==> WaitsOn(s, pick.value, s.runs[r].script))
    ensures WaitsOn(ApplyDrain(s, r, pick), q, script) <==>
            WaitsOn(s, q, script) && !(Promotes(s, DrainQueue(r, pick, now), script) && q == pick.value)
  {
  }

  /** Any other step leaves the queue alone. */
  lemma OtherWaits(cal: Calendar, s: State, step: Step, script: nat, q: nat)
    requires Enabled(cal, s, step)
    requires !step.Fire? && !step.Finish? && !step.Trigger? && !step.DrainQueue?
    ensures WaitsOn(Apply(cal, s, step), q, script) <==> WaitsOn(s, q, script)
  {
  }

  /** Who waits after a step: whoever did, plus what a fire queued, minus what a drain
      started. */
  lemma {:induction false} WaitsAfter(cal: Calendar, s: State, step: Step, script: nat, q: nat)
    requires Inv(s) && Enabled(cal, s, step)
    ensures WaitsOn(Apply(cal, s, step), q, script) <==>
            || (WaitsOn(s, q, script) && !(Promotes(s, step, script) && q == step.pick.value))
            || (Enqueues(s, step, script) && q == s.nextRun)
  {
    match step
    case Fire(id, now) => FireWaits(cal, s, id, now, script, q);
    case Finish(task, result, now) => FinishWaits(s, task, result, now, script, q);
    case Trigger(sc, now) => TriggerWaits(s, sc, now, script, q);
    case DrainQueue(r, pick, now) => DrainWaits(s, r, pick, now, script, q);
    case _ => OtherWaits(cal, s, step, script, q);
  }

  // ---- steps and schedules ----

  lemma FinishKeepsSchedules(s: State, task: Task, result: ProcessResult, now: Instant)
    requires task.run in s.runs
    ensures var t := ApplyFinish(s, task, result, now);
            t.schedules == s.schedules && t.nextSchedule == s.nextSchedule
  {
  }

  /** Only fires and edits write schedule rows. */
  lemma {:induction false} RunStepsKeepSchedules(cal: Calendar, s: State, step: Step)
    requires Enabled(cal, s, step)
    requires step.PickRetry? || step.Trigger? || step.Cancel? || step.Finish? || step.DrainQueue?
    ensures Apply(cal, s, step).schedules == s.schedules
    ensures Apply(cal, s, step).nextSchedule == s.nextSchedule
  {
    if step.Finish? {
      FinishKeepsSchedules(s, step.task, step.result, step.now);
    }
  }
}
