/** What each step writes, said on the columns themselves: the rows, counters and tasks after
    every kind of step, in the terms of the queries and updates of tick.py, run_service.py,
    api/runs.py and api/schedules.py. */
module Columns {
  import opened Prelude
  import opened ScheduleService
  import opened Lifecycle
  import opened RunRows
  import Positional

  // ---- reading ----

  /** Some row of the script is running. */
  predicate IsRunning(s: State, script: nat) {
    exists r :: r in s.runs && s.runs[r].script == script && s.runs[r].status == Running
  }

  function PendingRows(s: State, script: nat): set<nat> {
    set r | r in s.runs && s.runs[r].script == script && s.runs[r].status == Pending
  }

  lemma QueriesAre(s: State, script: nat)
    ensures Active(s, script) == IsRunning(s, script)
    ensures Waiting(s, script) == PendingRows(s, script)
  {
    if r :| r in s.runs && s.runs[r].script == script && s.runs[r].status == Running {
      assert RunsOn(s, r, script);
    }
  }

  // ---- fires ----

  /** A fire of `id` left this row behind, with or without a task, and this drop counter. */
  ghost predicate Left(cal: Calendar, s: State, t: State, id: nat, row: Run, launched: bool, dropped: nat)
    requires id in s.schedules
  {
    var sch, n := s.schedules[id], s.nextRun;
    && n !in s.runs && t.runs == s.runs[n := row] && t.nextRun == n + 1
    && t.tasks == s.tasks + (if launched then multiset{Task(n, ScheduledRun)} else multiset{})
    && t.schedules == s.schedules[id := sch.(cursor := NextCursor(cal, sch.settings.cadence, sch.cursor),
                                             queueDropped := dropped)]
  }

  lemma FireRowIs(cal: Calendar, s: State, id: nat, now: Instant)
    requires Inv(s) && Enabled(cal, s, Fire(id, now))
    ensures var outcome := OutcomeOf(s, s.schedules[id]);
            Left(cal, s, Apply(cal, s, Fire(id, now)), id, FiredRun(outcome, s.schedules[id].script, id, now),
                 outcome == Dispatched, s.schedules[id].queueDropped + if outcome == SkippedFull then 1 else 0)
  {
    NoRowBeyond(s);
  }

  /** The overlap policy.  While a run of the script is running, `skip` leaves a row that ended at
      once; `queue` leaves a pending row while fewer than queue_max are pending, and otherwise a
      row that ended at once, and counts it; in every other case the run starts. */
  lemma {:induction false} FireDoes(cal: Calendar, s: State, id: nat, now: Instant)
    requires Inv(s) && Enabled(cal, s, Fire(id, now))
    ensures var sch, t := s.schedules[id], Apply(cal, s, Fire(id, now));
            var script, policy, dropped := sch.script, sch.settings.policy, sch.queueDropped;
            var running, pending := IsRunning(s, script), |PendingRows(s, script)|;
            && (running && policy == Skip ==>
                  Left(cal, s, t, id,
                       Run(script, Some(id), Skipped, 0, None, now, Some(now), Some(-1), Some(Overlap)),
                       false, dropped))
            && (running && policy == Queue && pending < sch.settings.queueMax ==>
                  Left(cal, s, t, id, Run(script, Some(id), Pending, 0, None, now, None, None, None),
                       false, dropped))
            && (running && policy == Queue && pending >= sch.settings.queueMax ==>
                  Left(cal, s, t, id,
                       Run(script, Some(id), Skipped, 0, None, now, Some(now), Some(-1), Some(QueueFull)),
                       false, dropped + 1))
            && (!running || policy == Parallel ==>
                  Left(cal, s, t, id, Run(script, Some(id), Running, 0, None, now, None, None, None),
                       true, dropped))
  {
    QueriesAre(s, s.schedules[id].script);
    FireRowIs(cal, s, id, now);
  }

  // ---- the end of a run ----

  /** The task is over and `r` reads `row`; nothing else changed but perhaps a task that will
      drain the queue. */
  predicate Settled(s: State, t: State, task: Task, row: Run, drains: bool) {
    && t.runs == s.runs[task.run := row]
    && t.tasks == (s.tasks - multiset{task}) + (if drains then multiset{Task(task.run, Drain)} else multiset{})
    && t.schedules == s.schedules && t.nextRun == s.nextRun && t.nextSchedule == s.nextSchedule
  }

  lemma FinishIs(cal: Calendar, s: State, task: Task, result: ProcessResult, now: Instant)
    requires Enabled(cal, s, Finish(task, result, now))
    ensures var t := Apply(cal, s, Finish(task, result, now));
            var row := s.runs[task.run];
            if Strands(s, task, result, now) then Settled(s, t, task, row, false)
            else if Retries(s, task, result) then Settled(s, t, task, RetryRun(s, row, now), false)
            else Settled(s, t, task, EndRun(row, StatusOf(result), CodeOf(result), now), task.work == ScheduledRun)
  {
    assert s.runs == s.runs[task.run := s.runs[task.run]];
  }

  /** finalize_run: success for exit code 0, error with code -1 if run_script raised, and failure
      for any other code of a run started by hand, without a schedule, or out of attempts; the
      row ends at this instant, and a scheduled run's task goes on to drain. */
  lemma {:induction false} FinishEnds(cal: Calendar, s: State, task: Task, result: ProcessResult, now: Instant)
    requires Enabled(cal, s, Finish(task, result, now))
    ensures var row, t := s.runs[task.run], Apply(cal, s, Finish(task, result, now));
            var scheduled := task.work == ScheduledRun;
            match result
            case Raised =>
              Settled(s, t, task, row.(status := Error, endedAt := Some(now), exitCode := Some(-1)), scheduled)
            case Exit(code) =>
              && (code == 0 ==>
                    Settled(s, t, task, row.(status := Success, endedAt := Some(now), exitCode := Some(0)), scheduled))
              && (code != 0 && (!scheduled || row.schedule.None? || row.schedule.value !in s.schedules
                                || row.attempt >= s.schedules[row.schedule.value].settings.retryMax) ==>
                    Settled(s, t, task, row.(status := Failure, endedAt := Some(now), exitCode := Some(code)),
                            scheduled))
  {
    FinishIs(cal, s, task, result, now);
  }

  lemma {:induction false} Pow2IsPower(k: nat)
    ensures Pow2(k) == Positional.Power(2, k)
  {
    if k > 0 {
      Pow2IsPower(k - 1);
    }
  }

  /** mark_pending_retry: while attempts remain, the next one is exactly backoff * 2^attempt
      seconds from now; if there is no such datetime the row stays as it is.  Either way the task
      is over, and nothing is drained. */
  lemma {:induction false} FinishRetries(cal: Calendar, s: State, task: Task, code: int, now: Instant)
    requires Enabled(cal, s, Finish(task, Exit(code), now))
    requires task.work == ScheduledRun && code != 0
    requires s.runs[task.run].schedule.Some? && s.runs[task.run].schedule.value in s.schedules
    requires s.runs[task.run].attempt < s.schedules[s.runs[task.run].schedule.value].settings.retryMax
    ensures var row, t := s.runs[task.run], Apply(cal, s, Finish(task, Exit(code), now));
            var backoff := s.schedules[row.schedule.value].settings.retryBackoff;
            var next := now + backoff * Positional.Power(2, row.attempt) * 1_000_000;
            Settled(s, t, task,
                    if Representable(next)
                    then row.(status := PendingRetry, attempt := row.attempt + 1, nextAttemptAt := Some(next))
                    else row,
                    false)
  {
    Pow2IsPower(s.runs[task.run].attempt);
    FinishIs(cal, s, task, Exit(code), now);
  }

  // ---- starting, triggering, cancelling ----

  /** The row starts: only its status changes, and a scheduler task is on it. */
  predicate Started(s: State, t: State, r: nat)
    requires r in s.runs
  {
    && t.runs == s.runs[r := s.runs[r].(status := Running)]
    && t.schedules == s.schedules && t.nextRun == s.nextRun && t.nextSchedule == s.nextSchedule
  }

  /** Phase 2 of the tick starts a retry that is due, and only beside no running one. */
  lemma {:induction false} PickRetryDoes(cal: Calendar, s: State, r: nat, now: Instant)
    ensures Enabled(cal, s, PickRetry(r, now)) <==>
            && s.clock <= now && r in s.runs && s.runs[r].status == PendingRetry
            && s.runs[r].nextAttemptAt.Some? && s.runs[r].nextAttemptAt.value <= now
            && !IsRunning(s, s.runs[r].script)
    ensures Enabled(cal, s, PickRetry(r, now)) ==>
            && Started(s, Apply(cal, s, PickRetry(r, now)), r)
            && Apply(cal, s, PickRetry(r, now)).tasks == s.tasks + multiset{Task(r, ScheduledRun)}
  {
    if r in s.runs {
      QueriesAre(s, s.runs[r].script);
    }
  }

  /** A drain starts the pending row of its script that started first, if any is pending. */
  lemma {:induction false} DrainDoes(cal: Calendar, s: State, r: nat, pick: Option<nat>, now: Instant)
    requires Enabled(cal, s, DrainQueue(r, pick, now))
    ensures var t := Apply(cal, s, DrainQueue(r, pick, now));
            var pending := PendingRows(s, s.runs[r].script);
            match pick
            case None => pending == {} && t == s.(tasks := s.tasks - multiset{Task(r, Drain)}, clock := now)
            case Some(p) =>
              && p in pending && (forall q | q in pending :: s.runs[p].startedAt <= s.runs[q].startedAt)
              && Started(s, t, p)
              && t.tasks == (s.tasks - multiset{Task(r, Drain)}) + multiset{Task(p, ScheduledRun)}
  {
    QueriesAre(s, s.runs[r].script);
    if pick.Some? {
      forall q | q in PendingRows(s, s.runs[r].script) ensures s.runs[pick.value].startedAt <= s.runs[q].startedAt {
        assert WaitsOn(s, q, s.runs[r].script);
      }
    }
  }

  /** A trigger is refused while a run of the script is running; otherwise it starts a row without
      a schedule. */
  lemma {:induction false} TriggerDoes(cal: Calendar, s: State, script: nat, now: Instant)
    requires Inv(s) && Enabled(cal, s, Trigger(script, now))
    ensures var t, n := Apply(cal, s, Trigger(script, now)), s.nextRun;
            if IsRunning(s, script) then t == s.(clock := now)
            else
              && n !in s.runs
              && t == s.(runs := s.runs[n := Run(script, None, Running, 0, None, now, None, None, None)],
                         nextRun := n + 1, tasks := s.tasks + multiset{Task(n, ManualRun)}, clock := now)
  {
    QueriesAre(s, script);
    NoRowBeyond(s);
  }

  /** A cancel changes the status of a running row, and nothing else. */
  lemma {:induction false} CancelDoes(cal: Calendar, s: State, r: nat, now: Instant)
    requires Enabled(cal, s, Cancel(r, now))
    ensures Apply(cal, s, Cancel(r, now)) ==
            if s.runs[r].status == Running
            then s.(runs := s.runs[r := s.runs[r].(status := Cancelled)], clock := now)
            else s.(clock := now)
  {
  }

  // ---- editing schedules ----

  /** A create adds a row with nothing dropped; an update keeps the drop counter and the script;
      enabling and disabling keep the cursor. */
  lemma {:induction false} EditDoes(cal: Calendar, s: State, step: Step)
    requires Enabled(cal, s, step)
    ensures var t, now := Apply(cal, s, step), step.now;
            match step
            case CreateSchedule(script, settings, _) =>
              t == s.(schedules := s.schedules[s.nextSchedule :=
                        Schedule(script, settings, AdvanceNextRun(cal, settings.cadence, now).value, 0)],
                      nextSchedule := s.nextSchedule + 1, clock := now)
            case UpdateSchedule(id, settings, _) =>
              && id in s.schedules
              && t == s.(schedules := s.schedules[id :=
                           Schedule(s.schedules[id].script, settings, AdvanceNextRun(cal, settings.cadence, now).value,
                                    s.schedules[id].queueDropped)], clock := now)
            case SetEnabled(id, on, _) =>
              && id in s.schedules
              && t == s.(schedules := s.schedules[id :=
                           s.schedules[id].(settings := s.schedules[id].settings.(enabled := on))], clock := now)
            case DeleteSchedule(id, setNull, _) =>
              && t.schedules == s.schedules - {id} && t.tasks == s.tasks && t.runs.Keys == s.runs.Keys
              && forall r | r in s.runs ::
                   t.runs[r] == if setNull && s.runs[r].schedule == Some(id) then s.runs[r].(schedule := None)
                                else s.runs[r]
            case _ => true
  {
  }

  // ---- over histories ----

  predicate EndedIn(s: State, r: nat) {
    r in s.runs && Terminal(s.runs[r].status)
  }

  lemma EndsNow(cal: Calendar, s: State, step: Step, r: nat)
    requires Inv(s) && Enabled(cal, s, step) && !EndedIn(s, r) && EndedIn(Apply(cal, s, step), r)
    ensures Apply(cal, s, step).runs[r].endedAt == Some(step.now)
  {
    if r in s.runs {
      RowAfterStep(cal, s, step, r);
    } else {
      NewRowEndsNow(cal, s, step, r);
    }
  }

  lemma NewRowEndsNow(cal: Calendar, s: State, step: Step, r: nat)
    requires Enabled(cal, s, step) && r !in s.runs && EndedIn(Apply(cal, s, step), r)
    ensures Apply(cal, s, step).runs[r].endedAt == Some(step.now)
  {
    NewRow(cal, s, step, r);
  }

  lemma EndStays(cal: Calendar, s: State, step: Step, r: nat)
    requires Inv(s) && Enabled(cal, s, step) && EndedIn(s, r)
    ensures EndedIn(Apply(cal, s, step), r) && Apply(cal, s, step).runs[r].endedAt == s.runs[r].endedAt
  {
    EndedRowStays(cal, s, step, r, s.runs[r]);
  }

  /** The clock of the step at which the row ended, if it has. */
  ghost function EndInstant(cal: Calendar, steps: seq<Step>, r: nat): Option<Instant>
    requires Possible(cal, EMPTY, steps)
  {
    if |steps| == 0 then None
    else
      var n := |steps| - 1;
      if EndedIn(After(cal, EMPTY, steps[..n]), r) then EndInstant(cal, steps[..n], r)
      else if EndedIn(After(cal, EMPTY, steps), r) then Some(steps[n].now)
      else None
  }

  predicate EndsAt(s: State, r: nat, end: Option<Instant>) {
    (end.Some? <==> EndedIn(s, r)) && (r in s.runs ==> s.runs[r].endedAt == end)
  }

  lemma EndsAtStep(cal: Calendar, s: State, step: Step, r: nat, end: Option<Instant>)
    requires Inv(s) && Enabled(cal, s, step) && EndsAt(s, r, end)
    ensures EndsAt(Apply(cal, s, step), r,
                   if EndedIn(s, r) then end else if EndedIn(Apply(cal, s, step), r) then Some(step.now) else None)
  {
    StepKeeps(cal, s, step);
    assert RowFine(Apply(cal, s, step), r);
    if EndedIn(s, r) {
      EndStays(cal, s, step, r);
    } else if EndedIn(Apply(cal, s, step), r) {
      EndsNow(cal, s, step, r);
    }
  }

  /** In every reachable state ended_at is the clock of the step at which the row ended, and is
      null if it has not. */
  lemma {:induction false} EndedWhenItEnded(cal: Calendar, steps: seq<Step>, r: nat)
    requires Possible(cal, EMPTY, steps)
    ensures EndsAt(After(cal, EMPTY, steps), r, EndInstant(cal, steps, r))
    decreases |steps|
  {
    if |steps| > 0 {
      var n := |steps| - 1;
      LastStep(cal, EMPTY, steps);
      EveryReachableState(cal, steps[..n]);
      EndedWhenItEnded(cal, steps[..n], r);
      EndsAtStep(cal, After(cal, EMPTY, steps[..n]), steps[n], r, EndInstant(cal, steps[..n], r));
    }
  }
}
