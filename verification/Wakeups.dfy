/** Queued runs are not forgotten, and the work in hand always comes to an end. */
module Wakeups {
  import opened Prelude
  import opened ScheduleService
  import opened Lifecycle
  import opened RunRows

  // ---- no lost wake-up ----

  /** Row `r` will in time drain the script's queue: a scheduler task is on it, or a retry
      will put one on it. */
  predicate Drives(s: State, r: nat, script: nat) {
    && r in s.runs && s.runs[r].script == script
    && (s.runs[r].status == PendingRetry || Task(r, ScheduledRun) in s.tasks || Task(r, Drain) in s.tasks)
  }

  ghost predicate Driven(s: State, script: nat) {
    exists r: nat :: Drives(s, r, script)
  }

  /** If a run of the script is queued, something will drain it. */
  ghost predicate Covered(s: State, script: nat) {
    forall q: nat :: WaitsOn(s, q, script) ==> Driven(s, script)
  }

  /** One way to lose a wake-up: queueing behind runs that were all started by hand, or are
      stranded. */
  ghost predicate QueuesUndriven(s: State, step: Step, script: nat) {
    Enqueues(s, step, script) && !Driven(s, script)
  }

  /** The other: stranding the last driver of a script whose queue is not empty. */
  ghost predicate StrandsLastDriver(s: State, step: Step, script: nat) {
    && Waiting(s, script) != {}
    && step.Finish? && Drives(s, step.task.run, script) && StrandsRow(s, step, step.task.run)
    && forall r: nat :: Drives(s, r, script) ==> r == step.task.run
  }

  lemma FireDriver(cal: Calendar, s: State, id: nat, now: Instant, r: nat, script: nat)
    requires Inv(s) && id in s.schedules && Drives(s, r, script)
    ensures Drives(ApplyFire(cal, s, id, now), r, script)
  {
    NoRowBeyond(s);
  }

  lemma FinishDriver(s: State, task: Task, result: ProcessResult, now: Instant, r: nat, script: nat)
    requires Inv(s) && task in s.tasks && task.run in s.runs && task.work != Drain && Drives(s, r, script)
    requires r == task.run ==> !Strands(s, task, result, now)
    ensures Drives(ApplyFinish(s, task, result, now), r, script)
  {
    assert RowFine(s, task.run);
  }

  lemma TriggerDriver(s: State, script: nat, now: Instant, r: nat, sc: nat)
    requires Inv(s) && Drives(s, r, sc)
    ensures Drives(ApplyTrigger(s, script, now), r, sc)
  {
    NoRowBeyond(s);
  }

  /** Every step but a drain, and the stranding of its own run, leaves each driver a driver. */
  lemma DriverStays(cal: Calendar, s: State, step: Step, r: nat, script: nat)
    requires Inv(s) && Enabled(cal, s, step) && !step.DrainQueue? && Drives(s, r, script)
    requires !StrandsRow(s, step, r)
    ensures Drives(Apply(cal, s, step), r, script)
  {
    match step
    case Fire(id, now) => FireDriver(cal, s, id, now, r, script);
    case Finish(task, result, now) => FinishDriver(s, task, result, now, r, script);
    case Trigger(sc, now) => TriggerDriver(s, sc, now, r, script);
    case Cancel(_, _) => assert RowFine(s, r);
    case PickRetry(_, _) =>
    case DeleteSchedule(_, _, _) =>
    case CreateSchedule(_, _, _) =>
    case UpdateSchedule(_, _, _) =>
    case SetEnabled(_, _, _) =>
  }

  /** A drain leaves an empty queue of its script, or becomes the driver of what it started. */
  lemma DrainCovers(cal: Calendar, s: State, r: nat, pick: Option<nat>, now: Instant, script: nat)
    requires Inv(s) && Enabled(cal, s, DrainQueue(r, pick, now)) && Covered(s, script)
    ensures Covered(Apply(cal, s, DrainQueue(r, pick, now)), script)
  {
    var t := Apply(cal, s, DrainQueue(r, pick, now));
    forall q: nat | WaitsOn(t, q, script) ensures Driven(t, script) {
      assert WaitsOn(s, q, script);
      var d: nat :| Drives(s, d, script);
      if s.runs[r].script == script {
        assert q in Waiting(s, script);
        assert Drives(t, pick.value, script);
      } else {
        assert Drives(t, d, script);
      }
    }
  }

  lemma StrandedDriver(cal: Calendar, s: State, step: Step, script: nat)
    requires Inv(s) && Enabled(cal, s, step) && StrandsLastDriver(s, step, script)
    ensures !Covered(Apply(cal, s, step), script)
  {
    var t := Apply(cal, s, step);
    var q :| q in Waiting(s, script);
    assert WaitsOn(t, q, script);
    assert RowFine(s, step.task.run);
    forall r: nat ensures !Drives(t, r, script) {
      assert r != step.task.run ==> !Drives(s, r, script);
    }
  }

  lemma StillDriven(cal: Calendar, s: State, step: Step, script: nat)
    requires Inv(s) && Enabled(cal, s, step) && !step.DrainQueue? && Driven(s, script)
    requires Waiting(s, script) == {} || !StrandsLastDriver(s, step, script)
    requires step.Finish? ==> Waiting(s, script) != {}
    ensures Driven(Apply(cal, s, step), script)
  {
    var d: nat :| Drives(s, d, script) && !StrandsRow(s, step, d);
    DriverStays(cal, s, step, d, script);
  }

  /** Over every step: coverage is lost exactly by a fire that queues a run while nothing drives
      the script, or by stranding its last driver. */
  lemma {:induction false} WakeupLostExactlyWhen(cal: Calendar, s: State, step: Step, script: nat)
    requires Inv(s) && Enabled(cal, s, step) && Covered(s, script)
    ensures Covered(Apply(cal, s, step), script) <==>
            !QueuesUndriven(s, step, script) && !StrandsLastDriver(s, step, script)
  {
    var t := Apply(cal, s, step);
    if QueuesUndriven(s, step, script) {
      QueuedUndriven(cal, s, step.id, step.now);
    } else if StrandsLastDriver(s, step, script) {
      StrandedDriver(cal, s, step, script);
    } else if step.DrainQueue? {
      DrainCovers(cal, s, step.run, step.pick, step.now, script);
    } else {
      forall q: nat | WaitsOn(t, q, script) ensures Driven(t, script) {
        WaitsAfter(cal, s, step, script, q);
        assert step.Finish? ==> q in Waiting(s, script);
        StillDriven(cal, s, step, script);
      }
    }
  }

  lemma QueuedUndriven(cal: Calendar, s: State, id: nat, now: Instant)
    requires Inv(s) && Enabled(cal, s, Fire(id, now)) && QueuesUndriven(s, Fire(id, now), s.schedules[id].script)
    ensures !Covered(Apply(cal, s, Fire(id, now)), s.schedules[id].script)
  {
    var script := s.schedules[id].script;
    var t := Apply(cal, s, Fire(id, now));
    assert RowFine(s, s.nextRun);
    assert WaitsOn(t, s.nextRun, script);
    forall r: nat ensures !Drives(t, r, script) {
      assert !Drives(s, r, script);
    }
  }

  /** No run of the script was started by hand and is still executing. */
  ghost predicate NoManual(s: State, script: nat) {
    forall r: nat :: r in s.runs && s.runs[r].script == script ==> s.tasks[Task(r, ManualRun)] == 0
  }

  /** A manual task appears only by a trigger, for the new row. */
  lemma ManualAppears(cal: Calendar, s: State, step: Step, r: nat)
    requires Enabled(cal, s, step) && Apply(cal, s, step).tasks[Task(r, ManualRun)] > s.tasks[Task(r, ManualRun)]
    ensures step.Trigger? && r == s.nextRun
  {
    if step.Finish? {
      FinishKeepsManual(s, step.task, step.result, step.now, r);
    }
  }

  lemma FinishKeepsManual(s: State, task: Task, result: ProcessResult, now: Instant, r: nat)
    requires task in s.tasks && task.run in s.runs
    ensures ApplyFinish(s, task, result, now).tasks[Task(r, ManualRun)] <= s.tasks[Task(r, ManualRun)]
  {
  }

  lemma NoManualStep(cal: Calendar, s: State, step: Step, script: nat)
    requires Inv(s) && NoManual(s, script) && Enabled(cal, s, step) && !Triggers(step, script)
    ensures NoManual(Apply(cal, s, step), script)
  {
    var t := Apply(cal, s, step);
    forall r: nat | r in t.runs && t.runs[r].script == script ensures t.tasks[Task(r, ManualRun)] == 0 {
      if r in s.runs {
        RowAfterStep(cal, s, step, r);
        NoRowBeyond(s);
      } else {
        assert RowFine(s, r);
      }
      if t.tasks[Task(r, ManualRun)] > s.tasks[Task(r, ManualRun)] {
        ManualAppears(cal, s, step, r);
      }
    }
  }

  predicate Triggers(step: Step, script: nat) {
    step.Trigger? && step.script == script
  }

  /** The script is never triggered by hand. */
  ghost predicate Unaided(steps: seq<Step>, script: nat) {
    forall i | 0 <= i < |steps| :: !Triggers(steps[i], script)
  }

  lemma {:induction false} NeverManual(cal: Calendar, steps: seq<Step>, script: nat)
    requires Possible(cal, EMPTY, steps) && Unaided(steps, script)
    ensures NoManual(After(cal, EMPTY, steps), script)
    decreases |steps|
  {
    if |steps| > 0 {
      var n := |steps| - 1;
      NeverManual(cal, steps[..n], script);
      EveryReachableState(cal, steps[..n]);
      NoManualStep(cal, After(cal, EMPTY, steps[..n]), steps[n], script);
    }
  }

  /** No run of the script is stranded. */
  ghost predicate NoneStranded(s: State, script: nat) {
    forall r: nat :: r in s.runs && s.runs[r].script == script ==> !Stranded(s, r)
  }

  /** A stranded run stays stranded, so none now means none before. */
  lemma NoneStrandedBefore(cal: Calendar, s: State, step: Step, script: nat)
    requires Inv(s) && Enabled(cal, s, step) && NoneStranded(Apply(cal, s, step), script)
    ensures NoneStranded(s, script) && !StrandsLastDriver(s, step, script)
  {
    forall r: nat | r in s.runs && s.runs[r].script == script
      ensures !Stranded(s, r) && !StrandsRow(s, step, r)
    {
      StrandedStep(cal, s, step, r);
      RowAfterStep(cal, s, step, r);
    }
  }

  lemma CoveredStep(cal: Calendar, s: State, step: Step, script: nat)
    requires Inv(s) && NoManual(s, script) && Covered(s, script) && Enabled(cal, s, step)
    requires NoneStranded(Apply(cal, s, step), script)
    ensures Covered(Apply(cal, s, step), script)
  {
    NoneStrandedBefore(cal, s, step, script);
    ScheduledIsDriven(s, script);
    WakeupLostExactlyWhen(cal, s, step, script);
  }

  /** In every reachable state, each queued run of a script that was never triggered by hand and
      none of whose runs is stranded has something in flight that will drain it. */
  lemma {:induction false} NoLostWakeup(cal: Calendar, steps: seq<Step>, script: nat)
    requires Possible(cal, EMPTY, steps) && Unaided(steps, script)
    requires NoneStranded(After(cal, EMPTY, steps), script)
    ensures Covered(After(cal, EMPTY, steps), script)
    decreases |steps|
  {
    if |steps| > 0 {
      var n := |steps| - 1;
      EveryReachableState(cal, steps[..n]);
      NoneStrandedBefore(cal, After(cal, EMPTY, steps[..n]), steps[n], script);
      NoLostWakeup(cal, steps[..n], script);
      NeverManual(cal, steps[..n], script);
      CoveredStep(cal, After(cal, EMPTY, steps[..n]), steps[n], script);
    }
  }

  lemma ScheduledIsDriven(s: State, script: nat)
    requires Inv(s) && NoManual(s, script) && NoneStranded(s, script)
    ensures Active(s, script) ==> Driven(s, script)
  {
    if r: nat :| r in s.runs && RunsOn(s, r, script) {
      assert RowFine(s, r) && !Stranded(s, r);
      assert s.tasks[Task(r, ManualRun)] == 0;
      assert Drives(s, r, script);
    }
  }

  // ---- quiescence ----

  /** Steps that need no new fire, trigger, cancel or edit. */
  predicate Internal(step: Step) {
    step.Finish? || step.PickRetry? || step.DrainQueue?
  }

  function RetriesLeft(s: State, run: Run): nat {
    if run.attempt < RetryMax(s, run) then RetryMax(s, run) - run.attempt else 0
  }

  /** How many internal steps the row can still take part in, at most; a stranded row, none. */
  function RowRank(s: State, r: nat): nat {
    if r !in s.runs || Stranded(s, r) then 0
    else match s.runs[r].status
      case Running => 3 * RetriesLeft(s, s.runs[r]) + 2
      case Cancelled => 3 * RetriesLeft(s, s.runs[r]) + 2
      case Pending => 3 * RetriesLeft(s, s.runs[r]) + 3
      case PendingRetry => 3 * RetriesLeft(s, s.runs[r]) + 3
      case _ => Draining(s, r)
  }

  function RankBelow(s: State, n: nat): nat {
    if n == 0 then 0 else RankBelow(s, n - 1) + RowRank(s, n - 1)
  }

  function Rank(s: State): nat {
    RankBelow(s, s.nextRun)
  }

  lemma {:induction false} RankFalls(s: State, t: State, n: nat, k: nat)
    requires forall r: nat :: RankDrops(s, t, r, k)
    ensures RankBelow(t, n) <= RankBelow(s, n)
    ensures k < n ==> RankBelow(t, n) < RankBelow(s, n)
    decreases n
  {
    if n > 0 {
      assert RankDrops(s, t, n - 1, k);
      RankFalls(s, t, n - 1, k);
    }
  }

  /** The row an internal step is about. */
  function Subject(step: Step): nat
    requires Internal(step)
  {
    if step.Finish? then step.task.run else step.run
  }

  predicate RankDrops(s: State, t: State, r: nat, subject: nat) {
    RowRank(t, r) <= RowRank(s, r) && (r == subject ==> RowRank(t, r) < RowRank(s, r))
  }

  lemma StartRank(s: State, q: nat, now: Instant, r: nat)
    requires Inv(s) && q in s.runs && (s.runs[q].status == Pending || s.runs[q].status == PendingRetry)
    ensures RankDrops(s, ApplyStart(s, q).(clock := now), r, q)
  {
  }

  lemma RetryRank(s: State, task: Task, result: ProcessResult, now: Instant, r: nat)
    requires Inv(s) && task in s.tasks && task.run in s.runs && Retries(s, task, result)
    ensures RankDrops(s, ApplyRetry(s, task, now).(clock := now), r, task.run)
  {
    assert RowFine(s, task.run);
  }

  lemma SettleRank(s: State, task: Task, run: Run, now: Instant, r: nat)
    requires Inv(s) && task in s.tasks && task.run in s.runs && task.work != Drain && Terminal(run.status)
    ensures var t := Retire(PutRun(s, task.run, run), task).(clock := now);
            && RowRank(t, r) <= RowRank(s, r)
            && (r == task.run ==> RowRank(t, r) + 2 <= RowRank(s, r))
  {
    assert RowFine(s, task.run);
  }

  lemma SpawnDrainRank(s: State, q: nat, r: nat)
    ensures RowRank(Spawn(s, Task(q, Drain)), r) <= RowRank(s, r) + if r == q then 1 else 0
  {
  }

  lemma EndRank(s: State, task: Task, result: ProcessResult, now: Instant, r: nat)
    requires Inv(s) && task in s.tasks && task.run in s.runs && task.work != Drain
    ensures RankDrops(s, ApplyEnd(s, task, result, now).(clock := now), r, task.run)
  {
    var run := EndRun(s.runs[task.run], StatusOf(result), CodeOf(result), now);
    SettleRank(s, task, run, now, r);
    SpawnDrainRank(Retire(PutRun(s, task.run, run), task).(clock := now), task.run, r);
  }

  lemma StrandRank(s: State, task: Task, now: Instant, r: nat)
    requires Inv(s) && task in s.tasks && task.run in s.runs && task.work != Drain
    ensures RankDrops(s, Retire(s, task).(clock := now), r, task.run)
  {
    assert RowFine(s, task.run);
  }

  lemma RetireRank(s: State, q: nat, now: Instant, r: nat)
    requires Inv(s) && Task(q, Drain) in s.tasks
    ensures RankDrops(s, Retire(s, Task(q, Drain)).(clock := now), r, q)
  {
    assert RowFine(s, q);
  }

  lemma DrainRank(s: State, q: nat, pick: Option<nat>, now: Instant, r: nat)
    requires Inv(s) && s.clock <= now && Task(q, Drain) in s.tasks
    requires pick.Some? ==> pick.value in s.runs && s.runs[pick.value].status == Pending
    ensures RankDrops(s, ApplyDrain(s, q, pick).(clock := now), r, q)
  {
    RetireRank(s, q, now, r);
    if pick.Some? {
      RetireKeeps(s, Task(q, Drain), now);
      StartRank(Retire(s, Task(q, Drain)).(clock := now), pick.value, now, r);
    }
  }

  lemma RowRankFalls(cal: Calendar, s: State, step: Step, r: nat)
    requires Inv(s) && Enabled(cal, s, step) && Internal(step)
    ensures RankDrops(s, Apply(cal, s, step), r, Subject(step))
  {
    match step
    case PickRetry(q, now) => StartRank(s, q, now, r);
    case DrainQueue(q, pick, now) => DrainRank(s, q, pick, now, r);
    case Finish(task, result, now) =>
      if Strands(s, task, result, now) {
        StrandRank(s, task, now, r);
      } else if Retries(s, task, result) {
        RetryRank(s, task, result, now, r);
      } else {
        EndRank(s, task, result, now, r);
      }
  }

  lemma {:induction false} InternalStepLowersRank(cal: Calendar, s: State, step: Step)
    requires Inv(s) && Enabled(cal, s, step) && Internal(step)
    ensures Rank(Apply(cal, s, step)) < Rank(s)
  {
    var t := Apply(cal, s, step);
    forall r: nat ensures RankDrops(s, t, r, Subject(step)) {
      RowRankFalls(cal, s, step, r);
    }
    assert RankDrops(s, t, Subject(step), Subject(step));
    assert RowFine(s, Subject(step));
    assert t.nextRun == s.nextRun;
    RankFalls(s, t, s.nextRun, Subject(step));
  }

  /** With no new fires, triggers, cancels or edits, every sequence of finish, retry and drain
      steps is at most as long as the rank of the state it starts from. */
  lemma {:induction false} InternalRunsAreFinite(cal: Calendar, s: State, steps: seq<Step>)
    requires Inv(s) && Possible(cal, s, steps)
    requires forall i | 0 <= i < |steps| :: Internal(steps[i])
    ensures Inv(After(cal, s, steps))
    ensures |steps| + Rank(After(cal, s, steps)) <= Rank(s)
    decreases |steps|
  {
    if |steps| > 0 {
      var n := |steps| - 1;
      InternalRunsAreFinite(cal, s, steps[..n]);
      StepKeeps(cal, After(cal, s, steps[..n]), steps[n]);
      InternalStepLowersRank(cal, After(cal, s, steps[..n]), steps[n]);
    }
  }

  /** A tick at this time ends before its retry phase: it raises at some due schedule. */
  predicate TickRaises(cal: Calendar, s: State, now: Instant) {
    exists id :: id in s.schedules && ScheduleDue(s, id, now) && FireRaises(cal, s, id)
  }

  /** Some internal step is possible, now or once its time has come, in a tick that gets that far
      if it is a retry. */
  ghost predicate CanGoOn(cal: Calendar, s: State) {
    exists step :: GoesOn(cal, s, step)
  }

  ghost predicate GoesOn(cal: Calendar, s: State, step: Step) {
    Internal(step) && Enabled(cal, s, step) && (step.PickRetry? ==> !TickRaises(cal, s, step.now))
  }

  /** No enabled schedule makes the tick raise. */
  ghost predicate NoneRaises(cal: Calendar, s: State) {
    forall id | id in s.schedules && s.schedules[id].settings.enabled :: !FireRaises(cal, s, id)
  }

  lemma {:induction false} OldestExists(s: State, script: nat, waiting: set<nat>) returns (r: nat)
    requires waiting != {} && waiting <= Waiting(s, script)
    ensures r in waiting && WaitsOn(s, r, script)
    ensures forall q | q in waiting :: s.runs[r].startedAt <= s.runs[q].startedAt
    decreases waiting
  {
    r :| r in waiting;
    if waiting != {r} {
      var q := OldestExists(s, script, waiting - {r});
      if s.runs[q].startedAt < s.runs[r].startedAt {
        r := q;
      }
    }
  }

  /** While runs wait, there is one that promote_oldest_pending may select. */
  lemma {:induction false} OldestPending(s: State, script: nat)
    requires Waiting(s, script) != {}
    ensures exists r :: r in s.runs && Oldest(s, r, script)
  {
    var r := OldestExists(s, script, Waiting(s, script));
    forall q | q in s.runs && WaitsOn(s, q, script) ensures s.runs[r].startedAt <= s.runs[q].startedAt {
      assert q in Waiting(s, script);
    }
    assert Oldest(s, r, script);
  }

  lemma TaskCanGoOn(cal: Calendar, s: State, task: Task)
    requires Inv(s) && task in s.tasks
    ensures CanGoOn(cal, s)
  {
    assert RowFine(s, task.run);
    if task.work != Drain {
      var step := Finish(task, Exit(0), s.clock);
      assert GoesOn(cal, s, step);
    } else {
      var script := s.runs[task.run].script;
      var pick := None;
      if Waiting(s, script) != {} {
        OldestPending(s, script);
        var r :| r in s.runs && Oldest(s, r, script);
        pick := Some(r);
      }
      var step := DrainQueue(task.run, pick, s.clock);
      assert GoesOn(cal, s, step);
    }
  }

  lemma RetryCanGoOn(cal: Calendar, s: State, r: nat)
    requires Inv(s) && r in s.runs && s.runs[r].status == PendingRetry
    requires NoneRaises(cal, s) && NoneStranded(s, s.runs[r].script)
    ensures CanGoOn(cal, s)
  {
    if q: nat :| q in s.runs && RunsOn(s, q, s.runs[r].script) {
      assert RowFine(s, q) && !Stranded(s, q);
      TaskCanGoOn(cal, s, Task(q, if Task(q, ScheduledRun) in s.tasks then ScheduledRun else ManualRun));
    } else {
      assert RowFine(s, r);
      var due := s.runs[r].nextAttemptAt.value;
      var step := PickRetry(r, if due <= s.clock then s.clock else due);
      assert GoesOn(cal, s, step);
    }
  }

  /** While any row is not terminal, some internal step is possible, now or once its time has
      come, unless a run of its script is stranded or a schedule makes the tick raise; so the
      sequences above can only stop with every row terminal. */
  lemma {:induction false} OnlyStopsTerminal(cal: Calendar, s: State, r: nat)
    requires Inv(s) && r in s.runs && !Terminal(s.runs[r].status)
    requires Covered(s, s.runs[r].script) && NoneStranded(s, s.runs[r].script) && NoneRaises(cal, s)
    ensures CanGoOn(cal, s)
  {
    assert RowFine(s, r) && !Stranded(s, r);
    if InFlight(s.runs[r].status) {
      TaskCanGoOn(cal, s, Task(r, if Task(r, ScheduledRun) in s.tasks then ScheduledRun else ManualRun));
    } else if s.runs[r].status == PendingRetry {
      RetryCanGoOn(cal, s, r);
    } else {
      assert WaitsOn(s, r, s.runs[r].script);
      var d: nat :| Drives(s, d, s.runs[r].script);
      if s.runs[d].status == PendingRetry {
        RetryCanGoOn(cal, s, d);
      } else {
        TaskCanGoOn(cal, s, Task(d, if Task(d, ScheduledRun) in s.tasks then ScheduledRun else Drain));
      }
    }
  }

  lemma {:induction false} InternalStepsStayCovered(cal: Calendar, s: State, steps: seq<Step>, script: nat)
    requires Inv(s) && Covered(s, script) && Possible(cal, s, steps)
    requires forall i | 0 <= i < |steps| :: Internal(steps[i])
    requires NoneStranded(After(cal, s, steps), script)
    ensures Covered(After(cal, s, steps), script)
    decreases |steps|
  {
    if |steps| > 0 {
      var n := |steps| - 1;
      InternalRunsAreFinite(cal, s, steps[..n]);
      NoneStrandedBefore(cal, After(cal, s, steps[..n]), steps[n], script);
      InternalStepsStayCovered(cal, s, steps[..n], script);
      WakeupLostExactlyWhen(cal, After(cal, s, steps[..n]), steps[n], script);
    }
  }

  lemma {:induction false} NoneStrandedAtFirst(cal: Calendar, s: State, steps: seq<Step>, script: nat)
    requires Inv(s) && Possible(cal, s, steps)
    requires forall i | 0 <= i < |steps| :: Internal(steps[i])
    requires NoneStranded(After(cal, s, steps), script)
    ensures NoneStranded(s, script)
    decreases |steps|
  {
    if |steps| > 0 {
      var n := |steps| - 1;
      InternalRunsAreFinite(cal, s, steps[..n]);
      NoneStrandedBefore(cal, After(cal, s, steps[..n]), steps[n], script);
      NoneStrandedAtFirst(cal, s, steps[..n], script);
    }
  }

  /** Internal steps write no schedule. */
  lemma {:induction false} SchedulesStay(cal: Calendar, s: State, steps: seq<Step>)
    requires Possible(cal, s, steps) && forall i | 0 <= i < |steps| :: Internal(steps[i])
    ensures After(cal, s, steps).schedules == s.schedules
    decreases |steps|
  {
    if |steps| > 0 {
      var n := |steps| - 1;
      SchedulesStay(cal, s, steps[..n]);
      RunStepsKeepSchedules(cal, After(cal, s, steps[..n]), steps[n]);
    }
  }

  /** Quiescence: after any history, leave the system to itself.  It stops within Rank steps, and
      when it has stopped every row is terminal whose script was never triggered by hand and has no
      stranded run, if no enabled schedule makes the tick raise. */
  lemma {:induction false} Quiescence(cal: Calendar, history: seq<Step>, tail: seq<Step>, r: nat)
    requires Possible(cal, EMPTY, history)
    requires var s := After(cal, EMPTY, history);
             && Possible(cal, s, tail)
             && (forall i | 0 <= i < |tail| :: Internal(tail[i]))
             && !CanGoOn(cal, After(cal, s, tail))
             && r in After(cal, s, tail).runs
    ensures var s := After(cal, EMPTY, history);
            && |tail| <= Rank(s)
            && var end := After(cal, s, tail);
               var script := end.runs[r].script;
               (Unaided(history, script) && NoneStranded(end, script) && NoneRaises(cal, s) ==>
                  Terminal(end.runs[r].status))
  {
    var s := After(cal, EMPTY, history);
    EveryReachableState(cal, history);
    InternalRunsAreFinite(cal, s, tail);
    var end := After(cal, s, tail);
    var script := end.runs[r].script;
    if Unaided(history, script) && NoneStranded(end, script) && NoneRaises(cal, s) && !Terminal(end.runs[r].status) {
      NoneStrandedAtFirst(cal, s, tail, script);
      NoLostWakeup(cal, history, script);
      InternalStepsStayCovered(cal, s, tail, script);
      SchedulesStay(cal, s, tail);
      OnlyStopsTerminal(cal, end, r);
    }
  }

  // ---- the run that is forgotten ----

  const EVERY_SECOND: Settings := Settings(Interval(1, Seconds), true, Queue, 10, 0, 0)

  /** A manual run of script 7; a fire of its schedule, queued behind it; the run's end. */
  function Overtaken(): seq<Step> {
    [CreateSchedule(7, EVERY_SECOND, 0)] + [Trigger(7, 0)]
  }

  function QueuedBehind(): seq<Step> {
    Overtaken() + [Fire(1, SECOND)]
  }

  function Forgotten(): seq<Step> {
    QueuedBehind() + [Finish(Task(1, ManualRun), Exit(0), SECOND)]
  }

  const MANUAL_RUN: Run := NewRun(7, None, Running, 0)
  const QUEUED_RUN: Run := NewRun(7, Some(1), Pending, SECOND)

  lemma OvertakenState(cal: Calendar)
    ensures Possible(cal, EMPTY, Overtaken())
    ensures After(cal, EMPTY, Overtaken()) ==
            State(map[1 := MANUAL_RUN], map[1 := Schedule(7, EVERY_SECOND, SECOND, 0)],
                  multiset{Task(1, ManualRun)}, 2, 2, 0)
  {
    var create := CreateSchedule(7, EVERY_SECOND, 0);
    PossibleAdd(cal, EMPTY, [], create);
    assert [] + [create] == [create];
    var s := After(cal, EMPTY, [create]);
    assert s.schedules == map[1 := Schedule(7, EVERY_SECOND, SECOND, 0)];
    PossibleAdd(cal, EMPTY, [create], Trigger(7, 0));
    assert !Active(s, 7);
    assert s.tasks + multiset{Task(1, ManualRun)} == multiset{Task(1, ManualRun)};
  }

  lemma QueuedBehindState(cal: Calendar)
    ensures Possible(cal, EMPTY, QueuedBehind())
    ensures var s := After(cal, EMPTY, QueuedBehind());
            && s.runs == map[1 := MANUAL_RUN, 2 := QUEUED_RUN] && s.tasks == multiset{Task(1, ManualRun)}
            && s.clock == SECOND
  {
    OvertakenState(cal);
    var s := After(cal, EMPTY, Overtaken());
    PossibleAdd(cal, EMPTY, Overtaken(), Fire(1, SECOND));
    assert RunsOn(s, 1, 7);
    assert Waiting(s, 7) == {};
    assert OutcomeOf(s, s.schedules[1]) == Queued;
    assert s.runs[2 := QUEUED_RUN] == map[1 := MANUAL_RUN, 2 := QUEUED_RUN];
  }

  lemma ManualRunEnds(s: State)
    requires s.runs == map[1 := MANUAL_RUN, 2 := QUEUED_RUN] && s.tasks == multiset{Task(1, ManualRun)}
    ensures var t := ApplyFinish(s, Task(1, ManualRun), Exit(0), SECOND);
            && t.runs == map[1 := EndRun(MANUAL_RUN, Success, 0, SECOND), 2 := QUEUED_RUN]
            && t.tasks == multiset{}
  {
  }

  lemma ForgottenState(cal: Calendar)
    ensures Possible(cal, EMPTY, Forgotten())
    ensures var s := After(cal, EMPTY, Forgotten());
            && s.runs == map[1 := EndRun(MANUAL_RUN, Success, 0, SECOND), 2 := QUEUED_RUN]
            && s.tasks == multiset{}
  {
    QueuedBehindState(cal);
    ManualRunEnds(After(cal, EMPTY, QueuedBehind()));
    PossibleAdd(cal, EMPTY, QueuedBehind(), Finish(Task(1, ManualRun), Exit(0), SECOND));
  }

  lemma NothingToDo(cal: Calendar, s: State)
    requires s.tasks == multiset{}
    requires forall r: nat | r in s.runs :: s.runs[r].status != PendingRetry
    ensures !CanGoOn(cal, s) && forall script :: !Driven(s, script)
  {
  }

  /** With a manual trigger the property is false: after this history a run is queued, nothing
      is in flight, and no internal step is possible, however long one waits. */
  lemma {:induction false} ManualRunForgetsTheQueue(cal: Calendar)
    ensures Possible(cal, EMPTY, Forgotten())
    ensures var s := After(cal, EMPTY, Forgotten());
            WaitsOn(s, 2, 7) && !Covered(s, 7) && s.tasks == multiset{} && !CanGoOn(cal, s)
  {
    ForgottenState(cal);
    var s := After(cal, EMPTY, Forgotten());
    NothingToDo(cal, s);
    assert WaitsOn(s, 2, 7) && !Driven(s, 7);
  }
}
