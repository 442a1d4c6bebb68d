/** The life of a run: scheduler/tick.py, services/run_service.py, api/runs.py and the
    schedule edits of api/schedules.py as one transition system over the two tables and the
    background tasks in flight.

    A step is what the program does between two commits; nothing else happens inside it.
    In particular, ending a scheduled run and draining the script's queue are two commits
    (tick.py:355-364), so they are two steps and anything may come in between. */
module Lifecycle {
  import opened Prelude
  import opened ScheduleService

  datatype Status = Running | Success | Failure | Error | Cancelled | Skipped | Pending | PendingRetry

  datatype SkipReason = Overlap | QueueFull

  /** A row of `runs`. */
  datatype Run = Run(
    script: nat,
    schedule: Option<nat>,
    status: Status,
    attempt: nat,
    nextAttemptAt: Option<Instant>,
    startedAt: Instant,
    endedAt: Option<Instant>,
    exitCode: Option<int>,
    skipReason: Option<SkipReason>
  )

  datatype Policy = Skip | Queue | Parallel

  /** ScheduleCreate accepts 1 to 100. */
  type QueueMax = n: nat | 1 <= n <= 100 witness 10

  /** What the create and update endpoints write. */
  datatype Settings = Settings(
    cadence: Cadence,
    enabled: bool,
    policy: Policy,
    queueMax: QueueMax,
    retryMax: nat,
    retryBackoff: nat   // seconds
  )

  /** A row of `schedules`. */
  datatype Schedule = Schedule(script: nat, settings: Settings, cursor: Instant, queueDropped: nat)

  /** Where a background task is: executing a run the scheduler or the API started, or, that
      run being ended, about to drain the queue of the run's script. */
  datatype Work = ScheduledRun | ManualRun | Drain

  datatype Task = Task(run: nat, work: Work)

  datatype State = State(
    runs: map<nat, Run>,
    schedules: map<nat, Schedule>,
    tasks: multiset<Task>,
    nextRun: nat,
    nextSchedule: nat,
    clock: Instant
  )

  const EMPTY: State := State(map[], map[], multiset{}, 1, 1, 0)

  /** What became of the process: an exit code (run_script maps its own failures to -1), or
      run_script itself raised. */
  datatype ProcessResult = Exit(code: int) | Raised

  datatype Step =
    | CreateSchedule(script: nat, settings: Settings, now: Instant)
    | UpdateSchedule(id: nat, settings: Settings, now: Instant)
    | SetEnabled(id: nat, on: bool, now: Instant)
    | DeleteSchedule(id: nat, setNull: bool, now: Instant)  // setNull: foreign keys are enforced
    | Fire(id: nat, now: Instant)
    | PickRetry(run: nat, now: Instant)
    | Trigger(script: nat, now: Instant)
    | Cancel(run: nat, now: Instant)
    | Finish(task: Task, result: ProcessResult, now: Instant)
    | DrainQueue(run: nat, pick: Option<nat>, now: Instant)

  // ---- queries ----

  predicate RunsOn(s: State, r: nat, script: nat) {
    r in s.runs && s.runs[r].script == script && s.runs[r].status == Running
  }

  /** has_active_run */
  predicate Active(s: State, script: nat) {
    exists r :: r in s.runs && RunsOn(s, r, script)
  }

  predicate WaitsOn(s: State, r: nat, script: nat) {
    r in s.runs && s.runs[r].script == script && s.runs[r].status == Pending
  }

  function Waiting(s: State, script: nat): set<nat> {
    set r | r in s.runs && WaitsOn(s, r, script)
  }

  /** The row promote_oldest_pending may select; rows that started at the same instant tie. */
  predicate Oldest(s: State, r: nat, script: nat) {
    WaitsOn(s, r, script) &&
    forall q | q in s.runs && WaitsOn(s, q, script) :: s.runs[r].startedAt <= s.runs[q].startedAt
  }

  /** The queries on runs look at nothing else. */
  lemma QueriesReadRuns(s: State, t: State, script: nat)
    requires s.runs == t.runs
    ensures Active(s, script) == Active(t, script) && Waiting(s, script) == Waiting(t, script)
  {
    assert forall r: nat :: RunsOn(s, r, script) <==> RunsOn(t, r, script);
    assert forall r: nat :: WaitsOn(s, r, script) <==> WaitsOn(t, r, script);
  }

  predicate RetryDue(s: State, r: nat, now: Instant) {
    && r in s.runs && s.runs[r].status == PendingRetry
    && s.runs[r].nextAttemptAt.Some? && s.runs[r].nextAttemptAt.value <= now
  }

  predicate ScheduleDue(s: State, id: nat, now: Instant) {
    id in s.schedules && s.schedules[id].settings.enabled && s.schedules[id].cursor <= now
  }

  /** Computing this schedule's next cursor raises, so the tick ends before anything is written. */
  predicate FireRaises(cal: Calendar, s: State, id: nat)
    requires id in s.schedules
  {
    CursorRaises(cal, s.schedules[id].settings.cadence, s.schedules[id].cursor)
  }

  predicate Terminal(status: Status) {
    status in {Success, Failure, Error, Skipped}
  }

  function StatusOf(result: ProcessResult): Status {
    match result
    case Exit(code) => if code == 0 then Success else Failure
    case Raised => Error
  }

  function CodeOf(result: ProcessResult): int {
    if result.Exit? then result.code else -1
  }

  /** The join of the run with its schedule; without one there are no retries. */
  function RetryMax(s: State, run: Run): nat {
    if run.schedule.Some? && run.schedule.value in s.schedules
    then s.schedules[run.schedule.value].settings.retryMax else 0
  }

  function RetryBackoff(s: State, run: Run): nat {
    if run.schedule.Some? && run.schedule.value in s.schedules
    then s.schedules[run.schedule.value].settings.retryBackoff else 0
  }

  function Pow2(k: nat): (r: nat)
    ensures r >= 1
  {
    if k == 0 then 1 else 2 * Pow2(k - 1)
  }

  function Delay(backoff: nat, attempt: nat): int {
    backoff * Pow2(attempt) * SECOND
  }

  // ---- rows ----

  function NewRun(script: nat, schedule: Option<nat>, status: Status, now: Instant): Run {
    Run(script, schedule, status, 0, None, now, None, None, None)
  }

  function EndRun(run: Run, status: Status, code: int, now: Instant): Run {
    run.(status := status, endedAt := Some(now), exitCode := Some(code))
  }

  function SkippedRun(script: nat, id: nat, reason: SkipReason, now: Instant): Run {
    EndRun(NewRun(script, Some(id), Skipped, now), Skipped, -1, now).(skipReason := Some(reason))
  }

  function RetryAt(s: State, run: Run, now: Instant): Instant {
    now + Delay(RetryBackoff(s, run), run.attempt)
  }

  function RetryRun(s: State, run: Run, now: Instant): Run {
    run.(status := PendingRetry, attempt := run.attempt + 1, nextAttemptAt := Some(RetryAt(s, run, now)))
  }

  function PutRun(s: State, r: nat, run: Run): State {
    s.(runs := s.runs[r := run])
  }

  function AddRun(s: State, run: Run): State {
    s.(runs := s.runs[s.nextRun := run], nextRun := s.nextRun + 1)
  }

  function PutSchedule(s: State, id: nat, sch: Schedule): State {
    s.(schedules := s.schedules[id := sch])
  }

  function Spawn(s: State, t: Task): State {
    s.(tasks := s.tasks + multiset{t})
  }

  function Retire(s: State, t: Task): State {
    s.(tasks := s.tasks - multiset{t})
  }

  // ---- the tick ----

  datatype Outcome = Dispatched | Queued | SkippedOverlap | SkippedFull

  /** The overlap policy (tick.py:134-180). */
  function OutcomeOf(s: State, sch: Schedule): Outcome {
    if !Active(s, sch.script) then Dispatched
    else match sch.settings.policy
      case Skip => SkippedOverlap
      case Queue => if |Waiting(s, sch.script)| >= sch.settings.queueMax then SkippedFull else Queued
      case Parallel => Dispatched
  }

  function FiredRun(outcome: Outcome, script: nat, id: nat, now: Instant): Run {
    match outcome
    case Dispatched => NewRun(script, Some(id), Running, now)
    case Queued => NewRun(script, Some(id), Pending, now)
    case SkippedOverlap => SkippedRun(script, id, Overlap, now)
    case SkippedFull => SkippedRun(script, id, QueueFull, now)
  }

  ghost function Advance(cal: Calendar, s: State, id: nat): State
    requires id in s.schedules
  {
    var sch := s.schedules[id];
    PutSchedule(s, id, sch.(cursor := NextCursor(cal, sch.settings.cadence, sch.cursor)))
  }

  /** The row, the drop counter and the task of a fire with this outcome. */
  function Placed(s: State, id: nat, outcome: Outcome, now: Instant): State
    requires id in s.schedules
  {
    var sch := s.schedules[id];
    var added := AddRun(s, FiredRun(outcome, sch.script, id, now));
    match outcome
    case Dispatched => Spawn(added, Task(s.nextRun, ScheduledRun))
    case SkippedFull => PutSchedule(added, id, sch.(queueDropped := sch.queueDropped + 1))
    case _ => added
  }

  ghost function ApplyFire(cal: Calendar, s: State, id: nat, now: Instant): State
    requires id in s.schedules
  {
    Placed(Advance(cal, s, id), id, OutcomeOf(s, s.schedules[id]), now)
  }

  function ApplyStart(s: State, r: nat): State
    requires r in s.runs
  {
    Spawn(PutRun(s, r, s.runs[r].(status := Running)), Task(r, ScheduledRun))
  }

  predicate Retries(s: State, task: Task, result: ProcessResult)
    requires task.run in s.runs
  {
    task.work == ScheduledRun && StatusOf(result) == Failure &&
    s.runs[task.run].attempt < RetryMax(s, s.runs[task.run])
  }

  /** mark_pending_retry raises OverflowError: the next attempt would be beyond datetime's range.
      Nothing is written, and the task is gone. */
  predicate Strands(s: State, task: Task, result: ProcessResult, now: Instant)
    requires task.run in s.runs
  {
    Retries(s, task, result) && !Representable(RetryAt(s, s.runs[task.run], now))
  }

  /** mark_pending_retry; the task is over and drains nothing. */
  function ApplyRetry(s: State, task: Task, now: Instant): State
    requires task.run in s.runs
  {
    Retire(PutRun(s, task.run, RetryRun(s, s.runs[task.run], now)), task)
  }

  /** finalize_run; a scheduled run's task goes on to drain. */
  function ApplyEnd(s: State, task: Task, result: ProcessResult, now: Instant): State
    requires task.run in s.runs
  {
    var ended := Retire(PutRun(s, task.run, EndRun(s.runs[task.run], StatusOf(result), CodeOf(result), now)), task);
    if task.work == ScheduledRun then Spawn(ended, Task(task.run, Drain)) else ended
  }

  /** Both _execute_and_finalize, up to the commit that settles the run, or up to the exception
      that prevents it. */
  function ApplyFinish(s: State, task: Task, result: ProcessResult, now: Instant): State
    requires task.run in s.runs
  {
    if Strands(s, task, result, now) then Retire(s, task)
    else if Retries(s, task, result) then ApplyRetry(s, task, now)
    else ApplyEnd(s, task, result, now)
  }

  function ApplyDrain(s: State, r: nat, pick: Option<nat>): State
    requires pick.Some? ==> pick.value in s.runs
  {
    var drained := Retire(s, Task(r, Drain));
    if pick.None? then drained else ApplyStart(drained, pick.value)
  }

  // ---- the API ----

  function ApplyTrigger(s: State, script: nat, now: Instant): State {
    if Active(s, script) then s
    else Spawn(AddRun(s, NewRun(script, None, Running, now)), Task(s.nextRun, ManualRun))
  }

  function ApplyCancel(s: State, r: nat): State
    requires r in s.runs
  {
    if s.runs[r].status == Running then PutRun(s, r, s.runs[r].(status := Cancelled)) else s
  }

  function ApplyCreate(cal: Calendar, s: State, script: nat, settings: Settings, now: Instant): State
    requires AdvanceNextRun(cal, settings.cadence, now).Some?
  {
    var cursor := AdvanceNextRun(cal, settings.cadence, now).value;
    PutSchedule(s, s.nextSchedule, Schedule(script, settings, cursor, 0)).(nextSchedule := s.nextSchedule + 1)
  }

  function ApplyUpdate(cal: Calendar, s: State, id: nat, settings: Settings, now: Instant): State
    requires id in s.schedules && AdvanceNextRun(cal, settings.cadence, now).Some?
  {
    var cursor := AdvanceNextRun(cal, settings.cadence, now).value;
    PutSchedule(s, id, s.schedules[id].(settings := settings, cursor := cursor))
  }

  function ApplySetEnabled(s: State, id: nat, on: bool): State
    requires id in s.schedules
  {
    PutSchedule(s, id, s.schedules[id].(settings := s.schedules[id].settings.(enabled := on)))
  }

  function Orphan(run: Run, id: nat): Run {
    if run.schedule == Some(id) then run.(schedule := None) else run
  }

  function ApplyDelete(s: State, id: nat, setNull: bool): State {
    var runs := if setNull then map r | r in s.runs :: Orphan(s.runs[r], id) else s.runs;
    s.(schedules := s.schedules - {id}, runs := runs)
  }

  // ---- steps and histories ----

  ghost predicate Can(cal: Calendar, s: State, step: Step) {
    match step
    case CreateSchedule(_, settings, now) => AdvanceNextRun(cal, settings.cadence, now).Some?
    case UpdateSchedule(id, settings, now) => id in s.schedules && AdvanceNextRun(cal, settings.cadence, now).Some?
    case SetEnabled(id, _, _) => id in s.schedules
    case DeleteSchedule(id, _, _) => id in s.schedules
    case Fire(id, now) => ScheduleDue(s, id, now) && !FireRaises(cal, s, id)
    case PickRetry(r, now) => RetryDue(s, r, now) && !Active(s, s.runs[r].script)
    case Trigger(_, _) => true
    case Cancel(r, _) => r in s.runs
    case Finish(task, _, _) => task in s.tasks && task.run in s.runs && task.work != Drain
    case DrainQueue(r, pick, _) =>
      && Task(r, Drain) in s.tasks && r in s.runs
      && match pick
         case None => Waiting(s, s.runs[r].script) == {}
         case Some(p) => Oldest(s, p, s.runs[r].script)
  }

  ghost function Effect(cal: Calendar, s: State, step: Step): State
    requires Can(cal, s, step)
  {
    match step
    case CreateSchedule(script, settings, now) => ApplyCreate(cal, s, script, settings, now)
    case UpdateSchedule(id, settings, now) => ApplyUpdate(cal, s, id, settings, now)
    case SetEnabled(id, on, _) => ApplySetEnabled(s, id, on)
    case DeleteSchedule(id, setNull, _) => ApplyDelete(s, id, setNull)
    case Fire(id, now) => ApplyFire(cal, s, id, now)
    case PickRetry(r, _) => ApplyStart(s, r)
    case Trigger(script, now) => ApplyTrigger(s, script, now)
    case Cancel(r, _) => ApplyCancel(s, r)
    case Finish(task, result, now) => ApplyFinish(s, task, result, now)
    case DrainQueue(r, pick, _) => ApplyDrain(s, r, pick)
  }

  /** One step: time never runs backwards, and the step is possible. */
  ghost predicate Enabled(cal: Calendar, s: State, step: Step) {
    s.clock <= step.now && Can(cal, s, step)
  }

  ghost function Apply(cal: Calendar, s: State, step: Step): State
    requires Enabled(cal, s, step)
  {
    Effect(cal, s, step).(clock := step.now)
  }

  /** A history is a sequence of steps, the latest last. */
  ghost predicate Possible(cal: Calendar, s: State, steps: seq<Step>)
    decreases |steps|, 0
  {
    |steps| == 0 ||
    var n := |steps| - 1;
    Possible(cal, s, steps[..n]) && Enabled(cal, After(cal, s, steps[..n]), steps[n])
  }

  ghost function After(cal: Calendar, s: State, steps: seq<Step>): State
    requires Possible(cal, s, steps)
    decreases |steps|, 1
  {
    if |steps| == 0 then s
    else
      var n := |steps| - 1;
      Apply(cal, After(cal, s, steps[..n]), steps[n])
  }

  lemma PossibleAdd(cal: Calendar, s: State, steps: seq<Step>, step: Step)
    requires Possible(cal, s, steps) && Enabled(cal, After(cal, s, steps), step)
    ensures Possible(cal, s, steps + [step])
    ensures After(cal, s, steps + [step]) == Apply(cal, After(cal, s, steps), step)
  {
    assert (steps + [step])[..|steps|] == steps;
  }

  lemma {:induction false} HistoriesJoin(cal: Calendar, s: State, a: seq<Step>, middle: State, b: seq<Step>)
    requires Possible(cal, s, a) && middle == After(cal, s, a) && Possible(cal, middle, b)
    ensures Possible(cal, s, a + b) && After(cal, s, a + b) == After(cal, middle, b)
    decreases |b|
  {
    if |b| == 0 {
      assert a + b == a;
    } else {
      var n := |b| - 1;
      HistoriesJoin(cal, s, a, middle, b[..n]);
      JoinStep(cal, s, a, middle, b);
    }
  }

  lemma LastStep(cal: Calendar, s: State, steps: seq<Step>)
    requires Possible(cal, s, steps) && |steps| > 0
    ensures var n := |steps| - 1;
            && Possible(cal, s, steps[..n])
            && Enabled(cal, After(cal, s, steps[..n]), steps[n])
            && After(cal, s, steps) == Apply(cal, After(cal, s, steps[..n]), steps[n])
  {
  }

  lemma JoinStep(cal: Calendar, s: State, a: seq<Step>, middle: State, b: seq<Step>)
    requires |b| > 0 && Possible(cal, middle, b)
    requires Possible(cal, s, a + b[..|b| - 1])
    requires After(cal, s, a + b[..|b| - 1]) == After(cal, middle, b[..|b| - 1])
    ensures Possible(cal, s, a + b) && After(cal, s, a + b) == After(cal, middle, b)
  {
    var n := |b| - 1;
    LastStep(cal, middle, b);
    PossibleAdd(cal, s, a + b[..n], b[n]);
    assert (a + b[..n]) + [b[n]] == a + b;
  }
}
