/** The program itself: the two tables and the set of background tasks, updated in place by
    the functions of services/run_service.py, the tick, both _execute_and_finalize and the
    API.  Each method is shown to take a step of the transition system in `Lifecycle`, so all
    that is proved about reachable states holds of these objects. */
module Server {
  import opened Prelude
  import opened ScheduleService
  import opened Lifecycle
  import opened RunRows
  import Wakeups

  function DueSchedules(s: State, now: Instant): set<nat> {
    set id | id in s.schedules && ScheduleDue(s, id, now)
  }

  function DueRetries(s: State, now: Instant): set<nat> {
    set r | r in s.runs && RetryDue(s, r, now)
  }

  /** Each of `members` once. */
  ghost predicate Enumerates(ids: seq<nat>, members: set<nat>) {
    && (forall id: nat :: id in ids <==> id in members)
    && (forall i, j | 0 <= i < j < |ids| :: ids[i] != ids[j])
  }

  lemma EnumeratesNext(ids: seq<nat>, all: set<nat>, todo: set<nat>, id: nat)
    requires Enumerates(ids, all - todo) && id in todo && todo <= all
    ensures Enumerates(ids + [id], all - (todo - {id}))
  {
    assert id !in ids;
  }

  /** These schedules are due, and their rows are still what the tick read. */
  ghost predicate AllDue(read: State, s: State, ids: set<nat>, now: Instant) {
    forall id | id in ids :: ScheduleDue(s, id, now) && id in read.schedules && s.schedules[id] == read.schedules[id]
  }

  /** Firing one schedule leaves the others as they were. */
  lemma OthersStayDue(cal: Calendar, read: State, s: State, id: nat, ids: set<nat>, now: Instant)
    requires id in ids && AllDue(read, s, ids, now) && Enabled(cal, s, Fire(id, now))
    ensures AllDue(read, Apply(cal, s, Fire(id, now)), ids - {id}, now)
  {
    forall other | other in ids - {id}
      ensures ScheduleDue(Apply(cal, s, Fire(id, now)), other, now)
      ensures Apply(cal, s, Fire(id, now)).schedules[other] == read.schedules[other]
    {
      assert ScheduleDue(s, other, now);
    }
  }

  function FireSteps(ids: seq<nat>, now: Instant): seq<Step> {
    seq(|ids|, i requires 0 <= i < |ids| => Fire(ids[i], now))
  }

  lemma FireStepsAdd(ids: seq<nat>, id: nat, now: Instant)
    ensures FireSteps(ids + [id], now) == FireSteps(ids, now) + [Fire(id, now)]
  {
  }

  /** Part of the way through the first phase of a tick that read `read`: `fired` are the due
      schedules outside `todo`, and none of them raised. */
  ghost predicate FirePhase(cal: Calendar, read: State, s: State, now: Instant, fired: seq<nat>, todo: set<nat>) {
    var due := DueSchedules(read, now);
    && todo <= due && s.clock <= now && AllDue(read, s, todo, now)
    && Enumerates(fired, due - todo)
    && (forall id | id in due - todo :: !FireRaises(cal, read, id))
    && Possible(cal, read, FireSteps(fired, now)) && s == After(cal, read, FireSteps(fired, now))
  }

  lemma RowAsRead(cal: Calendar, read: State, s: State, now: Instant, fired: seq<nat>, todo: set<nat>, id: nat)
    requires FirePhase(cal, read, s, now, fired, todo) && id in todo
    ensures ScheduleDue(s, id, now) && ScheduleDue(read, id, now)
    ensures FireRaises(cal, s, id) == FireRaises(cal, read, id)
    ensures FireRaises(cal, read, id) ==> Wakeups.TickRaises(cal, read, now)
  {
  }

  lemma FirePhaseNext(cal: Calendar, read: State, s: State, now: Instant, fired: seq<nat>, todo: set<nat>, id: nat)
    requires FirePhase(cal, read, s, now, fired, todo) && id in todo && Enabled(cal, s, Fire(id, now))
    ensures FirePhase(cal, read, Apply(cal, s, Fire(id, now)), now, fired + [id], todo - {id})
  {
    RowAsRead(cal, read, s, now, fired, todo, id);
    FireStepsAdd(fired, id, now);
    OthersStayDue(cal, read, s, id, todo, now);
    PossibleAdd(cal, read, FireSteps(fired, now), Fire(id, now));
    EnumeratesNext(fired, DueSchedules(read, now), todo, id);
  }

  lemma FirePhaseOver(cal: Calendar, read: State, s: State, now: Instant, fired: seq<nat>)
    requires FirePhase(cal, read, s, now, fired, {})
    ensures !Wakeups.TickRaises(cal, read, now)
  {
    forall id | id in read.schedules && ScheduleDue(read, id, now) ensures !FireRaises(cal, read, id) {
      assert id in DueSchedules(read, now) - {};
    }
  }

  predicate ActiveFor(s: State, r: nat) {
    r in s.runs && Active(s, s.runs[r].script)
  }

  /** The retries still to look at are due; the scripts of the others are active. */
  ghost predicate RetryPhase(s: State, now: Instant, todo: set<nat>, settled: set<nat>) {
    && (forall r | r in todo :: RetryDue(s, r, now))
    && (forall r | r in settled :: ActiveFor(s, r))
  }

  /** Starting one due retry leaves the others due, makes its own script active, and no script
      inactive. */
  lemma RetryStarted(s: State, r: nat, now: Instant, todo: set<nat>, settled: set<nat>)
    requires r in todo && RetryDue(s, r, now) && RetryPhase(s, now, todo, settled)
    ensures RetryPhase(ApplyStart(s, r).(clock := now), now, todo - {r}, settled + {r})
  {
    var t := ApplyStart(s, r).(clock := now);
    assert RunsOn(t, r, t.runs[r].script);
    forall q | q in settled ensures ActiveFor(t, q) {
      assert ActiveFor(s, q);
      var a :| a in s.runs && RunsOn(s, a, s.runs[q].script);
      assert RunsOn(t, a, t.runs[q].script);
    }
    forall q | q in todo - {r} ensures RetryDue(t, q, now) {
      assert RetryDue(s, q, now);
    }
  }

  lemma RetryPhaseNext(s: State, r: nat, now: Instant, todo: set<nat>, due: set<nat>)
    requires r in todo && todo <= due && RetryDue(s, r, now) && RetryPhase(s, now, todo, due - todo)
    ensures RetryPhase(if Active(s, s.runs[r].script) then s else ApplyStart(s, r).(clock := now),
                       now, todo - {r}, due - (todo - {r}))
  {
    assert due - (todo - {r}) == (due - todo) + {r};
    if !Active(s, s.runs[r].script) {
      RetryStarted(s, r, now, todo, due - todo);
    }
  }

  class App {
    const cal: Calendar
    var runs: map<nat, Run>
    var schedules: map<nat, Schedule>
    var tasks: multiset<Task>
    var nextRun: nat
    var nextSchedule: nat
    var clock: Instant

    constructor (cal: Calendar)
      ensures this.cal == cal && View() == EMPTY
    {
      this.cal := cal;
      runs, schedules, tasks := map[], map[], multiset{};
      nextRun, nextSchedule, clock := 1, 1, 0;
    }

    function View(): State
      reads this
    {
      State(runs, schedules, tasks, nextRun, nextSchedule, clock)
    }

    // ---- services/run_service.py ----

    method CreateRun(run: Run) returns (r: nat)
      modifies this`runs, this`nextRun
      ensures r == old(nextRun) && View() == AddRun(old(View()), run)
      ensures Inv(old(View())) ==> r !in old(runs)
    {
      if Inv(View()) {
        NoRowBeyond(View());
      }
      r := nextRun;
      runs := runs[r := run];
      nextRun := nextRun + 1;
    }

    method HasActiveRun(script: nat) returns (active: bool)
      ensures active == Active(View(), script)
    {
      active := false;
      var todo := runs.Keys;
      while todo != {} && !active
        invariant todo <= runs.Keys
        invariant active ==> Active(View(), script)
        invariant !active ==> forall r | r in runs.Keys - todo :: !RunsOn(View(), r, script)
        decreases |todo|, !active
      {
        var r :| r in todo;
        todo := todo - {r};
        active := runs[r].script == script && runs[r].status == Running;
      }
    }

    method CountPending(script: nat) returns (n: nat)
      ensures n == |Waiting(View(), script)|
    {
      n := 0;
      ghost var counted: set<nat> := {};
      var todo := runs.Keys;
      while todo != {}
        invariant todo <= runs.Keys && n == |counted|
        invariant forall r: nat :: r in counted <==> r !in todo && WaitsOn(View(), r, script)
        decreases |todo|
      {
        var r :| r in todo;
        if runs[r].script == script && runs[r].status == Pending {
          n, counted := n + 1, counted + {r};
        }
        todo := todo - {r};
      }
      assert forall r: nat :: r in counted <==> r in Waiting(View(), script);
      assert counted == Waiting(View(), script);
    }

    method PromoteOldestPending(script: nat) returns (promoted: Option<nat>)
      modifies this`runs
      ensures promoted.None? ==> View() == old(View()) && Waiting(View(), script) == {}
      ensures promoted.Some? ==>
                var s, p := old(View()), promoted.value;
                Oldest(s, p, script) && View() == PutRun(s, p, s.runs[p].(status := Running))
    {
      if Waiting(View(), script) == {} {
        return None;
      }
      Wakeups.OldestPending(View(), script);
      var p :| p in runs && Oldest(View(), p, script);
      runs := runs[p := runs[p].(status := Running)];
      return Some(p);
    }

    method FinalizeRun(r: nat, code: int, status: Status, now: Instant)
      requires r in runs
      modifies this`runs
      ensures View() == PutRun(old(View()), r, EndRun(old(runs)[r], status, code, now))
    {
      runs := runs[r := runs[r].(endedAt := Some(now), exitCode := Some(code), status := status)];
    }

    /** None: OverflowError, and nothing is written. */
    method MarkPendingRetry(r: nat, now: Instant) returns (scheduled: Option<bool>)
      requires r in runs
      modifies this`runs
      ensures var s, run := old(View()), old(runs)[r];
              && (scheduled.None? <==> run.attempt < RetryMax(s, run) && !Representable(RetryAt(s, run, now)))
              && (scheduled.Some? ==> (scheduled.value <==> run.attempt < RetryMax(s, run)))
              && View() == if scheduled.Some? && scheduled.value then PutRun(s, r, RetryRun(s, run, now)) else s
    {
      var run := runs[r];
      var max, backoff := RetryMax(View(), run), RetryBackoff(View(), run);
      if run.attempt >= max {
        return Some(false);
      }
      var nextAt := now + backoff * Pow2(run.attempt) * SECOND;
      if !Representable(nextAt) {
        return None;
      }
      runs := runs[r := run.(status := PendingRetry, attempt := run.attempt + 1, nextAttemptAt := Some(nextAt))];
      return Some(true);
    }

    // ---- scheduler/tick.py ----

    /** The overlap policy of a due schedule, its cursor already advanced (tick.py:134-202). */
    method ApplyPolicy(id: nat, now: Instant) returns (outcome: Outcome)
      requires id in schedules
      modifies this
      ensures outcome == OutcomeOf(old(View()), old(schedules)[id])
      ensures View() == Placed(old(View()), id, outcome, now)
    {
      var row := schedules[id];
      var overlap := HasActiveRun(row.script);
      if overlap && row.settings.policy == Skip {
        var r := CreateRun(SkippedRun(row.script, id, Overlap, now));
        return SkippedOverlap;
      }
      if overlap && row.settings.policy == Queue {
        var pending := CountPending(row.script);
        if pending >= row.settings.queueMax {
          var r := CreateRun(SkippedRun(row.script, id, QueueFull, now));
          schedules := schedules[id := row.(queueDropped := row.queueDropped + 1)];
          return SkippedFull;
        }
        var r := CreateRun(NewRun(row.script, Some(id), Pending, now));
        return Queued;
      }
      var r := CreateRun(NewRun(row.script, Some(id), Running, now));
      tasks := tasks + multiset{Task(r, ScheduledRun)};
      return Dispatched;
    }

    /** One due schedule: advance the cursor first, then apply the overlap policy.  If advancing
        it raises, nothing is written. */
    method FireSchedule(id: nat, now: Instant) returns (fired: bool)
      requires ScheduleDue(View(), id, now) && clock <= now
      modifies this
      ensures fired <==> !FireRaises(cal, old(View()), id)
      ensures fired ==> Enabled(cal, old(View()), Fire(id, now)) && View() == Apply(cal, old(View()), Fire(id, now))
      ensures !fired ==> View() == old(View())
    {
      var row := schedules[id];
      var cursor := ComputeCursor(cal, row.settings.cadence, row.cursor);
      if cursor.None? {
        return false;
      }
      fired := true;
      schedules := schedules[id := row.(cursor := cursor.value)];
      QueriesReadRuns(old(View()), View(), row.script);
      var outcome := ApplyPolicy(id, now);
      clock := now;
    }

    /** One due retry: left for a later tick while another run of the script is active. */
    method StartRetry(r: nat, now: Instant) returns (started: bool)
      requires RetryDue(View(), r, now) && clock <= now
      modifies this
      ensures started <==> !Active(old(View()), old(runs)[r].script)
      ensures started ==> Enabled(cal, old(View()), PickRetry(r, now))
      ensures started ==> View() == Apply(cal, old(View()), PickRetry(r, now))
      ensures !started ==> View() == old(View())
    {
      var active := HasActiveRun(runs[r].script);
      if active {
        return false;
      }
      runs := runs[r := runs[r].(status := Running)];
      tasks := tasks + multiset{Task(r, ScheduledRun)};
      clock := now;
      return true;
    }

    /** Phase 1: fire every schedule that was due when the tick looked, once each; but the first
        one that raises ends the tick. */
    method FireDueSchedules(now: Instant)
      returns (ghost fired: seq<nat>, ghost reached: set<nat>, finished: bool)
      requires clock <= now
      modifies this
      ensures finished <==> !Wakeups.TickRaises(cal, old(View()), now)
      ensures Enumerates(fired, reached) && reached <= DueSchedules(old(View()), now)
      ensures finished ==> reached == DueSchedules(old(View()), now)
      ensures Possible(cal, old(View()), FireSteps(fired, now)) && clock <= now
      ensures View() == After(cal, old(View()), FireSteps(fired, now))
    {
      ghost var read := View();
      var todo := DueSchedules(View(), now);
      fired, finished := [], true;
      while todo != {} && finished
        invariant FirePhase(cal, read, View(), now, fired, todo)
        invariant !finished ==> Wakeups.TickRaises(cal, read, now)
        decreases |todo|, finished
      {
        var id :| id in todo;
        ghost var before := View();
        RowAsRead(cal, read, before, now, fired, todo, id);
        finished := FireSchedule(id, now);
        if finished {
          FirePhaseNext(cal, read, before, now, fired, todo, id);
          fired, todo := fired + [id], todo - {id};
        }
      }
      reached := DueSchedules(read, now) - todo;
      if finished {
        FirePhaseOver(cal, read, View(), now, fired);
      }
    }

    /** Phase 2: start every retry whose time has come, one per script and none beside an
        active run; the rest stay for a later tick. */
    method StartDueRetries(now: Instant) returns (ghost steps: seq<Step>)
      requires clock <= now
      modifies this
      ensures forall step | step in steps :: step.PickRetry?
      ensures Possible(cal, old(View()), steps) && View() == After(cal, old(View()), steps)
      ensures forall r | r in DueRetries(old(View()), now) :: ActiveFor(View(), r)
    {
      var todo := DueRetries(View(), now);
      steps := [];
      ghost var due := todo;
      while todo != {}
        invariant todo <= due && clock <= now && forall step | step in steps :: step.PickRetry?
        invariant Possible(cal, old(View()), steps) && View() == After(cal, old(View()), steps)
        invariant RetryPhase(View(), now, todo, due - todo)
        decreases todo
      {
        var r :| r in todo;
        ghost var before := View();
        assert RetryDue(before, r, now);
        var started := StartRetry(r, now);
        RetryPhaseNext(before, r, now, todo, due);
        if started {
          PossibleAdd(cal, old(View()), steps, PickRetry(r, now));
          steps := steps + [PickRetry(r, now)];
        }
        todo := todo - {r};
      }
      assert due - todo == due;
    }

    /** One tick (retention apart): a history of fires and then retries.  If a due schedule
        raises, the tick ends there, and no retry is started. */
    method Tick(now: Instant)
      returns (ghost fired: seq<nat>, ghost reached: set<nat>, ghost retries: seq<Step>, finished: bool)
      requires clock <= now
      modifies this
      ensures finished <==> !Wakeups.TickRaises(cal, old(View()), now)
      ensures Enumerates(fired, reached) && reached <= DueSchedules(old(View()), now)
      ensures finished ==> reached == DueSchedules(old(View()), now)
      ensures !finished ==> retries == []
      ensures forall step | step in retries :: step.PickRetry?
      ensures Possible(cal, old(View()), FireSteps(fired, now) + retries)
      ensures View() == After(cal, old(View()), FireSteps(fired, now) + retries)
    {
      fired, reached, finished := FireDueSchedules(now);
      retries := [];
      ghost var middle := View();
      if finished {
        retries := StartDueRetries(now);
      }
      HistoriesJoin(cal, old(View()), FireSteps(fired, now), middle, retries);
    }

    // ---- the end of a background task ----

    /** tick.py's _execute_and_finalize, once run_script is over and up to the commit that
        settles the run.  If mark_pending_retry raises, the task is gone and the row stays as it
        was. */
    method ExecuteAndFinalize(r: nat, result: ProcessResult, now: Instant)
      requires Task(r, ScheduledRun) in tasks && r in runs && clock <= now
      modifies this
      ensures Enabled(cal, old(View()), Finish(Task(r, ScheduledRun), result, now))
      ensures View() == Apply(cal, old(View()), Finish(Task(r, ScheduledRun), result, now))
    {
      var status, code := StatusAndCode(result);
      if status == Failure {
        var over := RetryFailedRun(r, now);
        assert over <==> Retries(old(View()), Task(r, ScheduledRun), result);
        if over {
          clock := now;
          return;
        }
      }
      EndScheduledRun(r, status, code, now);
      clock := now;
    }

    /** mark_pending_retry and its commit, or its exception: either way the task is over. */
    method RetryFailedRun(r: nat, now: Instant) returns (over: bool)
      requires Task(r, ScheduledRun) in tasks && r in runs
      modifies this`runs, this`tasks
      ensures over <==> old(runs)[r].attempt < RetryMax(old(View()), old(runs)[r])
      ensures View() ==
              if !over then old(View())
              else if Representable(RetryAt(old(View()), old(runs)[r], now))
              then ApplyRetry(old(View()), Task(r, ScheduledRun), now)
              else Retire(old(View()), Task(r, ScheduledRun))
    {
      var retry := MarkPendingRetry(r, now);
      over := retry.None? || retry.value;
      if over {
        tasks := tasks - multiset{Task(r, ScheduledRun)};
      }
    }

    /** finalize_run and its commit; the task goes on to drain. */
    method EndScheduledRun(r: nat, status: Status, code: int, now: Instant)
      requires r in runs
      modifies this`runs, this`tasks
      ensures View() == Spawn(Retire(PutRun(old(View()), r, EndRun(old(runs)[r], status, code, now)),
                                     Task(r, ScheduledRun)), Task(r, Drain))
    {
      FinalizeRun(r, code, status, now);
      tasks := tasks - multiset{Task(r, ScheduledRun)};
      tasks := tasks + multiset{Task(r, Drain)};
    }

    static method StatusAndCode(result: ProcessResult) returns (status: Status, code: int)
      ensures status == StatusOf(result) && code == CodeOf(result)
      ensures status == Success <==> result.Exit? && code == 0
    {
      match result
      case Exit(c) => status, code := if c == 0 then Success else Failure, c;
      case Raised => status, code := Error, -1;
    }

    /** api/runs.py's _execute_and_finalize: no retry, and nothing is drained. */
    method ExecuteAndFinalizeManual(r: nat, result: ProcessResult, now: Instant)
      requires Task(r, ManualRun) in tasks && r in runs && clock <= now
      modifies this
      ensures Enabled(cal, old(View()), Finish(Task(r, ManualRun), result, now))
      ensures View() == Apply(cal, old(View()), Finish(Task(r, ManualRun), result, now))
    {
      var status, code := StatusAndCode(result);
      FinalizeRun(r, code, status, now);
      tasks := tasks - multiset{Task(r, ManualRun)};
      clock := now;
    }

    /** The second half of the scheduler's _execute_and_finalize. */
    method DrainAfter(r: nat, now: Instant) returns (promoted: Option<nat>)
      requires Task(r, Drain) in tasks && r in runs && clock <= now
      modifies this
      ensures Enabled(cal, old(View()), DrainQueue(r, promoted, now))
      ensures View() == Apply(cal, old(View()), DrainQueue(r, promoted, now))
    {
      promoted := PromoteOldestPending(runs[r].script);
      tasks := tasks - multiset{Task(r, Drain)};
      if promoted.Some? {
        tasks := tasks + multiset{Task(promoted.value, ScheduledRun)};
      }
      clock := now;
    }

    // ---- api/runs.py, api/schedules.py ----

    /** POST /runs: 409 while another run is in progress. */
    method TriggerRun(script: nat, now: Instant) returns (r: Option<nat>)
      requires clock <= now
      modifies this
      ensures r.None? <==> Active(old(View()), script)
      ensures View() == Apply(cal, old(View()), Trigger(script, now))
    {
      clock := now;
      var active := HasActiveRun(script);
      if active {
        return None;
      }
      var id := CreateRun(NewRun(script, None, Running, now));
      tasks := tasks + multiset{Task(id, ManualRun)};
      return Some(id);
    }

    method CancelRun(r: nat, now: Instant) returns (found: bool)
      requires clock <= now
      modifies this
      ensures found <==> r in old(runs)
      ensures View() == if found then Apply(cal, old(View()), Cancel(r, now)) else old(View())
    {
      if r !in runs {
        return false;
      }
      clock := now;
      if runs[r].status == Running {
        runs := runs[r := runs[r].(status := Cancelled)];
      }
      return true;
    }

    method CreateNewSchedule(script: nat, settings: Settings, now: Instant) returns (id: Option<nat>)
      requires clock <= now
      modifies this
      ensures id.Some? <==> AdvanceNextRun(cal, settings.cadence, now).Some?
      ensures id.Some? ==> id.value == old(nextSchedule)
      ensures View() == if id.Some? then Apply(cal, old(View()), CreateSchedule(script, settings, now)) else old(View())
    {
      var cursor := AdvanceNextRun(cal, settings.cadence, now);
      if cursor.None? {
        return None;
      }
      id := Some(nextSchedule);
      schedules := schedules[nextSchedule := Schedule(script, settings, cursor.value, 0)];
      nextSchedule := nextSchedule + 1;
      clock := now;
    }

    method EditSchedule(id: nat, settings: Settings, now: Instant) returns (ok: bool)
      requires clock <= now
      modifies this
      ensures ok <==> id in old(schedules) && AdvanceNextRun(cal, settings.cadence, now).Some?
      ensures View() == if ok then Apply(cal, old(View()), UpdateSchedule(id, settings, now)) else old(View())
    {
      var cursor := AdvanceNextRun(cal, settings.cadence, now);
      if cursor.None? || id !in schedules {
        return false;
      }
      schedules := schedules[id := schedules[id].(settings := settings, cursor := cursor.value)];
      clock := now;
      return true;
    }

    method EnableSchedule(id: nat, on: bool, now: Instant) returns (found: bool)
      requires clock <= now
      modifies this`schedules, this`clock
      ensures found <==> id in old(schedules)
      ensures View() == if found then Apply(cal, old(View()), SetEnabled(id, on, now)) else old(View())
    {
      if id !in schedules {
        return false;
      }
      schedules := schedules[id := schedules[id].(settings := schedules[id].settings.(enabled := on))];
      clock := now;
      return true;
    }

    /** `setNull`: the connection enforces foreign keys, so the schedule's runs are detached. */
    method RemoveSchedule(id: nat, setNull: bool, now: Instant) returns (found: bool)
      requires clock <= now
      modifies this`schedules, this`runs, this`clock
      ensures found <==> id in old(schedules)
      ensures View() == if found then Apply(cal, old(View()), DeleteSchedule(id, setNull, now)) else old(View())
    {
      if id !in schedules {
        return false;
      }
      schedules := schedules - {id};
      if setNull {
        runs := map r | r in runs :: Orphan(runs[r], id);
      }
      clock := now;
      return true;
    }
  }
}
