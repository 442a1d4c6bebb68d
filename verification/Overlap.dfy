/** How many runs of one script are running at once. */
module Overlap {
  import opened Prelude
  import opened ScheduleService
  import opened Lifecycle
  import opened RunRows

  ghost predicate AtMostOne(s: State, script: nat) {
    forall a: nat, b: nat :: RunsOn(s, a, script) && RunsOn(s, b, script) ==> a == b
  }

  /** A step that starts a run of `script` without looking whether one is running already: the
      parallel policy, and the drain, which trusts that the run it follows was the only one. */
  ghost predicate StartsSecond(s: State, step: Step, script: nat) {
    Active(s, script) &&
    match step
    case Fire(id, _) =>
      id in s.schedules && s.schedules[id].script == script && s.schedules[id].settings.policy == Parallel
    case DrainQueue(_, Some(p), _) => p in s.runs && s.runs[p].script == script
    case _ => false
  }

  /** The rows a step may turn to running. */
  ghost predicate Starts(s: State, step: Step, q: nat, script: nat) {
    match step
    case Fire(id, _) =>
      && q == s.nextRun && id in s.schedules && s.schedules[id].script == script
      && OutcomeOf(s, s.schedules[id]) == Dispatched
    case Trigger(sc, _) => q == s.nextRun && sc == script && !Active(s, script)
    case PickRetry(r, _) => q == r && r in s.runs && s.runs[r].script == script && !Active(s, script)
    case DrainQueue(_, pick, _) => pick == Some(q) && q in s.runs && s.runs[q].script == script
    case _ => false
  }

  lemma NewRunner(cal: Calendar, s: State, step: Step, q: nat, script: nat)
    requires Inv(s) && Enabled(cal, s, step) && RunsOn(Apply(cal, s, step), q, script)
    ensures RunsOn(s, q, script) || Starts(s, step, q, script)
  {
    if q in s.runs {
      RowAfterStep(cal, s, step, q);
    } else {
      NewRowRuns(cal, s, step, q, script);
    }
  }

  lemma NewRowRuns(cal: Calendar, s: State, step: Step, q: nat, script: nat)
    requires Inv(s) && Enabled(cal, s, step) && q !in s.runs && RunsOn(Apply(cal, s, step), q, script)
    ensures Starts(s, step, q, script)
  {
    NewRow(cal, s, step, q);
  }

  /** Fires and drains leave what is running running. */
  lemma StillRuns(cal: Calendar, s: State, step: Step, q: nat, script: nat)
    requires Inv(s) && Enabled(cal, s, step) && (step.Fire? || step.DrainQueue?) && RunsOn(s, q, script)
    ensures RunsOn(Apply(cal, s, step), q, script)
  {
    RowAfterStep(cal, s, step, q);
  }

  lemma SecondStarted(cal: Calendar, s: State, step: Step, script: nat)
    requires Inv(s) && Enabled(cal, s, step) && StartsSecond(s, step, script)
    ensures !AtMostOne(Apply(cal, s, step), script)
  {
    var a: nat :| a in s.runs && RunsOn(s, a, script);
    StillRuns(cal, s, step, a, script);
    NoRowBeyond(s);
    var b := if step.Fire? then s.nextRun else step.pick.value;
    assert RunsOn(Apply(cal, s, step), b, script);
  }

  /** Over every step, from a state with at most one run of the script running: a second one
      starts exactly by a parallel fire, or by a drain, while one is running. */
  lemma {:induction false} SecondRunExactlyWhen(cal: Calendar, s: State, step: Step, script: nat)
    requires Inv(s) && Enabled(cal, s, step) && AtMostOne(s, script)
    ensures AtMostOne(Apply(cal, s, step), script) <==> !StartsSecond(s, step, script)
  {
    var t := Apply(cal, s, step);
    if StartsSecond(s, step, script) {
      SecondStarted(cal, s, step, script);
    } else {
      forall a: nat, b: nat | RunsOn(t, a, script) && RunsOn(t, b, script) ensures a == b {
        NewRunner(cal, s, step, a, script);
        NewRunner(cal, s, step, b, script);
      }
    }
  }

  // ---- histories in which ending a run and draining are not torn apart ----

  predicate DrainsOn(s: State, r: nat, script: nat) {
    r in s.runs && s.runs[r].script == script && Task(r, Drain) in s.tasks
  }

  /** The script's schedules are not parallel, its runs are not cancelled, and once one of its
      runs has ended, no other run of the script starts before its drain. */
  ghost predicate Orderly(s: State, step: Step, script: nat) {
    && (forall r: nat :: DrainsOn(s, r, script) ==>
          (step.DrainQueue? && step.run == r) || !(exists q: nat :: Starts(s, step, q, script)))
    && (step.Cancel? && step.run in s.runs ==> s.runs[step.run].script != script)
    && (step.Fire? && step.id in s.schedules && s.schedules[step.id].script == script ==>
          s.schedules[step.id].settings.policy != Parallel)
  }

  ghost predicate OrderlyHistory(cal: Calendar, steps: seq<Step>, script: nat)
    requires Possible(cal, EMPTY, steps)
  {
    |steps| == 0 ||
    var n := |steps| - 1;
    OrderlyHistory(cal, steps[..n], script) && Orderly(After(cal, EMPTY, steps[..n]), steps[n], script)
  }

  predicate CancelledOn(s: State, r: nat, script: nat) {
    r in s.runs && s.runs[r].script == script && s.runs[r].status == Cancelled
  }

  /** At most one run of the script is running, or else one has just ended and none is. */
  ghost predicate OneAtATime(s: State, script: nat) {
    && AtMostOne(s, script)
    && (forall r: nat :: DrainsOn(s, r, script) ==> !Active(s, script))
    && (forall r: nat :: !CancelledOn(s, r, script))
  }

  lemma FinishDrains(s: State, task: Task, result: ProcessResult, now: Instant, r: nat)
    requires task in s.tasks && task.run in s.runs && Task(r, Drain) in ApplyFinish(s, task, result, now).tasks
    ensures Task(r, Drain) in s.tasks || (task == Task(r, ScheduledRun) && !Strands(s, task, result, now))
  {
  }

  /** A drain appears only when a scheduled run ends. */
  lemma DrainAppears(cal: Calendar, s: State, step: Step, r: nat)
    requires Enabled(cal, s, step) && Task(r, Drain) in Apply(cal, s, step).tasks
    ensures Task(r, Drain) in s.tasks ||
            (step.Finish? && step.task == Task(r, ScheduledRun) && !StrandsRow(s, step, r))
    ensures step.DrainQueue? && step.run == r ==> s.tasks[Task(r, Drain)] > 1
  {
    if step.Finish? {
      FinishDrains(s, step.task, step.result, step.now, r);
    }
  }

  lemma NewDrain(cal: Calendar, s: State, step: Step, r: nat, script: nat)
    requires Inv(s) && Enabled(cal, s, step) && DrainsOn(Apply(cal, s, step), r, script)
    ensures DrainsOn(s, r, script) ||
            (step.Finish? && step.task == Task(r, ScheduledRun) && s.runs[r].script == script &&
             !StrandsRow(s, step, r))
    ensures step.DrainQueue? ==> r != step.run
  {
    assert RowFine(s, r);
    DrainAppears(cal, s, step, r);
    assert r in s.runs;
    RowAfterStep(cal, s, step, r);
  }

  lemma NewRowNotCancelled(cal: Calendar, s: State, step: Step, r: nat)
    requires Inv(s) && Enabled(cal, s, step) && r !in s.runs && r in Apply(cal, s, step).runs
    ensures Apply(cal, s, step).runs[r].status != Cancelled
  {
    NewRow(cal, s, step, r);
  }

  lemma NewCancelled(cal: Calendar, s: State, step: Step, r: nat, script: nat)
    requires Inv(s) && Enabled(cal, s, step) && CancelledOn(Apply(cal, s, step), r, script)
    ensures CancelledOn(s, r, script) || (step.Cancel? && step.run == r && s.runs[r].script == script)
  {
    if r in s.runs {
      RowAfterStep(cal, s, step, r);
    } else {
      NewRowNotCancelled(cal, s, step, r);
    }
  }

  /** When the only running row of a script ends and is not stranded, none is left. */
  lemma NoneAfterFinish(cal: Calendar, s: State, step: Step, script: nat)
    requires Inv(s) && Enabled(cal, s, step) && OneAtATime(s, script)
    requires step.Finish? && s.runs[step.task.run].script == script && !StrandsRow(s, step, step.task.run)
    ensures !Active(Apply(cal, s, step), script)
  {
    var r := step.task.run;
    assert RowFine(s, r);
    assert !CancelledOn(s, r, script);
    assert RunsOn(s, r, script);
    RowAfterStep(cal, s, step, r);
    forall q: nat ensures !RunsOn(Apply(cal, s, step), q, script) {
      if RunsOn(Apply(cal, s, step), q, script) {
        NewRunner(cal, s, step, q, script);
      }
    }
  }

  lemma NoneStarts(cal: Calendar, s: State, step: Step, script: nat)
    requires Inv(s) && Enabled(cal, s, step) && !Active(s, script)
    requires !(exists q: nat :: Starts(s, step, q, script))
    ensures !Active(Apply(cal, s, step), script)
  {
    forall q: nat ensures !RunsOn(Apply(cal, s, step), q, script) {
      if RunsOn(Apply(cal, s, step), q, script) {
        NewRunner(cal, s, step, q, script);
      }
    }
  }

  lemma OrderlyStep(cal: Calendar, s: State, step: Step, script: nat)
    requires Inv(s) && Enabled(cal, s, step) && OneAtATime(s, script) && Orderly(s, step, script)
    ensures OneAtATime(Apply(cal, s, step), script)
  {
    var t := Apply(cal, s, step);
    assert !StartsSecond(s, step, script) by {
      if step.DrainQueue? && s.runs[step.run].script == script {
        assert DrainsOn(s, step.run, script);
      }
    }
    SecondRunExactlyWhen(cal, s, step, script);
    forall r: nat | DrainsOn(t, r, script) ensures !Active(t, script) {
      NewDrain(cal, s, step, r, script);
      if DrainsOn(s, r, script) {
        NoneStarts(cal, s, step, script);
      } else {
        NoneAfterFinish(cal, s, step, script);
      }
    }
    forall r: nat ensures !CancelledOn(t, r, script) {
      if CancelledOn(t, r, script) {
        NewCancelled(cal, s, step, r, script);
      }
    }
  }

  /** With no run of the script started between an end and its drain, no parallel schedule on it
      and none of its runs cancelled, at most one of them is running in every reachable state,
      whatever ticks, retries, drains and manual triggers do, and whatever other scripts do in
      between. */
  lemma {:induction false} OrderlyRunsOneAtATime(cal: Calendar, steps: seq<Step>, script: nat)
    requires Possible(cal, EMPTY, steps) && OrderlyHistory(cal, steps, script)
    ensures AtMostOne(After(cal, EMPTY, steps), script)
    ensures OneAtATime(After(cal, EMPTY, steps), script)
    decreases |steps|
  {
    if |steps| > 0 {
      var n := |steps| - 1;
      OrderlyRunsOneAtATime(cal, steps[..n], script);
      EveryReachableState(cal, steps[..n]);
      OrderlyStep(cal, After(cal, EMPTY, steps[..n]), steps[n], script);
    }
  }
}
