/** What GET /schedules/{id}/next-runs says against what the scheduler does: the cursors that
    histories of fires will store. */
module Prediction {
  import opened Prelude
  import opened FireSearch
  import opened ScheduleService
  import opened NextRuns
  import opened Lifecycle
  import opened RunRows
  import opened FireLedger
  import opened Firing

  predicate Touches(step: Step, id: nat) {
    (step.UpdateSchedule? && step.id == id) || Deletes(step, id)
  }

  /** Nobody edits or deletes schedule `id`. */
  predicate LeftAlone(steps: seq<Step>, id: nat) {
    |steps| == 0 ||
    var n := |steps| - 1;
    LeftAlone(steps[..n], id) && !Touches(steps[n], id)
  }

  predicate HasCron(s: State, id: nat, spec: CronSpec) {
    id in s.schedules && s.schedules[id].settings.cadence == Cron(spec)
  }

  lemma ScheduleKept(cal: Calendar, s: State, step: Step, id: nat)
    requires Enabled(cal, s, step) && id in s.schedules && !Deletes(step, id)
    ensures id in Apply(cal, s, step).schedules
  {
    if step.PickRetry? || step.Trigger? || step.Cancel? || step.Finish? || step.DrainQueue? {
      RunStepsKeepSchedules(cal, s, step);
    }
  }

  lemma CursorStep(cal: Calendar, s: State, step: Step, id: nat, spec: CronSpec)
    requires Enabled(cal, s, step) && SchedulesBelow(s) && HasCron(s, id, spec)
    requires !Touches(step, id)
    ensures var t := Apply(cal, s, step);
            && SchedulesBelow(t) && HasCron(t, id, spec)
            && t.schedules[id].cursor ==
               if FiresSchedule(step, id) then Advanced(Occurrences(cal, spec), s.schedules[id].cursor)
               else s.schedules[id].cursor
  {
    ScheduleKept(cal, s, step, id);
    ScheduleAfterStep(cal, s, step, id);
  }

  /** The schedule still has this cron, and its cursor is `k` moves on from `first`. */
  ghost predicate MovedOn(cal: Calendar, s: State, id: nat, spec: CronSpec, first: Instant, k: nat) {
    && SchedulesBelow(s) && HasCron(s, id, spec)
    && s.schedules[id].cursor == Stored(Occurrences(cal, spec), first, k)
  }

  lemma MovedOnStep(cal: Calendar, s: State, step: Step, id: nat, spec: CronSpec, first: Instant, k: nat)
    requires Enabled(cal, s, step) && !Touches(step, id) && MovedOn(cal, s, id, spec, first, k)
    ensures MovedOn(cal, Apply(cal, s, step), id, spec, first, k + if FiresSchedule(step, id) then 1 else 0)
  {
    CursorStep(cal, s, step, id, spec);
  }

  lemma FollowsStep(cal: Calendar, s: State, steps: seq<Step>, id: nat, spec: CronSpec, first: Instant,
                    before: nat, after: nat)
    requires |steps| > 0 && Possible(cal, s, steps) && !Touches(steps[|steps| - 1], id)
    requires var front := steps[..|steps| - 1];
             Possible(cal, s, front) && MovedOn(cal, After(cal, s, front), id, spec, first, before)
    requires after == before + if FiresSchedule(steps[|steps| - 1], id) then 1 else 0
    ensures MovedOn(cal, After(cal, s, steps), id, spec, first, after)
  {
    var n := |steps| - 1;
    LastStep(cal, s, steps);
    MovedOnStep(cal, After(cal, s, steps[..n]), steps[n], id, spec, first, before);
  }

  /** Whatever happens in between, the stored cursor depends only on where it was and on how often
      the schedule has fired since. */
  lemma {:induction false} CursorFollowsFires(cal: Calendar, s: State, steps: seq<Step>, id: nat, spec: CronSpec)
    requires Possible(cal, s, steps) && LeftAlone(steps, id) && SchedulesBelow(s) && HasCron(s, id, spec)
    ensures MovedOn(cal, After(cal, s, steps), id, spec, s.schedules[id].cursor, Fires(steps, id))
    decreases |steps|
  {
    if |steps| > 0 {
      var n := |steps| - 1;
      CursorFollowsFires(cal, s, steps[..n], id, spec);
      FollowsStep(cal, s, steps, id, spec, s.schedules[id].cursor, Fires(steps[..n], id), Fires(steps, id));
    }
  }

  /** The endpoint predicts the scheduler.  Ask it for `k` fires at any `now` from the moment a
      schedule's cursor is due until its successor.  In every history that leaves the schedule
      alone, the i-th entry of its answer is the cursor stored by the i-th fire; and it answers
      if and only if the cursor still moves at the k-th fire. */
  lemma {:induction false} EndpointPredictsScheduler(cal: Calendar, s: State, id: nat, spec: CronSpec, now: Instant,
                                                     k: nat, steps: seq<Step>)
    requires SchedulesBelow(s) && HasCron(s, id, spec)
    requires NextRun(cal, spec, s.schedules[id].cursor).Some?
    requires s.schedules[id].cursor <= now < NextRun(cal, spec, s.schedules[id].cursor).value
    requires Possible(cal, s, steps) && LeftAlone(steps, id)
    ensures HasCron(After(cal, s, steps), id, spec)
    ensures var listed := Cursors(Occurrences(cal, spec), now, k);
            var i, cursor := Fires(steps, id), After(cal, s, steps).schedules[id].cursor;
            && (listed.Some? && 0 < i <= k ==> cursor == listed.value[i - 1])
            && (i + 1 == k ==> (listed.Some? <==> Advances(cal, Cron(spec), cursor)))
  {
    var occ, first := Occurrences(cal, spec), s.schedules[id].cursor;
    CursorFollowsFires(cal, s, steps, id, spec);
    ListingIsStored(cal, spec, first, now, k);
    if Fires(steps, id) + 1 == k {
      MovesExactlyWhen(occ, first, Fires(steps, id));
    }
  }

  /** k + 1 searches succeed exactly when the (k + 1)-st move does. */
  lemma MovesExactlyWhen(occ: iset<Instant>, cursor: Instant, k: nat)
    ensures Stalls(occ, cursor, k + 1) <==> Advanced(occ, Stored(occ, cursor, k)) == Stored(occ, cursor, k)
    ensures Advanced(occ, Stored(occ, cursor, k)) >= Stored(occ, cursor, k)
  {
    assert Stored(occ, cursor, k + 1) == Advanced(occ, Stored(occ, cursor, k));
    if Stalls(occ, cursor, k + 1) {
      var i: nat :| i < k + 1 && Stored(occ, cursor, i + 1) == Stored(occ, cursor, i);
      StallsForGood(occ, cursor, i, k);
    }
  }

  /** While the cursor lies in the future, as it does between ticks, the answer starts with the
      stored cursor if and only if that is what the search finds from `now`; and then entry i is
      the cursor after i fires. */
  lemma {:induction false} EndpointPredictsPending(cal: Calendar, s: State, id: nat, spec: CronSpec, now: Instant,
                                                   k: nat, steps: seq<Step>)
    requires SchedulesBelow(s) && HasCron(s, id, spec) && now < s.schedules[id].cursor
    requires Possible(cal, s, steps) && LeftAlone(steps, id)
    ensures HasCron(After(cal, s, steps), id, spec)
    ensures var listed := Cursors(Occurrences(cal, spec), now, k + 1);
            var first := s.schedules[id].cursor;
            var i, cursor := Fires(steps, id), After(cal, s, steps).schedules[id].cursor;
            && (listed.Some? ==> (listed.value[0] == first <==> NextRun(cal, spec, now) == Some(first)))
            && (listed.Some? && listed.value[0] == first && i <= k ==> cursor == listed.value[i])
            && (NextRun(cal, spec, now) == Some(first) && i + 1 == k ==>
                  (listed.Some? <==> Advances(cal, Cron(spec), cursor)))
  {
    var occ, first := Occurrences(cal, spec), s.schedules[id].cursor;
    CursorFollowsFires(cal, s, steps, id, spec);
    PendingListing(occ, now, first, k, Fires(steps, id));
  }

  lemma PendingListing(occ: iset<Instant>, now: Instant, first: Instant, k: nat, i: nat)
    ensures var listed := Cursors(occ, now, k + 1);
            && (listed.Some? ==> (listed.value[0] == first <==> Next(occ, now) == Some(first)))
            && (listed.Some? && listed.value[0] == first && i <= k ==> listed.value[i] == Stored(occ, first, i))
            && (Next(occ, now) == Some(first) && i + 1 == k ==>
                  (listed.Some? <==> Advanced(occ, Stored(occ, first, i)) > Stored(occ, first, i)))
  {
    if Cursors(occ, now, k + 1).Some? {
      CursorsHead(occ, now, k + 1);
    }
    if Next(occ, now) == Some(first) {
      if Cursors(occ, now, k + 1).Some? && i <= k {
        PendingList(occ, now, first, k, i);
      }
      PendingAnswers(occ, now, first, k);
    }
  }

  lemma PendingList(occ: iset<Instant>, now: Instant, first: Instant, k: nat, i: nat)
    requires Next(occ, now) == Some(first) && Cursors(occ, now, k + 1).Some? && i <= k
    ensures Cursors(occ, now, k + 1).value[i] == Stored(occ, first, i)
  {
    CursorsThrough(occ, now, first, k);
    CursorsAreStored(occ, first, k);
    if i > 0 {
      assert Cursors(occ, first, k).value[i - 1] == Stored(occ, first, i - 1 + 1);
    }
  }

  lemma PendingAnswers(occ: iset<Instant>, now: Instant, first: Instant, k: nat)
    requires Next(occ, now) == Some(first)
    ensures k > 0 ==>
              (Cursors(occ, now, k + 1).Some? <==> Advanced(occ, Stored(occ, first, k - 1)) > Stored(occ, first, k - 1))
  {
    CursorsThrough(occ, now, first, k);
    CursorsFailWhenStalled(occ, first, k);
    if k > 0 {
      MovesExactlyWhen(occ, first, k - 1);
    }
  }

  /** A cursor stored by a fire is what the search finds from any moment since. */
  lemma FiredCursorIsFound(cal: Calendar, spec: CronSpec, cursor: Instant, now: Instant)
    requires Advances(cal, Cron(spec), cursor)
    requires cursor <= now < NextCursor(cal, Cron(spec), cursor)
    ensures NextRun(cal, spec, now) == Some(NextCursor(cal, Cron(spec), cursor))
  {
    NextSteady(Occurrences(cal, spec), cursor, now);
  }

  /** A cursor written by a create or update at `at` is found from any moment since, for a
      schedule in UTC, if and only if the filters pass it and it is no more than seven days
      away. */
  lemma {:induction false} FreshCursorFoundExactlyWhen(cal: Calendar, spec: CronSpec, at: Instant, now: Instant)
    requires cal.offset(ZoneName(spec)) == Some(0)
    requires AdvanceNextRun(cal, Cron(spec), at).Some? && at <= now < AdvanceNextRun(cal, Cron(spec), at).value
    ensures var cursor := AdvanceNextRun(cal, Cron(spec), at).value;
            NextRun(cal, spec, now) == Some(cursor) <==> Passes(cal, spec, cursor) && cursor - now <= HORIZON
  {
    var cursor := AdvanceNextRun(cal, Cron(spec), at).value;
    NextIsFire(cal, spec.expression, at);
    if Passes(cal, spec, cursor) && cursor - now <= HORIZON {
      forall u | now < u < cursor ensures !Occurs(cal, spec, u) {
        if Occurs(cal, spec, u) {
          NextBeforeFire(cal, spec.expression, at, u);
        }
      }
      NextIs(Occurrences(cal, spec), now, cursor);
    }
  }
}
