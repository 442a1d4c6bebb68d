/** At which instants a schedule fires, over whole histories of ticks and edits. */
module Firing {
  import opened Prelude
  import opened FireSearch
  import opened ScheduleService
  import opened Lifecycle
  import opened RunRows
  import opened FireLedger

  /** The step writes a fresh cursor: schedule `id` is created or edited. */
  predicate Edits(s: State, step: Step, id: nat) {
    (step.CreateSchedule? && id == s.nextSchedule) || (step.UpdateSchedule? && step.id == id)
  }

  predicate FiresSchedule(step: Step, id: nat) {
    step.Fire? && step.id == id
  }

  /** The step edits or deletes schedules. */
  predicate EditStep(step: Step) {
    step.CreateSchedule? || step.UpdateSchedule? || step.SetEnabled? || step.DeleteSchedule?
  }

  /** What the step makes of schedule row `id`: a fresh cursor at an edit, the next cursor at its
      own fire, and otherwise the cursor it had. */
  ghost predicate RowFollows(cal: Calendar, s: State, step: Step, id: nat, becomes: Schedule) {
    if Edits(s, step, id) then
      && becomes.settings == step.settings
      && Some(becomes.cursor) == AdvanceNextRun(cal, step.settings.cadence, step.now)
    else
      && id in s.schedules
      && var was := s.schedules[id];
         && becomes.settings.cadence == was.settings.cadence
         && becomes.cursor == if FiresSchedule(step, id) then NextCursor(cal, was.settings.cadence, was.cursor)
                              else was.cursor
  }

  lemma RowAfterFire(cal: Calendar, s: State, step: Step, id: nat)
    requires Enabled(cal, s, step) && step.Fire? && id in Apply(cal, s, step).schedules
    ensures RowFollows(cal, s, step, id, Apply(cal, s, step).schedules[id])
  {
  }

  lemma RowAfterEdit(cal: Calendar, s: State, step: Step, id: nat)
    requires Enabled(cal, s, step) && EditStep(step) && id in Apply(cal, s, step).schedules
    ensures RowFollows(cal, s, step, id, Apply(cal, s, step).schedules[id])
  {
  }

  /** One schedule row across one step. */
  lemma ScheduleAfterStep(cal: Calendar, s: State, step: Step, id: nat)
    requires Enabled(cal, s, step) && SchedulesBelow(s) && id in Apply(cal, s, step).schedules
    ensures SchedulesBelow(Apply(cal, s, step))
    ensures RowFollows(cal, s, step, id, Apply(cal, s, step).schedules[id])
  {
    StaysBelow(cal, s, step);
    if step.Fire? {
      RowAfterFire(cal, s, step, id);
    } else if EditStep(step) {
      RowAfterEdit(cal, s, step, id);
    } else {
      RunStepsKeepSchedules(cal, s, step);
    }
  }

  lemma BelowAfterFire(cal: Calendar, s: State, step: Step)
    requires Enabled(cal, s, step) && SchedulesBelow(s) && step.Fire?
    ensures SchedulesBelow(Apply(cal, s, step))
  {
  }

  lemma BelowAfterEdit(cal: Calendar, s: State, step: Step)
    requires Enabled(cal, s, step) && SchedulesBelow(s) && EditStep(step)
    ensures SchedulesBelow(Apply(cal, s, step))
  {
  }

  lemma StaysBelow(cal: Calendar, s: State, step: Step)
    requires Enabled(cal, s, step) && SchedulesBelow(s)
    ensures SchedulesBelow(Apply(cal, s, step))
  {
    if step.Fire? {
      BelowAfterFire(cal, s, step);
    } else if EditStep(step) {
      BelowAfterEdit(cal, s, step);
    } else {
      RunStepsKeepSchedules(cal, s, step);
    }
  }

  lemma {:induction false} AlwaysBelow(cal: Calendar, steps: seq<Step>)
    requires Possible(cal, EMPTY, steps)
    ensures SchedulesBelow(After(cal, EMPTY, steps))
    decreases |steps|
  {
    if |steps| > 0 {
      var n := |steps| - 1;
      AlwaysBelow(cal, steps[..n]);
      StaysBelow(cal, After(cal, EMPTY, steps[..n]), steps[n]);
    }
  }

  // ---- occurrences never repeat ----

  /** The cursor values at which `id` fired. */
  ghost function FiredAt(cal: Calendar, steps: seq<Step>, id: nat): seq<Instant>
    requires Possible(cal, EMPTY, steps)
  {
    if |steps| == 0 then []
    else
      var n := |steps| - 1;
      FiredAt(cal, steps[..n], id) +
      if FiresSchedule(steps[n], id) then [After(cal, EMPTY, steps[..n]).schedules[id].cursor] else []
  }

  predicate Positive(c: Cadence) {
    c.Interval? ==> c.n > 0
  }

  /** Every fire of `id` moves its cursor, and every edit gives it a positive interval. */
  ghost predicate KeepsMoving(cal: Calendar, steps: seq<Step>, id: nat)
    requires Possible(cal, EMPTY, steps)
  {
    |steps| == 0 ||
    var n := |steps| - 1;
    var s := After(cal, EMPTY, steps[..n]);
    && KeepsMoving(cal, steps[..n], id)
    && (FiresSchedule(steps[n], id) ==> Advances(cal, s.schedules[id].settings.cadence, s.schedules[id].cursor))
    && (Edits(s, steps[n], id) ==> Positive(steps[n].settings.cadence))
  }

  /** Strictly increasing, and nothing above `limit`. */
  predicate IncreasingTo(fires: seq<Instant>, limit: Instant) {
    && (forall i, j | 0 <= i < j < |fires| :: fires[i] < fires[j])
    && (forall i | 0 <= i < |fires| :: fires[i] <= limit)
  }

  lemma FreshCursorIsLater(cal: Calendar, c: Cadence, now: Instant)
    requires Positive(c) && AdvanceNextRun(cal, c, now).Some?
    ensures now < AdvanceNextRun(cal, c, now).value
  {
    if c.Cron? {
      NextIsFire(cal, c.spec.expression, now);
    }
  }

  ghost predicate Ahead(s: State, id: nat, fires: seq<Instant>) {
    && IncreasingTo(fires, s.clock)
    && (id in s.schedules ==> forall i | 0 <= i < |fires| :: fires[i] < s.schedules[id].cursor)
  }

  lemma AheadStep(cal: Calendar, s: State, step: Step, id: nat, fires: seq<Instant>)
    requires Enabled(cal, s, step) && SchedulesBelow(s) && Ahead(s, id, fires)
    requires FiresSchedule(step, id) ==> Advances(cal, s.schedules[id].settings.cadence, s.schedules[id].cursor)
    requires Edits(s, step, id) ==> Positive(step.settings.cadence)
    ensures Ahead(Apply(cal, s, step), id, fires + if FiresSchedule(step, id) then [s.schedules[id].cursor] else [])
  {
    var t := Apply(cal, s, step);
    var more := fires + if FiresSchedule(step, id) then [s.schedules[id].cursor] else [];
    assert IncreasingTo(more, t.clock);
    if id in t.schedules {
      ScheduleAfterStep(cal, s, step, id);
      if Edits(s, step, id) {
        FreshCursorIsLater(cal, step.settings.cadence, step.now);
      }
    }
  }

  /** Occurrences never repeat, even across edits that reset the cursor: as long as the next
      fire can be computed and intervals are positive, the cursor values at which a schedule
      fires are strictly increasing, and none lies in the future. */
  lemma {:induction false} OccurrencesNeverRepeat(cal: Calendar, steps: seq<Step>, id: nat)
    requires Possible(cal, EMPTY, steps) && KeepsMoving(cal, steps, id)
    ensures IncreasingTo(FiredAt(cal, steps, id), After(cal, EMPTY, steps).clock)
    ensures Ahead(After(cal, EMPTY, steps), id, FiredAt(cal, steps, id))
    decreases |steps|
  {
    if |steps| > 0 {
      var n := |steps| - 1;
      OccurrencesNeverRepeat(cal, steps[..n], id);
      AlwaysBelow(cal, steps[..n]);
      AheadStep(cal, After(cal, EMPTY, steps[..n]), steps[n], id, FiredAt(cal, steps[..n], id));
    }
  }

  // ---- a cursor that cannot move ----

  function Repeated(step: Step, k: nat): seq<Step>
    ensures |Repeated(step, k)| == k
  {
    if k == 0 then [] else Repeated(step, k - 1) + [step]
  }

  /** Due at `now` with this row, a cron that cannot move and does not raise. */
  ghost predicate Stuck(cal: Calendar, s: State, id: nat, row: Schedule, now: Instant) {
    && s.clock <= now && ScheduleDue(s, id, now) && row.settings.cadence.Cron?
    && s.schedules[id].settings == row.settings && s.schedules[id].cursor == row.cursor
    && !Advances(cal, row.settings.cadence, row.cursor) && !FireRaises(cal, s, id)
  }

  lemma StuckStep(cal: Calendar, s: State, id: nat, row: Schedule, now: Instant)
    requires Stuck(cal, s, id, row, now)
    ensures Enabled(cal, s, Fire(id, now)) && Stuck(cal, Apply(cal, s, Fire(id, now)), id, row, now)
  {
    AdvancesExactlyWhen(cal, row.settings.cadence, row.cursor);
  }

  /** A due cron schedule without an occurrence in the next seven days, its zone key well-formed,
      fires again at every tick, for the same cursor: nothing limits how often. */
  lemma {:induction false} StuckScheduleFiresForever(cal: Calendar, s: State, id: nat, now: Instant, k: nat)
    requires s.clock <= now && ScheduleDue(s, id, now) && s.schedules[id].settings.cadence.Cron?
    requires !Advances(cal, s.schedules[id].settings.cadence, s.schedules[id].cursor) && !FireRaises(cal, s, id)
    ensures Possible(cal, s, Repeated(Fire(id, now), k))
    ensures Stuck(cal, After(cal, s, Repeated(Fire(id, now), k)), id, s.schedules[id], now)
  {
    if k > 0 {
      var fires := Repeated(Fire(id, now), k - 1);
      StuckScheduleFiresForever(cal, s, id, now, k - 1);
      StuckStep(cal, After(cal, s, fires), id, s.schedules[id], now);
      PossibleAdd(cal, s, fires, Fire(id, now));
    }
  }

  // ---- a schedule that is switched off ----

  /** Someone enables or edits schedule `id`. */
  predicate SwitchesOn(step: Step, id: nat) {
    (step.SetEnabled? && step.id == id && step.on) || (step.UpdateSchedule? && step.id == id)
  }

  predicate Off(s: State, id: nat) {
    SchedulesBelow(s) && id < s.nextSchedule && (id in s.schedules ==> !s.schedules[id].settings.enabled)
  }

  lemma OffAfterFire(cal: Calendar, s: State, step: Step, id: nat)
    requires Enabled(cal, s, step) && Off(s, id) && step.Fire?
    ensures step.id != id && Off(Apply(cal, s, step), id)
  {
    BelowAfterFire(cal, s, step);
  }

  lemma OffAfterEdit(cal: Calendar, s: State, step: Step, id: nat)
    requires Enabled(cal, s, step) && Off(s, id) && EditStep(step) && !SwitchesOn(step, id)
    ensures Off(Apply(cal, s, step), id)
  {
    BelowAfterEdit(cal, s, step);
  }

  lemma OffStep(cal: Calendar, s: State, step: Step, id: nat)
    requires Enabled(cal, s, step) && Off(s, id) && !SwitchesOn(step, id)
    ensures Off(Apply(cal, s, step), id) && !FiresSchedule(step, id)
  {
    if step.Fire? {
      OffAfterFire(cal, s, step, id);
    } else if EditStep(step) {
      OffAfterEdit(cal, s, step, id);
    } else {
      RunStepsKeepSchedules(cal, s, step);
    }
  }

  lemma {:induction false} OffStays(cal: Calendar, s: State, steps: seq<Step>, id: nat)
    requires Possible(cal, s, steps) && Off(s, id) && forall i | 0 <= i < |steps| :: !SwitchesOn(steps[i], id)
    ensures Off(After(cal, s, steps), id) && Fires(steps, id) == 0
    decreases |steps|
  {
    if |steps| > 0 {
      var n := |steps| - 1;
      LastStep(cal, s, steps);
      OffStays(cal, s, steps[..n], id);
      OffStep(cal, After(cal, s, steps[..n]), steps[n], id);
    }
  }

  /** A disabled schedule does not fire, whatever happens, until it is enabled or edited. */
  lemma {:induction false} DisabledNeverFires(cal: Calendar, s: State, id: nat, now: Instant, steps: seq<Step>)
    requires SchedulesBelow(s) && Enabled(cal, s, SetEnabled(id, false, now))
    requires Possible(cal, Apply(cal, s, SetEnabled(id, false, now)), steps)
    requires forall i | 0 <= i < |steps| :: !SwitchesOn(steps[i], id)
    ensures Fires(steps, id) == 0
  {
    var t := Apply(cal, s, SetEnabled(id, false, now));
    BelowAfterEdit(cal, s, SetEnabled(id, false, now));
    OffStays(cal, t, steps, id);
  }

  // ---- since the last edit ----

  /** The cursor the last create or update of `id` wrote, and the fires since. */
  ghost function FirstCursor(cal: Calendar, steps: seq<Step>, id: nat): Instant
    requires Possible(cal, EMPTY, steps)
  {
    if |steps| == 0 then 0
    else
      var n := |steps| - 1;
      if Edits(After(cal, EMPTY, steps[..n]), steps[n], id)
      then AdvanceNextRun(cal, steps[n].settings.cadence, steps[n].now).value
      else FirstCursor(cal, steps[..n], id)
  }

  ghost function FiresSince(cal: Calendar, steps: seq<Step>, id: nat): nat
    requires Possible(cal, EMPTY, steps)
  {
    if |steps| == 0 then 0
    else
      var n := |steps| - 1;
      if Edits(After(cal, EMPTY, steps[..n]), steps[n], id) then 0
      else FiresSince(cal, steps[..n], id) + if FiresSchedule(steps[n], id) then 1 else 0
  }

  /** The cursor moved at every fire since the last create or update of `id`. */
  ghost predicate MovedSinceEdit(cal: Calendar, steps: seq<Step>, id: nat)
    requires Possible(cal, EMPTY, steps)
  {
    |steps| == 0 ||
    var n := |steps| - 1;
    var s := After(cal, EMPTY, steps[..n]);
    || Edits(s, steps[n], id)
    || (&& MovedSinceEdit(cal, steps[..n], id)
        && (FiresSchedule(steps[n], id) ==> Advances(cal, s.schedules[id].settings.cadence, s.schedules[id].cursor)))
  }

  lemma AdvancedCursorOccurs(cal: Calendar, spec: CronSpec, cursor: Instant)
    requires Advances(cal, Cron(spec), cursor)
    ensures Occurs(cal, spec, NextCursor(cal, Cron(spec), cursor))
  {
  }

  /** What is known of a schedule's cursor `k` fires after the cursor `first` was written. */
  ghost predicate Admitted(cal: Calendar, s: State, id: nat, first: Instant, k: nat, moving: bool) {
    id in s.schedules && s.schedules[id].settings.cadence.Cron? ==>
      var spec, cursor := s.schedules[id].settings.cadence.spec, s.schedules[id].cursor;
      && (k == 0 ==> cursor == first)
      && (cursor == first || Occurs(cal, spec, cursor))
      && (moving && k > 0 ==> Occurs(cal, spec, cursor))
  }

  lemma AdmittedStep(cal: Calendar, s: State, step: Step, id: nat, first: Instant, k: nat, moving: bool)
    requires Enabled(cal, s, step) && SchedulesBelow(s) && Admitted(cal, s, id, first, k, moving)
    requires !Edits(s, step, id)
    ensures var still := moving && (FiresSchedule(step, id) ==>
                           Advances(cal, s.schedules[id].settings.cadence, s.schedules[id].cursor));
            Admitted(cal, Apply(cal, s, step), id, first, k + if FiresSchedule(step, id) then 1 else 0, still)
  {
    if id in Apply(cal, s, step).schedules {
      ScheduleAfterStep(cal, s, step, id);
      var row := s.schedules[id];
      if row.settings.cadence.Cron? && Advances(cal, row.settings.cadence, row.cursor) {
        AdvancedCursorOccurs(cal, row.settings.cadence.spec, row.cursor);
      }
    }
  }

  lemma AdmittedAtEdit(cal: Calendar, s: State, step: Step, id: nat)
    requires Enabled(cal, s, step) && SchedulesBelow(s) && Edits(s, step, id)
    ensures Admitted(cal, Apply(cal, s, step), id, AdvanceNextRun(cal, step.settings.cadence, step.now).value, 0, true)
  {
    if id in Apply(cal, s, step).schedules {
      ScheduleAfterStep(cal, s, step, id);
    }
  }

  /** Before its first fire a cron schedule stands at the cursor the last edit wrote, which
      ignores zone and filters.  From then on, while its cursor moves at each fire, it stands at
      instants its zone and filters admit; and if the cursor does not move it stands still. */
  lemma {:induction false} CronCursorIsAdmissible(cal: Calendar, steps: seq<Step>, id: nat)
    requires Possible(cal, EMPTY, steps)
    ensures Admitted(cal, After(cal, EMPTY, steps), id, FirstCursor(cal, steps, id), FiresSince(cal, steps, id),
                     MovedSinceEdit(cal, steps, id))
    decreases |steps|
  {
    if |steps| > 0 {
      var n := |steps| - 1;
      var s := After(cal, EMPTY, steps[..n]);
      AlwaysBelow(cal, steps[..n]);
      if Edits(s, steps[n], id) {
        AdmittedAtEdit(cal, s, steps[n], id);
      } else {
        CronCursorIsAdmissible(cal, steps[..n], id);
        AdmittedStep(cal, s, steps[n], id, FirstCursor(cal, steps[..n], id), FiresSince(cal, steps[..n], id),
                     MovedSinceEdit(cal, steps[..n], id));
      }
    }
  }

  /** Every cron fire after the first since a create or update is at an instant the zone and the
      filters admit, as long as the cursor moved at the fires since that edit. */
  lemma {:induction false} LaterFiresAreAdmissible(cal: Calendar, steps: seq<Step>, id: nat, now: Instant)
    requires Possible(cal, EMPTY, steps) && MovedSinceEdit(cal, steps, id) && FiresSince(cal, steps, id) > 0
    requires Enabled(cal, After(cal, EMPTY, steps), Fire(id, now))
    requires After(cal, EMPTY, steps).schedules[id].settings.cadence.Cron?
    ensures Possible(cal, EMPTY, steps + [Fire(id, now)])
    ensures var fired := FiredAt(cal, steps + [Fire(id, now)], id);
            && |fired| > 0
            && Occurs(cal, After(cal, EMPTY, steps).schedules[id].settings.cadence.spec, fired[|fired| - 1])
  {
    CronCursorIsAdmissible(cal, steps, id);
    PossibleAdd(cal, EMPTY, steps, Fire(id, now));
    assert (steps + [Fire(id, now)])[..|steps|] == steps;
  }

  /** The expression's fires are the same on both clocks, as those of an hourly cron are for an
      offset of full hours, and those of any cron for none. */
  ghost predicate ShiftInvariant(cal: Calendar, expr: string, offset: int) {
    forall t :: IsFire(cal, expr, t) <==> IsFire(cal, expr, t + offset)
  }

  lemma NoShift(cal: Calendar, expr: string)
    ensures ShiftInvariant(cal, expr, 0)
  {
    forall t ensures IsFire(cal, expr, t) <==> IsFire(cal, expr, t + 0) {
      assert t + 0 == t;
    }
  }

  /** The cursor a create or update writes is the plain next fire, and it is admissible if and
      only if the zone is known, the cron fires at that instant of the zone's wall clock, and the
      filters pass there.  If the zone does not shift the fires, the filters alone decide. */
  lemma {:induction false} FreshCursorAdmissibleExactlyWhen(cal: Calendar, s: State, step: Step, id: nat,
                                                            spec: CronSpec)
    requires Enabled(cal, s, step) && SchedulesBelow(s) && Edits(s, step, id)
    requires step.settings.cadence == Cron(spec)
    ensures id in Apply(cal, s, step).schedules
    ensures var written := AdvanceNextRun(cal, Cron(spec), step.now).value;
            && Apply(cal, s, step).schedules[id].cursor == written
            && match cal.offset(ZoneName(spec))
               case None => !Occurs(cal, spec, written)
               case Some(offset) =>
                 var local := written + offset;
                 && (Occurs(cal, spec, written) <==>
                       cal.next(spec.expression, local - 1) == Some(local) && Passes(cal, spec, local))
                 && (offset == 0 || ShiftInvariant(cal, spec.expression, offset) ==>
                       (Occurs(cal, spec, written) <==> Passes(cal, spec, local)))
  {
    ScheduleAfterStep(cal, s, step, id);
    var written := AdvanceNextRun(cal, Cron(spec), step.now).value;
    NextIsFire(cal, spec.expression, step.now);
    assert IsFire(cal, spec.expression, written);
    NoShift(cal, spec.expression);
  }

  /** `k` periods on from `first`. */
  function Along(first: Instant, k: nat, d: int): Instant {
    if k == 0 then first else Along(first, k - 1, d) + d
  }

  lemma {:induction false} AlongIs(first: Instant, k: nat, d: int)
    ensures Along(first, k, d) == first + k * d
  {
    if k > 0 {
      AlongIs(first, k - 1, d);
    }
  }

  /** Where an interval schedule must stand after `fires` fires from `first`, none early. */
  predicate Grid(cursor: Instant, first: Instant, fires: nat, d: int, clock: Instant) {
    cursor == Along(first, fires, d) && (fires > 0 ==> Along(first, fires - 1, d) <= clock)
  }

  predicate OnGrid(s: State, id: nat, first: Instant, fires: nat) {
    id in s.schedules && s.schedules[id].settings.cadence.Interval? ==>
      Grid(s.schedules[id].cursor, first, fires, Period(s.schedules[id].settings.cadence), s.clock)
  }

  lemma OnGridStep(cal: Calendar, s: State, step: Step, id: nat, first: Instant, fires: nat)
    requires Enabled(cal, s, step) && SchedulesBelow(s) && OnGrid(s, id, first, fires)
    ensures if Edits(s, step, id) then
              OnGrid(Apply(cal, s, step), id, AdvanceNextRun(cal, step.settings.cadence, step.now).value, 0)
            else
              OnGrid(Apply(cal, s, step), id, first, fires + if FiresSchedule(step, id) then 1 else 0)
  {
    var t := Apply(cal, s, step);
    if id in t.schedules && t.schedules[id].settings.cadence.Interval? {
      ScheduleAfterStep(cal, s, step, id);
      if !Edits(s, step, id) && FiresSchedule(step, id) {
        NextOnGrid(s.schedules[id].cursor, first, fires, Period(t.schedules[id].settings.cadence), s.clock, t.clock);
      }
    }
  }

  lemma NextOnGrid(cursor: Instant, first: Instant, fires: nat, d: int, clock: Instant, now: Instant)
    requires Grid(cursor, first, fires, d, clock) && cursor <= now
    ensures Grid(cursor + d, first, fires + 1, d, now)
  {
  }

  lemma {:induction false} AlwaysOnGrid(cal: Calendar, steps: seq<Step>, id: nat)
    requires Possible(cal, EMPTY, steps)
    ensures OnGrid(After(cal, EMPTY, steps), id, FirstCursor(cal, steps, id), FiresSince(cal, steps, id))
    decreases |steps|
  {
    if |steps| > 0 {
      var n := |steps| - 1;
      AlwaysOnGrid(cal, steps[..n], id);
      AlwaysBelow(cal, steps[..n]);
      OnGridStep(cal, After(cal, EMPTY, steps[..n]), steps[n], id,
                 FirstCursor(cal, steps[..n], id), FiresSince(cal, steps[..n], id));
    }
  }

  /** At most one fire per period up to `until`, counting the one at `first`. */
  predicate FewEnough(k: nat, first: Instant, d: int, until: Instant)
    requires d > 0
  {
    k == 0 || k <= (until - first) / d + 1
  }

  /** Interval schedules do not drift: after k fires since the last edit the cursor is exactly
      k periods on from where the edit put it, however late or irregular the ticks were, and
      at most floor((until - first) / d) + 1 fires have happened by now, for every `until` not
      in the past. */
  lemma {:induction false} IntervalsDoNotDrift(cal: Calendar, steps: seq<Step>, id: nat, n: int, unit: TimeUnit,
                                               until: Instant)
    requires Possible(cal, EMPTY, steps) && n > 0
    requires var s := After(cal, EMPTY, steps);
             && s.clock <= until
             && id in s.schedules && s.schedules[id].settings.cadence == Interval(n, unit)
    ensures var first, k := FirstCursor(cal, steps, id), FiresSince(cal, steps, id);
            var d := n * match unit
                         case Seconds => 1_000_000
                         case Minutes => 60_000_000
                         case Hours => 3_600_000_000
                         case Days => 86_400_000_000;
            && d > 0
            && After(cal, EMPTY, steps).schedules[id].cursor == first + k * d
            && FewEnough(k, first, d, until)
  {
    AlwaysOnGrid(cal, steps, id);
    var s := After(cal, EMPTY, steps);
    GridBound(s.schedules[id].cursor, FirstCursor(cal, steps, id), FiresSince(cal, steps, id),
              Period(Interval(n, unit)), s.clock, until);
  }

  lemma GridBound(cursor: Instant, first: Instant, k: nat, d: int, clock: Instant, until: Instant)
    requires Grid(cursor, first, k, d, clock) && d > 0 && clock <= until
    ensures cursor == first + k * d && FewEnough(k, first, d, until)
  {
    AlongIs(first, k, d);
    if k > 0 {
      AlongIs(first, k - 1, d);
      FloorAtLeast(until - first, k - 1, d);
    }
  }

  lemma FloorAtLeast(x: int, k: nat, d: int)
    requires d > 0 && k * d <= x
    ensures k <= x / d
  {
    if x / d < k {
      Scaled(x / d + 1, k, d);
    }
  }

  /** How many fires an interval schedule still owes at `now`. */
  function Backlog(cursor: Instant, d: int, now: Instant): nat
    requires d > 0
  {
    if cursor > now then 0 else (now - cursor) / d + 1
  }

  /** A missed gap is caught up one fire per tick: each fire lowers the backlog by exactly one,
      and the schedule is due until it is zero. */
  lemma {:induction false} GapIsCaughtUp(cal: Calendar, s: State, id: nat, now: Instant)
    requires Enabled(cal, s, Fire(id, now)) && s.schedules[id].settings.cadence.Interval?
    requires Positive(s.schedules[id].settings.cadence)
    ensures var d := Period(s.schedules[id].settings.cadence);
            var t := Apply(cal, s, Fire(id, now));
            && Backlog(t.schedules[id].cursor, d, now) == Backlog(s.schedules[id].cursor, d, now) - 1
            && (ScheduleDue(t, id, now) <==> Backlog(t.schedules[id].cursor, d, now) > 0)
  {
    var d := Period(s.schedules[id].settings.cadence);
    OnePeriodLess(now - s.schedules[id].cursor, d);
  }

  lemma OnePeriodLess(x: int, d: int)
    requires d > 0 && x >= 0
    ensures x < d ==> x / d == 0
    ensures x >= d ==> (x - d) / d == x / d - 1
  {
    var q, r := x / d, x % d;
    assert x == q * d + r;
    assert x - d == (q - 1) * d + r;
    Quotient(x - d, d, q - 1, r);
    if x < d {
      Quotient(x, d, 0, x);
    }
  }

  lemma Quotient(x: int, d: int, q: int, r: int)
    requires d > 0 && 0 <= r < d && x == q * d + r
    ensures x / d == q
  {
    var p := x / d;
    assert x == p * d + x % d;
    if p < q {
      Scaled(p + 1, q, d);
    } else if q < p {
      Scaled(q + 1, p, d);
    }
  }
}
