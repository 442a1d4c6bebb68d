/** Concrete histories in which the scheduler does what one would not expect of it, for the
    conditions of ScheduleService, Wakeups, Overlap and Firing. */
module Counterexamples {
  import opened Prelude
  import opened FireSearch
  import opened ScheduleService
  import opened Lifecycle
  import opened RunRows
  import opened Overlap
  import opened FireLedger
  import opened Firing
  import Wakeups

  // ---- a calendar ----

  const HOUR: int := 3_600 * SECOND
  const WEEK: int := 7 * DAY

  const HOURLY := "0 * * * *"
  const MONDAYS := "0 0 * * 1"

  function NextHour(t: Instant): Instant {
    (t / HOUR + 1) * HOUR
  }

  /** Day 4 of the epoch, 5 January 1970, was a Monday. */
  function NextMonday(t: Instant): Instant {
    ((t - 4 * DAY) / WEEK + 1) * WEEK + 4 * DAY
  }

  function NextOf(expr: string, t: Instant): Option<Instant> {
    if expr == HOURLY then Some(NextHour(t)) else if expr == MONDAYS then Some(NextMonday(t)) else None
  }

  function OffsetOf(name: string): Option<int> {
    if name == "UTC" then Some(0) else if name == "Asia/Kolkata" then Some(19_800 * SECOND) else None
  }

  const RAW: RawCalendar := RawCalendar(
    expr => expr == HOURLY || expr == MONDAYS,
    (expr, t) => NextOf(expr, t),
    name => OffsetOf(name),
    name => name == "/x",
    t => "",
    t => (t / DAY + 3) % 7)

  lemma HourLawful(t: Instant, later: Instant)
    ensures t < NextHour(t)
    ensures t <= later < NextHour(t) ==> NextHour(later) == NextHour(t)
  {
  }

  lemma MondayLawful(t: Instant, later: Instant)
    ensures t < NextMonday(t)
    ensures t <= later < NextMonday(t) ==> NextMonday(later) == NextMonday(t)
  {
  }

  lemma RawIsLawful()
    ensures Lawful(RAW)
  {
    forall expr, t, later ensures LawfulAt(RAW, expr, t, later) {
      HourLawful(t, later);
      MondayLawful(t, later);
    }
  }

  const CLOCK: Calendar := (RawIsLawful(); RAW)

  // ---- the first cursor ignores zone and filters ----

  const MONDAYS_IF_SATURDAY: CronSpec := CronSpec(MONDAYS, None, None, Some({5}))
  const KOLKATA_HOURS: CronSpec := CronSpec(HOURLY, Some("Asia/Kolkata"), None, None)

  function Plain(cadence: Cadence): Settings {
    Settings(cadence, true, Skip, 10, 0, 0)
  }

  lemma Created(cal: Calendar, script: nat, settings: Settings)
    requires AdvanceNextRun(cal, settings.cadence, 0).Some?
    ensures Possible(cal, EMPTY, [CreateSchedule(script, settings, 0)])
    ensures var s := After(cal, EMPTY, [CreateSchedule(script, settings, 0)]);
            && s.runs == map[] && s.tasks == multiset{} && s.nextRun == 1 && s.nextSchedule == 2 && s.clock == 0
            && s.schedules == map[1 := Schedule(script, settings, AdvanceNextRun(cal, settings.cadence, 0).value, 0)]
  {
    var create := CreateSchedule(script, settings, 0);
    PossibleAdd(cal, EMPTY, [], create);
    assert [] + [create] == [create];
  }

  lemma MondayIsNoSaturday(t: Instant)
    ensures !Occurs(CLOCK, MONDAYS_IF_SATURDAY, t)
  {
    if NextMonday(t - 1) == t {
      var k := (t - 1 - 4 * DAY) / WEEK + 1;
      assert t == (7 * k + 4) * DAY;
      assert (7 * k + 7) % 7 == 0;
    }
  }

  /** Mondays, but only on Saturdays: the first cursor is a Monday. */
  lemma FirstCursorIgnoresFilters()
    ensures Possible(CLOCK, EMPTY, [CreateSchedule(7, Plain(Cron(MONDAYS_IF_SATURDAY)), 0)])
    ensures var s := After(CLOCK, EMPTY, [CreateSchedule(7, Plain(Cron(MONDAYS_IF_SATURDAY)), 0)]);
            && s.schedules == map[1 := Schedule(7, Plain(Cron(MONDAYS_IF_SATURDAY)), 4 * DAY, 0)]
            && s.clock == 0
            && !Occurs(CLOCK, MONDAYS_IF_SATURDAY, 4 * DAY)
  {
    Created(CLOCK, 7, Plain(Cron(MONDAYS_IF_SATURDAY)));
    MondayIsNoSaturday(4 * DAY);
  }

  /** Every full hour in a zone five and a half hours ahead: the first cursor is a full hour of
      UTC. */
  lemma FirstCursorIgnoresZone()
    ensures Possible(CLOCK, EMPTY, [CreateSchedule(7, Plain(Cron(KOLKATA_HOURS)), 0)])
    ensures var s := After(CLOCK, EMPTY, [CreateSchedule(7, Plain(Cron(KOLKATA_HOURS)), 0)]);
            && s.schedules == map[1 := Schedule(7, Plain(Cron(KOLKATA_HOURS)), HOUR, 0)]
            && !Occurs(CLOCK, KOLKATA_HOURS, HOUR)
  {
    Created(CLOCK, 7, Plain(Cron(KOLKATA_HOURS)));
  }

  // ---- a cron that cannot move fires for good ----

  /** Mondays, but only on Saturdays: from the first Monday on, k fires for any k at one instant,
      all for the same cursor. */
  lemma MondaysNeverMove(k: nat)
    ensures var steps := [CreateSchedule(7, Plain(Cron(MONDAYS_IF_SATURDAY)), 0)] + Repeated(Fire(1, 4 * DAY), k);
            && Possible(CLOCK, EMPTY, steps)
            && ScheduleDue(After(CLOCK, EMPTY, steps), 1, 4 * DAY)
            && After(CLOCK, EMPTY, steps).schedules[1].cursor == 4 * DAY
  {
    var create := [CreateSchedule(7, Plain(Cron(MONDAYS_IF_SATURDAY)), 0)];
    FirstCursorIgnoresFilters();
    var s := After(CLOCK, EMPTY, create);
    forall t ensures !Occurs(CLOCK, MONDAYS_IF_SATURDAY, t) {
      MondayIsNoSaturday(t);
    }
    AdvancesExactlyWhen(CLOCK, Cron(MONDAYS_IF_SATURDAY), 4 * DAY);
    StuckScheduleFiresForever(CLOCK, s, 1, 4 * DAY, k);
    HistoriesJoin(CLOCK, EMPTY, create, s, Repeated(Fire(1, 4 * DAY), k));
  }

  // ---- every second, with the queue policy ----

  function EverySecond(retryMax: nat, backoff: nat): Settings {
    Settings(Interval(1, Seconds), true, Queue, 10, retryMax, backoff)
  }

  /** The schedule after `fires` fires. */
  function Row(settings: Settings, fires: nat): Schedule {
    Schedule(7, settings, (fires + 1) * SECOND, 0)
  }

  /** A state of these histories: one schedule, these rows and these tasks. */
  predicate Is(s: State, settings: Settings, fires: nat, runs: map<nat, Run>, tasks: multiset<Task>, clock: Instant) {
    && s.schedules == map[1 := Row(settings, fires)]
    && s.runs == runs && s.tasks == tasks && s.clock == clock
    && s.nextRun == fires + 1 && s.nextSchedule == 2
  }

  lemma CreatedEverySecond(cal: Calendar, settings: Settings)
    requires settings.cadence == Interval(1, Seconds)
    ensures Possible(cal, EMPTY, [CreateSchedule(7, settings, 0)])
    ensures Is(After(cal, EMPTY, [CreateSchedule(7, settings, 0)]), settings, 0, map[], multiset{}, 0)
  {
    Created(cal, 7, settings);
  }

  lemma AdvancedRow(cal: Calendar, settings: Settings, fires: nat)
    requires settings.cadence == Interval(1, Seconds) && fires < 10
    ensures !CursorRaises(cal, settings.cadence, Row(settings, fires).cursor)
    ensures NextCursor(cal, settings.cadence, Row(settings, fires).cursor) == Row(settings, fires + 1).cursor
  {
  }

  lemma PlacedRow(s: State, settings: Settings, fires: nat, runs: map<nat, Run>, tasks: multiset<Task>,
                  clock: Instant, now: Instant, outcome: Outcome)
    requires s.schedules == map[1 := Row(settings, fires + 1)] && outcome in {Dispatched, Queued}
    requires s.runs == runs && s.tasks == tasks && s.nextRun == fires + 1 && s.nextSchedule == 2
    ensures Is(Placed(s, 1, outcome, now).(clock := now), settings, fires + 1,
               runs[fires + 1 := FiredRun(outcome, 7, 1, now)],
               tasks + (if outcome == Dispatched then multiset{Task(fires + 1, ScheduledRun)} else multiset{}), now)
  {
  }

  lemma FiredState(cal: Calendar, s: State, settings: Settings, fires: nat, runs: map<nat, Run>,
                   tasks: multiset<Task>, clock: Instant, now: Instant, outcome: Outcome)
    requires Is(s, settings, fires, runs, tasks, clock)
    requires settings.cadence == Interval(1, Seconds) && settings.enabled && fires < 10
    requires clock <= now && (fires + 1) * SECOND <= now
    requires outcome == OutcomeOf(s, Row(settings, fires)) && outcome in {Dispatched, Queued}
    ensures Enabled(cal, s, Fire(1, now))
    ensures Is(Apply(cal, s, Fire(1, now)), settings, fires + 1, runs[fires + 1 := FiredRun(outcome, 7, 1, now)],
               tasks + (if outcome == Dispatched then multiset{Task(fires + 1, ScheduledRun)} else multiset{}), now)
  {
    AdvancedRow(cal, settings, fires);
    assert s.schedules[1] == Row(settings, fires);
    var advanced := Advance(cal, s, 1);
    assert advanced.schedules == map[1 := Row(settings, fires + 1)];
    PlacedRow(advanced, settings, fires, runs, tasks, clock, now, outcome);
  }

  /** A fire at `now` with the outcome that the rows prescribe. */
  lemma Fired(cal: Calendar, steps: seq<Step>, settings: Settings, fires: nat, runs: map<nat, Run>,
              tasks: multiset<Task>, clock: Instant, now: Instant, outcome: Outcome)
    requires Possible(cal, EMPTY, steps) && Is(After(cal, EMPTY, steps), settings, fires, runs, tasks, clock)
    requires settings.cadence == Interval(1, Seconds) && settings.enabled && fires < 10
    requires clock <= now && (fires + 1) * SECOND <= now
    requires outcome == OutcomeOf(After(cal, EMPTY, steps), Row(settings, fires)) && outcome in {Dispatched, Queued}
    ensures Possible(cal, EMPTY, steps + [Fire(1, now)])
    ensures Is(After(cal, EMPTY, steps + [Fire(1, now)]), settings, fires + 1,
               runs[fires + 1 := FiredRun(outcome, 7, 1, now)],
               tasks + (if outcome == Dispatched then multiset{Task(fires + 1, ScheduledRun)} else multiset{}), now)
  {
    FiredState(cal, After(cal, EMPTY, steps), settings, fires, runs, tasks, clock, now, outcome);
    PossibleAdd(cal, EMPTY, steps, Fire(1, now));
  }

  const FIRST_RUN: Run := NewRun(7, Some(1), Running, SECOND)
  const SECOND_RUN: Run := NewRun(7, Some(1), Pending, 2 * SECOND)
  const THIRD_RUN: Run := NewRun(7, Some(1), Running, 3 * SECOND)

  function OneFire(settings: Settings): seq<Step> {
    [CreateSchedule(7, settings, 0)] + [Fire(1, SECOND)]
  }

  lemma AfterOneFire(cal: Calendar, settings: Settings)
    requires settings.cadence == Interval(1, Seconds) && settings.enabled
    ensures Possible(cal, EMPTY, OneFire(settings))
    ensures Is(After(cal, EMPTY, OneFire(settings)), settings, 1, map[1 := FIRST_RUN],
               multiset{Task(1, ScheduledRun)}, SECOND)
  {
    var create := [CreateSchedule(7, settings, 0)];
    CreatedEverySecond(cal, settings);
    assert !Active(After(cal, EMPTY, create), 7);
    Fired(cal, create, settings, 0, map[], multiset{}, 0, SECOND, Dispatched);
    assert multiset{} + multiset{Task(1, ScheduledRun)} == multiset{Task(1, ScheduledRun)};
  }

  // ---- a second run beside the first ----

  const QUEUEING: Settings := EverySecond(0, 0)

  function TwoFires(): seq<Step> {
    OneFire(QUEUEING) + [Fire(1, 2 * SECOND)]
  }

  function FirstEnds(): seq<Step> {
    TwoFires() + [Finish(Task(1, ScheduledRun), Exit(0), 2 * SECOND)]
  }

  function ThirdFire(): seq<Step> {
    FirstEnds() + [Fire(1, 3 * SECOND)]
  }

  function LateDrain(): seq<Step> {
    ThirdFire() + [DrainQueue(1, Some(2), 3 * SECOND)]
  }

  lemma AfterTwoFires(cal: Calendar)
    ensures Possible(cal, EMPTY, TwoFires())
    ensures Is(After(cal, EMPTY, TwoFires()), QUEUEING, 2, map[1 := FIRST_RUN, 2 := SECOND_RUN],
               multiset{Task(1, ScheduledRun)}, 2 * SECOND)
  {
    AfterOneFire(cal, QUEUEING);
    var s := After(cal, EMPTY, OneFire(QUEUEING));
    assert RunsOn(s, 1, 7) && Waiting(s, 7) == {};
    Fired(cal, OneFire(QUEUEING), QUEUEING, 1, map[1 := FIRST_RUN], multiset{Task(1, ScheduledRun)}, SECOND,
          2 * SECOND, Queued);
  }

  lemma FirstEnded(cal: Calendar, s: State)
    requires Is(s, QUEUEING, 2, map[1 := FIRST_RUN, 2 := SECOND_RUN], multiset{Task(1, ScheduledRun)}, 2 * SECOND)
    ensures var task := Task(1, ScheduledRun);
            && !Retries(s, task, Exit(0))
            && Is(ApplyEnd(s, task, Exit(0), 2 * SECOND), QUEUEING, 2,
                  map[1 := EndRun(FIRST_RUN, Success, 0, 2 * SECOND), 2 := SECOND_RUN],
                  multiset{Task(1, Drain)}, 2 * SECOND)
  {
  }

  lemma AfterFirstEnds(cal: Calendar)
    ensures Possible(cal, EMPTY, FirstEnds())
    ensures Is(After(cal, EMPTY, FirstEnds()), QUEUEING, 2,
               map[1 := EndRun(FIRST_RUN, Success, 0, 2 * SECOND), 2 := SECOND_RUN],
               multiset{Task(1, Drain)}, 2 * SECOND)
  {
    AfterTwoFires(cal);
    FirstEnded(cal, After(cal, EMPTY, TwoFires()));
    PossibleAdd(cal, EMPTY, TwoFires(), Finish(Task(1, ScheduledRun), Exit(0), 2 * SECOND));
  }

  lemma NoneRunning(s: State)
    requires s.runs == map[1 := EndRun(FIRST_RUN, Success, 0, 2 * SECOND), 2 := SECOND_RUN]
    ensures !Active(s, 7)
  {
  }

  lemma AfterThirdFire(cal: Calendar)
    ensures Possible(cal, EMPTY, ThirdFire())
    ensures Is(After(cal, EMPTY, ThirdFire()), QUEUEING, 3,
               map[1 := EndRun(FIRST_RUN, Success, 0, 2 * SECOND), 2 := SECOND_RUN, 3 := THIRD_RUN],
               multiset{Task(1, Drain), Task(3, ScheduledRun)}, 3 * SECOND)
  {
    AfterFirstEnds(cal);
    var runs := map[1 := EndRun(FIRST_RUN, Success, 0, 2 * SECOND), 2 := SECOND_RUN];
    NoneRunning(After(cal, EMPTY, FirstEnds()));
    Fired(cal, FirstEnds(), QUEUEING, 2, runs, multiset{Task(1, Drain)}, 2 * SECOND, 3 * SECOND, Dispatched);
  }

  lemma DrainedLate(cal: Calendar, s: State)
    requires Is(s, QUEUEING, 3, map[1 := EndRun(FIRST_RUN, Success, 0, 2 * SECOND), 2 := SECOND_RUN, 3 := THIRD_RUN],
                multiset{Task(1, Drain), Task(3, ScheduledRun)}, 3 * SECOND)
    ensures Enabled(cal, s, DrainQueue(1, Some(2), 3 * SECOND))
    ensures var t := Apply(cal, s, DrainQueue(1, Some(2), 3 * SECOND));
            RunsOn(t, 2, 7) && RunsOn(t, 3, 7)
  {
    assert WaitsOn(s, 2, 7);
    assert forall q | q in s.runs && WaitsOn(s, q, 7) :: q == 2;
    assert Oldest(s, 2, 7);
  }

  /** No trigger, no cancel, no parallel schedule: a fire between a run's end and its drain, and
      the drain starts a second run beside the fire's. */
  lemma LateDrainStartsSecond(cal: Calendar)
    ensures Possible(cal, EMPTY, LateDrain())
    ensures var s := After(cal, EMPTY, LateDrain());
            RunsOn(s, 2, 7) && RunsOn(s, 3, 7) && !AtMostOne(s, 7)
  {
    AfterThirdFire(cal);
    DrainedLate(cal, After(cal, EMPTY, ThirdFire()));
    PossibleAdd(cal, EMPTY, ThirdFire(), DrainQueue(1, Some(2), 3 * SECOND));
  }

  // ---- a retry beyond the end of time ----

  /** 300 000 000 000 seconds from 1970 is beyond year 9999. */
  const FAR: Settings := EverySecond(1, 300_000_000_000)

  function Strand(): seq<Step> {
    OneFire(FAR) + [Finish(Task(1, ScheduledRun), Exit(1), SECOND)]
  }

  function QueuedForGood(): seq<Step> {
    Strand() + [Fire(1, 2 * SECOND)]
  }

  lemma AfterStrand(cal: Calendar)
    ensures Possible(cal, EMPTY, Strand())
    ensures Is(After(cal, EMPTY, Strand()), FAR, 1, map[1 := FIRST_RUN], multiset{}, SECOND)
    ensures Overflowed(cal, Strand(), 1)
  {
    AfterOneFire(cal, FAR);
    var s := After(cal, EMPTY, OneFire(FAR));
    var step := Finish(Task(1, ScheduledRun), Exit(1), SECOND);
    assert Pow2(0) == 1;
    assert StrandsRow(s, step, 1);
    PossibleAdd(cal, EMPTY, OneFire(FAR), step);
    assert Strand()[..|Strand()| - 1] == OneFire(FAR);
  }

  lemma QueuedBehindStranded(cal: Calendar, s: State)
    requires s.runs == map[1 := FIRST_RUN, 2 := SECOND_RUN] && s.tasks == multiset{}
    ensures Stranded(s, 1) && RunsOn(s, 1, 7) && WaitsOn(s, 2, 7)
    ensures !Wakeups.Covered(s, 7) && !Wakeups.CanGoOn(cal, s)
  {
    Wakeups.NothingToDo(cal, s);
    assert WaitsOn(s, 2, 7) && !Wakeups.Driven(s, 7);
  }

  /** A row that says running with nothing executing it, a run queued behind it, and nothing that
      could ever settle either: without any manual trigger. */
  lemma OverflowForgetsTheQueue(cal: Calendar)
    ensures Possible(cal, EMPTY, QueuedForGood())
    ensures var s := After(cal, EMPTY, QueuedForGood());
            && Stranded(s, 1) && RunsOn(s, 1, 7) && WaitsOn(s, 2, 7)
            && s.tasks == multiset{} && !Wakeups.Covered(s, 7) && !Wakeups.CanGoOn(cal, s)
  {
    AfterStrand(cal);
    var s := After(cal, EMPTY, Strand());
    assert RunsOn(s, 1, 7) && Waiting(s, 7) == {};
    Fired(cal, Strand(), FAR, 1, map[1 := FIRST_RUN], multiset{}, SECOND, 2 * SECOND, Queued);
    QueuedBehindStranded(cal, After(cal, EMPTY, QueuedForGood()));
  }

  lemma {:induction false} StrandedForGood(cal: Calendar, s: State, steps: seq<Step>, r: nat)
    requires Inv(s) && Possible(cal, s, steps) && Stranded(s, r)
    ensures Inv(After(cal, s, steps)) && Stranded(After(cal, s, steps), r)
    decreases |steps|
  {
    if |steps| > 0 {
      var n := |steps| - 1;
      LastStep(cal, s, steps);
      StrandedForGood(cal, s, steps[..n], r);
      StepKeeps(cal, After(cal, s, steps[..n]), steps[n]);
      StrandedStep(cal, After(cal, s, steps[..n]), steps[n], r);
    }
  }

  // ---- a schedule that ends every tick ----

  const PATIENT: Settings := EverySecond(1, 0)
  const BAD_ZONE: Settings := Plain(Cron(CronSpec(HOURLY, Some("/x"), None, None)))

  const RETRYING_RUN: Run := FIRST_RUN.(status := PendingRetry, attempt := 1, nextAttemptAt := Some(SECOND))

  function Waits(): seq<Step> {
    OneFire(PATIENT) + [Finish(Task(1, ScheduledRun), Exit(1), SECOND)]
  }

  function Blocked(): seq<Step> {
    Waits() + [CreateSchedule(8, BAD_ZONE, SECOND)] + [SetEnabled(2, true, HOUR)]
  }

  lemma RetryWaits(s: State)
    requires Is(s, PATIENT, 1, map[1 := FIRST_RUN], multiset{Task(1, ScheduledRun)}, SECOND)
    ensures var task := Task(1, ScheduledRun);
            && Retries(s, task, Exit(1)) && !Strands(s, task, Exit(1), SECOND)
            && Is(ApplyRetry(s, task, SECOND), PATIENT, 1, map[1 := RETRYING_RUN], multiset{}, SECOND)
  {
    assert Delay(0, 0) == 0;
  }

  lemma AfterWaits()
    ensures Possible(CLOCK, EMPTY, Waits())
    ensures Is(After(CLOCK, EMPTY, Waits()), PATIENT, 1,
               map[1 := RETRYING_RUN],
               multiset{}, SECOND)
  {
    AfterOneFire(CLOCK, PATIENT);
    RetryWaits(After(CLOCK, EMPTY, OneFire(PATIENT)));
    PossibleAdd(CLOCK, EMPTY, OneFire(PATIENT), Finish(Task(1, ScheduledRun), Exit(1), SECOND));
  }

  lemma BadZoneCreated(s: State)
    requires Is(s, PATIENT, 1, map[1 := RETRYING_RUN], multiset{}, SECOND)
    ensures Enabled(CLOCK, s, CreateSchedule(8, BAD_ZONE, SECOND))
    ensures var t := Apply(CLOCK, s, CreateSchedule(8, BAD_ZONE, SECOND));
            && t.runs == s.runs && t.tasks == s.tasks && t.clock == SECOND
            && 2 in t.schedules && t.schedules[2] == Schedule(8, BAD_ZONE, HOUR, 0)
  {
    assert NextHour(SECOND) == HOUR;
  }

  lemma BadZoneEnabled(s: State)
    requires 2 in s.schedules && s.schedules[2] == Schedule(8, BAD_ZONE, HOUR, 0) && s.clock == SECOND
    ensures Enabled(CLOCK, s, SetEnabled(2, true, HOUR))
    ensures var t := Apply(CLOCK, s, SetEnabled(2, true, HOUR));
            t.runs == s.runs && t.tasks == s.tasks && t.clock == HOUR && t.schedules == s.schedules
  {
    assert s.schedules[2].(settings := s.schedules[2].settings.(enabled := true)) == s.schedules[2];
  }

  lemma BlockedState()
    ensures Possible(CLOCK, EMPTY, Blocked())
    ensures var s := After(CLOCK, EMPTY, Blocked());
            && s.runs == map[1 := RETRYING_RUN] && s.tasks == multiset{} && s.clock == HOUR
            && 2 in s.schedules && s.schedules[2] == Schedule(8, BAD_ZONE, HOUR, 0)
  {
    AfterWaits();
    var steps := Waits() + [CreateSchedule(8, BAD_ZONE, SECOND)];
    BadZoneCreated(After(CLOCK, EMPTY, Waits()));
    PossibleAdd(CLOCK, EMPTY, Waits(), CreateSchedule(8, BAD_ZONE, SECOND));
    BadZoneEnabled(After(CLOCK, EMPTY, steps));
    PossibleAdd(CLOCK, EMPTY, steps, SetEnabled(2, true, HOUR));
  }

  lemma NothingStarts(cal: Calendar, s: State)
    requires s.tasks == multiset{} && forall now | s.clock <= now :: Wakeups.TickRaises(cal, s, now)
    ensures !Wakeups.CanGoOn(cal, s)
  {
  }

  lemma BadZoneRaises(s: State, now: Instant)
    requires 2 in s.schedules && s.schedules[2] == Schedule(8, BAD_ZONE, HOUR, 0) && HOUR <= now
    ensures Wakeups.TickRaises(CLOCK, s, now)
  {
    assert ScheduleDue(s, 2, now) && FireRaises(CLOCK, s, 2);
  }

  /** A retry of script 7 is due and nothing is running, but from the first hour on every tick
      ends at the schedule of script 8, whose zone key is malformed. */
  lemma BadZoneBlocksEveryRetry()
    ensures Possible(CLOCK, EMPTY, Blocked())
    ensures var s := After(CLOCK, EMPTY, Blocked());
            && RetryDue(s, 1, s.clock) && !Active(s, 7) && s.tasks == multiset{}
            && (forall now | s.clock <= now :: Wakeups.TickRaises(CLOCK, s, now))
            && !Wakeups.CanGoOn(CLOCK, s)
  {
    BlockedState();
    var s := After(CLOCK, EMPTY, Blocked());
    forall now | s.clock <= now ensures Wakeups.TickRaises(CLOCK, s, now) {
      BadZoneRaises(s, now);
    }
    NothingStarts(CLOCK, s);
  }
}
