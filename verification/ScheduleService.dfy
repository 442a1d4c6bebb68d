/** services/schedule_service.py: when does a schedule fire next?

    croniter and zoneinfo are outside the model.  A `Calendar` stands for them: for a
    well-formed expression, croniter yields the least element strictly after a given
    wall-clock time of a set of instants that the expression fixes, and a time zone is a
    fixed offset from UTC. */
module ScheduleService {
  import opened Prelude
  import opened FireSearch

  datatype RawCalendar = RawCalendar(
    wellFormed: string -> bool,               // croniter(expr, ...) does not raise
    next: (string, Instant) -> Option<Instant>, // croniter(expr, t).get_next(), wall clock
    offset: string -> Option<int>,            // ZoneInfo(name).utcoffset, None if that raises
    badKey: string -> bool,                   // it raises ValueError, not ZoneInfoNotFoundError
    dateOf: Instant -> string,                // wall clock .date().isoformat()
    weekdayOf: Instant -> int                 // wall clock .weekday(), Monday is 0
  )

  /** `next` walks one fixed set of instants in increasing order: nothing it yields changes
      until the clock passes it, and once it is exhausted it stays so. */
  ghost predicate Lawful(c: RawCalendar) {
    forall expr, t, later :: LawfulAt(c, expr, t, later)
  }

  ghost predicate LawfulAt(c: RawCalendar, expr: string, t: Instant, later: Instant) {
    t <= later ==>
      match c.next(expr, t)
      case None => c.next(expr, later).None?
      case Some(u) => t < u && (later < u ==> c.next(expr, later) == Some(u))
  }

  type Calendar = c: RawCalendar | Lawful(c)
    witness RawCalendar(_ => false, (_, _) => None, _ => None, _ => false, _ => "", _ => 0)

  /** The cron-specific columns of a schedule row. */
  datatype CronSpec = CronSpec(
    expression: string,
    timezone: Option<string>,
    blackouts: Option<seq<string>>,
    includeDays: Option<set<int>>
  )

  datatype Reason = UnknownZone | BadCron | NoFire

  /** What compute_next_run raises: a ComputeError, which its callers catch, or the ValueError of
      a malformed zone key, which nobody does. */
  datatype Exception = ComputeError(reason: Reason) | ValueError

  function ZoneName(spec: CronSpec): string {
    match spec.timezone
    case None => "UTC"
    case Some(name) => if name == "" then "UTC" else name
  }

  predicate Passes(cal: Calendar, spec: CronSpec, local: Instant) {
    && (spec.includeDays.Some? ==> cal.weekdayOf(local) in spec.includeDays.value)
    && (spec.blackouts.Some? ==> cal.dateOf(local) !in spec.blackouts.value)
  }

  predicate IsFire(cal: Calendar, expr: string, local: Instant) {
    cal.next(expr, local - 1) == Some(local)
  }

  predicate Computable(cal: Calendar, spec: CronSpec) {
    cal.offset(ZoneName(spec)).Some? && cal.wellFormed(spec.expression)
  }

  predicate ZoneRaises(cal: Calendar, spec: CronSpec) {
    cal.offset(ZoneName(spec)).None? && cal.badKey(ZoneName(spec))
  }

  /** The schedule's own meaning: `t` is a fire of its cron that its filters let through. */
  predicate Occurs(cal: Calendar, spec: CronSpec, t: Instant) {
    && Computable(cal, spec)
    && var local := t + cal.offset(ZoneName(spec)).value;
       IsFire(cal, spec.expression, local) && Passes(cal, spec, local)
  }

  ghost function Occurrences(cal: Calendar, spec: CronSpec): iset<Instant> {
    iset t: Instant | Occurs(cal, spec, t)
  }

  ghost function NextRun(cal: Calendar, spec: CronSpec, after: Instant): Option<Instant> {
    Next(Occurrences(cal, spec), after)
  }

  /** A fire after `t` is never overtaken by the iterator. */
  lemma NextBeforeFire(cal: Calendar, expr: string, t: Instant, u: Instant)
    requires IsFire(cal, expr, u) && t < u
    ensures cal.next(expr, t).Some? && t < cal.next(expr, t).value <= u
  {
    assert LawfulAt(cal, expr, t, u - 1);
  }

  lemma {:induction false} NextIsFire(cal: Calendar, expr: string, t: Instant)
    requires cal.next(expr, t).Some?
    ensures t < cal.next(expr, t).value && IsFire(cal, expr, cal.next(expr, t).value)
  {
    var u := cal.next(expr, t).value;
    assert LawfulAt(cal, expr, t, t);
    assert LawfulAt(cal, expr, t, u - 1);
  }

  /** The answer, without reference to any other definition: what compute_next_run may return or
      raise for a fire of the expression in the zone's wall clock. */
  ghost predicate Answers(cal: Calendar, spec: CronSpec, after: Instant, r: Result<Instant, Exception>) {
    var name := if spec.timezone.None? || spec.timezone.value == "" then "UTC" else spec.timezone.value;
    match cal.offset(name)
    case None => r == Err(if cal.badKey(name) then ValueError else ComputeError(UnknownZone))
    case Some(offset) =>
      if !cal.wellFormed(spec.expression) then r == Err(ComputeError(BadCron))
      else match r
        case Ok(t) =>
          && after < t <= after + 7 * 86_400 * 1_000_000
          && cal.next(spec.expression, t + offset - 1) == Some(t + offset)
          && (spec.includeDays.Some? ==> cal.weekdayOf(t + offset) in spec.includeDays.value)
          && (spec.blackouts.Some? ==> cal.dateOf(t + offset) !in spec.blackouts.value)
          && AllFiltered(cal, spec, after + offset, t + offset - 1)
        case Err(e) =>
          e == ComputeError(NoFire) && AllFiltered(cal, spec, after + offset, after + offset + 7 * 86_400 * 1_000_000)
  }

  /** Every fire after `from` and up to `to`, on the wall clock, falls on a day that is not
      included or on a date that is blacked out. */
  ghost predicate AllFiltered(cal: Calendar, spec: CronSpec, from: Instant, to: Instant) {
    forall local | from < local <= to && IsFire(cal, spec.expression, local) ::
      || (spec.includeDays.Some? && cal.weekdayOf(local) !in spec.includeDays.value)
      || (spec.blackouts.Some? && cal.dateOf(local) in spec.blackouts.value)
  }

  lemma FilteredIs(cal: Calendar, spec: CronSpec, from: Instant, to: Instant)
    requires Computable(cal, spec)
    requires forall t | from < t <= to :: !Occurs(cal, spec, t)
    ensures var offset := cal.offset(ZoneName(spec)).value; AllFiltered(cal, spec, from + offset, to + offset)
  {
    var offset := cal.offset(ZoneName(spec)).value;
    forall local | from + offset < local <= to + offset && IsFire(cal, spec.expression, local)
      ensures !Passes(cal, spec, local)
    {
      assert !Occurs(cal, spec, local - offset);
    }
  }

  lemma AnswerFound(cal: Calendar, spec: CronSpec, after: Instant, t: Instant)
    requires NextRun(cal, spec, after) == Some(t)
    ensures Answers(cal, spec, after, Ok(t))
  {
    assert Occurs(cal, spec, t);
    forall u | after < u <= t - 1 ensures !Occurs(cal, spec, u) {
      assert u !in Occurrences(cal, spec);
    }
    FilteredIs(cal, spec, after, t - 1);
  }

  lemma NoAnswer(cal: Calendar, spec: CronSpec, after: Instant)
    requires Computable(cal, spec) && NextRun(cal, spec, after) == None
    ensures Answers(cal, spec, after, Err(ComputeError(NoFire)))
  {
    forall t | after < t <= after + HORIZON ensures !Occurs(cal, spec, t) {
      if Occurs(cal, spec, t) {
        NextExists(Occurrences(cal, spec), after, t);
      }
    }
    FilteredIs(cal, spec, after, after + HORIZON);
  }

  /** The same of the function the other modules use. */
  lemma {:induction false} NextRunMeans(cal: Calendar, spec: CronSpec, after: Instant)
    ensures NextRun(cal, spec, after).Some? ==> Answers(cal, spec, after, Ok(NextRun(cal, spec, after).value))
    ensures NextRun(cal, spec, after).None? && Computable(cal, spec) ==>
              Answers(cal, spec, after, Err(ComputeError(NoFire)))
  {
    if NextRun(cal, spec, after).Some? {
      AnswerFound(cal, spec, after, NextRun(cal, spec, after).value);
    } else if Computable(cal, spec) {
      NoAnswer(cal, spec, after);
    }
  }

  /** compute_next_run: walk the cron stream from `after` in the schedule's own wall clock,
      drop what the filters reject, give up past the horizon. */
  method ComputeNextRun(cal: Calendar, spec: CronSpec, after: Instant)
    returns (r: Result<Instant, Exception>)
    ensures Answers(cal, spec, after, r)
    ensures r.Ok? ==> NextRun(cal, spec, after) == Some(r.value)
    ensures r.Err? ==> NextRun(cal, spec, after) == None
    ensures r == Err(ValueError) <==> ZoneRaises(cal, spec)
    ensures r == Err(ComputeError(UnknownZone)) <==> cal.offset(ZoneName(spec)).None? && !ZoneRaises(cal, spec)
    ensures r == Err(ComputeError(BadCron)) <==> cal.offset(ZoneName(spec)).Some? && !cal.wellFormed(spec.expression)
  {
    var zone := cal.offset(ZoneName(spec));
    if zone.None? {
      return Err(if cal.badKey(ZoneName(spec)) then ValueError else ComputeError(UnknownZone));
    }
    var offset := zone.value;
    var afterLocal := after + offset;
    var horizonEnd := afterLocal + HORIZON;
    if !cal.wellFormed(spec.expression) {
      return Err(ComputeError(BadCron));
    }
    var cur := afterLocal;
    while true
      invariant afterLocal <= cur <= horizonEnd
      invariant forall t | after < t <= cur - offset :: !Occurs(cal, spec, t)
      decreases horizonEnd - cur
    {
      var candidate := cal.next(spec.expression, cur);
      if candidate.None? || candidate.value > horizonEnd {
        forall t | after < t <= after + HORIZON ensures !Occurs(cal, spec, t) {
          if Occurs(cal, spec, t) {
            NextBeforeFire(cal, spec.expression, cur, t + offset);
          }
        }
        NoAnswer(cal, spec, after);
        return Err(ComputeError(NoFire));
      }
      NextIsFire(cal, spec.expression, cur);
      var t := candidate.value - offset;
      forall u | cur - offset < u < t ensures !Occurs(cal, spec, u) {
        if Occurs(cal, spec, u) {
          NextBeforeFire(cal, spec.expression, cur, u + offset);
        }
      }
      if Passes(cal, spec, candidate.value) {
        NextIs(Occurrences(cal, spec), after, t);
        AnswerFound(cal, spec, after, t);
        return Ok(t);
      }
      cur := candidate.value;
    }
  }

  /** The search succeeds exactly when the schedule has an occurrence in the horizon. */
  lemma {:induction false} NextRunExactlyWhen(cal: Calendar, spec: CronSpec, after: Instant)
    ensures NextRun(cal, spec, after).Some? <==>
            exists t :: after < t <= after + HORIZON && Occurs(cal, spec, t)
  {
    if t :| after < t <= after + HORIZON && Occurs(cal, spec, t) {
      NextExists(Occurrences(cal, spec), after, t);
    }
  }

  datatype TimeUnit = Seconds | Minutes | Hours | Days

  function UnitLength(u: TimeUnit): int {
    match u
    case Seconds => SECOND
    case Minutes => 60 * SECOND
    case Hours => 3600 * SECOND
    case Days => 86_400 * SECOND
  }

  /** The `kind` and `expression` columns; an interval's count may be zero or negative. */
  datatype Cadence = Cron(spec: CronSpec) | Interval(n: int, unit: TimeUnit)

  function Period(c: Cadence): (d: int)
    requires c.Interval?
    ensures d > 0 <==> c.n > 0
  {
    c.n * UnitLength(c.unit)
  }

  /** advance_next_run: the plain advance used when a schedule is created or edited; it
      reads the cron in UTC and applies no filter.  None if it raises. */
  function AdvanceNextRun(cal: Calendar, c: Cadence, prev: Instant): (r: Option<Instant>) {
    match c
    case Cron(spec) => if cal.wellFormed(spec.expression) then cal.next(spec.expression, prev) else None
    case Interval(_, _) => if Representable(prev + Period(c)) then Some(prev + Period(c)) else None
  }

  /** The tick's cursor computation raises something other than a ComputeError, and the tick
      ends there: a malformed zone key, or an interval that leaves datetime's range. */
  predicate CursorRaises(cal: Calendar, c: Cadence, cursor: Instant) {
    match c
    case Cron(spec) => ZoneRaises(cal, spec)
    case Interval(_, _) => !Representable(cursor + Period(c))
  }

  /** The cursor the tick stores (tick.py:110-131) unless it raises: a ComputeError leaves the
      cursor alone. */
  ghost function NextCursor(cal: Calendar, c: Cadence, cursor: Instant): Instant {
    match c
    case Cron(spec) => Advanced(Occurrences(cal, spec), cursor)
    case Interval(_, _) => cursor + Period(c)
  }

  /** An interval of n units from `from`, in microseconds: what a create or update writes, and what
      a fire of the schedule makes of its cursor. */
  lemma {:induction false} IntervalsAre(cal: Calendar, n: int, unit: TimeUnit, from: Instant)
    ensures var next := match unit
                        case Seconds => from + n * 1_000_000
                        case Minutes => from + n * 60_000_000
                        case Hours => from + n * 3_600_000_000
                        case Days => from + n * 86_400_000_000;
            && AdvanceNextRun(cal, Interval(n, unit), from) == (if Representable(next) then Some(next) else None)
            && NextCursor(cal, Interval(n, unit), from) == next
            && (CursorRaises(cal, Interval(n, unit), from) <==> !Representable(next))
  {
  }

  lemma AnswerIsNext(cal: Calendar, spec: CronSpec, after: Instant, t: Instant)
    requires Answers(cal, spec, after, Ok(t))
    ensures NextRun(cal, spec, after) == Some(t)
  {
    var offset := cal.offset(ZoneName(spec)).value;
    assert Occurs(cal, spec, t);
    forall u | after < u < t ensures u !in Occurrences(cal, spec) {
      assert IsFire(cal, spec.expression, u + offset) ==> !Passes(cal, spec, u + offset);
    }
    NextIs(Occurrences(cal, spec), after, t);
  }

  lemma AnswerIsNone(cal: Calendar, spec: CronSpec, after: Instant, e: Exception)
    requires Answers(cal, spec, after, Err(e))
    ensures NextRun(cal, spec, after) == None
  {
    if NextRun(cal, spec, after).Some? {
      AnswerFound(cal, spec, after, NextRun(cal, spec, after).value);
    }
  }

  /** What the tick makes of each answer of compute_next_run: the new cursor; the old one after any
      ComputeError; and only a ValueError goes through. */
  lemma {:induction false} CronCursorsAre(cal: Calendar, spec: CronSpec, cursor: Instant, r: Result<Instant, Exception>)
    requires Answers(cal, spec, cursor, r)
    ensures CursorRaises(cal, Cron(spec), cursor) <==> r == Err(ValueError)
    ensures NextCursor(cal, Cron(spec), cursor) == if r.Ok? then r.value else cursor
  {
    match r
    case Ok(t) => AnswerIsNext(cal, spec, cursor, t);
    case Err(e) => AnswerIsNone(cal, spec, cursor, e);
  }

  /** The cursor moves forward at this fire. */
  ghost predicate Advances(cal: Calendar, c: Cadence, cursor: Instant) {
    NextCursor(cal, c, cursor) > cursor
  }

  /** The tick's cursor moves forward exactly when the period is positive or the cron has an
      admissible fire in the next seven days; otherwise the schedule is as due as before. */
  lemma {:induction false} AdvancesExactlyWhen(cal: Calendar, c: Cadence, cursor: Instant)
    ensures Advances(cal, c, cursor) <==>
      match c
      case Cron(spec) => exists t :: cursor < t <= cursor + HORIZON && Occurs(cal, spec, t)
      case Interval(n, _) => n > 0
    ensures c.Cron? && !Advances(cal, c, cursor) ==> NextCursor(cal, c, cursor) == cursor
  {
    match c
    case Interval(_, _) =>
    case Cron(spec) => NextRunExactlyWhen(cal, spec, cursor);
  }

  method ComputeCursor(cal: Calendar, c: Cadence, cursor: Instant) returns (r: Option<Instant>)
    ensures r.None? <==> CursorRaises(cal, c, cursor)
    ensures r.Some? ==> r.value == NextCursor(cal, c, cursor)
  {
    match c
    case Cron(spec) =>
      var next := ComputeNextRun(cal, spec, cursor);
      if next.Err? {
        return if next.error == ValueError then None else Some(cursor);
      }
      return Some(next.value);
    case Interval(_, _) =>
      return AdvanceNextRun(cal, c, cursor);
  }
}
