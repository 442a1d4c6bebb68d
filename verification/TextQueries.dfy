/** The time queries of services/schedule_service.py and services/run_service.py, which compare
    and order timestamp columns as text, against the queries of the life cycle, which compare
    instants. */
module TextQueries {
  import opened Prelude
  import opened Positional
  import opened IsoTime
  import opened Lifecycle

  /** `d` is the UTC datetime of `t`; a column for `t` holds Iso(d). */
  predicate Stands(d: DateTime, t: Instant) {
    Valid(d) && Moment(d) == t
  }

  /** `column <= now`, as SQLite compares the two texts. */
  predicate NotAfter(column: DateTime, now: DateTime) {
    !Before(Iso(now), Iso(column))
  }

  lemma {:induction false} NotAfterIs(column: DateTime, t: Instant, now: DateTime, u: Instant)
    requires Stands(column, t) && Stands(now, u)
    ensures NotAfter(column, now) <==> t <= u
  {
    TextOrderIsTimeOrder(now, column);
  }

  /** list_due finds the schedules due by the clock. */
  lemma {:induction false} DueByText(s: State, id: nat, nextRun: DateTime, now: DateTime)
    requires id in s.schedules && Stands(nextRun, s.schedules[id].cursor) && Valid(now)
    ensures ScheduleDue(s, id, Moment(now)) <==> s.schedules[id].settings.enabled && NotAfter(nextRun, now)
  {
    NotAfterIs(nextRun, s.schedules[id].cursor, now, Moment(now));
  }

  /** pick_due_retries finds the retries due by the clock; a null never compares. */
  lemma {:induction false} RetriesByText(s: State, r: nat, nextAttempt: Option<DateTime>, now: DateTime)
    requires r in s.runs && Valid(now)
    requires nextAttempt.Some? <==> s.runs[r].nextAttemptAt.Some?
    requires nextAttempt.Some? ==> Stands(nextAttempt.value, s.runs[r].nextAttemptAt.value)
    ensures RetryDue(s, r, Moment(now)) <==>
            s.runs[r].status == PendingRetry && nextAttempt.Some? && NotAfter(nextAttempt.value, now)
  {
    if nextAttempt.Some? {
      NotAfterIs(nextAttempt.value, s.runs[r].nextAttemptAt.value, now, Moment(now));
    }
  }

  /** The started_at column. */
  predicate StartedColumn(s: State, started: map<nat, DateTime>) {
    forall r | r in s.runs :: r in started && Stands(started[r], s.runs[r].startedAt)
  }

  /** The first waiting row by started_at as text. */
  predicate FirstByText(s: State, started: map<nat, DateTime>, r: nat, script: nat)
    requires StartedColumn(s, started)
  {
    WaitsOn(s, r, script) && forall q | q in s.runs && WaitsOn(s, q, script) :: NotAfter(started[r], started[q])
  }

  /** promote_oldest_pending takes a row that started no later than any other waiting one. */
  lemma {:induction false} OldestByText(s: State, started: map<nat, DateTime>, r: nat, script: nat)
    requires StartedColumn(s, started)
    ensures FirstByText(s, started, r, script) <==> Oldest(s, r, script)
  {
    if WaitsOn(s, r, script) {
      forall q | q in s.runs && WaitsOn(s, q, script)
        ensures NotAfter(started[r], started[q]) <==> s.runs[r].startedAt <= s.runs[q].startedAt
      {
        NotAfterIs(started[r], s.runs[r].startedAt, started[q], s.runs[q].startedAt);
      }
    }
  }
}
