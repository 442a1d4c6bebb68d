/** GET /schedules/{id}/next-runs (api/schedules.py) and the browser's previewNextRuns
    (frontend ScheduleForm.tsx), against the cursors the tick will store. */
module NextRuns {
  import opened Prelude
  import opened FireSearch
  import opened ScheduleService

  /** The endpoint's loop: restart the search from each fire; one ComputeError is a 422 for the
      whole request, a ValueError a server error. */
  method NextRunsEndpoint(cal: Calendar, spec: CronSpec, now: Instant, limit: nat)
    returns (r: Result<seq<Instant>, Exception>)
    ensures r.Ok? ==> Cursors(Occurrences(cal, spec), now, limit) == Some(r.value)
    ensures r.Err? ==> Cursors(Occurrences(cal, spec), now, limit) == None
    ensures r == Err(ValueError) <==> limit > 0 && ZoneRaises(cal, spec)
  {
    var fires := [];
    var cursor := now;
    for i := 0 to limit
      invariant |fires| == i && Cursors(Occurrences(cal, spec), now, i) == Some(fires)
      invariant cursor == LastOr(now, fires)
    {
      var next := ComputeNextRun(cal, spec, cursor);
      if next.Err? {
        CursorsNever(Occurrences(cal, spec), now, i + 1, limit);
        return Err(next.error);
      }
      cursor := next.value;
      fires := fires + [cursor];
    }
    return Ok(fires);
  }

  /** Asked at any `now` from `cursor` until its successor, the endpoint lists the iterates of
      the tick's cursor computation, and refuses exactly when one of them stands still. */
  lemma {:induction false} ListingIsStored(cal: Calendar, spec: CronSpec, cursor: Instant, now: Instant, k: nat)
    requires NextRun(cal, spec, cursor).Some?
    requires cursor <= now < NextRun(cal, spec, cursor).value
    ensures var occ := Occurrences(cal, spec);
            var listed := Cursors(occ, now, k);
            && (listed.Some? ==> forall i | 0 <= i < k :: listed.value[i] == Stored(occ, cursor, i + 1))
            && (listed.None? <==> Stalls(occ, cursor, k))
  {
    var occ := Occurrences(cal, spec);
    CursorsSteady(occ, cursor, now, k);
    CursorsFailWhenStalled(occ, cursor, k);
    if Cursors(occ, cursor, k).Some? {
      CursorsAreStored(occ, cursor, k);
    }
  }

  const PREVIEW_STEPS: nat := 500

  function Unfiltered(spec: CronSpec): CronSpec {
    spec.(blackouts := None, includeDays := None)
  }

  ghost predicate StreamEnds(cal: Calendar, spec: CronSpec) {
    Computable(cal, spec) ==> exists t :: cal.next(spec.expression, t).None?
  }

  /** previewNextRuns: one pass over at most 500 candidates, blackouts only; if the iterator
      throws, the whole preview is empty.  The form hands it no include_days.  `walked` is
      the stretch of the cron stream it looked at. */
  method PreviewNextRuns(cal: Calendar, spec: CronSpec, now: Instant, count: nat)
    returns (out: seq<Instant>, ghost walked: seq<Instant>)
    requires spec.includeDays.None?
    ensures |out| <= count && |walked| <= 500
    ensures || (Walked(cal, spec, now, walked, out) && (|out| == count || |walked| == 500))
            || (StreamEnds(cal, spec) && out == [])
  {
    out, walked := [], [];
    var zone := cal.offset(ZoneName(spec));
    if zone.None? || !cal.wellFormed(spec.expression) {
      return;
    }
    var offset := zone.value;
    var cur := now + offset;
    var i := 0;
    while i < PREVIEW_STEPS && |out| < count
      invariant |out| <= count && |walked| == i <= PREVIEW_STEPS
      invariant LastOr(now, walked) == cur - offset
      invariant Walked(cal, spec, now, walked, out)
    {
      var next := cal.next(spec.expression, cur);
      if next.None? {
        out := [];
        return;
      }
      WalkStep(cal, spec, now, walked, out);
      if !Skipped(cal, spec, next.value) {
        out := out + [next.value - offset];
      }
      walked := walked + [next.value - offset];
      cur := next.value;
      i := i + 1;
    }
  }

  /** One candidate of the stream. */
  lemma StreamStep(cal: Calendar, spec: CronSpec, cur: Instant, offset: int)
    requires Computable(cal, spec) && cal.offset(ZoneName(spec)) == Some(offset)
    requires cal.next(spec.expression, cur).Some?
    ensures var t := cal.next(spec.expression, cur).value - offset;
            && cur < t + offset
            && Occurs(cal, Unfiltered(spec), t)
            && (Occurs(cal, spec, t) <==> Passes(cal, spec, t + offset))
            && NoneBetween(Occurrences(cal, Unfiltered(spec)), cur - offset, t)
            && NoneBetween(Occurrences(cal, spec), cur - offset, t)
  {
    NextIsFire(cal, spec.expression, cur);
    var t := cal.next(spec.expression, cur).value - offset;
    assert ZoneName(Unfiltered(spec)) == ZoneName(spec);
    forall u | cur - offset < u < t
      ensures !Occurs(cal, Unfiltered(spec), u) && !Occurs(cal, spec, u)
    {
      if IsFire(cal, spec.expression, u + offset) {
        NextBeforeFire(cal, spec.expression, cur, u + offset);
      }
    }
  }

  ghost predicate Walked(cal: Calendar, spec: CronSpec, now: Instant, walked: seq<Instant>, out: seq<Instant>) {
    Sifted(Occurrences(cal, Unfiltered(spec)), Occurrences(cal, spec), now, walked, out)
  }

  predicate Skipped(cal: Calendar, spec: CronSpec, local: Instant) {
    spec.blackouts.Some? && cal.dateOf(local) in spec.blackouts.value
  }

  lemma WalkStep(cal: Calendar, spec: CronSpec, now: Instant, walked: seq<Instant>, out: seq<Instant>)
    requires spec.includeDays.None? && Computable(cal, spec) && Walked(cal, spec, now, walked, out)
    requires cal.next(spec.expression, LastOr(now, walked) + cal.offset(ZoneName(spec)).value).Some?
    ensures var offset := cal.offset(ZoneName(spec)).value;
            var local := cal.next(spec.expression, LastOr(now, walked) + offset).value;
            Walked(cal, spec, now, walked + [local - offset],
                   if Skipped(cal, spec, local) then out else out + [local - offset])
  {
    var offset := cal.offset(ZoneName(spec)).value;
    var cur := LastOr(now, walked) + offset;
    var t := cal.next(spec.expression, cur).value - offset;
    var kept := if Skipped(cal, spec, t + offset) then out else out + [t];
    StreamStep(cal, spec, cur, offset);
    assert kept == if t in Occurrences(cal, spec) then out + [t] else out;
    SiftedAdd(Occurrences(cal, Unfiltered(spec)), Occurrences(cal, spec), now, walked, out, t);
    assert Walked(cal, spec, now, walked + [t], kept);
  }

  /** A preview that fills `count` is exactly the server's answer, whenever the server has
      one; a shorter preview is the beginning of it. */
  lemma {:induction false} PreviewMirrorsServer(cal: Calendar, spec: CronSpec, now: Instant,
                                                 out: seq<Instant>, count: nat)
    requires Pass(Occurrences(cal, spec), now, out) && |out| <= count
    requires Cursors(Occurrences(cal, spec), now, count).Some?
    ensures out == Cursors(Occurrences(cal, spec), now, count).value[..|out|]
    ensures |out| == count ==> out == Cursors(Occurrences(cal, spec), now, count).value
  {
    CursorsAreFirst(Occurrences(cal, spec), now, count);
    PassUnique(Occurrences(cal, spec), now, out, Cursors(Occurrences(cal, spec), now, count).value);
  }
}
