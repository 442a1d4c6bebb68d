/** Every fire of a schedule leaves exactly one row, and the drop counter counts rows. */
module FireLedger {
  import opened Prelude
  import opened ScheduleService
  import opened Lifecycle
  import opened RunRows

  /** The outcomes whose rows carry this skip reason. */
  function OutcomesOf(reason: Option<SkipReason>): set<Outcome> {
    match reason
    case None => {Dispatched, Queued}
    case Some(Overlap) => {SkippedOverlap}
    case Some(QueueFull) => {SkippedFull}
  }

  ghost predicate FiresIn(s: State, step: Step, id: nat, outcomes: set<Outcome>) {
    step.Fire? && step.id == id && id in s.schedules && OutcomeOf(s, s.schedules[id]) in outcomes
  }

  /** The rows that fires of `id` with one of these outcomes created, in order. */
  ghost function FiredIn(cal: Calendar, steps: seq<Step>, id: nat, outcomes: set<Outcome>): seq<nat>
    requires Possible(cal, EMPTY, steps)
  {
    if |steps| == 0 then []
    else
      var n := |steps| - 1;
      var s := After(cal, EMPTY, steps[..n]);
      FiredIn(cal, steps[..n], id, outcomes) + if FiresIn(s, steps[n], id, outcomes) then [s.nextRun] else []
  }

  ghost function FiredWith(cal: Calendar, steps: seq<Step>, id: nat, outcome: Outcome): seq<nat>
    requires Possible(cal, EMPTY, steps)
  {
    FiredIn(cal, steps, id, {outcome})
  }

  function Fires(steps: seq<Step>, id: nat): nat {
    if |steps| == 0 then 0
    else
      var n := |steps| - 1;
      Fires(steps[..n], id) + if steps[n].Fire? && steps[n].id == id then 1 else 0
  }

  predicate RowOf(s: State, r: nat, id: nat, reason: Option<SkipReason>) {
    r in s.runs && s.runs[r].schedule == Some(id) && s.runs[r].skipReason == reason
  }

  function RowsOf(s: State, id: nat, reason: Option<SkipReason>): set<nat> {
    set r | r in s.runs && RowOf(s, r, id, reason)
  }

  predicate Deletes(step: Step, id: nat) {
    step.DeleteSchedule? && step.id == id
  }

  lemma NewRowOf(cal: Calendar, s: State, step: Step, r: nat, id: nat, reason: Option<SkipReason>)
    requires Inv(s) && Enabled(cal, s, step) && r !in s.runs
    ensures RowOf(Apply(cal, s, step), r, id, reason) <==> FiresIn(s, step, id, OutcomesOf(reason)) && r == s.nextRun
  {
    NoRowBeyond(s);
    if r in Apply(cal, s, step).runs {
      NewRow(cal, s, step, r);
    }
  }

  lemma OldRowOf(cal: Calendar, s: State, step: Step, r: nat, id: nat, reason: Option<SkipReason>)
    requires Inv(s) && Enabled(cal, s, step) && r in s.runs && !Deletes(step, id)
    ensures RowOf(Apply(cal, s, step), r, id, reason) <==> RowOf(s, r, id, reason)
  {
    RowAfterStep(cal, s, step, r);
    NoRowBeyond(s);
  }

  /** `ids` lists exactly the schedule's rows with this reason, oldest first. */
  ghost predicate Lists(s: State, id: nat, reason: Option<SkipReason>, ids: seq<nat>) {
    && (forall r: nat :: RowOf(s, r, id, reason) <==> r in ids)
    && (forall i, j | 0 <= i < j < |ids| :: ids[i] < ids[j])
  }

  lemma ListsStep(cal: Calendar, s: State, step: Step, id: nat, reason: Option<SkipReason>, ids: seq<nat>)
    requires Inv(s) && Enabled(cal, s, step) && Lists(s, id, reason, ids) && !Deletes(step, id)
    ensures Lists(Apply(cal, s, step), id, reason,
                  ids + if FiresIn(s, step, id, OutcomesOf(reason)) then [s.nextRun] else [])
  {
    var more := ids + if FiresIn(s, step, id, OutcomesOf(reason)) then [s.nextRun] else [];
    forall r: nat ensures RowOf(Apply(cal, s, step), r, id, reason) <==> r in more {
      NoRowBeyond(s);
      if r in s.runs {
        OldRowOf(cal, s, step, r, id, reason);
      } else {
        NewRowOf(cal, s, step, r, id, reason);
      }
    }
    forall i | 0 <= i < |ids| ensures ids[i] < s.nextRun {
      assert ids[i] in ids;
      assert RowFine(s, ids[i]);
    }
  }

  /** The rows carrying a schedule's id are the rows its fires created, one each, and each
      fire's row keeps telling what became of it. */
  lemma {:induction false} RowsAreFires(cal: Calendar, steps: seq<Step>, id: nat, reason: Option<SkipReason>)
    requires Possible(cal, EMPTY, steps)
    requires forall i | 0 <= i < |steps| :: !Deletes(steps[i], id)
    ensures Lists(After(cal, EMPTY, steps), id, reason, FiredIn(cal, steps, id, OutcomesOf(reason)))
    decreases |steps|
  {
    if |steps| > 0 {
      var n := |steps| - 1;
      RowsAreFires(cal, steps[..n], id, reason);
      EveryReachableState(cal, steps[..n]);
      ListsStep(cal, After(cal, EMPTY, steps[..n]), steps[n], id, reason,
                FiredIn(cal, steps[..n], id, OutcomesOf(reason)));
    }
  }

  lemma {:induction false} IncreasingCount(ids: seq<nat>, rows: set<nat>)
    requires forall r: nat :: r in rows <==> r in ids
    requires forall i, j | 0 <= i < j < |ids| :: ids[i] < ids[j]
    ensures |rows| == |ids|
  {
    if |ids| == 0 {
      assert rows == {};
    } else {
      var last := ids[|ids| - 1];
      var front := ids[..|ids| - 1];
      assert ids == front + [last];
      assert last in rows;
      IncreasingCount(front, rows - {last});
    }
  }

  lemma {:induction false} FiredInSplits(cal: Calendar, steps: seq<Step>, id: nat, a: set<Outcome>, b: set<Outcome>)
    requires Possible(cal, EMPTY, steps) && a !! b
    ensures |FiredIn(cal, steps, id, a + b)| == |FiredIn(cal, steps, id, a)| + |FiredIn(cal, steps, id, b)|
    decreases |steps|
  {
    if |steps| > 0 {
      FiredInSplits(cal, steps[..|steps| - 1], id, a, b);
    }
  }

  const EVERY_OUTCOME: set<Outcome> := {Dispatched, Queued, SkippedOverlap, SkippedFull}

  lemma NoOtherOutcome(outcome: Outcome)
    ensures outcome in EVERY_OUTCOME
  {
    match outcome
    case Dispatched =>
    case Queued =>
    case SkippedOverlap =>
    case SkippedFull =>
  }

  lemma {:induction false} EveryFireCounts(cal: Calendar, steps: seq<Step>, id: nat)
    requires Possible(cal, EMPTY, steps)
    ensures Fires(steps, id) == |FiredIn(cal, steps, id, EVERY_OUTCOME)|
    decreases |steps|
  {
    if |steps| > 0 {
      var n := |steps| - 1;
      EveryFireCounts(cal, steps[..n], id);
      if steps[n].Fire? && steps[n].id == id {
        var s := After(cal, EMPTY, steps[..n]);
        NoOtherOutcome(OutcomeOf(s, s.schedules[id]));
      }
    }
  }

  /** Every fire has exactly one of the four outcomes. */
  lemma {:induction false} FiresPartition(cal: Calendar, steps: seq<Step>, id: nat)
    requires Possible(cal, EMPTY, steps)
    ensures Fires(steps, id) ==
            |FiredWith(cal, steps, id, Dispatched)| + |FiredWith(cal, steps, id, Queued)| +
            |FiredWith(cal, steps, id, SkippedOverlap)| + |FiredWith(cal, steps, id, SkippedFull)|
  {
    var started, skipped := {Dispatched} + {Queued}, {SkippedOverlap} + {SkippedFull};
    EveryFireCounts(cal, steps, id);
    assert EVERY_OUTCOME == started + skipped;
    FiredInSplits(cal, steps, id, started, skipped);
    FiredInSplits(cal, steps, id, {Dispatched}, {Queued});
    FiredInSplits(cal, steps, id, {SkippedOverlap}, {SkippedFull});
  }

  // ---- queue_dropped ----

  predicate SchedulesBelow(s: State) {
    forall id | id in s.schedules :: id < s.nextSchedule
  }

  predicate DroppedIs(s: State, id: nat, dropped: nat) {
    if id in s.schedules then s.schedules[id].queueDropped == dropped else dropped == 0
  }

  lemma DroppedStep(cal: Calendar, s: State, step: Step, id: nat, dropped: nat)
    requires Enabled(cal, s, step) && SchedulesBelow(s) && !Deletes(step, id)
    requires DroppedIs(s, id, dropped)
    ensures SchedulesBelow(Apply(cal, s, step))
    ensures DroppedIs(Apply(cal, s, step), id,
                      dropped + if FiresIn(s, step, id, {SkippedFull}) then 1 else 0)
  {
    if step.PickRetry? || step.Trigger? || step.Cancel? || step.Finish? || step.DrainQueue? {
      RunStepsKeepSchedules(cal, s, step);
    }
  }

  lemma {:induction false} DroppedCountsFires(cal: Calendar, steps: seq<Step>, id: nat)
    requires Possible(cal, EMPTY, steps)
    requires forall i | 0 <= i < |steps| :: !Deletes(steps[i], id)
    ensures SchedulesBelow(After(cal, EMPTY, steps))
    ensures DroppedIs(After(cal, EMPTY, steps), id, |FiredWith(cal, steps, id, SkippedFull)|)
    decreases |steps|
  {
    if |steps| > 0 {
      var n := |steps| - 1;
      DroppedCountsFires(cal, steps[..n], id);
      DroppedStep(cal, After(cal, EMPTY, steps[..n]), steps[n], id,
                  |FiredWith(cal, steps[..n], id, SkippedFull)|);
    }
  }

  /** The books balance: each fire was dispatched, queued, skipped for overlap or skipped for a
      full queue; the rows carrying the id are one per fire, by their skip reason; and
      queue_dropped is the number of the last. */
  lemma {:induction false} LedgerBalances(cal: Calendar, steps: seq<Step>, id: nat)
    requires Possible(cal, EMPTY, steps)
    requires forall i | 0 <= i < |steps| :: !Deletes(steps[i], id)
    ensures var s := After(cal, EMPTY, steps);
            var dispatched, queued := |FiredWith(cal, steps, id, Dispatched)|, |FiredWith(cal, steps, id, Queued)|;
            var overlap, full := |FiredWith(cal, steps, id, SkippedOverlap)|, |FiredWith(cal, steps, id, SkippedFull)|;
            && Fires(steps, id) == dispatched + queued + overlap + full
            && |RowsOf(s, id, None)| == dispatched + queued
            && |RowsOf(s, id, Some(Overlap))| == overlap
            && |RowsOf(s, id, Some(QueueFull))| == full
            && (id in s.schedules ==> s.schedules[id].queueDropped == full)
  {
    CountRows(cal, steps, id, None);
    CountRows(cal, steps, id, Some(Overlap));
    CountRows(cal, steps, id, Some(QueueFull));
    assert OutcomesOf(None) == {Dispatched} + {Queued};
    FiredInSplits(cal, steps, id, {Dispatched}, {Queued});
    FiresPartition(cal, steps, id);
    DroppedCountsFires(cal, steps, id);
  }

  lemma CountRows(cal: Calendar, steps: seq<Step>, id: nat, reason: Option<SkipReason>)
    requires Possible(cal, EMPTY, steps)
    requires forall i | 0 <= i < |steps| :: !Deletes(steps[i], id)
    ensures |RowsOf(After(cal, EMPTY, steps), id, reason)| == |FiredIn(cal, steps, id, OutcomesOf(reason))|
  {
    RowsAreFires(cal, steps, id, reason);
    IncreasingCount(FiredIn(cal, steps, id, OutcomesOf(reason)), RowsOf(After(cal, EMPTY, steps), id, reason));
  }
}
