/** The queue of a script: how long it gets, and in which order it is served. */
module QueueOrder {
  import opened Prelude
  import opened ScheduleService
  import opened Lifecycle
  import opened RunRows

  // ---- length ----

  lemma {:induction false} QueueGrows(cal: Calendar, s: State, step: Step, script: nat)
    requires Inv(s) && Enabled(cal, s, step)
    ensures |Waiting(Apply(cal, s, step), script)| <= |Waiting(s, script)| + 1
    ensures !Enqueues(s, step, script) ==> |Waiting(Apply(cal, s, step), script)| <= |Waiting(s, script)|
  {
    var t := Apply(cal, s, step);
    forall q | q in Waiting(t, script)
      ensures q in Waiting(s, script) || (Enqueues(s, step, script) && q == s.nextRun)
    {
      WaitsAfter(cal, s, step, script, q);
    }
    var bound := Waiting(s, script) + if Enqueues(s, step, script) then {s.nextRun} else {};
    assert Waiting(t, script) <= bound;
    SubsetSize(Waiting(t, script), bound);
  }

  /** Every fire of the script's schedules sees a queue_max of at most `bound`. */
  ghost predicate QueueMaxWithin(cal: Calendar, steps: seq<Step>, script: nat, bound: nat)
    requires Possible(cal, EMPTY, steps)
  {
    |steps| == 0 ||
    var n := |steps| - 1;
    var s := After(cal, EMPTY, steps[..n]);
    && QueueMaxWithin(cal, steps[..n], script, bound)
    && (steps[n].Fire? && s.schedules[steps[n].id].script == script ==>
          s.schedules[steps[n].id].settings.queueMax <= bound)
  }

  /** The queue never gets longer than the largest queue_max its schedules fired with. */
  lemma {:induction false} QueueIsBounded(cal: Calendar, steps: seq<Step>, script: nat, bound: nat)
    requires Possible(cal, EMPTY, steps) && QueueMaxWithin(cal, steps, script, bound)
    ensures |Waiting(After(cal, EMPTY, steps), script)| <= bound
    decreases |steps|
  {
    if |steps| == 0 {
      assert Waiting(EMPTY, script) == {};
    } else {
      var n := |steps| - 1;
      QueueIsBounded(cal, steps[..n], script, bound);
      EveryReachableState(cal, steps[..n]);
      QueueGrows(cal, After(cal, EMPTY, steps[..n]), steps[n], script);
    }
  }

  lemma {:induction false} QueueMaxWithinHundred(cal: Calendar, steps: seq<Step>, script: nat)
    requires Possible(cal, EMPTY, steps)
    ensures QueueMaxWithin(cal, steps, script, 100)
    decreases |steps|
  {
    if |steps| > 0 {
      QueueMaxWithinHundred(cal, steps[..|steps| - 1], script);
    }
  }

  /** Whatever is created, edited or deleted on the way, never more than 100 runs wait. */
  lemma {:induction false} NeverMoreThanHundredWait(cal: Calendar, steps: seq<Step>, script: nat)
    requires Possible(cal, EMPTY, steps)
    ensures |Waiting(After(cal, EMPTY, steps), script)| <= 100
  {
    QueueMaxWithinHundred(cal, steps, script);
    QueueIsBounded(cal, steps, script, 100);
  }

  // ---- order ----

  ghost function QueuedBy(s: State, step: Step, script: nat): seq<nat> {
    if Enqueues(s, step, script) then [s.nextRun] else []
  }

  function PromotedBy(s: State, step: Step, script: nat): seq<nat> {
    if Promotes(s, step, script) then [step.pick.value] else []
  }

  ghost function Enqueued(cal: Calendar, steps: seq<Step>, script: nat): seq<nat>
    requires Possible(cal, EMPTY, steps)
  {
    if |steps| == 0 then []
    else
      var n := |steps| - 1;
      var s := After(cal, EMPTY, steps[..n]);
      Enqueued(cal, steps[..n], script) + QueuedBy(s, steps[n], script)
  }

  ghost function Promoted(cal: Calendar, steps: seq<Step>, script: nat): seq<nat>
    requires Possible(cal, EMPTY, steps)
  {
    if |steps| == 0 then []
    else
      var n := |steps| - 1;
      var s := After(cal, EMPTY, steps[..n]);
      Promoted(cal, steps[..n], script) + PromotedBy(s, steps[n], script)
  }

  /** A run is queued at a later instant than every run still waiting: so it is when the clock
      is strictly increasing. */
  ghost predicate NoTies(cal: Calendar, steps: seq<Step>, script: nat)
    requires Possible(cal, EMPTY, steps)
  {
    |steps| == 0 ||
    var n := |steps| - 1;
    var s := After(cal, EMPTY, steps[..n]);
    && NoTies(cal, steps[..n], script)
    && (Enqueues(s, steps[n], script) ==> Later(s, script, steps[n].now))
  }

  ghost predicate Later(s: State, script: nat, now: Instant) {
    forall q | q in s.runs && WaitsOn(s, q, script) :: s.runs[q].startedAt < now
  }

  lemma LaterThanClock(s: State, script: nat, now: Instant)
    requires Inv(s) && s.clock < now
    ensures Later(s, script, now)
  {
    forall q | q in s.runs && WaitsOn(s, q, script) ensures s.runs[q].startedAt < now {
      assert RowFine(s, q);
    }
  }

  /** Every fire reads a later clock than the step before it. */
  ghost predicate StrictClock(cal: Calendar, steps: seq<Step>)
    requires Possible(cal, EMPTY, steps)
  {
    |steps| == 0 ||
    var n := |steps| - 1;
    StrictClock(cal, steps[..n]) && (steps[n].Fire? ==> After(cal, EMPTY, steps[..n]).clock < steps[n].now)
  }

  lemma {:induction false} StrictClockHasNoTies(cal: Calendar, steps: seq<Step>, script: nat)
    requires Possible(cal, EMPTY, steps) && StrictClock(cal, steps)
    ensures NoTies(cal, steps, script)
    decreases |steps|
  {
    if |steps| > 0 {
      var n := |steps| - 1;
      StrictClockHasNoTies(cal, steps[..n], script);
      EveryReachableState(cal, steps[..n]);
      if steps[n].Fire? {
        LaterThanClock(After(cal, EMPTY, steps[..n]), script, steps[n].now);
      }
    }
  }

  /** `line` is the waiting rows, in the order they started to wait. */
  ghost predicate Lines(s: State, script: nat, line: seq<nat>) {
    && (forall q: nat :: WaitsOn(s, q, script) <==> q in line)
    && (forall i, j | 0 <= i < j < |line| :: Before(s, line[i], line[j]))
  }

  predicate Before(s: State, a: nat, b: nat) {
    a in s.runs && b in s.runs && s.runs[a].startedAt < s.runs[b].startedAt
  }

  /** A step never changes when a row started. */
  lemma BeforeStays(cal: Calendar, s: State, step: Step, a: nat, b: nat)
    requires Inv(s) && Enabled(cal, s, step) && Before(s, a, b)
    ensures Before(Apply(cal, s, step), a, b)
  {
    RowAfterStep(cal, s, step, a);
    RowAfterStep(cal, s, step, b);
  }

  /** The line after a step. */
  ghost function LineAfter(s: State, step: Step, script: nat, line: seq<nat>): seq<nat> {
    if Enqueues(s, step, script) then line + [s.nextRun]
    else if Promotes(s, step, script) && |line| > 0 then line[1..]
    else line
  }

  /** What a drain picks is the head of the line. */
  lemma PicksHead(cal: Calendar, s: State, step: Step, script: nat, line: seq<nat>)
    requires Enabled(cal, s, step) && Promotes(s, step, script) && Lines(s, script, line)
    ensures |line| > 0 && step.pick.value == line[0]
  {
    var p := step.pick.value;
    assert WaitsOn(s, p, script);
    var i :| 0 <= i < |line| && line[i] == p;
    assert line[0] in line;
    assert s.runs[p].startedAt <= s.runs[line[0]].startedAt;
    assert i > 0 ==> Before(s, line[0], line[i]);
  }

  lemma LineStays(cal: Calendar, s: State, step: Step, script: nat, line: seq<nat>)
    requires Inv(s) && Enabled(cal, s, step) && Lines(s, script, line)
    ensures forall i, j | 0 <= i < j < |line| :: Before(Apply(cal, s, step), line[i], line[j])
  {
    forall i, j | 0 <= i < j < |line| ensures Before(Apply(cal, s, step), line[i], line[j]) {
      BeforeStays(cal, s, step, line[i], line[j]);
    }
  }

  lemma EnqueueLine(cal: Calendar, s: State, step: Step, script: nat, line: seq<nat>)
    requires Inv(s) && Enabled(cal, s, step) && Lines(s, script, line)
    requires Enqueues(s, step, script) && Later(s, script, step.now)
    ensures Lines(Apply(cal, s, step), script, line + [s.nextRun])
  {
    var t := Apply(cal, s, step);
    var longer := line + [s.nextRun];
    forall q: nat ensures WaitsOn(t, q, script) <==> q in longer {
      WaitsAfter(cal, s, step, script, q);
    }
    LineStays(cal, s, step, script, line);
    NoRowBeyond(s);
    forall i | 0 <= i < |line| ensures Before(t, line[i], s.nextRun) {
      assert line[i] in line;
      assert WaitsOn(s, line[i], script);
      RowAfterStep(cal, s, step, line[i]);
    }
    forall i, j | 0 <= i < j < |longer| ensures Before(t, longer[i], longer[j]) {
      if j < |line| {
        assert Before(t, line[i], line[j]);
      }
    }
  }

  lemma LineDistinct(s: State, script: nat, line: seq<nat>)
    requires Lines(s, script, line)
    ensures forall i | 0 < i < |line| :: line[i] != line[0]
  {
    forall i | 0 < i < |line| ensures line[i] != line[0] {
      assert Before(s, line[0], line[i]);
    }
  }

  lemma DequeueLine(cal: Calendar, s: State, step: Step, script: nat, line: seq<nat>)
    requires Inv(s) && Enabled(cal, s, step) && Lines(s, script, line) && |line| > 0
    requires Promotes(s, step, script) && step.pick.value == line[0]
    ensures Lines(Apply(cal, s, step), script, line[1..])
  {
    var t := Apply(cal, s, step);
    LineDistinct(s, script, line);
    assert line == [line[0]] + line[1..];
    forall q: nat ensures WaitsOn(t, q, script) <==> q in line[1..] {
      WaitsAfter(cal, s, step, script, q);
    }
    LineStays(cal, s, step, script, line);
  }

  lemma LineStep(cal: Calendar, s: State, step: Step, script: nat, line: seq<nat>)
    requires Inv(s) && Enabled(cal, s, step) && Lines(s, script, line)
    requires Enqueues(s, step, script) ==> Later(s, script, step.now)
    ensures Lines(Apply(cal, s, step), script, LineAfter(s, step, script, line))
  {
    if Enqueues(s, step, script) {
      EnqueueLine(cal, s, step, script, line);
    } else if Promotes(s, step, script) {
      PicksHead(cal, s, step, script, line);
      DequeueLine(cal, s, step, script, line);
    } else {
      forall q: nat ensures WaitsOn(Apply(cal, s, step), q, script) <==> q in line {
        WaitsAfter(cal, s, step, script, q);
      }
      LineStays(cal, s, step, script, line);
    }
  }

  ghost function Line(cal: Calendar, steps: seq<Step>, script: nat): seq<nat>
    requires Possible(cal, EMPTY, steps)
  {
    if |steps| == 0 then []
    else
      var n := |steps| - 1;
      LineAfter(After(cal, EMPTY, steps[..n]), steps[n], script, Line(cal, steps[..n], script))
  }

  lemma OrderStep(cal: Calendar, s: State, step: Step, script: nat, done: seq<nat>, line: seq<nat>)
    requires Enabled(cal, s, step) && Lines(s, script, line)
    ensures (done + line) + QueuedBy(s, step, script) ==
            (done + PromotedBy(s, step, script)) + LineAfter(s, step, script, line)
  {
    if Promotes(s, step, script) {
      PicksHead(cal, s, step, script, line);
      assert line == [line[0]] + line[1..];
    }
  }

  lemma {:induction false} AlwaysLines(cal: Calendar, steps: seq<Step>, script: nat)
    requires Possible(cal, EMPTY, steps) && NoTies(cal, steps, script)
    ensures Lines(After(cal, EMPTY, steps), script, Line(cal, steps, script))
    decreases |steps|
  {
    if |steps| > 0 {
      var n := |steps| - 1;
      AlwaysLines(cal, steps[..n], script);
      EveryReachableState(cal, steps[..n]);
      LineStep(cal, After(cal, EMPTY, steps[..n]), steps[n], script, Line(cal, steps[..n], script));
    }
  }

  /** The queue is first in, first out: the runs promoted so far followed by the runs still
      waiting, in order, are exactly the runs ever queued, in the order they were queued. */
  lemma {:induction false} FirstInFirstOut(cal: Calendar, steps: seq<Step>, script: nat)
    requires Possible(cal, EMPTY, steps) && NoTies(cal, steps, script)
    ensures Lines(After(cal, EMPTY, steps), script, Line(cal, steps, script))
    ensures Enqueued(cal, steps, script) == Promoted(cal, steps, script) + Line(cal, steps, script)
    decreases |steps|
  {
    AlwaysLines(cal, steps, script);
    if |steps| > 0 {
      var n := |steps| - 1;
      FirstInFirstOut(cal, steps[..n], script);
      OrderStep(cal, After(cal, EMPTY, steps[..n]), steps[n], script,
                Promoted(cal, steps[..n], script), Line(cal, steps[..n], script));
    }
  }

  /** Under a strictly increasing clock the k-th run promoted is the k-th run queued. */
  lemma {:induction false} FifoUnderStrictClock(cal: Calendar, steps: seq<Step>, script: nat)
    requires Possible(cal, EMPTY, steps) && StrictClock(cal, steps)
    ensures |Promoted(cal, steps, script)| <= |Enqueued(cal, steps, script)|
    ensures forall k | 0 <= k < |Promoted(cal, steps, script)| ::
              Promoted(cal, steps, script)[k] == Enqueued(cal, steps, script)[k]
  {
    StrictClockHasNoTies(cal, steps, script);
    FirstInFirstOut(cal, steps, script);
  }
}
