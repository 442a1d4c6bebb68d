/** runner/executor.py and runner/lock.py: every execution takes a permit of the shared
    semaphore and then its script's lock, and gives both back when it is over.  Waiters are
    served in any order. */
module ScriptLock {
  import opened Prelude

  datatype Phase = WaitPermit | WaitLock | Executing | Done

  datatype Job = Job(script: nat, phase: Phase)

  /** `locks` is the lock table, filled on demand: who holds each script's lock. */
  datatype Gate = Gate(limit: nat, permits: nat, jobs: map<nat, Job>, locks: map<nat, Option<nat>>, nextJob: nat)

  datatype Move = Arrive(script: nat) | TakePermit(job: nat) | TakeLock(job: nat) | Leave(job: nat)

  function Open(limit: nat): Gate {
    Gate(limit, limit, map[], map[], 0)
  }

  predicate At(g: Gate, j: nat, phase: Phase) {
    j in g.jobs && g.jobs[j].phase == phase
  }

  predicate Can(g: Gate, move: Move) {
    match move
    case Arrive(_) => true
    case TakePermit(j) => At(g, j, WaitPermit) && g.permits > 0
    case TakeLock(j) => At(g, j, WaitLock) && g.jobs[j].script in g.locks && g.locks[g.jobs[j].script] == None
    case Leave(j) => At(g, j, Executing)
  }

  function PutJob(g: Gate, j: nat, phase: Phase): Gate
    requires j in g.jobs
  {
    g.(jobs := g.jobs[j := g.jobs[j].(phase := phase)])
  }

  function Apply(g: Gate, move: Move): Gate
    requires Can(g, move)
  {
    match move
    case Arrive(script) => g.(jobs := g.jobs[g.nextJob := Job(script, WaitPermit)], nextJob := g.nextJob + 1)
    case TakePermit(j) =>
      var script := g.jobs[j].script;
      var holder := if script in g.locks then g.locks[script] else None;
      PutJob(g, j, WaitLock).(permits := g.permits - 1, locks := g.locks[script := holder])
    case TakeLock(j) => PutJob(g, j, Executing).(locks := g.locks[g.jobs[j].script := Some(j)])
    case Leave(j) => PutJob(g, j, Done).(permits := g.permits + 1, locks := g.locks[g.jobs[j].script := None])
  }

  ghost predicate Possible(limit: nat, moves: seq<Move>)
    decreases |moves|, 0
  {
    |moves| == 0 ||
    var n := |moves| - 1;
    Possible(limit, moves[..n]) && Can(After(limit, moves[..n]), moves[n])
  }

  ghost function After(limit: nat, moves: seq<Move>): Gate
    requires Possible(limit, moves)
    decreases |moves|, 1
  {
    if |moves| == 0 then Open(limit)
    else Apply(After(limit, moves[..|moves| - 1]), moves[|moves| - 1])
  }

  // ---- what every reachable state keeps ----

  predicate HoldsPermit(g: Gate, j: nat) {
    At(g, j, WaitLock) || At(g, j, Executing)
  }

  function Holders(g: Gate): set<nat> {
    set j | j in g.jobs && HoldsPermit(g, j)
  }

  predicate HoldsLock(g: Gate, j: nat, script: nat) {
    script in g.locks && g.locks[script] == Some(j)
  }

  /** A job executes exactly while it holds its own script's lock, and no other. */
  predicate JobFine(g: Gate, j: nat, script: nat) {
    && (j in g.jobs ==> j < g.nextJob)
    && (HoldsLock(g, j, script) <==> At(g, j, Executing) && g.jobs[j].script == script)
    && (HoldsPermit(g, j) ==> g.jobs[j].script in g.locks)
  }

  ghost predicate Inv(g: Gate) {
    && g.permits + |Holders(g)| == g.limit
    && forall j: nat, script: nat :: JobFine(g, j, script)
  }

  lemma HoldersStep(g: Gate, move: Move)
    requires Inv(g) && Can(g, move)
    ensures Apply(g, move).permits + |Holders(Apply(g, move))| == Apply(g, move).limit
  {
    var t := Apply(g, move);
    match move
    case Arrive(script) =>
      assert JobFine(g, g.nextJob, script);
      assert Holders(t) == Holders(g);
    case TakePermit(j) => assert Holders(t) == Holders(g) + {j};
    case TakeLock(j) => assert Holders(t) == Holders(g);
    case Leave(j) => assert Holders(t) == Holders(g) - {j};
  }

  lemma JobFineStep(g: Gate, move: Move, j: nat, script: nat)
    requires Inv(g) && Can(g, move)
    ensures JobFine(Apply(g, move), j, script)
  {
    assert JobFine(g, j, script) && JobFine(g, g.nextJob, script);
    if !move.Arrive? {
      assert JobFine(g, move.job, script);
      assert JobFine(g, move.job, g.jobs[move.job].script);
      assert JobFine(g, j, g.jobs[move.job].script);
    }
  }

  lemma {:induction false} EveryReachableGate(limit: nat, moves: seq<Move>)
    requires Possible(limit, moves)
    ensures Inv(After(limit, moves)) && After(limit, moves).limit == limit
    decreases |moves|
  {
    if |moves| == 0 {
      assert Holders(Open(limit)) == {};
      forall j: nat, script: nat ensures JobFine(Open(limit), j, script) {}
    } else {
      var n := |moves| - 1;
      var g := After(limit, moves[..n]);
      EveryReachableGate(limit, moves[..n]);
      HoldersStep(g, moves[n]);
      forall j: nat, script: nat ensures JobFine(Apply(g, moves[n]), j, script) {
        JobFineStep(g, moves[n], j, script);
      }
    }
  }

  function ExecutingNow(g: Gate): set<nat> {
    set j | j in g.jobs && At(g, j, Executing)
  }

  /** In every reachable state at most one job per script, and at most `limit` jobs overall,
      are executing. */
  lemma {:induction false} MutualExclusion(limit: nat, moves: seq<Move>, a: nat, b: nat)
    requires Possible(limit, moves)
    ensures var g := After(limit, moves);
            && (At(g, a, Executing) && At(g, b, Executing) && g.jobs[a].script == g.jobs[b].script ==> a == b)
            && |ExecutingNow(g)| <= limit
  {
    EveryReachableGate(limit, moves);
    var g := After(limit, moves);
    SubsetSize(ExecutingNow(g), Holders(g));
    if At(g, a, Executing) && At(g, b, Executing) && g.jobs[a].script == g.jobs[b].script {
      assert JobFine(g, a, g.jobs[a].script) && JobFine(g, b, g.jobs[a].script);
    }
  }

  // ---- no deadlock ----

  ghost predicate CanGoOn(g: Gate) {
    exists move: Move :: !move.Arrive? && Can(g, move)
  }

  lemma SomeoneCanGoOn(g: Gate, j: nat)
    requires Inv(g) && HoldsPermit(g, j)
    ensures CanGoOn(g)
  {
    var script := g.jobs[j].script;
    assert JobFine(g, j, script);
    if At(g, j, Executing) {
      assert Can(g, Leave(j));
    } else if g.locks[script] == None {
      assert Can(g, TakeLock(j));
    } else {
      var holder := g.locks[script].value;
      assert JobFine(g, holder, script);
      assert Can(g, Leave(holder));
    }
  }

  /** Permit before lock is deadlock-free exactly when there are permits at all: while any job
      is unfinished, some job can go on if and only if the limit is positive. */
  lemma {:induction false} NoDeadlockExactlyWhen(g: Gate, j: nat)
    requires Inv(g) && j in g.jobs && g.jobs[j].phase != Done
    ensures CanGoOn(g) <==> g.limit > 0
  {
    if HoldsPermit(g, j) {
      assert j in Holders(g);
      SomeoneCanGoOn(g, j);
    } else if Holders(g) == {} {
      if g.limit > 0 {
        assert Can(g, TakePermit(j));
      }
      forall move: Move | !move.Arrive? && Can(g, move) ensures g.limit > 0 {
        assert HoldsPermit(g, move.job) ==> move.job in Holders(g);
      }
    } else {
      var holder :| holder in Holders(g);
      SomeoneCanGoOn(g, holder);
    }
  }

  // ---- everything finishes ----

  function Left(phase: Phase): nat {
    match phase
    case WaitPermit => 3
    case WaitLock => 2
    case Executing => 1
    case Done => 0
  }

  function LeftBelow(g: Gate, n: nat): nat {
    if n == 0 then 0 else LeftBelow(g, n - 1) + if n - 1 in g.jobs then Left(g.jobs[n - 1].phase) else 0
  }

  lemma {:induction false} OneLess(g: Gate, t: Gate, j: nat, n: nat)
    requires j in g.jobs && j in t.jobs && t.jobs == g.jobs[j := t.jobs[j]]
    requires Left(t.jobs[j].phase) + 1 == Left(g.jobs[j].phase)
    ensures LeftBelow(g, n) == LeftBelow(t, n) + if j < n then 1 else 0
  {
    if n > 0 {
      OneLess(g, t, j, n - 1);
    }
  }

  /** Each move takes one job one phase on, so without new arrivals exactly LeftBelow moves
      remain, in whatever order. */
  lemma {:induction false} MovesAreCounted(g: Gate, move: Move)
    requires Inv(g) && Can(g, move) && !move.Arrive?
    ensures LeftBelow(g, g.nextJob) == LeftBelow(Apply(g, move), Apply(g, move).nextJob) + 1
  {
    assert JobFine(g, move.job, 0);
    OneLess(g, Apply(g, move), move.job, g.nextJob);
  }

  /** When nothing is left to do, every job is done. */
  lemma {:induction false} NothingLeft(g: Gate, n: nat, j: nat)
    requires j in g.jobs && j < n && LeftBelow(g, n) == 0
    ensures g.jobs[j].phase == Done
  {
    if j < n - 1 {
      NothingLeft(g, n - 1, j);
    }
  }

  // ---- the program ----

  /** An asyncio.Lock. */
  class AsyncLock {
    var holder: Option<nat>

    constructor ()
      ensures holder == None
    {
      holder := None;
    }
  }

  /** The semaphore, the process-wide lock table and the jobs passing through them. */
  class Runner {
    const limit: nat
    var permits: nat
    var jobs: map<nat, Job>
    var nextJob: nat
    var processLocks: map<nat, AsyncLock>

    constructor (limit: nat)
      ensures this.limit == limit && Valid() && View() == Open(limit) && processLocks == map[]
    {
      this.limit := limit;
      permits, jobs, nextJob, processLocks := limit, map[], 0, map[];
    }

    /** Different scripts never share a lock. */
    ghost predicate Valid()
      reads this
    {
      forall a, b | a in processLocks && b in processLocks :: processLocks[a] == processLocks[b] ==> a == b
    }

    ghost function View(): Gate
      reads this, processLocks.Values
    {
      Gate(limit, permits, jobs, map script | script in processLocks :: processLocks[script].holder, nextJob)
    }

    /** _get_lock: one lock object per script, made on first use and kept for good. */
    method GetLock(script: nat) returns (lock: AsyncLock)
      requires Valid()
      modifies this`processLocks
      ensures Valid() && script in processLocks && lock == processLocks[script]
      ensures if script in old(processLocks) then processLocks == old(processLocks)
              else fresh(lock) && lock.holder == None && processLocks == old(processLocks)[script := lock]
    {
      if script in processLocks {
        return processLocks[script];
      }
      lock := new AsyncLock();
      processLocks := processLocks[script := lock];
    }

    /** run_script enters: it queues for a permit. */
    method Arrive(script: nat) returns (j: nat)
      requires Valid()
      modifies this`jobs, this`nextJob
      ensures Valid() && j == old(nextJob) && View() == Apply(old(View()), Move.Arrive(script))
    {
      j := nextJob;
      jobs := jobs[j := Job(script, WaitPermit)];
      nextJob := nextJob + 1;
    }

    /** `async with concurrency`, then on to the script's lock. */
    method TakePermit(j: nat)
      requires Valid() && Can(View(), Move.TakePermit(j))
      modifies this
      ensures Valid() && View() == Apply(old(View()), Move.TakePermit(j))
    {
      permits := permits - 1;
      var lock := GetLock(jobs[j].script);
      jobs := jobs[j := jobs[j].(phase := WaitLock)];
    }

    /** `async with inner`. */
    method TakeLock(j: nat)
      requires Valid() && Can(View(), Move.TakeLock(j))
      modifies this`jobs, processLocks.Values
      ensures Valid() && View() == Apply(old(View()), Move.TakeLock(j))
    {
      var lock := processLocks[jobs[j].script];
      lock.holder := Some(j);
      jobs := jobs[j := jobs[j].(phase := Executing)];
    }

    /** Both `async with` blocks end, on every path. */
    method Leave(j: nat)
      requires Valid() && Can(View(), Move.Leave(j)) && jobs[j].script in processLocks
      modifies this`jobs, this`permits, processLocks.Values
      ensures Valid() && View() == Apply(old(View()), Move.Leave(j))
    {
      var lock := processLocks[jobs[j].script];
      lock.holder := None;
      permits := permits + 1;
      jobs := jobs[j := jobs[j].(phase := Done)];
    }
  }
}
