/** The export job queue: workers claim, build, and requeue over one table. */
module JobQueue {
  import opened Text

  type Time = int

  const CLAIM_TIMEOUT: Time := 1200

  datatype Status = Queued | Running | Done | Failed

  datatype Job = Job(created: Time, status: Status, claimedBy: Option<nat>, claimedAt: Option<Time>)

  type Jobs = map<nat, Job>

  // ── what the statements do to the rows ────────────────────────────────────

  predicate IsQueued(jobs: Jobs, id: nat) {
    id in jobs && jobs[id].status == Queued
  }

  predicate IsOldestQueued(jobs: Jobs, id: nat) {
    IsQueued(jobs, id) && forall j :: j in jobs && IsQueued(jobs, j) ==> jobs[id].created <= jobs[j].created
  }

  function ClaimRow(jobs: Jobs, id: nat, worker: nat, now: Time): Jobs
    requires id in jobs
  {
    jobs[id := jobs[id].(status := Running, claimedBy := Some(worker), claimedAt := Some(now))]
  }

  predicate IsAbandoned(job: Job, now: Time) {
    job.status == Running && job.claimedAt.Some? && job.claimedAt.value < now - CLAIM_TIMEOUT
  }

  function Abandoned(jobs: Jobs, now: Time): set<nat> {
    set id | id in jobs && IsAbandoned(jobs[id], now)
  }

  /** The write-back by primary key: it does not look at the rows again. */
  function RequeueRows(jobs: Jobs, stuck: set<nat>): Jobs {
    map id | id in jobs :: if id in stuck then jobs[id].(status := Queued, claimedBy := None, claimedAt := None)
      else jobs[id]
  }

  function FinishRow(jobs: Jobs, id: nat, ok: bool): Jobs
    requires id in jobs
  {
    jobs[id := jobs[id].(status := if ok then Done else Failed)]
  }

  class JobTable {
    var jobs: Jobs

    constructor ()
      ensures jobs == map[]
    {
      jobs := map[];
    }

    /** First come, first served; an empty queue gives nothing. */
    method ClaimNextJob(worker: nat, now: Time) returns (id: Option<nat>)
      modifies this
      ensures id.None? ==> jobs == old(jobs) && forall j :: !IsQueued(jobs, j)
      ensures id.Some? ==> IsOldestQueued(old(jobs), id.value) && jobs == ClaimRow(old(jobs), id.value, worker, now)
      ensures id.Some? ==> && jobs.Keys == old(jobs).Keys
                           && (forall j :: j in jobs && j != id.value ==> jobs[j] == old(jobs)[j])
                           && jobs[id.value] == Job(old(jobs)[id.value].created, Running, Some(worker), Some(now))
    {
      id := None;
      var rest := jobs.Keys;
      while rest != {}
        invariant rest <= jobs.Keys && jobs == old(jobs)
        invariant id.None? ==> forall j :: j in jobs.Keys - rest ==> !IsQueued(jobs, j)
        invariant id.Some? ==> IsQueued(jobs, id.value)
        invariant id.Some? ==>
                  forall j :: j in jobs.Keys - rest && IsQueued(jobs, j) ==> jobs[id.value].created <= jobs[j].created
        decreases rest
      {
        var j :| j in rest;
        if jobs[j].status == Queued && (id.None? || jobs[j].created < jobs[id.value].created) {
          id := Some(j);
        }
        rest := rest - {j};
      }
      if id.Some? {
        jobs := ClaimRow(jobs, id.value, worker, now);
      }
    }

    /** Exactly the jobs that were claimed longer than the timeout ago and are still running. */
    method ScanAbandoned(now: Time) returns (stuck: set<nat>)
      ensures forall id :: id in stuck <==> id in jobs && jobs[id].status == Running
                                            && jobs[id].claimedAt.Some?
                                            && jobs[id].claimedAt.value + 1200 < now
      ensures stuck == Abandoned(jobs, now)
    {
      stuck := {};
      var rest := jobs.Keys;
      while rest != {}
        invariant rest <= jobs.Keys && stuck <= jobs.Keys - rest
        invariant forall id :: id in jobs.Keys - rest ==> (id in stuck <==> IsAbandoned(jobs[id], now))
        decreases rest
      {
        var id :| id in rest;
        if jobs[id].status == Running && jobs[id].claimedAt.Some? && jobs[id].claimedAt.value < now - CLAIM_TIMEOUT {
          stuck := stuck + {id};
        }
        rest := rest - {id};
      }
    }

    method CommitRequeue(stuck: set<nat>)
      modifies this
      ensures jobs == RequeueRows(old(jobs), stuck)
      ensures jobs.Keys == old(jobs).Keys
      ensures forall id :: id in jobs ==>
                jobs[id] == if id in stuck then Job(old(jobs)[id].created, Queued, None, None) else old(jobs)[id]
    {
      var rest := stuck;
      while rest != {}
        invariant rest <= stuck && jobs.Keys == old(jobs).Keys
        invariant forall id :: id in jobs ==>
                  jobs[id] == (if id in rest then old(jobs)[id] else RequeueRows(old(jobs), stuck)[id])
        decreases rest
      {
        var id :| id in rest;
        if id in jobs {
          jobs := jobs[id := jobs[id].(status := Queued, claimedBy := None, claimedAt := None)];
        }
        rest := rest - {id};
      }
    }

    /** The job is finished for good: its claim stays on record, no other row moves, and no later scan or claim finds
        it. */
    method RecordResult(id: nat, ok: bool)
      requires id in jobs
      modifies this
      ensures jobs.Keys == old(jobs).Keys && forall k :: k in jobs && k != id ==> jobs[k] == old(jobs)[k]
      ensures jobs[id].status == Done <==> ok
      ensures jobs[id].status == Failed <==> !ok
      ensures jobs[id].claimedBy == old(jobs)[id].claimedBy && jobs[id].claimedAt == old(jobs)[id].claimedAt
      ensures jobs[id].created == old(jobs)[id].created
      ensures !IsQueued(jobs, id) && forall now :: id !in Abandoned(jobs, now)
      ensures jobs == FinishRow(old(jobs), id, ok)
    {
      jobs := jobs[id := jobs[id].(status := if ok then Done else Failed)];
    }
  }

  // ── any number of workers, interleaved ────────────────────────────────────

  /** A worker between statements: idle, holding a scan not yet written back,
      or building the job it claimed. */
  datatype Worker = Idle | Requeueing(stuck: set<nat>, at: Time) | Building(job: nat, since: Time)

  datatype World = World(now: Time, jobs: Jobs, workers: map<nat, Worker>)

  datatype Step =
    | Tick(to: Time)
    | Enqueue(job: nat)
    | Scan(worker: nat)
    | Commit(worker: nat)
    | Claim(worker: nat, job: nat)
    | Finish(worker: nat, ok: bool)
    | Crash(worker: nat)

  function WorkerAt(w: World, worker: nat): Worker {
    if worker in w.workers then w.workers[worker] else Idle
  }

  predicate Enabled(w: World, step: Step) {
    match step
    case Tick(to) => w.now <= to
    case Enqueue(job) => job !in w.jobs
    case Scan(worker) => WorkerAt(w, worker) == Idle
    case Commit(worker) => WorkerAt(w, worker).Requeueing?
    case Claim(worker, job) => WorkerAt(w, worker) == Idle && IsOldestQueued(w.jobs, job)
    case Finish(worker, _) => WorkerAt(w, worker).Building? && WorkerAt(w, worker).job in w.jobs
    case Crash(worker) => WorkerAt(w, worker) != Idle
  }

  function Next(w: World, step: Step): World
    requires Enabled(w, step)
  {
    match step
    case Tick(to) => w.(now := to)
    case Enqueue(job) => w.(jobs := w.jobs[job := Job(w.now, Queued, None, None)])
    case Scan(worker) => w.(workers := w.workers[worker := Requeueing(Abandoned(w.jobs, w.now), w.now)])
    case Commit(worker) =>
      w.(jobs := RequeueRows(w.jobs, WorkerAt(w, worker).stuck), workers := w.workers[worker := Idle])
    case Claim(worker, job) =>
      w.(jobs := ClaimRow(w.jobs, job, worker, w.now), workers := w.workers[worker := Building(job, w.now)])
    case Finish(worker, ok) =>
      w.(jobs := FinishRow(w.jobs, WorkerAt(w, worker).job, ok), workers := w.workers[worker := Idle])
    case Crash(worker) => w.(workers := w.workers[worker := Idle])
  }

  const START := World(0, map[], map[])

  predicate IsRun(w: World, steps: seq<Step>)
    decreases |steps|
  {
    steps == [] || (Enabled(w, steps[0]) && IsRun(Next(w, steps[0]), steps[1..]))
  }

  function After(w: World, steps: seq<Step>): World
    requires IsRun(w, steps)
    decreases |steps|
  {
    if steps == [] then w else After(Next(w, steps[0]), steps[1..])
  }

  // ── ownership ─────────────────────────────────────────────────────────────

  predicate Builds(w: World, worker: nat, job: nat) {
    WorkerAt(w, worker).Building? && WorkerAt(w, worker).job == job
  }

  /** The row of a job under construction still carries its builder's claim. */
  predicate Holds(w: World, worker: nat) {
    WorkerAt(w, worker).Building? ==>
      var b := WorkerAt(w, worker);
      b.job in w.jobs && w.jobs[b.job].status == Running
      && w.jobs[b.job].claimedBy == Some(worker) && w.jobs[b.job].claimedAt == Some(b.since)
  }

  ghost predicate Owned(w: World) {
    forall worker {:trigger Holds(w, worker)} :: Holds(w, worker)
  }

  /** No builder has been at it for longer than the claim timeout. */
  ghost predicate Prompt(w: World) {
    forall worker :: WorkerAt(w, worker).Building? ==> w.now - WorkerAt(w, worker).since <= CLAIM_TIMEOUT
  }

  /** The rows about to be written back are still as the scan found them. */
  predicate Fresh(w: World, worker: nat)
    requires WorkerAt(w, worker).Requeueing?
  {
    forall id :: id in WorkerAt(w, worker).stuck ==> id in w.jobs && IsAbandoned(w.jobs[id], WorkerAt(w, worker).at)
  }

  /** Owned rows have one builder at most. */
  lemma OneBuilder(w: World, a: nat, b: nat, job: nat)
    requires Owned(w) && Builds(w, a, job) && Builds(w, b, job)
    ensures a == b
  {
    assert Holds(w, a) && Holds(w, b);
  }

  /** A write-back takes no job from under a builder exactly when none of its
      rows is being built. */
  lemma CommitKeepsOwned(w: World, worker: nat)
    requires Owned(w) && Enabled(w, Commit(worker))
    ensures Owned(Next(w, Commit(worker)))
            <==> forall b: nat, id: nat :: id in WorkerAt(w, worker).stuck ==> !Builds(w, b, id)
  {
    var next := Next(w, Commit(worker));
    if forall b: nat, id: nat :: id in WorkerAt(w, worker).stuck ==> !Builds(w, b, id) {
      forall b {:trigger Holds(next, b)} ensures Holds(next, b) {
        assert Holds(w, b);
        assert WorkerAt(next, b).Building? ==> WorkerAt(w, b) == WorkerAt(next, b) && Builds(w, b, WorkerAt(w, b).job);
      }
    } else {
      var b: nat, id: nat :| id in WorkerAt(w, worker).stuck && Builds(w, b, id);
      assert Holds(w, b);
      assert !Holds(next, b);
    }
  }

  /** With prompt builders, rows still as scanned are not being built. */
  lemma FreshIsSafe(w: World, worker: nat)
    requires Owned(w) && Prompt(w) && WorkerAt(w, worker).Requeueing? && Fresh(w, worker)
    requires WorkerAt(w, worker).at <= w.now
    ensures forall b: nat, id: nat :: id in WorkerAt(w, worker).stuck ==> !Builds(w, b, id)
  {
    forall b: nat, id: nat | id in WorkerAt(w, worker).stuck ensures !Builds(w, b, id) {
      assert Holds(w, b);
    }
  }

  predicate ScansPast(w: World, worker: nat) {
    WorkerAt(w, worker).Requeueing? ==> WorkerAt(w, worker).at <= w.now
  }

  predicate ClaimStamped(w: World, job: nat)
    requires job in w.jobs
  {
    w.jobs[job].status == Running ==> w.jobs[job].claimedAt.Some?
  }

  ghost predicate Inv(w: World) {
    && Owned(w)
    && (forall worker {:trigger ScansPast(w, worker)} :: ScansPast(w, worker))
    && (forall job {:trigger ClaimStamped(w, job)} :: job in w.jobs ==> ClaimStamped(w, job))
  }

  /** The step is no stale write-back. */
  predicate StepFresh(w: World, step: Step)
    requires Enabled(w, step)
  {
    step.Commit? ==> Fresh(w, step.worker)
  }

  lemma StepInv(w: World, step: Step)
    requires Inv(w) && Prompt(w) && Enabled(w, step) && StepFresh(w, step)
    ensures Inv(Next(w, step))
  {
    var next := Next(w, step);
    forall x {:trigger ScansPast(next, x)} ensures ScansPast(next, x) { assert ScansPast(w, x); }
    forall j {:trigger ClaimStamped(next, j)} | j in next.jobs ensures ClaimStamped(next, j) {
      if j in w.jobs { assert ClaimStamped(w, j); }
    }
    if step.Commit? {
      assert ScansPast(w, step.worker);
      FreshIsSafe(w, step.worker);
      CommitKeepsOwned(w, step.worker);
    } else {
      forall x {:trigger Holds(next, x)} ensures Holds(next, x) {
        assert Holds(w, x);
        if step.Finish? { assert Holds(w, step.worker); }
      }
    }
  }

  /** Prompt builders and no stale write-backs, all along the run. */
  ghost predicate GoodRun(w: World, steps: seq<Step>)
    requires IsRun(w, steps)
    decreases |steps|
  {
    Prompt(w) && (steps != [] ==> StepFresh(w, steps[0]) && GoodRun(Next(w, steps[0]), steps[1..]))
  }

  lemma {:induction false} RunInv(w: World, steps: seq<Step>)
    requires Inv(w) && IsRun(w, steps) && GoodRun(w, steps)
    ensures Inv(After(w, steps)) && Prompt(After(w, steps))
    decreases |steps|
  {
    if steps != [] {
      StepInv(w, steps[0]);
      RunInv(Next(w, steps[0]), steps[1..]);
    }
  }

  lemma StartInv()
    ensures Inv(START)
  {
  }

  predicate Finished(w: World, job: nat) {
    job in w.jobs && w.jobs[job].status in {Done, Failed}
  }

  /** A builder that ends, either way, leaves its job finished. */
  lemma EndFinishes(w: World, worker: nat, ok: bool)
    requires Enabled(w, Finish(worker, ok))
    ensures var next, job := Next(w, Finish(worker, ok)), WorkerAt(w, worker).job;
            && Finished(next, job) && next.jobs[job].status == (if ok then Done else Failed)
            && WorkerAt(next, worker) == Idle
  {
  }

  /** A recorded result is never overwritten, requeued or built again. */
  lemma {:induction false} FinishedStays(w: World, steps: seq<Step>, job: nat)
    requires Inv(w) && IsRun(w, steps) && GoodRun(w, steps) && Finished(w, job)
    ensures Finished(After(w, steps), job) && After(w, steps).jobs[job] == w.jobs[job]
    ensures forall b: nat :: !Builds(After(w, steps), b, job)
    decreases |steps|
  {
    if steps == [] {
      forall b: nat ensures !Builds(w, b, job) {
        assert Holds(w, b);
      }
    } else {
      if steps[0].Finish? {
        assert Holds(w, steps[0].worker);
      }
      StepInv(w, steps[0]);
      FinishedStays(Next(w, steps[0]), steps[1..], job);
    }
  }

  /** No job is ever built by two workers at once. */
  lemma NeverBuiltTwice(steps: seq<Step>, a: nat, b: nat, job: nat)
    requires IsRun(START, steps) && GoodRun(START, steps)
    requires Builds(After(START, steps), a, job) && Builds(After(START, steps), b, job)
    ensures a == b
  {
    StartInv();
    RunInv(START, steps);
    OneBuilder(After(START, steps), a, b, job);
  }

  /** Not so once a scan is written back stale: three prompt workers, one crash,
      two overlapping scans, and one job is built twice at the same time. */
  function StaleRun(): seq<Step> {
    [Enqueue(0), Claim(1, 0), Crash(1), Tick(1201), Scan(2), Scan(3), Commit(2), Claim(2, 0), Commit(3), Claim(3, 0)]
  }

  function Claim0(worker: nat, at: Time): Jobs {
    map[0 := Job(0, Running, Some(worker), Some(at))]
  }

  const QUEUED0: Jobs := map[0 := Job(0, Queued, None, None)]

  /** The worlds the stale run goes through. */
  function StaleWorlds(): seq<World> {
    [START,
     World(0, QUEUED0, map[]),
     World(0, Claim0(1, 0), map[1 := Building(0, 0)]),
     World(0, Claim0(1, 0), map[1 := Idle]),
     World(1201, Claim0(1, 0), map[1 := Idle]),
     World(1201, Claim0(1, 0), map[1 := Idle, 2 := Requeueing({0}, 1201)]),
     World(1201, Claim0(1, 0), map[1 := Idle, 2 := Requeueing({0}, 1201), 3 := Requeueing({0}, 1201)]),
     World(1201, QUEUED0, map[1 := Idle, 2 := Idle, 3 := Requeueing({0}, 1201)]),
     World(1201, Claim0(2, 1201), map[1 := Idle, 2 := Building(0, 1201), 3 := Requeueing({0}, 1201)]),
     World(1201, QUEUED0, map[1 := Idle, 2 := Building(0, 1201), 3 := Idle]),
     World(1201, Claim0(3, 1201), map[1 := Idle, 2 := Building(0, 1201), 3 := Building(0, 1201)])]
  }

  predicate StepsTo(w: World, step: Step, next: World) {
    Enabled(w, step) && Next(w, step) == next
  }

  lemma {:induction false} Chained(ws: seq<World>, steps: seq<Step>)
    requires |ws| == |steps| + 1 && forall i :: 0 <= i < |steps| ==> StepsTo(ws[i], steps[i], ws[i+1])
    ensures IsRun(ws[0], steps) && After(ws[0], steps) == ws[|steps|]
    decreases |steps|
  {
    if steps != [] {
      assert StepsTo(ws[0], steps[0], ws[1]);
      forall i | 0 <= i < |steps| - 1 ensures StepsTo(ws[1..][i], steps[1..][i], ws[1..][i+1]) {
        assert StepsTo(ws[i+1], steps[i+1], ws[i+2]);
      }
      Chained(ws[1..], steps[1..]);
    }
  }

  lemma StaleScans(w: World)
    requires w.now == 1201 && w.jobs == Claim0(1, 0)
    ensures Abandoned(w.jobs, w.now) == {0}
  {
  }

  lemma FirstHalf(i: nat)
    requires i < 6
    ensures StepsTo(StaleWorlds()[i], StaleRun()[i], StaleWorlds()[i+1])
  {
    var w := StaleWorlds()[i];
    if i >= 4 {
      StaleScans(w);
    }
  }

  lemma SecondHalf(i: nat)
    requires 6 <= i < 10
    ensures StepsTo(StaleWorlds()[i], StaleRun()[i], StaleWorlds()[i+1])
  {
  }

  lemma StaleStep(i: nat)
    requires i < 10
    ensures StepsTo(StaleWorlds()[i], StaleRun()[i], StaleWorlds()[i+1])
  {
    if i < 6 { FirstHalf(i); } else { SecondHalf(i); }
  }

  lemma StaleAfter(k: nat)
    requires k <= 10
    ensures IsRun(START, StaleRun()[..k]) && After(START, StaleRun()[..k]) == StaleWorlds()[k]
  {
    forall i | 0 <= i < k ensures StepsTo(StaleWorlds()[..k+1][i], StaleRun()[..k][i], StaleWorlds()[..k+1][i+1]) {
      StaleStep(i);
    }
    Chained(StaleWorlds()[..k+1], StaleRun()[..k]);
  }

  lemma StalePrompt(k: nat)
    requires k <= 10
    ensures IsRun(START, StaleRun()[..k]) && Prompt(After(START, StaleRun()[..k]))
  {
    StaleAfter(k);
  }

  lemma StaleEnd()
    ensures IsRun(START, StaleRun()) && After(START, StaleRun()) == StaleWorlds()[10]
  {
    assert StaleRun()[..10] == StaleRun();
    StaleAfter(10);
  }

  /** Every builder is prompt all along the run, and in the end workers 2 and 3 build job 0 at once. */
  lemma StaleWriteBackBuildsTwice()
    ensures forall k :: 0 <= k <= 10 ==> IsRun(START, StaleRun()[..k]) && Prompt(After(START, StaleRun()[..k]))
    ensures |StaleRun()| == 10 && IsRun(START, StaleRun())
    ensures var w := After(START, StaleRun()); Builds(w, 2, 0) && Builds(w, 3, 0)
  {
    forall k | 0 <= k <= 10 ensures IsRun(START, StaleRun()[..k]) && Prompt(After(START, StaleRun()[..k])) {
      StalePrompt(k);
    }
    StaleEnd();
  }

  // ── claims of one job lie apart ───────────────────────────────────────────

  /** The step writes back a scan that found the job. */
  predicate Requeues(w: World, step: Step, job: nat)
    requires Enabled(w, step)
  {
    step.Commit? && job in WorkerAt(w, step.worker).stuck
  }

  /** The step at position i of the run requeues the job. */
  predicate RequeuesAt(w: World, steps: seq<Step>, i: nat, job: nat)
    requires IsRun(w, steps) && i < |steps|
    decreases |steps|
  {
    if i == 0 then Requeues(w, steps[0], job) else RequeuesAt(Next(w, steps[0]), steps[1..], i - 1, job)
  }

  predicate Claimed(w: World, job: nat, at: Time) {
    job in w.jobs && w.jobs[job].status != Queued && w.jobs[job].claimedAt == Some(at)
  }

  /** A claimed job that can be claimed again was requeued in between, by a
      write-back whose scan (unless stale) was more than the timeout after the claim. */
  lemma {:induction false} ClaimsLieApart(w: World, steps: seq<Step>, job: nat, at: Time) returns (i: nat)
    requires Claimed(w, job, at) && IsRun(w, steps)
    requires IsQueued(After(w, steps).jobs, job)
    ensures i < |steps| && RequeuesAt(w, steps, i, job)
    ensures GoodRun(w, steps) ==> exists scan :: ScanAt(w, steps, i) == Some(scan) && at + CLAIM_TIMEOUT < scan
    decreases |steps|
  {
    if Requeues(w, steps[0], job) {
      i := 0;
      assert ScanAt(w, steps, 0) == Some(WorkerAt(w, steps[0].worker).at);
    } else {
      var k := ClaimsLieApart(Next(w, steps[0]), steps[1..], job, at);
      i := k + 1;
    }
  }

  /** When the step at position i is a write-back: the time of its scan. */
  function ScanAt(w: World, steps: seq<Step>, i: nat): Option<Time>
    requires IsRun(w, steps) && i < |steps|
    decreases |steps|
  {
    if i > 0 then ScanAt(Next(w, steps[0]), steps[1..], i - 1)
    else if steps[0].Commit? then Some(WorkerAt(w, steps[0].worker).at)
    else None
  }

  // ── no job is stranded ────────────────────────────────────────────────────

  predicate Leaves(steps: seq<Step>, worker: nat) {
    forall i :: 0 <= i < |steps| ==> steps[i].Tick? || steps[i].Enqueue? || steps[i].worker != worker
  }

  /** A worker's scan waits for it, whatever the others do meanwhile. */
  lemma {:induction false} ScanWaits(w: World, steps: seq<Step>, worker: nat, job: nat)
    requires IsRun(w, steps) && Leaves(steps, worker)
    requires WorkerAt(w, worker).Requeueing? && job in WorkerAt(w, worker).stuck && job in w.jobs
    ensures WorkerAt(After(w, steps), worker) == WorkerAt(w, worker) && job in After(w, steps).jobs
    decreases |steps|
  {
    if steps != [] {
      ScanWaits(Next(w, steps[0]), steps[1..], worker, job);
    }
  }

  /** Once the timeout has passed since a job's claim, the next worker to scan returns it to the queue with its
      write-back, whoever held it and whatever the other workers and the clock do between the two. */
  lemma StrandedIsRequeued(w: World, worker: nat, job: nat, steps: seq<Step>)
    requires Inv(w) && job in w.jobs && w.jobs[job].status == Running
    requires w.jobs[job].claimedAt.Some? ==> w.jobs[job].claimedAt.value + CLAIM_TIMEOUT < w.now
    requires WorkerAt(w, worker) == Idle
    requires IsRun(Next(w, Scan(worker)), steps) && Leaves(steps, worker)
    ensures Enabled(w, Scan(worker))
    ensures var later := After(Next(w, Scan(worker)), steps);
            Enabled(later, Commit(worker)) && IsQueued(Next(later, Commit(worker)).jobs, job)
  {
    assert ClaimStamped(w, job);
    ScanWaits(Next(w, Scan(worker)), steps, worker, job);
  }

  /** A running job carries the time of its claim, from which the timeout runs, and only its claimer builds it. */
  lemma EveryJobAccountedFor(steps: seq<Step>, job: nat)
    requires IsRun(START, steps) && GoodRun(START, steps) && job in After(START, steps).jobs
    ensures After(START, steps).jobs[job].status == Running ==> After(START, steps).jobs[job].claimedAt.Some?
    ensures forall b: nat :: Builds(After(START, steps), b, job) ==>
              After(START, steps).jobs[job].status == Running && After(START, steps).jobs[job].claimedBy == Some(b)
  {
    StartInv();
    RunInv(START, steps);
    var w := After(START, steps);
    assert ClaimStamped(w, job);
    forall b: nat | Builds(w, b, job) ensures w.jobs[job].status == Running && w.jobs[job].claimedBy == Some(b) {
      assert Holds(w, b);
    }
  }
}
