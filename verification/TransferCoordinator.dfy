/** The life of a KV transfer job, with its worker and cancellation interleaved (crates/kv-transfer/src/coordinator.rs). */
module TransferCoordinator {
  import opened Basics

  datatype Status = Pending | InProgress | Completed | Failed(message: string) | Cancelled

  datatype Job = Job(status: Status, bytes: nat, startedAt: int, finishedAt: Option<int>)

  predicate Terminal(s: Status) {
    s.Completed? || s.Failed? || s.Cancelled?
  }

  /** What connecting and sending came to. */
  datatype Outcome = Sent(bytes: nat) | Error(message: string)

  type Jobs = map<string, Job>

  // ---------------------------------------------------------------- the writes, each under the lock

  function Inserted(jobs: Jobs, id: string, now: int): Jobs {
    jobs[id := Job(Pending, 0, now, None)]
  }

  /** The worker's first write is unconditional. */
  function WorkerStarted(jobs: Jobs, id: string): Jobs {
    if id in jobs then jobs[id := jobs[id].(status := InProgress)] else jobs
  }

  function Settled(job: Job, outcome: Outcome, now: int): Job {
    match outcome
    case Sent(bytes) => job.(status := Completed, bytes := bytes, finishedAt := Some(now))
    case Error(message) => job.(status := Failed(message), bytes := 0, finishedAt := Some(now))
  }

  /** The worker's last write counts only while the job is still in progress. */
  function WorkerFinished(jobs: Jobs, id: string, outcome: Outcome, now: int): Jobs {
    if id in jobs && jobs[id].status.InProgress? then jobs[id := Settled(jobs[id], outcome, now)] else jobs
  }

  predicate Cancellable(jobs: Jobs, id: string) {
    id in jobs && (jobs[id].status.Pending? || jobs[id].status.InProgress?)
  }

  function CancelledJobs(jobs: Jobs, id: string, now: int): Jobs {
    if Cancellable(jobs, id) then jobs[id := jobs[id].(status := Cancelled, finishedAt := Some(now))] else jobs
  }

  // ---------------------------------------------------------------- interleavings

  datatype Worker = Spawned | Running | Gone

  datatype World = World(jobs: Jobs, workers: map<string, Worker>)

  const Initial := World(map[], map[])

  datatype Step =
    | Initiate(id: string, now: int)
    | Start(id: string)
    | Finish(id: string, outcome: Outcome, now: int)
    | Cancel(id: string, now: int)

  /** Identifiers are fresh, and a worker starts and finishes once. */
  predicate Enabled(w: World, s: Step) {
    match s
    case Initiate(id, _) => id !in w.jobs && id !in w.workers
    case Start(id) => id in w.workers && w.workers[id] == Spawned
    case Finish(id, _, _) => id in w.workers && w.workers[id] == Running
    case Cancel(_, _) => true
  }

  function After(w: World, s: Step): World {
    match s
    case Initiate(id, now) => World(Inserted(w.jobs, id, now), w.workers[id := Spawned])
    case Start(id) => World(WorkerStarted(w.jobs, id), w.workers[id := Running])
    case Finish(id, outcome, now) => World(WorkerFinished(w.jobs, id, outcome, now), w.workers[id := Gone])
    case Cancel(id, now) => w.(jobs := CancelledJobs(w.jobs, id, now))
  }

  ghost predicate IsRun(worlds: seq<World>, steps: seq<Step>) {
    && |worlds| == |steps| + 1
    && worlds[0] == Initial
    && (forall i | 0 <= i < |steps| :: Enabled(worlds[i], steps[i]) && worlds[i + 1] == After(worlds[i], steps[i]))
  }

  predicate GoodJob(job: Job, worker: Worker) {
    && (Terminal(job.status) ==> job.finishedAt.Some?)
    && (job.bytes != 0 ==> job.status.Completed?)
    && (worker != Spawned ==> !job.status.Pending?)
    && (worker == Gone ==> Terminal(job.status))
    && (worker == Spawned ==> job.status.Pending? || job.status.Cancelled?)
    && (worker == Running ==> job.status.InProgress? || job.status.Cancelled?)
    && (job.status.Pending? ==> job.finishedAt.None?)
  }

  predicate Inv(w: World) {
    w.jobs.Keys == w.workers.Keys && forall id | id in w.jobs :: GoodJob(w.jobs[id], w.workers[id])
  }

  lemma StepKeeps(w: World, s: Step)
    requires Inv(w) && Enabled(w, s)
    ensures Inv(After(w, s))
  {}

  /** Terminal jobs carry a finish time and only completed jobs carry bytes, in every reachable state. */
  lemma {:induction false} RunKeeps(worlds: seq<World>, steps: seq<Step>, i: nat)
    requires IsRun(worlds, steps) && i < |worlds|
    ensures Inv(worlds[i])
    decreases i
  {
    if i > 0 {
      RunKeeps(worlds, steps, i - 1);
      StepKeeps(worlds[i - 1], steps[i - 1]);
    }
  }

  /** Once the worker has made its first write, a terminal job never changes again. */
  lemma {:induction false} TerminalIsFinal(worlds: seq<World>, steps: seq<Step>, i: nat, j: nat, id: string)
    requires IsRun(worlds, steps) && i <= j < |worlds|
    requires id in worlds[i].jobs && id in worlds[i].workers && worlds[i].workers[id] != Spawned
    requires Terminal(worlds[i].jobs[id].status)
    ensures id in worlds[j].jobs && worlds[j].jobs[id] == worlds[i].jobs[id]
    ensures id in worlds[j].workers && worlds[j].workers[id] != Spawned
    decreases j - i
  {
    if i < j {
      TerminalIsFinal(worlds, steps, i, j - 1, id);
      assert Enabled(worlds[j - 1], steps[j - 1]);
    }
  }

  /** The step was taken before position `i`. */
  ghost predicate Taken(steps: seq<Step>, i: nat, s: Step) {
    exists t | 0 <= t < i && t < |steps| :: steps[t] == s
  }

  /** What a job says of itself was reported by its worker or its canceller, at the time it says. */
  ghost predicate RestsOn(steps: seq<Step>, i: nat, id: string, job: Job) {
    && Taken(steps, i, Initiate(id, job.startedAt))
    && (Terminal(job.status) ==> job.finishedAt.Some?)
    && (job.status.Completed? ==> Taken(steps, i, Finish(id, Sent(job.bytes), job.finishedAt.value)))
    && (job.status.Failed? ==> Taken(steps, i, Finish(id, Error(job.status.message), job.finishedAt.value)))
    && (job.status.Cancelled? ==> Taken(steps, i, Cancel(id, job.finishedAt.value)))
  }

  lemma TakenStays(steps: seq<Step>, i: nat, s: Step)
    requires Taken(steps, i, s)
    ensures Taken(steps, i + 1, s)
  {}

  lemma RestsOnStays(steps: seq<Step>, i: nat, id: string, job: Job)
    requires RestsOn(steps, i, id, job)
    ensures RestsOn(steps, i + 1, id, job)
  {
    forall s | Taken(steps, i, s) ensures Taken(steps, i + 1, s) {
      TakenStays(steps, i, s);
    }
  }

  /** A step that was taken leaves each job it touches resting on it, and the others as they were. */
  lemma StepRests(steps: seq<Step>, i: nat, w: World, s: Step, id: string)
    requires Inv(w) && Enabled(w, s) && Taken(steps, i, s) && id in After(w, s).jobs
    requires id in w.jobs ==> RestsOn(steps, i, id, w.jobs[id])
    ensures RestsOn(steps, i, id, After(w, s).jobs[id])
  {
    match s {
      case Initiate(_, _) =>
      case Start(_) =>
      case Finish(_, _, _) =>
      case Cancel(_, _) =>
    }
  }

  /** In every reachable state every job's start, end, bytes and message come from the steps taken for it. */
  lemma {:induction false} JobsRestOnSteps(worlds: seq<World>, steps: seq<Step>, i: nat, id: string)
    requires IsRun(worlds, steps) && i < |worlds| && id in worlds[i].jobs
    ensures RestsOn(steps, i, id, worlds[i].jobs[id])
    decreases i
  {
    if i > 0 {
      var w, s := worlds[i - 1], steps[i - 1];
      RunKeeps(worlds, steps, i - 1);
      assert worlds[i] == After(w, s) && Enabled(w, s);
      assert Taken(steps, i, s);
      if id in w.jobs {
        JobsRestOnSteps(worlds, steps, i - 1, id);
        RestsOnStays(steps, i - 1, id, w.jobs[id]);
      }
      StepRests(steps, i, w, s, id);
    }
  }

  /** A worker that ends settles its job, unless the job was cancelled meanwhile, and then it leaves it alone. */
  lemma FinishDecides(worlds: seq<World>, steps: seq<Step>, i: nat, id: string, outcome: Outcome, now: int)
    requires IsRun(worlds, steps) && i < |steps| && steps[i] == Finish(id, outcome, now)
    ensures id in worlds[i].jobs && id in worlds[i + 1].jobs
    ensures var was, job := worlds[i].jobs[id], worlds[i + 1].jobs[id];
            if was.status == Cancelled then job == was
            else job.status == (if outcome.Sent? then Completed else Failed(outcome.message)) && job.finishedAt == Some(now)
  {
    RunKeeps(worlds, steps, i);
    assert Enabled(worlds[i], steps[i]) && worlds[i + 1] == After(worlds[i], steps[i]);
  }

  ghost predicate StaysCancelled(worlds: seq<World>, from: nat, id: string) {
    forall k | from <= k < |worlds| :: id in worlds[k].jobs && worlds[k].jobs[id].status == Cancelled
  }

  ghost predicate StartsAfter(steps: seq<Step>, i: nat, id: string) {
    exists s | i < s < |steps| :: steps[s] == Start(id)
  }

  lemma {:induction false} CancelledUntilStart(worlds: seq<World>, steps: seq<Step>, i: nat, k: nat, id: string)
    requires IsRun(worlds, steps) && i < k < |worlds| && !StartsAfter(steps, i, id)
    requires id in worlds[i + 1].jobs && worlds[i + 1].jobs[id].status == Cancelled
    ensures id in worlds[k].jobs && worlds[k].jobs[id].status == Cancelled
    decreases k
  {
    if k > i + 1 {
      CancelledUntilStart(worlds, steps, i, k - 1, id);
      assert Enabled(worlds[k - 1], steps[k - 1]);
      assert steps[k - 1] != Start(id);
    }
  }

  /** An accepted cancellation lasts exactly when the worker does not make its first write after it. */
  lemma CancelLastsIffWorkerStarted(worlds: seq<World>, steps: seq<Step>, i: nat, id: string, now: int)
    requires IsRun(worlds, steps) && i < |steps| && steps[i] == Cancel(id, now) && Cancellable(worlds[i].jobs, id)
    ensures StaysCancelled(worlds, i + 1, id) <==> !StartsAfter(steps, i, id)
    ensures id in worlds[i].workers
    ensures worlds[i].workers[id] != Spawned ==> StaysCancelled(worlds, i + 1, id)
  {
    RunKeeps(worlds, steps, i);
    if StartsAfter(steps, i, id) {
      var s :| i < s < |steps| && steps[s] == Start(id);
      RunKeeps(worlds, steps, s);
      assert Enabled(worlds[s], steps[s]);
      assert worlds[s + 1] == After(worlds[s], Start(id));
      assert worlds[s + 1].jobs[id].status == InProgress;
    } else {
      forall k | i + 1 <= k < |worlds| ensures id in worlds[k].jobs && worlds[k].jobs[id].status == Cancelled {
        CancelledUntilStart(worlds, steps, i, k, id);
      }
    }
    if worlds[i].workers[id] != Spawned {
      assert worlds[i + 1] == After(worlds[i], steps[i]);
      forall k | i + 1 <= k < |worlds| ensures id in worlds[k].jobs && worlds[k].jobs[id].status == Cancelled {
        TerminalIsFinal(worlds, steps, i + 1, k, id);
      }
    }
  }

  /** In whatever way the run goes on after the cancellation, the job stays cancelled. */
  ghost predicate CancelLasts(worlds: seq<World>, steps: seq<Step>, id: string, now: int) {
    forall ws: seq<World>, ss: seq<Step> | IsRun(ws, ss) && worlds <= ws && steps + [Cancel(id, now)] <= ss ::
      StaysCancelled(ws, |steps| + 1, id)
  }

  /** A job whose worker has not made its first write: the cancellation is accepted and then overwritten. */
  lemma CancelOverwritten(worlds: seq<World>, steps: seq<Step>, id: string, now: int)
    returns (ws: seq<World>, ss: seq<Step>)
    requires IsRun(worlds, steps)
    requires var w := worlds[|steps|]; id in w.jobs && w.jobs[id].status == Pending
    ensures IsRun(ws, ss) && worlds <= ws && steps + [Cancel(id, now)] <= ss && |ws| == |worlds| + 2
    ensures id in ws[|ws| - 1].jobs && ws[|ws| - 1].jobs[id].status == InProgress
  {
    RunKeeps(worlds, steps, |steps|);
    var w := worlds[|steps|];
    var cancelled := After(w, Cancel(id, now));
    ws := worlds + [cancelled, After(cancelled, Start(id))];
    ss := steps + [Cancel(id, now), Start(id)];
  }

  /** A caller's cancellation lasts exactly when the job was in progress, and not still pending, when it was accepted. */
  lemma CancelLastsIffInProgress(worlds: seq<World>, steps: seq<Step>, id: string, now: int)
    requires IsRun(worlds, steps) && Cancellable(worlds[|steps|].jobs, id)
    ensures CancelLasts(worlds, steps, id, now) <==> worlds[|steps|].jobs[id].status == InProgress
  {
    var n := |steps|;
    RunKeeps(worlds, steps, n);
    if worlds[n].jobs[id].status == InProgress {
      forall ws: seq<World>, ss: seq<Step> | IsRun(ws, ss) && worlds <= ws && steps + [Cancel(id, now)] <= ss
        ensures StaysCancelled(ws, n + 1, id)
      {
        assert ss[n] == (steps + [Cancel(id, now)])[n];
        CancelLastsIffWorkerStarted(ws, ss, n, id, now);
      }
    } else {
      var ws, ss := CancelOverwritten(worlds, steps, id, now);
      assert !StaysCancelled(ws, n + 1, id);
    }
  }

  // ---------------------------------------------------------------- the coordinator

  /** The jobs under their lock. The ghost `workers` says how far each spawned worker has come. */
  class Coordinator {
    var jobs: Jobs
    ghost var workers: map<string, Worker>

    constructor ()
      ensures Value() == Initial && Inv(Value())
    {
      jobs, workers := map[], map[];
    }

    ghost function Value(): World
      reads this
    {
      World(jobs, workers)
    }

    /** Every job but this one is as it was. */
    twostate predicate OthersUntouched(id: string)
      reads this
    {
      && jobs.Keys == old(jobs).Keys + {id}
      && forall j | j in old(jobs) && j != id :: jobs[j] == old(jobs)[j]
    }

    /** The insertion under the lock, and the spawning of the worker. */
    method InitiateTransfer(id: string, now: int)
      requires Inv(Value()) && id !in jobs
      modifies this
      ensures Inv(Value()) && Value() == After(old(Value()), Initiate(id, now))
      ensures OthersUntouched(id) && !Terminal(jobs[id].status) && Cancellable(jobs, id)
      ensures jobs[id].startedAt == now && jobs[id].finishedAt.None? && jobs[id].bytes == 0
      ensures Enabled(Value(), Start(id))
    {
      StepKeeps(Value(), Initiate(id, now));
      jobs := jobs[id := Job(Pending, 0, now, None)];
      workers := workers[id := Spawned];
    }

    /** The worker's first write: whatever the job was, cancelled or not, it now runs and is not terminal. */
    method StartWorker(id: string)
      requires Inv(Value()) && Enabled(Value(), Start(id))
      modifies this
      ensures Inv(Value()) && Value() == After(old(Value()), Start(id))
      ensures OthersUntouched(id) && jobs[id].status == InProgress && !Terminal(jobs[id].status)
      ensures jobs[id].finishedAt.Some? <==> old(jobs)[id].status == Cancelled
      ensures jobs[id].bytes == 0 && jobs[id].startedAt == old(jobs)[id].startedAt
      ensures Enabled(Value(), Finish(id, Error(""), 0))
    {
      StepKeeps(Value(), Start(id));
      if id in jobs {
        jobs := jobs[id := jobs[id].(status := InProgress)];
      }
      workers := workers[id := Running];
    }

    /** The worker's last write: a job that was cancelled meanwhile stays exactly as it was. */
    method FinishWorker(id: string, outcome: Outcome, now: int)
      requires Inv(Value()) && Enabled(Value(), Finish(id, outcome, now))
      modifies this
      ensures Inv(Value()) && Value() == After(old(Value()), Finish(id, outcome, now))
      ensures OthersUntouched(id) && Terminal(jobs[id].status) && jobs[id].finishedAt.Some?
      ensures old(jobs)[id].status != InProgress ==> jobs[id] == old(jobs)[id]
      ensures old(jobs)[id].status == InProgress ==> jobs[id].finishedAt == Some(now)
      ensures old(jobs)[id].status == InProgress ==> (jobs[id].status.Completed? <==> outcome.Sent?)
      ensures jobs[id].status.Completed? ==> outcome.Sent? && jobs[id].bytes == outcome.bytes
      ensures old(jobs)[id].status == InProgress && outcome.Error? ==> jobs[id].status == Failed(outcome.message)
    {
      StepKeeps(Value(), Finish(id, outcome, now));
      var (finalStatus, bytes) := match outcome
        case Sent(n) => (Completed, n)
        case Error(message) => (Failed(message), 0);
      if id in jobs {
        var job := jobs[id];
        if job.status.InProgress? {
          jobs := jobs[id := job.(status := finalStatus, bytes := bytes, finishedAt := Some(now))];
        }
      }
      workers := workers[id := Gone];
    }

    /** Cancelling is accepted exactly for jobs that are not yet terminal. */
    method CancelTransfer(id: string, now: int) returns (ok: bool)
      requires Inv(Value())
      modifies this`jobs
      ensures Inv(Value()) && Value() == After(old(Value()), Cancel(id, now))
      ensures ok <==> id in old(jobs) && !Terminal(old(jobs)[id].status)
      ensures ok ==> OthersUntouched(id) && jobs[id].status == Cancelled && jobs[id].finishedAt == Some(now)
      ensures !ok ==> jobs == old(jobs)
    {
      StepKeeps(Value(), Cancel(id, now));
      if id !in jobs {
        return false;
      }
      var job := jobs[id];
      if job.status.Pending? || job.status.InProgress? {
        jobs := jobs[id := job.(status := Cancelled, finishedAt := Some(now))];
        return true;
      }
      ok := false;
    }
  }
}
