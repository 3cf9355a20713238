/**
 The durable job service: records in memory, their last saved snapshot, and the workers executing claims.
 Each method is one control-plane transaction or one step of a worker, and any of them may come next.
 A save is acknowledged, lost, or reported as failed after it took effect.
 */
module Jobs {
  import opened Wrappers
  import JobRecords

  type Job = JobRecords.Job
  type JobId = string
  type JobMap = map<JobId, Job>

  const MAX_JOBS: nat := 200
  const MAX_ACTIVE: nat := 8

  datatype Save = Saved | Lost | Uncertain

  datatype Stage =
    | Claimed        // the claim is saved, the run has not begun
    | Executing      // the run has begun
    | Broken         // the run ended without a saved commit
    | Unsaved        // settling it could not be saved either

  datatype Worker = Worker(claim: Job, stage: Stage)

  // ---- Snapshots ----

  function ActiveJobs(jobs: JobMap): set<JobId> {
    set id | id in jobs && JobRecords.Active(jobs[id].status)
  }

  ghost predicate DistinctKeys(jobs: JobMap) {
    forall id, other :: SameKey(jobs, id, other) ==> id == other
  }

  ghost predicate SameKey(jobs: JobMap, id: JobId, other: JobId) {
    id in jobs && other in jobs && jobs[id].agent == jobs[other].agent && jobs[id].key == jobs[other].key
  }

  /** The job of this agent and request key. */
  predicate Known(jobs: JobMap, agent: string, key: string, id: JobId) {
    id in jobs && jobs[id].agent == agent && jobs[id].key == key
  }

  ghost predicate AllGood(jobs: JobMap) {
    forall id {:trigger GoodAt(jobs, id)} | id in jobs :: GoodAt(jobs, id)
  }

  ghost predicate GoodAt(jobs: JobMap, id: JobId)
    requires id in jobs
  {
    JobRecords.Good(jobs[id])
  }

  ghost predicate Bounded(jobs: JobMap) {
    |jobs| <= MAX_JOBS && |ActiveJobs(jobs)| <= MAX_ACTIVE && DistinctKeys(jobs)
  }

  ghost predicate Snapshot(jobs: JobMap) { AllGood(jobs) && Bounded(jobs) }

  /** The check a restart makes of the saved jobs before it loads them. */
  ghost predicate Loadable(jobs: JobMap) {
    && |jobs| <= 200
    && |ActiveJobs(jobs)| <= 8
    && DistinctKeys(jobs)
    && forall id | id in jobs :: JobRecords.Validate(jobs[id])
  }

  ghost predicate Evolves(jobs: JobMap, jobs': JobMap) {
    forall id {:trigger LaterAt(jobs, jobs', id)} | id in jobs :: LaterAt(jobs, jobs', id)
  }

  ghost predicate LaterAt(jobs: JobMap, jobs': JobMap, id: JobId)
    requires id in jobs
  {
    id in jobs' && JobRecords.Later(jobs[id], jobs'[id])
  }

  lemma ActiveAfter(jobs: JobMap, id: JobId, j: Job)
    requires id in jobs
    ensures JobRecords.Active(jobs[id].status) || !JobRecords.Active(j.status) ==> |ActiveJobs(jobs[id := j])| <= |ActiveJobs(jobs)|
    ensures |ActiveJobs(jobs[id := j])| <= |ActiveJobs(jobs)| + 1
  {
    var before, after := ActiveJobs(jobs), ActiveJobs(jobs[id := j]);
    AtMost(after, before + {id});
    if JobRecords.Active(jobs[id].status) || !JobRecords.Active(j.status) {
      AtMost(after, before);
    }
  }

  lemma BoundedAfter(jobs: JobMap, id: JobId, j: Job)
    requires Bounded(jobs) && id in jobs && j.agent == jobs[id].agent && j.key == jobs[id].key
    requires JobRecords.Active(j.status) && !JobRecords.Active(jobs[id].status) ==> |ActiveJobs(jobs)| < MAX_ACTIVE
    ensures Bounded(jobs[id := j])
  {
    var jobs' := jobs[id := j];
    assert jobs'.Keys == jobs.Keys;
    assert |jobs'| == |jobs'.Keys| && |jobs| == |jobs.Keys|;
    ActiveAfter(jobs, id, j);
    forall k, m | SameKey(jobs', k, m) ensures k == m { assert SameKey(jobs, k, m); }
  }

  lemma EvolvesAfter(jobs: JobMap, id: JobId, j: Job)
    requires id in jobs && JobRecords.Later(jobs[id], j)
    ensures Evolves(jobs, jobs[id := j])
  {
    forall k | k in jobs
      ensures LaterAt(jobs, jobs[id := j], k)
    {
      if k != id { LaterReflexive(jobs[k]); }
    }
  }

  lemma GoodAfter(jobs: JobMap, id: JobId, j: Job)
    requires AllGood(jobs) && JobRecords.Good(j)
    ensures AllGood(jobs[id := j])
  {
    var jobs' := jobs[id := j];
    forall k | k in jobs'
      ensures GoodAt(jobs', k)
    {
      assert k != id ==> GoodAt(jobs, k);
    }
  }

  /** Changing one job through an operation that keeps it good gives a snapshot again. */
  lemma OneJobChanges(jobs: JobMap, id: JobId, j: Job)
    requires Snapshot(jobs) && id in jobs
    requires JobRecords.Good(j) && JobRecords.Later(jobs[id], j)
    requires JobRecords.Active(j.status) && !JobRecords.Active(jobs[id].status) ==> |ActiveJobs(jobs)| < MAX_ACTIVE
    ensures Snapshot(jobs[id := j]) && Evolves(jobs, jobs[id := j])
  {
    BoundedAfter(jobs, id, j);
    EvolvesAfter(jobs, id, j);
    GoodAfter(jobs, id, j);
  }

  lemma LaterReflexive(j: Job)
    ensures JobRecords.Later(j, j)
  {
  }

  lemma AtMost<T>(a: set<T>, b: set<T>)
    requires a <= b
    ensures |a| <= |b|
  {
    assert b == a + (b - a);
  }

  // ---- Evidence that must not be lost ----

  datatype Run = Run(job: JobId, attempt: nat)

  ghost predicate Counted(jobs: JobMap, r: Run) {
    r.job in jobs && 1 <= r.attempt <= jobs[r.job].attempt
  }

  /** A stop that was acknowledged: still marked on the running attempt, or recorded in the history. */
  ghost predicate StopKept(jobs: JobMap, r: Run) {
    && Counted(jobs, r)
    && var j := jobs[r.job];
       (j.status == JobRecords.Running && j.attempt == r.attempt && j.stop.Some?) || JobRecords.HasStopped(j, r.attempt)
  }

  ghost predicate Evidence(jobs: JobMap, executed: seq<Run>, stopped: set<Run>) {
    && (forall r {:trigger Counted(jobs, r)} | r in executed :: Counted(jobs, r))
    && (forall r {:trigger StopKept(jobs, r)} | r in stopped :: StopKept(jobs, r))
  }

  lemma StoppedStays(j: Job, j': Job, attempt: nat)
    requires JobRecords.Later(j, j') && JobRecords.HasStopped(j, attempt)
    ensures JobRecords.HasStopped(j', attempt)
  {
    var a :| a in j.attempts && a.attempt == attempt && a.status == JobRecords.Stopped;
    var k :| 0 <= k < |j.attempts| && j.attempts[k] == a;
    assert j'.attempts[k] in j'.attempts;
  }

  lemma EvidenceEvolves(jobs: JobMap, jobs': JobMap, executed: seq<Run>, stopped: set<Run>)
    requires Evidence(jobs, executed, stopped) && Evolves(jobs, jobs')
    ensures Evidence(jobs', executed, stopped)
  {
    forall r | r in executed
      ensures Counted(jobs', r)
    {
      assert Counted(jobs, r) && LaterAt(jobs, jobs', r.job);
    }
    forall r | r in stopped
      ensures StopKept(jobs', r)
    {
      assert StopKept(jobs, r) && LaterAt(jobs, jobs', r.job);
      var j, j' := jobs[r.job], jobs'[r.job];
      if JobRecords.HasStopped(j, r.attempt) { StoppedStays(j, j', r.attempt); }
    }
  }

  // ---- Workers ----

  /** The claim a worker runs for is still there, untouched but for a stop request, and was saved. */
  ghost predicate Owned(ram: JobMap, w: map<JobId, Worker>) {
    forall id {:trigger OwnedBy(ram, w[id], id)} | id in w :: OwnedBy(ram, w[id], id)
  }

  ghost predicate OwnedBy(ram: JobMap, worker: Worker, id: JobId) {
    && id in ram && ram[id] == worker.claim.(stop := ram[id].stop)
    && ram[id].status == JobRecords.Running
  }

  ghost predicate ClaimsSaved(disk: JobMap, w: map<JobId, Worker>) {
    forall id {:trigger ClaimSaved(disk, w[id], id)} | id in w :: ClaimSaved(disk, w[id], id)
  }

  ghost predicate ClaimSaved(disk: JobMap, worker: Worker, id: JobId) {
    id in disk && worker.claim.attempt <= disk[id].attempt
  }

  ghost predicate NotYetRun(w: map<JobId, Worker>, executed: seq<Run>) {
    forall id | id in w && w[id].stage == Claimed :: Run(id, w[id].claim.attempt) !in executed
  }

  ghost predicate OnePerAgent(w: map<JobId, Worker>) {
    forall id, other :: SameAgent(w, id, other) ==> id == other
  }

  ghost predicate SameAgent(w: map<JobId, Worker>, id: JobId, other: JobId) {
    id in w && other in w && w[id].claim.agent == w[other].claim.agent
  }

  ghost predicate Distinct(executed: seq<Run>) {
    forall i, k | 0 <= i < k < |executed| :: executed[i] != executed[k]
  }

  /** What holds of the records in memory in every reachable state. */
  ghost predicate MemoryOk(ram: JobMap, w: map<JobId, Worker>, executed: seq<Run>, stopped: set<Run>) {
    Snapshot(ram) && Evidence(ram, executed, stopped) && Owned(ram, w)
  }

  /** What holds of the saved records. */
  ghost predicate DiskOk(disk: JobMap, w: map<JobId, Worker>, executed: seq<Run>, stopped: set<Run>) {
    Snapshot(disk) && Evidence(disk, executed, stopped) && ClaimsSaved(disk, w)
  }

  /** What holds of the workers and the runs they began. */
  ghost predicate RunsOk(w: map<JobId, Worker>, executed: seq<Run>) {
    NotYetRun(w, executed) && OnePerAgent(w) && Distinct(executed)
  }

  lemma CandidateOk(ram: JobMap, w: map<JobId, Worker>, executed: seq<Run>, stopped: set<Run>, candidate: JobMap)
    requires MemoryOk(ram, w, executed, stopped)
    requires Snapshot(candidate) && Evolves(ram, candidate) && Owned(candidate, w)
    ensures MemoryOk(candidate, w, executed, stopped) && DiskOk(candidate, w, executed, stopped)
  {
    EvidenceEvolves(ram, candidate, executed, stopped);
    OwnedIsSaved(candidate, w);
  }

  lemma OwnedIsSaved(ram: JobMap, w: map<JobId, Worker>)
    requires Owned(ram, w)
    ensures ClaimsSaved(ram, w)
  {
    forall id | id in w ensures ClaimSaved(ram, w[id], id) { assert OwnedBy(ram, w[id], id); }
  }

  lemma EditOk(ram: JobMap, w: map<JobId, Worker>, executed: seq<Run>, stopped: set<Run>, id: JobId, j: Job)
    requires MemoryOk(ram, w, executed, stopped) && id in ram && id !in w
    requires JobRecords.Good(j) && JobRecords.Later(ram[id], j)
    requires JobRecords.Active(j.status) && !JobRecords.Active(ram[id].status) ==> |ActiveJobs(ram)| < MAX_ACTIVE
    ensures MemoryOk(ram[id := j], w, executed, stopped) && DiskOk(ram[id := j], w, executed, stopped)
  {
    OneJobChanges(ram, id, j);
    OwnedElsewhere(ram, w, id, j);
    CandidateOk(ram, w, executed, stopped, ram[id := j]);
  }

  lemma OwnedElsewhere(ram: JobMap, w: map<JobId, Worker>, id: JobId, j: Job)
    requires Owned(ram, w) && id !in w
    ensures Owned(ram[id := j], w)
  {
    forall k | k in w ensures OwnedBy(ram[id := j], w[k], k) { assert OwnedBy(ram, w[k], k); }
  }

  lemma SameCandidate(ram: JobMap, w: map<JobId, Worker>, executed: seq<Run>, stopped: set<Run>)
    requires MemoryOk(ram, w, executed, stopped)
    ensures DiskOk(ram, w, executed, stopped)
  {
    OwnedIsSaved(ram, w);
  }

  lemma NewJobBounded(ram: JobMap, id: JobId, j: Job)
    requires Bounded(ram) && id !in ram && |ram| < MAX_JOBS
    requires JobRecords.Active(j.status) ==> |ActiveJobs(ram)| < MAX_ACTIVE
    requires forall k | k in ram :: ram[k].agent != j.agent || ram[k].key != j.key
    ensures Bounded(ram[id := j])
  {
    var ram' := ram[id := j];
    assert ram'.Keys == ram.Keys + {id};
    assert |ram'| == |ram'.Keys| && |ram| == |ram.Keys|;
    assert ActiveJobs(ram') == if JobRecords.Active(j.status) then ActiveJobs(ram) + {id} else ActiveJobs(ram);
    forall k, m | SameKey(ram', k, m)
      ensures k == m
    {
      if k != id && m != id { assert SameKey(ram, k, m); }
    }
  }

  lemma NewJobEvolves(ram: JobMap, id: JobId, j: Job)
    requires id !in ram
    ensures Evolves(ram, ram[id := j])
  {
    forall k | k in ram ensures LaterAt(ram, ram[id := j], k) { LaterReflexive(ram[k]); }
  }

  lemma NewJobOk(ram: JobMap, w: map<JobId, Worker>, executed: seq<Run>, stopped: set<Run>, id: JobId, j: Job)
    requires MemoryOk(ram, w, executed, stopped) && JobRecords.Good(j)
    requires id !in ram && |ram| < MAX_JOBS && (JobRecords.Active(j.status) ==> |ActiveJobs(ram)| < MAX_ACTIVE)
    requires forall k | k in ram :: ram[k].agent != j.agent || ram[k].key != j.key
    ensures MemoryOk(ram[id := j], w, executed, stopped) && DiskOk(ram[id := j], w, executed, stopped)
  {
    NewJobBounded(ram, id, j);
    NewJobEvolves(ram, id, j);
    GoodAfter(ram, id, j);
    NewIsUnowned(ram, w, id);
    OwnedElsewhere(ram, w, id, j);
    CandidateOk(ram, w, executed, stopped, ram[id := j]);
  }

  lemma NewIsUnowned(ram: JobMap, w: map<JobId, Worker>, id: JobId)
    requires Owned(ram, w) && id !in ram
    ensures id !in w
  {
    assert id in w ==> OwnedBy(ram, w[id], id);
  }

  /** A new claim is owned by its worker, and its attempt has never been run. */
  lemma HireOk(before: JobMap, w: map<JobId, Worker>, executed: seq<Run>, stopped: set<Run>, id: JobId, claim: Job)
    requires MemoryOk(before, w, executed, stopped) && id in before && RunsOk(w, executed)
    requires claim.status == JobRecords.Running && claim.attempt > before[id].attempt
    requires forall k | k in w :: w[k].claim.agent != claim.agent
    ensures Owned(before[id := claim], w[id := Worker(claim, Claimed)])
    ensures ClaimsSaved(before[id := claim], w[id := Worker(claim, Claimed)])
    ensures RunsOk(w[id := Worker(claim, Claimed)], executed)
  {
    var w' := w[id := Worker(claim, Claimed)];
    forall k | k in w' ensures OwnedBy(before[id := claim], w'[k], k) { assert k != id ==> OwnedBy(before, w[k], k); }
    OwnedIsSaved(before[id := claim], w');
    assert !Counted(before, Run(id, claim.attempt));
    forall k, m | SameAgent(w', k, m)
      ensures k == m
    {
      if k != id && m != id { assert SameAgent(w, k, m); }
    }
  }

  /** A run that begins is counted by the saved record and is a new one. */
  lemma BeginOk(ram: JobMap, disk: JobMap, w: map<JobId, Worker>, executed: seq<Run>, stopped: set<Run>, id: JobId)
    requires MemoryOk(ram, w, executed, stopped) && DiskOk(disk, w, executed, stopped) && RunsOk(w, executed)
    requires id in w && w[id].stage == Claimed
    ensures var executed', w' := executed + [Run(id, w[id].claim.attempt)], w[id := w[id].(stage := Executing)];
      MemoryOk(ram, w', executed', stopped) && DiskOk(disk, w', executed', stopped) && RunsOk(w', executed')
  {
    var r, w' := Run(id, w[id].claim.attempt), w[id := w[id].(stage := Executing)];
    assert OwnedBy(ram, w[id], id) && GoodAt(ram, id) && ClaimSaved(disk, w[id], id);
    forall k | k in w' ensures OwnedBy(ram, w'[k], k) && ClaimSaved(disk, w'[k], k) {
      assert OwnedBy(ram, w[k], k) && ClaimSaved(disk, w[k], k);
    }
    assert forall e | e in executed + [r] :: e in executed || e == r;
    SameAgents(w, w');
    assert Counted(ram, r) && Counted(disk, r);
  }

  /** A job that is not running belongs to no worker. */
  lemma Unclaimed(ram: JobMap, w: map<JobId, Worker>, id: JobId)
    requires AllGood(ram) && Owned(ram, w) && id in ram
    ensures JobRecords.Good(ram[id])
    ensures ram[id].status != JobRecords.Running ==> id !in w
  {
    assert GoodAt(ram, id);
    assert id in w ==> OwnedBy(ram, w[id], id);
  }

  /** The claim of a live worker is in memory, good, running, and at the revision it was claimed at. */
  lemma StillOurs(ram: JobMap, w: map<JobId, Worker>, id: JobId)
    requires AllGood(ram) && Owned(ram, w) && id in w
    ensures id in ram && JobRecords.Good(ram[id]) && ram[id].status == JobRecords.Running
    ensures ram[id] == w[id].claim.(stop := ram[id].stop)
  {
    assert OwnedBy(ram, w[id], id) && GoodAt(ram, id);
  }

  /** The worker's job settles; its worker may leave. */
  lemma SettleOk(ram: JobMap, w: map<JobId, Worker>, executed: seq<Run>, stopped: set<Run>, id: JobId, j: Job)
    requires MemoryOk(ram, w, executed, stopped) && id in ram
    requires JobRecords.Good(j) && JobRecords.Later(ram[id], j) && !JobRecords.Active(j.status)
    ensures MemoryOk(ram[id := j], w - {id}, executed, stopped)
    ensures DiskOk(ram[id := j], w - {id}, executed, stopped) && DiskOk(ram[id := j], w, executed, stopped)
  {
    OneJobChanges(ram, id, j);
    EvidenceEvolves(ram, ram[id := j], executed, stopped);
    forall k | k in w
      ensures ClaimSaved(ram[id := j], w[k], k) && (k != id ==> OwnedBy(ram[id := j], w[k], k))
    {
      assert OwnedBy(ram, w[k], k);
    }
    forall k | k in w - {id}
      ensures ClaimSaved(ram[id := j], (w - {id})[k], k) && OwnedBy(ram[id := j], (w - {id})[k], k)
    {
      assert ClaimSaved(ram[id := j], w[k], k) && OwnedBy(ram[id := j], w[k], k);
    }
  }

  /** The rollback of a commit gives back the claim as it was, a stop request included. */
  lemma RollbackRestores(ram: JobMap, w: map<JobId, Worker>, id: JobId, committed: Job)
    requires Owned(ram, w) && id in w && id in ram && committed.stop == ram[id].stop
    ensures ram[id := committed][id := w[id].claim.(stop := committed.stop)] == ram
  {
    assert OwnedBy(ram, w[id], id);
  }

  lemma RestageOk(ram: JobMap, w: map<JobId, Worker>, executed: seq<Run>, id: JobId, stage: Stage)
    requires Owned(ram, w) && RunsOk(w, executed) && id in w && stage != Claimed
    ensures Owned(ram, w[id := w[id].(stage := stage)]) && RunsOk(w[id := w[id].(stage := stage)], executed)
  {
    var w' := w[id := w[id].(stage := stage)];
    forall k | k in w' ensures OwnedBy(ram, w'[k], k) { assert OwnedBy(ram, w[k], k); }
    SameAgents(w, w');
  }

  lemma SameAgents(w: map<JobId, Worker>, w': map<JobId, Worker>)
    requires OnePerAgent(w)
    requires forall k | k in w' :: k in w && w'[k].claim == w[k].claim
    ensures OnePerAgent(w')
  {
    forall k, m | SameAgent(w', k, m) ensures k == m { assert SameAgent(w, k, m); }
  }

  lemma RestageSaved(disk: JobMap, w: map<JobId, Worker>, id: JobId, stage: Stage)
    requires ClaimsSaved(disk, w) && id in w
    ensures ClaimsSaved(disk, w[id := w[id].(stage := stage)])
  {
    var w' := w[id := w[id].(stage := stage)];
    forall k | k in w' ensures ClaimSaved(disk, w'[k], k) { assert ClaimSaved(disk, w[k], k); }
  }

  lemma FewerRuns(w: map<JobId, Worker>, executed: seq<Run>, id: JobId)
    requires RunsOk(w, executed)
    ensures RunsOk(w - {id}, executed)
  {
    SameAgents(w, w - {id});
  }

  lemma FewerSaved(disk: JobMap, w: map<JobId, Worker>, id: JobId)
    requires ClaimsSaved(disk, w)
    ensures ClaimsSaved(disk, w - {id})
  {
    var w' := w - {id};
    forall k | k in w' ensures ClaimSaved(disk, w'[k], k) { assert ClaimSaved(disk, w[k], k); }
  }

  lemma FewerOwned(ram: JobMap, w: map<JobId, Worker>, id: JobId)
    requires Owned(ram, w)
    ensures Owned(ram, w - {id})
  {
    var w' := w - {id};
    forall k | k in w' ensures OwnedBy(ram, w'[k], k) { assert OwnedBy(ram, w[k], k); }
  }

  /** A stop request on a running claim leaves it with its worker. */
  lemma StopOk(ram: JobMap, w: map<JobId, Worker>, executed: seq<Run>, stopped: set<Run>, id: JobId, j: Job)
    requires MemoryOk(ram, w, executed, stopped) && id in ram
    requires JobRecords.Good(j) && JobRecords.Later(ram[id], j)
    requires ram[id].status == JobRecords.Running && j == ram[id].(stop := j.stop)
    ensures MemoryOk(ram[id := j], w, executed, stopped) && DiskOk(ram[id := j], w, executed, stopped)
  {
    OneJobChanges(ram, id, j);
    forall k | k in w ensures OwnedBy(ram[id := j], w[k], k) { assert OwnedBy(ram, w[k], k); }
    CandidateOk(ram, w, executed, stopped, ram[id := j]);
  }

  lemma StopNoted(jobs: JobMap, executed: seq<Run>, stopped: set<Run>, r: Run)
    requires Evidence(jobs, executed, stopped) && r.job in jobs && 1 <= r.attempt
    requires jobs[r.job].status == JobRecords.Running && jobs[r.job].attempt == r.attempt && jobs[r.job].stop.Some?
    ensures Evidence(jobs, executed, stopped + {r})
  {
    assert StopKept(jobs, r);
  }

  const UNCOMMITTED: string := "Run did not commit a durable result; inspect effects before retrying"
  const UNSAVED: string := "Result persistence failed; inspect effects before retrying"
  const INTERRUPTED: string := "Daemon restarted during this attempt; inspect effects before retrying"

  /** What a restart does to a job: an attempt in flight needs review, stopped if a stop was requested. */
  ghost predicate Interrupted(j: Job, j': Job) {
    if JobRecords.Executing(j.status)
    then
      && j'.status == JobRecords.NeedsReview && j'.attempt == j.attempt && JobRecords.Later(j, j')
      && (JobRecords.HasStopped(j', j.attempt) <==> j.stop.Some?)
    else j' == j
  }

  lemma InterruptOk(jobs: JobMap, id: JobId, now: nat)
    requires Snapshot(jobs) && id in jobs && JobRecords.Executing(jobs[id].status)
    ensures Snapshot(jobs[id := JobRecords.SettleUncertain(jobs[id], INTERRUPTED, now)])
    ensures Interrupted(jobs[id], JobRecords.SettleUncertain(jobs[id], INTERRUPTED, now))
  {
    assert GoodAt(jobs, id);
    JobRecords.SettleUncertainKeeps(jobs[id], INTERRUPTED, now);
    OneJobChanges(jobs, id, JobRecords.SettleUncertain(jobs[id], INTERRUPTED, now));
  }

  lemma RestartOk(ram: JobMap, w: map<JobId, Worker>, executed: seq<Run>, stopped: set<Run>, candidate: JobMap)
    requires MemoryOk(ram, w, executed, stopped) && w == map[]
    requires Snapshot(candidate) && forall id | id in ram :: id in candidate && Interrupted(ram[id], candidate[id])
    ensures MemoryOk(candidate, w, executed, stopped) && DiskOk(candidate, w, executed, stopped)
  {
    forall id | id in ram ensures LaterAt(ram, candidate, id) { LaterReflexive(ram[id]); }
    CandidateOk(ram, w, executed, stopped, candidate);
  }

  /** Settles every attempt the last process left running. */
  method SettleInterrupted(jobs: JobMap) returns (settled: JobMap)
    requires Snapshot(jobs)
    ensures Snapshot(settled) && settled.Keys == jobs.Keys
    ensures forall id | id in jobs :: Interrupted(jobs[id], settled[id])
  {
    settled := jobs;
    var todo := set id | id in jobs && JobRecords.Executing(jobs[id].status);
    while todo != {}
      invariant Snapshot(settled) && settled.Keys == jobs.Keys
      invariant forall id | id in todo :: id in jobs && JobRecords.Executing(jobs[id].status) && settled[id] == jobs[id]
      invariant forall id | id in jobs && id !in todo :: Interrupted(jobs[id], settled[id])
      decreases |todo|
    {
      var id :| id in todo;
      var now: nat := *;
      InterruptOk(settled, id, now);
      settled := settled[id := JobRecords.SettleUncertain(settled[id], INTERRUPTED, now)];
      todo := todo - {id};
    }
  }

  class JobService {
    var ram: JobMap
    var disk: JobMap
    var serving: bool
    var workers: map<JobId, Worker>
    var executed: seq<Run>
    var stopped: set<Run>

    ghost predicate Valid()
      reads this
    {
      && MemoryOk(ram, workers, executed, stopped)
      && DiskOk(disk, workers, executed, stopped)
      && RunsOk(workers, executed)
      && (!serving ==> workers == map[])
    }

    constructor ()
      ensures Valid() && ram == map[] && disk == map[] && executed == [] && stopped == {} && workers == map[] && !serving
    {
      ram, disk, serving, workers, executed, stopped := map[], map[], false, map[], [], {};
      new;
      assert ActiveJobs(ram) == {};
    }

    /** Applies a candidate and saves it; a save that fails, with or without effect, leaves memory as it was. */
    method Mutate(candidate: JobMap, save: Save) returns (ok: bool)
      modifies this`ram, this`disk
      ensures ok == save.Saved?
      ensures ram == if ok then candidate else old(ram)
      ensures disk == if save.Lost? then old(disk) else candidate
    {
      var before := ram;
      ram := candidate;
      if !save.Lost? { disk := ram; }
      ok := save.Saved?;
      if !ok { ram := before; }
    }

    /** `mutate` around an operation on one record: an operation that refuses changes nothing. */
    method Edit(id: JobId, edited: Result<Job>, save: Save) returns (ok: bool)
      requires Valid() && id in ram && id !in workers
      requires edited.Ok? ==> JobRecords.Good(edited.value) && JobRecords.Later(ram[id], edited.value)
      requires edited.Ok? && JobRecords.Active(edited.value.status) && !JobRecords.Active(ram[id].status) ==>
                 |ActiveJobs(ram)| < MAX_ACTIVE
      modifies this`ram, this`disk
      ensures Valid() && ok == (edited.Ok? && save.Saved?)
      ensures ram == if ok then old(ram)[id := edited.value] else old(ram)
      ensures disk == if edited.Err? || save.Lost? then old(disk) else old(ram)[id := edited.value]
    {
      ok := false;
      if edited.Ok? {
        EditOk(ram, workers, executed, stopped, id, edited.value);
        ok := Mutate(ram[id := edited.value], save);
      }
    }

    /** The owner's, the revision's and the workflow's check before every edit. */
    predicate Editable(agent: string, id: JobId, revision: nat)
      reads this
    {
      id in ram && ram[id].agent == agent && ram[id].revision == revision
    }

    predicate HasCapacity()
      reads this
    {
      |ActiveJobs(ram)| < MAX_ACTIVE
    }

    method Cancel(agent: string, id: JobId, revision: nat, now: nat, save: Save) returns (ok: bool)
      requires Valid()
      modifies this`ram, this`disk
      ensures Valid()
      ensures ok ==> id in old(ram) && old(ram)[id].agent == agent && old(ram)[id].revision == revision
      ensures ok <==> (&& old(Editable(agent, id, revision))
                       && JobRecords.Cancel(old(ram)[id], now).Ok? && save.Saved?)
      ensures ok ==> disk == ram == old(ram)[id := JobRecords.Cancel(old(ram)[id], now).value]
      ensures save.Lost? ==> disk == old(disk)
      ensures !ok ==> ram == old(ram)
    {
      ok := false;
      if Editable(agent, id, revision) && JobRecords.Cancel(ram[id], now).Ok? {
        Unclaimed(ram, workers, id);
        JobRecords.CancelKeeps(ram[id], now);
        ok := Edit(id, JobRecords.Cancel(ram[id], now), save);
      }
    }

    /** Retries within the attempt limit; `linked` is the goal's own check. */
    method Retry(agent: string, id: JobId, revision: nat, acknowledged: bool, linked: bool, now: nat, save: Save) returns (ok: bool)
      requires Valid()
      modifies this`ram, this`disk
      ensures Valid()
      ensures ok ==> id in old(ram) && old(ram)[id].agent == agent && old(ram)[id].revision == revision
      ensures ok ==> linked && (old(ram)[id].input.requiresApproval || |ActiveJobs(old(ram))| < 8)
      ensures ok <==> (&& old(Editable(agent, id, revision)) && linked && (old(ram)[id].input.requiresApproval || |ActiveJobs(old(ram))| < 8)
                       && JobRecords.Retry(old(ram)[id], acknowledged, now).Ok? && save.Saved?)
      ensures ok ==> disk == ram == old(ram)[id := JobRecords.Retry(old(ram)[id], acknowledged, now).value]
      ensures save.Lost? ==> disk == old(disk)
      ensures !ok ==> ram == old(ram)
    {
      ok := false;
      if Editable(agent, id, revision) && linked && (ram[id].input.requiresApproval || HasCapacity()) {
        var r := JobRecords.Retry(ram[id], acknowledged, now);
        if r.Ok? {
          Unclaimed(ram, workers, id);
          JobRecords.RetryKeeps(ram[id], acknowledged, now);
          ok := Edit(id, r, save);
        }
      }
    }

    method Approve(agent: string, id: JobId, revision: nat, linked: bool, now: nat, save: Save) returns (ok: bool)
      requires Valid()
      modifies this`ram, this`disk
      ensures Valid()
      ensures ok ==> id in old(ram) && old(ram)[id].agent == agent && old(ram)[id].revision == revision
      ensures ok ==> linked && |ActiveJobs(old(ram))| < 8
      ensures ok <==> (&& old(Editable(agent, id, revision)) && linked && |ActiveJobs(old(ram))| < 8
                       && JobRecords.Approve(old(ram)[id], now).Ok? && save.Saved?)
      ensures ok ==> disk == ram == old(ram)[id := JobRecords.Approve(old(ram)[id], now).value]
      ensures save.Lost? ==> disk == old(disk)
      ensures !ok ==> ram == old(ram)
    {
      ok := false;
      if Editable(agent, id, revision) && linked && HasCapacity() && JobRecords.Approve(ram[id], now).Ok? {
        Unclaimed(ram, workers, id);
        JobRecords.ApproveKeeps(ram[id], now);
        ok := Edit(id, JobRecords.Approve(ram[id], now), save);
      }
    }

    method ReviewOutput(agent: string, id: JobId, revision: nat, decision: JobRecords.Decision, now: nat, save: Save) returns (ok: bool)
      requires Valid()
      modifies this`ram, this`disk
      ensures Valid()
      ensures ok ==> id in old(ram) && old(ram)[id].agent == agent && old(ram)[id].revision == revision
      ensures ok <==> (&& old(Editable(agent, id, revision))
                       && JobRecords.ReviewOutput(old(ram)[id], decision, now).Ok? && save.Saved?)
      ensures ok ==> disk == ram == old(ram)[id := JobRecords.ReviewOutput(old(ram)[id], decision, now).value]
      ensures save.Lost? ==> disk == old(disk)
      ensures !ok ==> ram == old(ram)
    {
      ok := false;
      if Editable(agent, id, revision) && JobRecords.ReviewOutput(ram[id], decision, now).Ok? {
        Unclaimed(ram, workers, id);
        JobRecords.ReviewOutputKeeps(ram[id], decision, now);
        ok := Edit(id, JobRecords.ReviewOutput(ram[id], decision, now), save);
      }
    }

    /** What a new job needs: room in the history, the goal's consent, and capacity unless it first awaits approval. */
    predicate Admits(input: JobRecords.Input, linked: bool)
      reads this
    {
      |ram| < MAX_JOBS && linked && (input.requiresApproval || HasCapacity())
    }

    /**
     A repeated request returns the job it made, a reused key with other input is refused, and a new one adds
     exactly one job. `wellFormed` is the check of the texts and of the reserved key prefix, `linked` the goal's
     check, `unused` a fresh id.
     */
    method Create(agent: string, key: string, input: JobRecords.Input, wellFormed: bool, linked: bool, unused: JobId, now: nat, save: Save)
      returns (made: Option<JobId>)
      requires Valid() && unused !in ram
      modifies this`ram, this`disk
      ensures Valid()
      ensures forall id | Known(old(ram), agent, key, id) ::
                && ram == old(ram)
                && made == if wellFormed && 1 <= input.maxAttempts <= 3 && ram[id].input == input && save.Saved? then Some(id) else None
      ensures (forall id :: !Known(old(ram), agent, key, id)) ==>
                made == if (&& wellFormed && 1 <= input.maxAttempts <= 3 && |old(ram)| < 200 && linked
                            && (input.requiresApproval || |ActiveJobs(old(ram))| < 8) && save.Saved?) then Some(unused) else None
      ensures (forall id :: !Known(old(ram), agent, key, id)) ==>
                ram == if made.Some? then old(ram)[unused := JobRecords.New(agent, key, input, now)] else old(ram)
      ensures made.Some? ==> disk == ram
      ensures made.Some? && (forall id :: !Known(old(ram), agent, key, id)) ==>
                |old(ram)| < 200 && linked && (input.requiresApproval || |ActiveJobs(old(ram))| < 8)
    {
      made := None;
      if !wellFormed || input.maxAttempts < 1 || input.maxAttempts > 3 { return; }
      var found := Find(agent, key);
      if found.Some? {
        assert Known(ram, agent, key, found.value);
        var ok := Repeat(found.value, input, save);
        if ok { made := found; }
      } else {
        var ok := Add(unused, agent, key, input, linked, now, save);
        if ok { made := Some(unused); }
      }
    }

    method Repeat(id: JobId, input: JobRecords.Input, save: Save) returns (ok: bool)
      requires Valid() && id in ram
      modifies this`ram, this`disk
      ensures Valid() && ram == old(ram)
      ensures ok == (ram[id].input == input && save.Saved?)
      ensures ok ==> disk == ram
    {
      ok := false;
      if ram[id].input == input {
        SameCandidate(ram, workers, executed, stopped);
        ok := Mutate(ram, save);
      }
    }

    method Add(unused: JobId, agent: string, key: string, input: JobRecords.Input, linked: bool, now: nat, save: Save) returns (ok: bool)
      requires Valid() && unused !in ram && 1 <= input.maxAttempts <= 3
      requires forall id :: !Known(ram, agent, key, id)
      modifies this`ram, this`disk
      ensures Valid()
      ensures ok == (old(Admits(input, linked)) && save.Saved?)
      ensures ram == if ok then old(ram)[unused := JobRecords.New(agent, key, input, now)] else old(ram)
      ensures ok ==> disk == ram
    {
      ok := false;
      if Admits(input, linked) {
        var job := JobRecords.New(agent, key, input, now);
        JobRecords.NewIsGood(agent, key, input, now);
        assert forall k | k in ram :: !Known(ram, agent, key, k);
        NewJobOk(ram, workers, executed, stopped, unused, job);
        ok := Mutate(ram[unused := job], save);
      }
    }

    method Find(agent: string, key: string) returns (found: Option<JobId>)
      requires DistinctKeys(ram)
      ensures found.Some? ==> forall id :: Known(ram, agent, key, id) <==> id == found.value
      ensures found.None? ==> forall id :: !Known(ram, agent, key, id)
    {
      found := None;
      if id :| id in ram && ram[id].agent == agent && ram[id].key == key {
        found := Some(id);
        assert forall other | Known(ram, agent, key, other) :: SameKey(ram, id, other);
      }
    }

    /** A queued job is claimed, and the claim saved, before anything runs. `allowed`: goal, closing and ticket checks. */
    method Claim(id: JobId, allowed: bool, now: nat, save: Save) returns (ok: bool)
      requires Valid()
      modifies this`ram, this`disk, this`workers
      ensures Valid()
      ensures ok <==> (&& serving && allowed && id in old(ram) && (forall w | w in old(workers) :: old(workers)[w].claim.agent != old(ram)[id].agent)
                       && JobRecords.Claim(old(ram)[id], now).Ok? && save.Saved?)
      ensures ok ==> disk == ram == old(ram)[id := JobRecords.Claim(old(ram)[id], now).value]
      ensures ok ==> workers == old(workers)[id := Worker(ram[id], Claimed)]
      ensures !ok ==> ram == old(ram) && workers == old(workers)
    {
      ok := false;
      if serving && allowed && id in ram && (forall w | w in workers :: workers[w].claim.agent != ram[id].agent)
         && JobRecords.Claim(ram[id], now).Ok? {
        ghost var before := ram;
        var claimed := JobRecords.Claim(ram[id], now);
        Unclaimed(ram, workers, id);
        JobRecords.ClaimKeeps(ram[id], now);
        ok := Edit(id, claimed, save);
        if ok {
          HireOk(before, workers, executed, stopped, id, claimed.value);
          workers := workers[id := Worker(claimed.value, Claimed)];
        }
      }
    }

    /** The worker of a saved claim begins its run. */
    method Begin(id: JobId)
      requires Valid() && id in workers && workers[id].stage == Claimed
      modifies this`workers, this`executed
      ensures Valid()
      ensures executed == old(executed) + [Run(id, old(workers)[id].claim.attempt)]
      ensures workers == old(workers)[id := old(workers)[id].(stage := Executing)]
    {
      BeginOk(ram, disk, workers, executed, stopped, id);
      executed := executed + [Run(id, workers[id].claim.attempt)];
      workers := workers[id := workers[id].(stage := Executing)];
    }

    /**
     The run's commit, its save and its rollback, in one transaction. The claim cannot have changed under the
     worker, so the commit is never refused; after a failed save the claim is back, with any stop request.
     */
    method Commit(id: JobId, outcome: JobRecords.Outcome, now: nat, save: Save) returns (ok: bool)
      requires Valid() && id in workers && workers[id].stage == Executing
      modifies this`ram, this`disk, this`workers
      ensures Valid() && ok == save.Saved?
      ensures id in old(ram) && JobRecords.Commit(old(ram)[id], old(workers)[id].claim.revision, outcome, now).Ok?
      ensures ok ==> disk == ram == old(ram)[id := JobRecords.Commit(old(ram)[id], old(workers)[id].claim.revision, outcome, now).value]
      ensures ok ==> JobRecords.CommittedAs(old(ram)[id], ram[id], outcome, now)
      ensures save.Lost? ==> disk == old(disk)
      ensures ok ==> workers == old(workers) - {id}
      ensures !ok ==> ram == old(ram) && workers == old(workers)[id := old(workers)[id].(stage := Broken)]
    {
      StillOurs(ram, workers, id);
      JobRecords.CommitWrites(ram[id], workers[id].claim.revision, outcome, now);
      var committed := JobRecords.Commit(ram[id], workers[id].claim.revision, outcome, now);
      JobRecords.CommitKeeps(ram[id], workers[id].claim.revision, outcome, now);
      ok := SaveCommit(id, committed.value, save);
    }

    /** Saves a settled claim or puts the claim back. */
    method SaveCommit(id: JobId, committed: Job, save: Save) returns (ok: bool)
      requires Valid() && id in workers && id in ram
      requires JobRecords.Good(committed) && JobRecords.Later(ram[id], committed)
      requires !JobRecords.Active(committed.status) && committed.stop == ram[id].stop
      modifies this`ram, this`disk, this`workers
      ensures Valid() && ok == save.Saved?
      ensures ok ==> disk == ram == old(ram)[id := committed] && workers == old(workers) - {id}
      ensures disk == if save.Lost? then old(disk) else old(ram)[id := committed]
      ensures !ok ==> ram == old(ram) && workers == old(workers)[id := old(workers)[id].(stage := Broken)]
    {
      SettleOk(ram, workers, executed, stopped, id, committed);
      RollbackRestores(ram, workers, id, committed);
      ram := ram[id := committed];
      if !save.Lost? { disk := ram; }
      ok := save.Saved?;
      if ok {
        FewerRuns(workers, executed, id);
        workers := workers - {id};
      } else {
        ram := ram[id := workers[id].claim.(stop := ram[id].stop)];
        RestageOk(ram, workers, executed, id, Broken);
        RestageSaved(disk, workers, id, Broken);
        workers := workers[id := workers[id].(stage := Broken)];
      }
    }

    /** The worker settles a run without a saved commit as uncertain, or, if that cannot be saved, remembers it. */
    method SettleBroken(id: JobId, now: nat, save: Save)
      requires Valid() && id in workers && workers[id].stage == Broken
      modifies this`ram, this`disk, this`workers
      ensures Valid() && id in old(ram)
      ensures save.Saved? ==> disk == ram == old(ram)[id := JobRecords.SettleUncertain(old(ram)[id], UNCOMMITTED, now)]
      ensures save.Saved? ==> workers == old(workers) - {id}
      ensures !save.Saved? ==> ram == old(ram) && workers == old(workers)[id := old(workers)[id].(stage := Unsaved)]
    {
      StillOurs(ram, workers, id);
      var settled := JobRecords.SettleUncertain(ram[id], UNCOMMITTED, now);
      JobRecords.SettleUncertainKeeps(ram[id], UNCOMMITTED, now);
      SaveSettled(id, settled, save);
    }

    /** `mutate` around the settlement of a worker's own job; without an acknowledgement the worker goes on. */
    method SaveSettled(id: JobId, settled: Job, save: Save)
      requires Valid() && id in workers && id in ram
      requires JobRecords.Good(settled) && JobRecords.Later(ram[id], settled) && !JobRecords.Active(settled.status)
      modifies this`ram, this`disk, this`workers
      ensures Valid()
      ensures save.Saved? ==> disk == ram == old(ram)[id := settled] && workers == old(workers) - {id}
      ensures !save.Saved? ==> ram == old(ram) && workers == old(workers)[id := old(workers)[id].(stage := Unsaved)]
      ensures disk == if save.Lost? then old(disk) else old(ram)[id := settled]
    {
      SettleOk(ram, workers, executed, stopped, id, settled);
      var ok := Mutate(ram[id := settled], save);
      if ok {
        FewerRuns(workers, executed, id);
        workers := workers - {id};
      } else {
        RestageOk(ram, workers, executed, id, Unsaved);
        RestageSaved(disk, workers, id, Unsaved);
        workers := workers[id := workers[id].(stage := Unsaved)];
      }
    }

    /** Nothing could be saved: the uncertainty is kept in memory, and the saved claim is settled by a restart. */
    method SettleInMemory(id: JobId, now: nat)
      requires Valid() && id in workers && workers[id].stage == Unsaved
      modifies this`ram, this`workers
      ensures Valid() && id in old(ram) && workers == old(workers) - {id}
      ensures ram == old(ram)[id := JobRecords.SettleUncertain(old(ram)[id], UNSAVED, now)]
    {
      StillOurs(ram, workers, id);
      var settled := JobRecords.SettleUncertain(ram[id], UNSAVED, now);
      JobRecords.SettleUncertainKeeps(ram[id], UNSAVED, now);
      SettleOk(ram, workers, executed, stopped, id, settled);
      FewerSaved(disk, workers, id);
      ram := ram[id := settled];
      FewerRuns(workers, executed, id);
      workers := workers - {id};
    }

    /** A run ends before it commits anything. */
    method Fail(id: JobId)
      requires Valid() && id in workers && workers[id].stage == Executing
      modifies this`workers
      ensures Valid() && workers == old(workers)[id := old(workers)[id].(stage := Broken)]
    {
      RestageOk(ram, workers, executed, id, Broken);
      RestageSaved(disk, workers, id, Broken);
      workers := workers[id := workers[id].(stage := Broken)];
    }

    /** A worker task dies: its running claim stays uncertain until the restart. */
    method Vanish(id: JobId)
      requires Valid() && id in workers
      modifies this`workers
      ensures Valid() && workers == old(workers) - {id}
    {
      FewerSaved(disk, workers, id);
      FewerOwned(ram, workers, id);
      FewerRuns(workers, executed, id);
      workers := workers - {id};
    }

    /** The owner stops a running attempt; the marker is saved before anything is signalled. */
    method RequestStop(id: JobId, attempt: nat, now: nat, save: Save) returns (ok: bool)
      requires Valid() && id in ram
      modifies this`ram, this`disk, this`stopped
      ensures Valid()
      ensures !ok ==> ram == old(ram) && stopped == old(stopped)
      ensures ok ==> ram == old(ram)[id := JobRecords.RequestStop(old(ram)[id], attempt, now)]
      ensures old(ram)[id].status == JobRecords.Running && old(ram)[id].attempt == attempt && old(ram)[id].stop.None? ==>
                ok == save.Saved? && (ok ==> disk == ram && stopped == old(stopped) + {Run(id, attempt)})
    {
      var j := JobRecords.RequestStop(ram[id], attempt, now);
      ok := true;
      if j != ram[id] {
        assert GoodAt(ram, id);
        JobRecords.RequestStopKeeps(ram[id], attempt, now);
        StopOk(ram, workers, executed, stopped, id, j);
        ok := Mutate(ram[id := j], save);
        if ok {
          StopNoted(ram, executed, stopped, Run(id, attempt));
          stopped := stopped + {Run(id, attempt)};
        }
      } else {
        assert ram == ram[id := j];
      }
    }

    /** The process ends at any point: only the saved snapshot is left. */
    method Restart()
      requires Valid()
      modifies this`ram, this`workers, this`serving
      ensures Valid() && Loadable(disk)
      ensures ram == disk && workers == map[] && !serving
    {
      assert forall id | id in disk :: GoodAt(disk, id);
      ram, workers, serving := disk, map[], false;
    }

    /** The first transaction of a process: every attempt the last one left running is settled, none is run again. */
    method Start(save: Save) returns (ok: bool)
      requires Valid()
      modifies this`ram, this`disk, this`serving
      ensures Valid() && ok == serving == (old(serving) || save.Saved?)
      ensures old(serving) || !ok ==> ram == old(ram)
      ensures !old(serving) && ok ==> disk == ram && ram.Keys == old(ram).Keys
      ensures !old(serving) && ok ==> forall id | id in old(ram) :: Interrupted(old(ram)[id], ram[id])
    {
      if serving { return true; }
      var candidate := SettleInterrupted(ram);
      RestartOk(ram, workers, executed, stopped, candidate);
      ok := Mutate(candidate, save);
      serving := ok;
    }

    /** One pass of the dispatcher over the queue: claims only, each from the queue. */
    method Dispatch(queue: seq<JobId>)
      requires Valid()
      modifies this`ram, this`disk, this`workers
      ensures Valid()
      ensures forall id | id in workers ::
                (id in old(workers) && workers[id] == old(workers)[id]) || (id in queue && workers[id].stage == Claimed)
    {
      for i := 0 to |queue|
        invariant Valid()
        invariant forall id | id in workers ::
                    (id in old(workers) && workers[id] == old(workers)[id]) || (id in queue && workers[id].stage == Claimed)
      {
        var allowed: bool, now: nat, save: Save := *, *, *;
        var _ := Claim(queue[i], allowed, now, save);
      }
    }
  }

  // ---- What follows for every run ----

  function Executions(executed: seq<Run>, id: JobId): nat {
    if executed == [] then 0
    else Executions(executed[..|executed| - 1], id) + (if executed[|executed| - 1].job == id then 1 else 0)
  }

  function AttemptsRun(executed: seq<Run>, id: JobId): set<nat> {
    set r | r in executed && r.job == id :: r.attempt
  }

  lemma {:induction false} ExecutionsAreAttempts(executed: seq<Run>, id: JobId)
    requires Distinct(executed)
    ensures Executions(executed, id) == |AttemptsRun(executed, id)|
  {
    if executed != [] {
      var rest, last := executed[..|executed| - 1], executed[|executed| - 1];
      assert executed == rest + [last];
      ExecutionsAreAttempts(rest, id);
      OneMoreRun(rest, last, id);
    }
  }

  lemma OneMoreRun(rest: seq<Run>, last: Run, id: JobId)
    requires last !in rest
    ensures |AttemptsRun(rest + [last], id)| == |AttemptsRun(rest, id)| + (if last.job == id then 1 else 0)
  {
    if last.job == id {
      assert AttemptsRun(rest + [last], id) == AttemptsRun(rest, id) + {last.attempt};
      assert forall r | r in rest && r.job == id :: r.attempt != last.attempt;
    } else {
      assert AttemptsRun(rest + [last], id) == AttemptsRun(rest, id);
    }
  }

  lemma {:induction false} SmallNumbers(s: set<nat>, most: nat)
    requires forall n | n in s :: 1 <= n <= most
    ensures |s| <= most
  {
    if most == 0 {
      assert s == {};
    } else {
      SmallNumbers(s - {most}, most - 1);
    }
  }

  /** Over all crashes, restarts and uncertain saves, no attempt runs twice and no job more often than its limit. */
  lemma AtMostOnce(s: JobService, id: JobId)
    requires s.Valid()
    ensures forall i, k | 0 <= i < k < |s.executed| :: s.executed[i] != s.executed[k]
    ensures id in s.ram ==> Executions(s.executed, id) <= s.ram[id].input.maxAttempts <= 3
    ensures id !in s.ram ==> Executions(s.executed, id) == 0
  {
    ExecutionsAreAttempts(s.executed, id);
    forall r | r in s.executed && r.job == id
      ensures id in s.ram && 1 <= r.attempt <= s.ram[id].attempt
    {
      assert Counted(s.ram, r);
    }
    if id in s.ram {
      assert GoodAt(s.ram, id);
      SmallNumbers(AttemptsRun(s.executed, id), s.ram[id].input.maxAttempts);
    } else {
      assert AttemptsRun(s.executed, id) == {};
    }
  }

  /** A stop that was acknowledged is never lost: unless the attempt still runs, its history says it was stopped. */
  lemma StopsAreRecorded(s: JobService, r: Run)
    requires s.Valid() && r in s.stopped
    ensures r.job in s.ram && r.job in s.disk
    ensures var j := s.ram[r.job];
      (j.status == JobRecords.Running && j.attempt == r.attempt) || JobRecords.HasStopped(j, r.attempt)
    ensures var j := s.disk[r.job];
      (j.status == JobRecords.Running && j.attempt == r.attempt) || JobRecords.HasStopped(j, r.attempt)
  {
    assert StopKept(s.ram, r) && StopKept(s.disk, r);
  }

  /** A restart is never refused, and the queue it finds is approved since the last retry. */
  lemma EverySnapshotLoads(s: JobService, id: JobId)
    requires s.Valid() && id in s.disk
    ensures Loadable(s.disk)
    ensures var j := s.disk[id];
      && (j.status == JobRecords.Queued && j.input.requiresApproval ==> JobRecords.ApprovedSinceRetry(j.marks))
      && JobRecords.RetriedBetweenClaims(j.marks) && JobRecords.Claims(j.marks) == j.attempt
  {
    assert forall k | k in s.disk :: GoodAt(s.disk, k);
  }
}
