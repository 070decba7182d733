/** The three tables behind the job queue, and what each repository transaction does to them.

    Every function below is one transaction (or one SQL statement of one), written as a function
    from the tables before to the tables after. Row ids, shas and worker ids are opaque values that
    are only compared. Instants and delays are whole seconds on one clock; `now` is the
    transaction's NOW(). */
module QueueTables {
  import opened Basics

  type JobId = nat
  type Sha = string
  type WorkerId = string
  type Dict = map<string, string>

  const HOUR := 3600
  const DEFAULT_PRIORITY := 0
  const DEFAULT_MAX_ATTEMPTS := 3

  datatype Status = Pending | Processing | Success | Failure | Dead {
    predicate Finalized() { Success? || Failure? }
    predicate Terminal() { Finalized() || Dead? }
  }

  /** The statuses that the worker passes to finalize_job. */
  type Verdict = s: Status | s.Finalized() witness Success

  datatype Job = Job(
    sha: Sha,
    prNumber: int,
    repo: string,
    installation: int,
    status: Status,
    priority: int,
    attempts: nat,
    maxAttempts: nat,
    worker: Option<WorkerId>,
    scheduledAt: int,
    startedAt: Option<int>,
    completedAt: Option<int>,
    error: Option<string>,
    result: Option<Dict>,
    fence: nat,
    checkRun: Option<int>,
    createdAt: int)

  datatype Heartbeat = Heartbeat(worker: WorkerId, at: int)

  datatype Record = Record(jobId: JobId, prNumber: int, repo: string, feedback: Dict)

  /** `records` is keyed by its unique column, the commit sha. */
  datatype Tables = Tables(
    jobs: map<JobId, Job>,
    heartbeats: map<JobId, Heartbeat>,
    records: map<Sha, Record>)

  // ----- enqueue_if_new -----

  function NewJob(now: int, sha: Sha, prNumber: int, repo: string, installation: int): Job {
    Job(sha, prNumber, repo, installation, Pending, DEFAULT_PRIORITY, 0, DEFAULT_MAX_ATTEMPTS,
        None, now, None, None, None, None, 0, None, now)
  }

  predicate HasSha(jobs: map<JobId, Job>, sha: Sha) {
    exists id | id in jobs :: jobs[id].sha == sha
  }

  /** INSERT ... ON CONFLICT (commit_sha) DO NOTHING. */
  function InsertJob(t: Tables, newId: JobId, job: Job): Tables {
    if HasSha(t.jobs, job.sha) then t else t.(jobs := t.jobs[newId := job])
  }

  /** The boolean that enqueue_if_new returns. */
  predicate EnqueueReturns(t: Tables, sha: Sha) {
    sha !in t.records
  }

  function Enqueue(t: Tables, newId: JobId, job: Job): Tables {
    if EnqueueReturns(t, job.sha) then InsertJob(t, newId, job) else t
  }

  // ----- claim_job -----

  predicate Eligible(job: Job, now: int) {
    job.status == Pending && job.scheduledAt <= now && job.attempts < job.maxAttempts
  }

  /** ORDER BY priority DESC, created_at ASC: `a` comes strictly before `b`. */
  predicate Before(a: Job, b: Job) {
    a.priority > b.priority || (a.priority == b.priority && a.createdAt < b.createdAt)
  }

  predicate Claimable(t: Tables, now: int, locked: set<JobId>, id: JobId) {
    id in t.jobs && id !in locked && Eligible(t.jobs[id], now)
  }

  /** A row the claim's sub-select may return: ties in the ordering are broken arbitrarily. */
  predicate FirstClaimable(t: Tables, now: int, locked: set<JobId>, id: JobId) {
    && Claimable(t, now, locked, id)
    && forall other | other in t.jobs :: Claimable(t, now, locked, other) ==> !Before(t.jobs[other], t.jobs[id])
  }

  function ClaimedRow(job: Job, now: int, worker: WorkerId): Job {
    job.(status := Processing, startedAt := Some(now), worker := Some(worker), attempts := job.attempts + 1)
  }

  function Claim(t: Tables, now: int, worker: WorkerId, id: JobId): Tables
    requires id in t.jobs
  {
    t.(jobs := t.jobs[id := ClaimedRow(t.jobs[id], now, worker)],
       heartbeats := t.heartbeats[id := Heartbeat(worker, now)])
  }

  // ----- update_heartbeat, in its two statements -----

  /** The SELECT: is the job processing under this worker? */
  predicate HeldBy(t: Tables, id: JobId, worker: WorkerId) {
    id in t.jobs && t.jobs[id].worker == Some(worker) && t.jobs[id].status == Processing
  }

  /** The UPDATE: `at` is the NOW() of the transaction, that is, of its SELECT. */
  function Beat(t: Tables, id: JobId, worker: WorkerId, at: int): Tables {
    if id in t.heartbeats && t.heartbeats[id].worker == worker
    then t.(heartbeats := t.heartbeats[id := Heartbeat(worker, at)])
    else t
  }

  // ----- set_check_run_id -----

  function SetCheckRun(t: Tables, id: JobId, checkRun: int): Tables {
    if id in t.jobs then t.(jobs := t.jobs[id := t.jobs[id].(checkRun := Some(checkRun))]) else t
  }

  // ----- finalize_job -----

  /** The WHERE clause of the fenced UPDATE; when it matches nothing the transaction raises. */
  predicate FenceMatches(t: Tables, id: JobId, token: nat) {
    id in t.jobs && t.jobs[id].fence == token
  }

  /** The `result` column: absent for no feedback and for an empty dictionary alike. */
  function ResultColumn(feedback: Option<Dict>): Option<Dict> {
    if feedback.Some? && feedback.value != map[] then feedback else None
  }

  /** The `feedback` column: an empty dictionary when there is none. */
  function FeedbackColumn(feedback: Option<Dict>): Dict {
    if feedback.Some? then feedback.value else map[]
  }

  function UpsertRecord(records: map<Sha, Record>, sha: Sha, record: Record): map<Sha, Record> {
    if sha in records then records[sha := records[sha].(feedback := record.feedback)] else records[sha := record]
  }

  function Finalize(t: Tables, now: int, id: JobId, token: nat, verdict: Verdict, feedback: Option<Dict>): Tables {
    if FenceMatches(t, id, token) then
      var job := t.jobs[id];
      Tables(t.jobs[id := job.(status := verdict, completedAt := Some(now), result := ResultColumn(feedback))],
             t.heartbeats - {id},
             UpsertRecord(t.records, job.sha, Record(id, job.prNumber, job.repo, FeedbackColumn(feedback))))
    else t
  }

  // ----- release_job -----

  predicate ReleaseMatches(t: Tables, id: JobId, token: nat) {
    FenceMatches(t, id, token) && t.jobs[id].status == Processing
  }

  /** The heartbeat goes even when the UPDATE matched no row. */
  function Release(t: Tables, now: int, id: JobId, token: nat, delay: nat): Tables {
    var jobs := if ReleaseMatches(t, id, token)
                then t.jobs[id := t.jobs[id].(status := Pending, worker := None, scheduledAt := now + delay,
                                              fence := t.jobs[id].fence + 1)]
                else t.jobs;
    t.(jobs := jobs, heartbeats := t.heartbeats - {id})
  }

  // ----- reconcile_stale_jobs, statement by statement -----

  datatype Settings = Settings(backoff: nat, stale: nat)

  predicate Stale(t: Tables, now: int, stale: nat, id: JobId) {
    id !in t.heartbeats || t.heartbeats[id].at < now - stale
  }

  predicate Taken(t: Tables, now: int, stale: nat, locked: set<JobId>, id: JobId) {
    id in t.jobs && id !in locked && t.jobs[id].status == Processing && Stale(t, now, stale, id)
  }

  function Requeued(job: Job, now: int, backoff: nat): Job {
    if job.attempts >= job.maxAttempts
    then job.(status := Dead, fence := job.fence + 1, worker := None)
    else job.(status := Pending, fence := job.fence + 1, worker := None, scheduledAt := now + backoff * job.attempts)
  }

  function RequeueStale(t: Tables, now: int, cfg: Settings, locked: set<JobId>): Tables {
    t.(jobs := map id | id in t.jobs ::
      if Taken(t, now, cfg.stale, locked, id) then Requeued(t.jobs[id], now, cfg.backoff) else t.jobs[id])
  }

  function PruneHeartbeats(t: Tables): Tables {
    t.(heartbeats := map id | id in t.heartbeats && id in t.jobs && t.jobs[id].status == Processing :: t.heartbeats[id])
  }

  predicate Overdue(job: Job, now: int) {
    job.status == Pending && job.createdAt < now - HOUR
  }

  const TIMEOUT_MESSAGE := "Timed out: pending for over 1 hour"

  function Expired(job: Job, now: int): Job {
    if Overdue(job, now) then job.(status := Dead, error := Some(TIMEOUT_MESSAGE)) else job
  }

  function ExpirePending(t: Tables, now: int): Tables {
    t.(jobs := map id | id in t.jobs :: Expired(t.jobs[id], now))
  }

  function Reconcile(t: Tables, now: int, cfg: Settings, locked: set<JobId>): Tables {
    ExpirePending(PruneHeartbeats(RequeueStale(t, now, cfg, locked)), now)
  }

  /** The rows that RETURNING hands back: the taken ones, as the first statement left them. */
  function ReconcileReturns(t: Tables, now: int, cfg: Settings, locked: set<JobId>): map<JobId, Job> {
    map id | id in t.jobs && Taken(t, now, cfg.stale, locked, id) :: Requeued(t.jobs[id], now, cfg.backoff)
  }
}
