/** What each step of the queue does to each row, column by column. */
module QueueEffects {
  import opened Basics
  import opened QueueTables
  import opened QueueProtocol

  /** The row that enqueue_if_new inserts, with the defaults of the schema. */
  ghost predicate Inserted(job: Job, now: int, sha: Sha, repo: string, prNumber: int, installation: int) {
    && job.sha == sha && job.repo == repo && job.prNumber == prNumber && job.installation == installation
    && job.status == Pending && job.priority == 0 && job.maxAttempts == 3 && job.attempts == job.fence == 0
    && job.scheduledAt == job.createdAt == now
    && job.worker == job.error == None && job.startedAt == job.completedAt == job.checkRun == None
    && job.result == None
  }

  /** The row may be claimed at `now`. */
  ghost predicate Waits(job: Job, now: int) {
    job.status == Pending && job.scheduledAt <= now && job.attempts < job.maxAttempts
  }

  /** The holder has lost the job: it waits for its back-off if an attempt is left, and is dead if not; no
      other column changes. */
  ghost predicate TakenBack(job: Job, job': Job, now: int, backoff: nat) {
    job' == if job.attempts >= job.maxAttempts
            then job.(status := Dead, fence := job.fence + 1, worker := None)
            else job.(status := Pending, fence := job.fence + 1, worker := None,
                      scheduledAt := now + backoff * job.attempts)
  }

  /** A row that has been pending for over an hour is dead, with its error; no other column changes. */
  ghost predicate TimedOut(job: Job, job': Job, now: int) {
    job' == if job.status == Pending && job.createdAt < now - 3600
            then job.(status := Dead, error := Some("Timed out: pending for over 1 hour")) else job
  }

  /** The row is processing, nobody has it locked, and its heartbeat is lost or too old. */
  ghost predicate Lost(jobs: map<JobId, Job>, heartbeats: map<JobId, Heartbeat>, now: int, stale: nat,
                       locked: set<JobId>, id: JobId)
  {
    && id in jobs && id !in locked && jobs[id].status == Processing
    && (id in heartbeats ==> heartbeats[id].at < now - stale)
  }

  // ----- jobs -----

  /** A step changes a row in the columns named here and in no other. */
  lemma RowEffect(s: State, l: Label, id: JobId)
    requires Enabled(s, l) && id in s.t.jobs
    ensures id in Next(s, l).t.jobs
    ensures var job, job' := s.t.jobs[id], Next(s, l).t.jobs[id];
            match l
            case DoClaim(worker, _, got) =>
              job' == if got == Some(id)
                      then job.(status := Processing, startedAt := Some(s.now), worker := Some(worker),
                                attempts := job.attempts + 1)
                      else job
            case DoSetCheckRun(j, checkRun) => job' == if j == id then job.(checkRun := Some(checkRun)) else job
            case DoFinalize(j, token, verdict, feedback) =>
              job' == if j == id && job.fence == token
                      then job.(status := verdict, completedAt := Some(s.now),
                                result := if feedback == Some(map[]) then None else feedback)
                      else job
            case DoRelease(j, token, delay) =>
              job' == if j == id && job.fence == token && job.status == Processing
                      then job.(status := Pending, worker := None, scheduledAt := s.now + delay,
                                fence := token + 1)
                      else job
            case DoReconcile(cfg, locked) =>
              if Lost(s.t.jobs, s.t.heartbeats, s.now, cfg.stale, locked, id)
              then exists taken :: TakenBack(job, taken, s.now, cfg.backoff) && TimedOut(taken, job', s.now)
              else TimedOut(job, job', s.now)
            case _ => job' == job
  {
    if l.DoReconcile? {
      ReconcileRows(s.t, s.now, l.cfg, l.locked);
      var taken := Requeued(s.t.jobs[id], s.now, l.cfg.backoff);
      assert TakenBack(s.t.jobs[id], taken, s.now, l.cfg.backoff);
    }
  }

  /** A claim takes a waiting row that nobody has locked, and none of those comes before it; an empty claim
      leaves none. */
  lemma ClaimEffect(s: State, l: Label)
    requires Enabled(s, l) && l.DoClaim?
    ensures match l.got
            case None => forall id | id in s.t.jobs && id !in l.locked :: !Waits(s.t.jobs[id], s.now)
            case Some(id) =>
              && id in s.t.jobs && id !in l.locked && Waits(s.t.jobs[id], s.now)
              && Next(s, l).handed == s.handed + {Ticket(id, s.t.jobs[id].fence)}
              && forall other | other in s.t.jobs && other !in l.locked && Waits(s.t.jobs[other], s.now) ::
                   s.t.jobs[id].priority > s.t.jobs[other].priority
                   || (s.t.jobs[id].priority == s.t.jobs[other].priority
                       && s.t.jobs[id].createdAt <= s.t.jobs[other].createdAt)
  {
    match l.got
    case None =>
      forall id | id in s.t.jobs && id !in l.locked ensures !Waits(s.t.jobs[id], s.now) {
        assert !Claimable(s.t, s.now, l.locked, id);
      }
    case Some(id) =>
      forall other | other in s.t.jobs && other !in l.locked && Waits(s.t.jobs[other], s.now)
        ensures !Before(s.t.jobs[other], s.t.jobs[id])
      {
        assert Claimable(s.t, s.now, l.locked, other);
      }
  }

  /** A row comes from an enqueue of a commit that has neither a record nor a row. */
  lemma NewRowEffect(s: State, l: Label, id: JobId)
    requires Enabled(s, l) && id !in s.t.jobs
    ensures id in Next(s, l).t.jobs <==>
              && l.DoEnqueue? && l.newId == id && l.sha !in s.t.records
              && forall other | other in s.t.jobs :: s.t.jobs[other].sha != l.sha
    ensures id in Next(s, l).t.jobs ==>
              Inserted(Next(s, l).t.jobs[id], s.now, l.sha, l.repo, l.prNumber, l.installation)
  {
  }

  // ----- heartbeats and records -----

  ghost function HeartbeatAt(t: Tables, id: JobId): Option<Heartbeat> {
    if id in t.heartbeats then Some(t.heartbeats[id]) else None
  }

  lemma HeartbeatEffect(s: State, l: Label, id: JobId)
    requires Enabled(s, l)
    ensures var row, row' := HeartbeatAt(s.t, id), HeartbeatAt(Next(s, l).t, id);
            match l
            case DoClaim(worker, _, got) => row' == if got == Some(id) then Some(Heartbeat(worker, s.now)) else row
            case DoBeatWrite(read) =>
              row' == if read.job == id && row.Some? && row.value.worker == read.worker
                      then Some(Heartbeat(read.worker, read.at)) else row
            case DoFinalize(j, token, _, _) =>
              row' == if j == id && id in s.t.jobs && s.t.jobs[id].fence == token then None else row
            case DoRelease(j, _, _) => row' == if j == id then None else row
            case DoReconcile(cfg, locked) =>
              row' == if id in s.t.jobs && s.t.jobs[id].status == Processing
                         && !Lost(s.t.jobs, s.t.heartbeats, s.now, cfg.stale, locked, id)
                      then row else None
            case LoseHeartbeats(lost) => row' == if id in lost then None else row
            case _ => row' == row
  {
    if l.DoReconcile? {
      ReconcileRows(s.t, s.now, l.cfg, l.locked);
    }
  }

  /** Only a finalize_job that does not raise touches a record, and only its job's: it writes the feedback,
      `{}` for none, and leaves the other columns of an existing record. */
  lemma RecordEffect(s: State, l: Label, sha: Sha)
    requires Enabled(s, l)
    ensures var commits := l.DoFinalize? && l.job in s.t.jobs && s.t.jobs[l.job].fence == l.token
                           && s.t.jobs[l.job].sha == sha;
            if commits
            then var row := if sha in s.t.records then s.t.records[sha]
                            else Record(l.job, s.t.jobs[l.job].prNumber, s.t.jobs[l.job].repo, map[]);
                 sha in Next(s, l).t.records &&
                 Next(s, l).t.records[sha] ==
                 row.(feedback := match l.feedback case None => map[] case Some(d) => d)
            else (sha in Next(s, l).t.records <==> sha in s.t.records)
                 && (sha in s.t.records ==> Next(s, l).t.records[sha] == s.t.records[sha])
  {
  }

  // ----- the heartbeat's read, and the clock -----

  lemma ReadEffect(s: State, l: Label)
    requires Enabled(s, l)
    ensures l.DoBeatRead? ==>
              && l.job in s.t.jobs && s.t.jobs[l.job].worker == Some(l.beatWorker)
              && s.t.jobs[l.job].status == Processing && Next(s, l).t == s.t
              && Next(s, l).beating == s.beating + {BeatRead(l.job, l.beatWorker, s.now)}
    ensures Next(s, l).now == s.now + (if l.Tick? then l.elapsed else 0)
  {
  }
}
