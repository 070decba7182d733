/** The queue as a state machine: any number of clients run the transactions of `QueueTables` in any
    order, stall for any time, vanish, and wake up again. Only two things are asked of them: a token
    passed to finalize_job or release_job was handed out by an earlier claim of that job, and a new
    row gets a fresh id. */
module QueueProtocol {
  import opened Basics
  import opened QueueTables

  /** What a claim hands its worker: the right to use `token` on `job`. */
  datatype Ticket = Ticket(job: JobId, token: nat)

  /** An update_heartbeat whose SELECT succeeded at `at` and whose UPDATE has yet to run. */
  datatype BeatRead = BeatRead(job: JobId, worker: WorkerId, at: int)

  datatype State = State(t: Tables, now: int, handed: set<Ticket>, beating: set<BeatRead>)

  datatype Label =
    | DoEnqueue(newId: JobId, sha: Sha, prNumber: int, repo: string, installation: int)
    | DoClaim(worker: WorkerId, locked: set<JobId>, got: Option<JobId>)
    | DoBeatRead(job: JobId, beatWorker: WorkerId)
    | DoBeatWrite(read: BeatRead)
    | DoSetCheckRun(job: JobId, checkRun: int)
    | DoFinalize(job: JobId, token: nat, verdict: Verdict, feedback: Option<Dict>)
    | DoRelease(job: JobId, token: nat, delay: nat)
    | DoReconcile(cfg: Settings, locked: set<JobId>)
    | LoseHeartbeats(lost: set<JobId>)  // the unlogged table may be truncated by a database crash
    | Tick(elapsed: nat)

  /** The tables before any transaction: rows may wait, untouched, with any priority and allowance. */
  ghost predicate Init(s: State) {
    && (forall id | id in s.t.jobs ::
          s.t.jobs[id].status == Pending && s.t.jobs[id].attempts == s.t.jobs[id].fence == 0 &&
          s.t.jobs[id].worker == None && s.t.jobs[id].result == None && s.t.jobs[id].createdAt <= s.now)
    && UniqueShas(s.t)
    && s.t.heartbeats == map[] && s.t.records == map[] && s.handed == {} && s.beating == {}
  }

  ghost predicate Enabled(s: State, l: Label) {
    match l
    case DoEnqueue(newId, _, _, _, _) => newId !in s.t.jobs
    case DoClaim(_, locked, Some(id)) => FirstClaimable(s.t, s.now, locked, id)
    case DoClaim(_, locked, None) => forall id :: !Claimable(s.t, s.now, locked, id)
    case DoBeatRead(job, worker) => HeldBy(s.t, job, worker)
    case DoBeatWrite(read) => read in s.beating
    case DoFinalize(job, token, _, _) => Ticket(job, token) in s.handed
    case DoRelease(job, token, _) => Ticket(job, token) in s.handed
    case _ => true
  }

  ghost function Next(s: State, l: Label): State
    requires Enabled(s, l)
  {
    match l
    case DoEnqueue(newId, sha, prNumber, repo, installation) =>
      s.(t := Enqueue(s.t, newId, NewJob(s.now, sha, prNumber, repo, installation)))
    case DoClaim(worker, _, Some(id)) =>
      s.(t := Claim(s.t, s.now, worker, id), handed := s.handed + {Ticket(id, s.t.jobs[id].fence)})
    case DoClaim(_, _, None) => s
    case DoBeatRead(job, worker) => s.(beating := s.beating + {BeatRead(job, worker, s.now)})
    case DoBeatWrite(read) => s.(t := Beat(s.t, read.job, read.worker, read.at), beating := s.beating - {read})
    case DoSetCheckRun(job, checkRun) => s.(t := SetCheckRun(s.t, job, checkRun))
    case DoFinalize(job, token, verdict, feedback) => s.(t := Finalize(s.t, s.now, job, token, verdict, feedback))
    case DoRelease(job, token, delay) => s.(t := Release(s.t, s.now, job, token, delay))
    case DoReconcile(cfg, locked) => s.(t := Reconcile(s.t, s.now, cfg, locked))
    case LoseHeartbeats(lost) => s.(t := s.t.(heartbeats := s.t.heartbeats - lost))
    case Tick(elapsed) => s.(now := s.now + elapsed)
  }

  // ----- the invariant -----

  /** The fence and the attempt counter move together: they agree while nobody holds the job, and
      the fence is one behind while somebody holds it or has finished it. */
  ghost predicate Accounted(job: Job) {
    && job.attempts <= job.maxAttempts
    && (job.status.Pending? || job.status.Dead? ==> job.fence == job.attempts && job.worker == None)
    && (job.status.Processing? || job.status.Finalized() ==> job.fence + 1 == job.attempts)
    && (job.status.Processing? ==> job.worker.Some?)
  }

  ghost predicate AllAccounted(t: Tables) {
    forall id | id in t.jobs :: Accounted(t.jobs[id])
  }

  ghost predicate UniqueShas(t: Tables) {
    forall i, j | i in t.jobs && j in t.jobs && t.jobs[i].sha == t.jobs[j].sha :: i == j
  }

  /** Every heartbeat row belongs to a processing job and names its current worker. */
  ghost predicate HeartbeatsOwned(t: Tables) {
    forall id | id in t.heartbeats :: HeldBy(t, id, t.heartbeats[id].worker)
  }

  /** The record that a finalized row must have, and no other row may have. */
  ghost predicate Mirrored(t: Tables, id: JobId)
    requires id in t.jobs
  {
    var job := t.jobs[id];
    if job.status.Finalized()
    then job.sha in t.records && t.records[job.sha] == Record(id, job.prNumber, job.repo, FeedbackColumn(job.result))
    else job.sha !in t.records
  }

  ghost predicate RecordsMirrorJobs(t: Tables) {
    && (forall id | id in t.jobs :: Mirrored(t, id))
    && (forall sha | sha in t.records :: t.records[sha].jobId in t.jobs && t.jobs[t.records[sha].jobId].sha == sha)
  }

  /** Exactly the tokens below the attempt counter have been handed out. */
  ghost predicate HandedExactly(s: State) {
    forall id: JobId, token: nat :: Ticket(id, token) in s.handed <==> id in s.t.jobs && token < s.t.jobs[id].attempts
  }

  ghost predicate ClockAhead(s: State) {
    && (forall id | id in s.t.heartbeats :: s.t.heartbeats[id].at <= s.now)
    && (forall read | read in s.beating :: read.at <= s.now)
  }

  ghost predicate TablesOk(t: Tables) {
    && AllAccounted(t)
    && UniqueShas(t)
    && HeartbeatsOwned(t)
    && RecordsMirrorJobs(t)
  }

  ghost predicate Inv(s: State) {
    TablesOk(s.t) && HandedExactly(s) && ClockAhead(s)
  }

  lemma InitInv(s: State)
    requires Init(s)
    ensures Inv(s)
  {
  }

  /** A handed-out token that matches the fence is the newest one, and its holder has not been
      superseded: this is what stands in for finalize_job's missing status guard. */
  lemma MatchingTokenIsNewest(s: State, id: JobId, token: nat)
    requires Inv(s) && Ticket(id, token) in s.handed
    requires FenceMatches(s.t, id, token)
    ensures token + 1 == s.t.jobs[id].attempts
    ensures s.t.jobs[id].status.Processing? || s.t.jobs[id].status.Finalized()
  {
    assert Accounted(s.t.jobs[id]);
  }

  // ----- every transaction keeps the tables in order -----

  /** `b` may replace `a` without the records noticing. */
  ghost predicate SameForRecords(a: Job, b: Job) {
    && a.sha == b.sha && a.prNumber == b.prNumber && a.repo == b.repo && a.result == b.result
    && a.status.Finalized() == b.status.Finalized()
  }

  lemma RecordsKept(t: Tables, t': Tables)
    requires UniqueShas(t) && RecordsMirrorJobs(t)
    requires t'.jobs.Keys == t.jobs.Keys && t'.records == t.records
    requires forall id | id in t.jobs :: SameForRecords(t.jobs[id], t'.jobs[id])
    ensures UniqueShas(t') && RecordsMirrorJobs(t')
  {
    forall id | id in t'.jobs ensures Mirrored(t', id) {
      assert Mirrored(t, id) && SameForRecords(t.jobs[id], t'.jobs[id]);
    }
  }

  lemma EnqueueOk(t: Tables, newId: JobId, job: Job)
    requires TablesOk(t) && newId !in t.jobs
    requires job.status == Pending && job.attempts == job.fence == 0 && job.worker == None
    ensures TablesOk(Enqueue(t, newId, job))
  {
    var t' := Enqueue(t, newId, job);
    if t' != t {
      assert t'.jobs == t.jobs[newId := job] && t'.records == t.records;
      forall id | id in t'.jobs ensures Mirrored(t', id) && Accounted(t'.jobs[id]) {
        assert id != newId ==> Mirrored(t, id) && Accounted(t.jobs[id]);
      }
      assert HeartbeatsOwned(t') by {
        forall id | id in t'.heartbeats ensures HeldBy(t', id, t'.heartbeats[id].worker) {
          assert HeldBy(t, id, t.heartbeats[id].worker);
        }
      }
    }
  }

  lemma ClaimOk(t: Tables, now: int, worker: WorkerId, id: JobId)
    requires TablesOk(t) && id in t.jobs && Eligible(t.jobs[id], now)
    ensures TablesOk(Claim(t, now, worker, id))
  {
    var t' := Claim(t, now, worker, id);
    RecordsKept(t, t');
    assert Accounted(t.jobs[id]);
    forall other | other in t'.heartbeats ensures HeldBy(t', other, t'.heartbeats[other].worker) {
      assert other != id ==> HeldBy(t, other, t.heartbeats[other].worker);
    }
  }

  lemma BeatOk(t: Tables, id: JobId, worker: WorkerId, at: int)
    requires TablesOk(t)
    ensures TablesOk(Beat(t, id, worker, at))
  {
    var t' := Beat(t, id, worker, at);
    RecordsKept(t, t');
    forall other | other in t'.heartbeats ensures HeldBy(t', other, t'.heartbeats[other].worker) {
      assert HeldBy(t, other, t.heartbeats[other].worker);
    }
  }

  lemma SetCheckRunOk(t: Tables, id: JobId, checkRun: int)
    requires TablesOk(t)
    ensures TablesOk(SetCheckRun(t, id, checkRun))
  {
    if id in t.jobs {
      RowUpdateOk(t, id, t.jobs[id].(checkRun := Some(checkRun)));
    }
  }

  /** A row may be replaced by one that looks the same to the fence, the heartbeats and the records. */
  lemma RowUpdateOk(t: Tables, id: JobId, job: Job)
    requires TablesOk(t) && id in t.jobs
    requires Accounted(job) && SameForRecords(t.jobs[id], job)
    requires job.status == t.jobs[id].status && job.worker == t.jobs[id].worker
    ensures TablesOk(t.(jobs := t.jobs[id := job]))
  {
    var t' := t.(jobs := t.jobs[id := job]);
    RecordsKept(t, t');
    assert HeartbeatsOwned(t') by {
      forall other | other in t'.heartbeats ensures HeldBy(t', other, t'.heartbeats[other].worker) {
        assert HeldBy(t, other, t.heartbeats[other].worker);
      }
    }
  }

  lemma LossOk(t: Tables, lost: set<JobId>)
    requires TablesOk(t)
    ensures TablesOk(t.(heartbeats := t.heartbeats - lost))
  {
    var t' := t.(heartbeats := t.heartbeats - lost);
    RecordsKept(t, t');
    forall other | other in t'.heartbeats ensures HeldBy(t', other, t'.heartbeats[other].worker) {
      assert HeldBy(t, other, t.heartbeats[other].worker);
    }
  }

  lemma FinalizeOk(t: Tables, now: int, id: JobId, token: nat, verdict: Verdict, feedback: Option<Dict>)
    requires TablesOk(t)
    requires FenceMatches(t, id, token) ==> t.jobs[id].status.Processing? || t.jobs[id].status.Finalized()
    ensures TablesOk(Finalize(t, now, id, token, verdict, feedback))
  {
    var t' := Finalize(t, now, id, token, verdict, feedback);
    if FenceMatches(t, id, token) {
      assert AllAccounted(t') by {
        assert Accounted(t.jobs[id]);
      }
      FinalizeMirrors(t, now, id, token, verdict, feedback);
      assert HeartbeatsOwned(t') by {
        forall other | other in t'.heartbeats ensures HeldBy(t', other, t'.heartbeats[other].worker) {
          assert HeldBy(t, other, t.heartbeats[other].worker);
        }
      }
      FinalizeShas(t, now, id, token, verdict, feedback);
    }
  }

  lemma FinalizeMirrors(t: Tables, now: int, id: JobId, token: nat, verdict: Verdict, feedback: Option<Dict>)
    requires UniqueShas(t) && RecordsMirrorJobs(t) && FenceMatches(t, id, token)
    ensures var t' := Finalize(t, now, id, token, verdict, feedback);
            forall other | other in t'.jobs :: Mirrored(t', other)
  {
    var t' := Finalize(t, now, id, token, verdict, feedback);
    assert Mirrored(t, id);
    forall other | other in t'.jobs ensures Mirrored(t', other) {
      if other != id {
        assert Mirrored(t, other) && t.jobs[other].sha != t.jobs[id].sha;
      }
    }
  }

  lemma FinalizeShas(t: Tables, now: int, id: JobId, token: nat, verdict: Verdict, feedback: Option<Dict>)
    requires UniqueShas(t) && RecordsMirrorJobs(t)
    ensures var t' := Finalize(t, now, id, token, verdict, feedback);
            && UniqueShas(t')
            && forall sha | sha in t'.records ::
              t'.records[sha].jobId in t'.jobs && t'.jobs[t'.records[sha].jobId].sha == sha
  {
  }

  lemma ReleaseOk(t: Tables, now: int, id: JobId, token: nat, delay: nat)
    requires TablesOk(t)
    ensures TablesOk(Release(t, now, id, token, delay))
  {
    var t' := Release(t, now, id, token, delay);
    assert AllAccounted(t') by {
      assert id in t.jobs ==> Accounted(t.jobs[id]);
    }
    RecordsKept(t, t');
    assert HeartbeatsOwned(t') by {
      forall other | other in t'.heartbeats ensures HeldBy(t', other, t'.heartbeats[other].worker) {
        assert HeldBy(t, other, t.heartbeats[other].worker);
      }
    }
  }

  /** What one reconcile does to one row. */
  ghost function Reconciled(t: Tables, now: int, cfg: Settings, locked: set<JobId>, id: JobId): Job
    requires id in t.jobs
  {
    Expired(if Taken(t, now, cfg.stale, locked, id) then Requeued(t.jobs[id], now, cfg.backoff) else t.jobs[id], now)
  }

  ghost predicate ReconciledTo(t: Tables, now: int, cfg: Settings, locked: set<JobId>, t': Tables) {
    && t'.jobs.Keys == t.jobs.Keys && t'.records == t.records
    && (forall id | id in t.jobs :: t'.jobs[id] == Reconciled(t, now, cfg, locked, id))
    && (forall id :: id in t'.heartbeats <==>
          id in t.heartbeats && id in t.jobs && t.jobs[id].status == Processing &&
            !Taken(t, now, cfg.stale, locked, id))
    && (forall id | id in t'.heartbeats :: t'.heartbeats[id] == t.heartbeats[id])
  }

  /** The first statement of a reconcile orphans the heartbeats of the rows it takes, and the second
      deletes exactly those: no row that is still held loses its heartbeat to it. */
  lemma PruneRestoresOwnership(t: Tables, now: int, cfg: Settings, locked: set<JobId>)
    requires HeartbeatsOwned(t)
    ensures var requeued := RequeueStale(t, now, cfg, locked);
            var pruned := PruneHeartbeats(requeued);
            && HeartbeatsOwned(pruned)
            && (HeartbeatsOwned(requeued) <==> pruned == requeued)
            && (forall id | id in t.heartbeats ::
                  id !in pruned.heartbeats <==> Taken(t, now, cfg.stale, locked, id))
  {
    var requeued := RequeueStale(t, now, cfg, locked);
    var pruned := PruneHeartbeats(requeued);
    forall id | id in t.heartbeats
      ensures id !in pruned.heartbeats <==> Taken(t, now, cfg.stale, locked, id)
      ensures id in pruned.heartbeats ==> HeldBy(pruned, id, pruned.heartbeats[id].worker)
    {
      assert HeldBy(t, id, t.heartbeats[id].worker);
    }
    if HeartbeatsOwned(requeued) {
      forall id | id in requeued.heartbeats ensures id in pruned.heartbeats {
        assert HeldBy(requeued, id, requeued.heartbeats[id].worker);
      }
      assert pruned.heartbeats == requeued.heartbeats;
    }
  }

  /** The one-hour expiry bumps no fence, and needs to bump none: it leaves no row pending for over an
      hour, touches no row that is held or finished, and no token ever handed out fits a row it kills. */
  lemma ExpiryKeepsAccounts(t: Tables, now: int)
    requires AllAccounted(t)
    ensures AllAccounted(ExpirePending(t, now))
    ensures forall id | id in t.jobs :: !Overdue(ExpirePending(t, now).jobs[id], now)
    ensures forall id | id in t.jobs && ExpirePending(t, now).jobs[id] != t.jobs[id] ::
              && t.jobs[id].status == Pending && ExpirePending(t, now).jobs[id].status == Dead
              && forall token: nat | token < t.jobs[id].attempts :: !FenceMatches(ExpirePending(t, now), id, token)
  {
    var t' := ExpirePending(t, now);
    forall id | id in t'.jobs ensures Accounted(t'.jobs[id]) {
      assert Accounted(t.jobs[id]);
    }
  }

  lemma ReconcileRows(t: Tables, now: int, cfg: Settings, locked: set<JobId>)
    ensures ReconciledTo(t, now, cfg, locked, Reconcile(t, now, cfg, locked))
  {
  }

  lemma ReconciledRow(t: Tables, now: int, cfg: Settings, locked: set<JobId>, id: JobId)
    requires id in t.jobs && Accounted(t.jobs[id])
    ensures var job' := Reconciled(t, now, cfg, locked, id);
            && Accounted(job') && SameForRecords(t.jobs[id], job')
            && (t.jobs[id].status == Processing && !Taken(t, now, cfg.stale, locked, id) ==> job' == t.jobs[id])
  {
  }

  lemma ReconciledOk(t: Tables, now: int, cfg: Settings, locked: set<JobId>, t': Tables)
    requires TablesOk(t) && ReconciledTo(t, now, cfg, locked, t')
    ensures TablesOk(t')
  {
    assert AllAccounted(t') && RecordsMirrorJobs(t') && UniqueShas(t') by {
      forall id | id in t.jobs
        ensures Accounted(t'.jobs[id]) && SameForRecords(t.jobs[id], t'.jobs[id])
      {
        ReconciledRow(t, now, cfg, locked, id);
      }
      RecordsKept(t, t');
    }
    assert HeartbeatsOwned(t') by {
      forall id | id in t'.heartbeats ensures HeldBy(t', id, t'.heartbeats[id].worker) {
        assert HeldBy(t, id, t.heartbeats[id].worker);
        ReconciledRow(t, now, cfg, locked, id);
      }
    }
  }

  lemma StepTablesOk(s: State, l: Label)
    requires Inv(s) && Enabled(s, l)
    ensures TablesOk(Next(s, l).t)
  {
    match l
    case DoEnqueue(newId, sha, prNumber, repo, installation) =>
      EnqueueOk(s.t, newId, NewJob(s.now, sha, prNumber, repo, installation));
    case DoClaim(worker, _, got) => if got.Some? { ClaimOk(s.t, s.now, worker, got.value); }
    case DoBeatWrite(read) => BeatOk(s.t, read.job, read.worker, read.at);
    case DoSetCheckRun(job, checkRun) => SetCheckRunOk(s.t, job, checkRun);
    case DoFinalize(job, token, verdict, feedback) =>
      if FenceMatches(s.t, job, token) { MatchingTokenIsNewest(s, job, token); }
      FinalizeOk(s.t, s.now, job, token, verdict, feedback);
    case DoRelease(job, token, delay) => ReleaseOk(s.t, s.now, job, token, delay);
    case DoReconcile(cfg, locked) =>
      ReconcileRows(s.t, s.now, cfg, locked);
      ReconciledOk(s.t, s.now, cfg, locked, Next(s, l).t);
    case LoseHeartbeats(lost) => LossOk(s.t, lost);
    case _ =>
  }

  // ----- the tickets and the clock -----

  /** Only a claim moves an attempt counter, and no transaction deletes a row. */
  lemma StepAttempts(s: State, l: Label, id: JobId)
    requires Enabled(s, l) && id in s.t.jobs
    ensures id in Next(s, l).t.jobs
    ensures Next(s, l).t.jobs[id].attempts == s.t.jobs[id].attempts + (if ClaimsJob(l, id) then 1 else 0)
  {
  }

  /** `l` is a claim that returned `id`. */
  ghost predicate ClaimsJob(l: Label, id: JobId) {
    l.DoClaim? && l.got == Some(id)
  }

  lemma StepHanded(s: State, l: Label)
    requires Inv(s) && Enabled(s, l)
    ensures HandedExactly(Next(s, l))
  {
    var s' := Next(s, l);
    forall id: JobId, token: nat
      ensures Ticket(id, token) in s'.handed <==> id in s'.t.jobs && token < s'.t.jobs[id].attempts
    {
      if id in s.t.jobs {
        StepAttempts(s, l, id);
        assert Accounted(s.t.jobs[id]);
      }
    }
  }

  lemma StepClock(s: State, l: Label)
    requires Inv(s) && Enabled(s, l)
    ensures ClockAhead(Next(s, l))
  {
  }

  lemma StepInv(s: State, l: Label)
    requires Inv(s) && Enabled(s, l)
    ensures Inv(Next(s, l))
  {
    StepTablesOk(s, l);
    StepHanded(s, l);
    StepClock(s, l);
  }

  // ----- runs -----

  ghost predicate IsRun(states: seq<State>, labels: seq<Label>) {
    IsPath(states, labels) && Init(states[0])
  }

  /** A stretch of a run, from anywhere. */
  ghost predicate IsPath(states: seq<State>, labels: seq<Label>) {
    && |states| == |labels| + 1
    && forall i {:trigger labels[i]} | 0 <= i < |labels| ::
      Enabled(states[i], labels[i]) && states[i + 1] == Next(states[i], labels[i])
  }

  lemma PathGrows(states: seq<State>, labels: seq<Label>, l: Label)
    requires IsPath(states, labels) && Enabled(states[|labels|], l)
    ensures IsPath(states + [Next(states[|labels|], l)], labels + [l])
  {
    var more, path := states + [Next(states[|labels|], l)], labels + [l];
    forall i {:trigger path[i]} | 0 <= i < |path|
      ensures Enabled(more[i], path[i]) && more[i + 1] == Next(more[i], path[i])
    {
      if i < |labels| {
        assert path[i] == labels[i] && more[i] == states[i] && more[i + 1] == states[i + 1];
      }
    }
  }

  lemma {:induction false} InvAlways(states: seq<State>, labels: seq<Label>, i: nat)
    requires IsRun(states, labels) && i < |states|
    ensures Inv(states[i])
  {
    if i == 0 {
      InitInv(states[0]);
    } else {
      InvAlways(states, labels, i - 1);
      StepInv(states[i - 1], labels[i - 1]);
    }
  }
}
