/** The repository object: three tables updated in place, one method per transaction. Each method is
    tied to the transaction function of the same name, and keeps the tables in order. */
module JobQueueRepository {
  import opened Basics
  import opened QueueTables
  import opened QueueProtocol
  import opened QueueEffects

  /** The claim's sub-select always has an answer when anything is claimable. */
  lemma {:induction false} FirstOf(t: Tables, ids: set<JobId>) returns (first: JobId)
    requires ids != {} && ids <= t.jobs.Keys
    ensures first in ids && forall other | other in ids :: !Before(t.jobs[other], t.jobs[first])
    decreases ids
  {
    var some :| some in ids;
    if ids == {some} {
      first := some;
    } else {
      var rest := FirstOf(t, ids - {some});
      first := if Before(t.jobs[some], t.jobs[rest]) then some else rest;
      assert forall other | other in ids :: other == some || other in ids - {some};
    }
  }

  lemma FirstExists(t: Tables, now: int, locked: set<JobId>, id: JobId)
    requires Claimable(t, now, locked, id)
    ensures exists first :: first in t.jobs && FirstClaimable(t, now, locked, first)
  {
    var ids := set other | other in t.jobs && Claimable(t, now, locked, other);
    assert id in ids;
    var first := FirstOf(t, ids);
    assert FirstClaimable(t, now, locked, first);
  }

  /** A claim keeps the tables in order, and the token it returns counts the claims before it. */
  lemma ClaimReturns(t: Tables, now: int, worker: WorkerId, locked: set<JobId>, id: JobId)
    requires TablesOk(t) && FirstClaimable(t, now, locked, id)
    ensures TablesOk(Claim(t, now, worker, id)) && t.jobs[id].fence == t.jobs[id].attempts
  {
    ClaimOk(t, now, worker, id);
    assert Accounted(t.jobs[id]);
  }

  lemma RequeuedRows(t: Tables, now: int, cfg: Settings, locked: set<JobId>)
    ensures forall id | id in t.jobs && Taken(t, now, cfg.stale, locked, id) ::
              TakenBack(t.jobs[id], RequeueStale(t, now, cfg, locked).jobs[id], now, cfg.backoff)
  {
  }

  class JobQueue {
    var jobs: map<JobId, Job>
    var heartbeats: map<JobId, Heartbeat>
    var records: map<Sha, Record>

    function Contents(): Tables
      reads this
    {
      Tables(jobs, heartbeats, records)
    }

    ghost predicate Valid()
      reads this
    {
      TablesOk(Contents())
    }

    constructor ()
      ensures Contents() == Tables(map[], map[], map[]) && Valid()
    {
      jobs, heartbeats, records := map[], map[], map[];
    }

    method EnqueueIfNew(now: int, newId: JobId, sha: Sha, repo: string, prNumber: int, installation: int)
      returns (isNew: bool)
      requires Valid() && newId !in jobs
      modifies this
      ensures Valid() && isNew == EnqueueReturns(old(Contents()), sha)
      ensures Contents() == Enqueue(old(Contents()), newId, NewJob(now, sha, prNumber, repo, installation))
      ensures HasSha(jobs, sha)
      ensures isNew <==> sha !in old(records)
      ensures heartbeats == old(heartbeats) && records == old(records)
      ensures if isNew && forall id | id in old(jobs) :: old(jobs)[id].sha != sha
              then newId in jobs && jobs == old(jobs)[newId := jobs[newId]]
                   && Inserted(jobs[newId], now, sha, repo, prNumber, installation)
              else jobs == old(jobs)
    {
      EnqueueOk(Contents(), newId, NewJob(now, sha, prNumber, repo, installation));
      if sha in records {
        assert Mirrored(Contents(), records[sha].jobId);
        return false;
      }
      if !HasSha(jobs, sha) {
        jobs := jobs[newId := NewJob(now, sha, prNumber, repo, installation)];
        assert jobs[newId].sha == sha;
      }
      return true;
    }

    /** The claim's sub-select; rows in `locked` are held by other transactions and skipped. */
    method SelectFirst(now: int, locked: set<JobId>) returns (first: Option<JobId>)
      ensures first.None? ==> forall id :: !Claimable(Contents(), now, locked, id)
      ensures first.Some? ==> FirstClaimable(Contents(), now, locked, first.value)
      ensures first.None? ==> forall id | id in jobs && id !in locked :: !Waits(jobs[id], now)
      ensures first.Some? ==>
                && first.value in jobs && first.value !in locked && Waits(jobs[first.value], now)
                && forall id | id in jobs && id !in locked && Waits(jobs[id], now) ::
                     jobs[first.value].priority > jobs[id].priority
                     || (jobs[first.value].priority == jobs[id].priority
                         && jobs[first.value].createdAt <= jobs[id].createdAt)
    {
      var t := Contents();
      if id :| id in jobs && Claimable(t, now, locked, id) {
        FirstExists(t, now, locked, id);
        var best :| best in jobs && FirstClaimable(t, now, locked, best);
        return Some(best);
      }
      return None;
    }

    method ClaimJob(now: int, worker: WorkerId, locked: set<JobId>) returns (got: Option<(JobId, Job)>)
      requires Valid()
      modifies this
      ensures Valid()
      ensures got.None? ==> Contents() == old(Contents()) && forall id :: !Claimable(old(Contents()), now, locked, id)
      ensures got.Some? ==>
                && FirstClaimable(old(Contents()), now, locked, got.value.0)
                && Contents() == Claim(old(Contents()), now, worker, got.value.0)
                && got.value.1 == jobs[got.value.0]
                && got.value.1.fence == old(jobs)[got.value.0].attempts
      ensures got.Some? ==>
                var id := got.value.0;
                && id in old(jobs) && id !in locked && Waits(old(jobs)[id], now) && records == old(records)
                && jobs == old(jobs)[id := old(jobs)[id].(status := Processing, startedAt := Some(now),
                                                          worker := Some(worker),
                                                          attempts := old(jobs)[id].attempts + 1)]
                && heartbeats == old(heartbeats)[id := Heartbeat(worker, now)]
    {
      var t := Contents();
      var first := SelectFirst(now, locked);
      if first.None? {
        return None;
      }
      var id := first.value;
      ClaimReturns(t, now, worker, locked, id);
      jobs := jobs[id := jobs[id].(status := Processing, startedAt := Some(now), worker := Some(worker),
                                   attempts := jobs[id].attempts + 1)];
      heartbeats := heartbeats[id := Heartbeat(worker, now)];
      assert Contents() == Claim(t, now, worker, id);
      return Some((id, jobs[id]));
    }

    /** The first half of update_heartbeat: only a worker that still holds the job goes on. */
    method CheckHeld(id: JobId, worker: WorkerId) returns (alive: bool)
      ensures alive <==> HeldBy(Contents(), id, worker)
      ensures alive <==> id in jobs && jobs[id].worker == Some(worker) && jobs[id].status == Processing
    {
      if id !in jobs || jobs[id].worker != Some(worker) {
        return false;
      }
      return jobs[id].status == Processing;
    }

    /** The second half, possibly after other transactions; `at` is the instant of the first. */
    method WriteHeartbeat(id: JobId, worker: WorkerId, at: int)
      requires Valid()
      modifies this`heartbeats
      ensures Valid() && Contents() == Beat(old(Contents()), id, worker, at)
      ensures heartbeats == if id in old(heartbeats) && old(heartbeats)[id].worker == worker
                            then old(heartbeats)[id := Heartbeat(worker, at)] else old(heartbeats)
    {
      BeatOk(Contents(), id, worker, at);
      if id in heartbeats && heartbeats[id].worker == worker {
        heartbeats := heartbeats[id := heartbeats[id].(at := at)];
      }
    }

    method SetCheckRunId(id: JobId, checkRun: int)
      requires Valid()
      modifies this`jobs
      ensures Valid() && Contents() == SetCheckRun(old(Contents()), id, checkRun)
      ensures jobs == if id in old(jobs) then old(jobs)[id := old(jobs)[id].(checkRun := Some(checkRun))]
                      else old(jobs)
    {
      SetCheckRunOk(Contents(), id, checkRun);
      if id in jobs {
        jobs := jobs[id := jobs[id].(checkRun := Some(checkRun))];
      }
    }

    /** `ok` is false when finalize_job raises. The tables stay in order for a token below the attempt
        counter, which is what every claim returns. */
    method FinalizeJob(now: int, id: JobId, token: nat, verdict: Verdict, feedback: Option<Dict>) returns (ok: bool)
      requires Valid()
      modifies this
      ensures (id in old(jobs) ==> token < old(jobs)[id].attempts) ==> Valid()
      ensures ok == FenceMatches(old(Contents()), id, token)
      ensures Contents() == Finalize(old(Contents()), now, id, token, verdict, feedback)
      ensures !ok ==> Contents() == old(Contents())
      ensures ok <==> id in old(jobs) && old(jobs)[id].fence == token
      ensures ok ==>
                var job := old(jobs)[id];
                && heartbeats == old(heartbeats) - {id}
                && jobs == old(jobs)[id := job.(status := verdict, completedAt := Some(now),
                                                result := if feedback == Some(map[]) then None else feedback)]
                && job.sha in records && records == old(records)[job.sha := records[job.sha]]
                && records[job.sha].feedback == (if feedback.Some? then feedback.value else map[])
                && (var was := if job.sha in old(records) then old(records)[job.sha]
                               else Record(id, job.prNumber, job.repo, map[]);
                    records[job.sha].(feedback := map[]) == was.(feedback := map[]))
    {
      if id in jobs && token < jobs[id].attempts {
        assert Accounted(jobs[id]);
        FinalizeOk(Contents(), now, id, token, verdict, feedback);
      }
      if id !in jobs || jobs[id].fence != token {
        return false;
      }
      var job := jobs[id].(status := verdict, completedAt := Some(now), result := ResultColumn(feedback));
      jobs := jobs[id := job];
      if job.sha in records {
        records := records[job.sha := records[job.sha].(feedback := FeedbackColumn(feedback))];
      } else {
        records := records[job.sha := Record(id, job.prNumber, job.repo, FeedbackColumn(feedback))];
      }
      heartbeats := heartbeats - {id};
      return true;
    }

    method ReleaseJob(now: int, id: JobId, token: nat, delay: nat)
      requires Valid()
      modifies this
      ensures Valid() && Contents() == Release(old(Contents()), now, id, token, delay)
      ensures heartbeats == old(heartbeats) - {id} && records == old(records)
      ensures jobs == if id in old(jobs) && old(jobs)[id].fence == token && old(jobs)[id].status == Processing
                      then old(jobs)[id := old(jobs)[id].(status := Pending, worker := None,
                                                          scheduledAt := now + delay, fence := token + 1)]
                      else old(jobs)
    {
      var t := Contents();
      ReleaseOk(t, now, id, token, delay);
      if id in jobs && jobs[id].fence == token && jobs[id].status == Processing {
        jobs := jobs[id := jobs[id].(status := Pending, worker := None,
          scheduledAt := now + delay, fence := token + 1)];
      }
      heartbeats := heartbeats - {id};
      assert Contents() == Release(t, now, id, token, delay);
    }

    method RequeueStaleRows(now: int, cfg: Settings, locked: set<JobId>) returns (rows: map<JobId, Job>)
      modifies this`jobs
      ensures Contents() == RequeueStale(old(Contents()), now, cfg, locked)
      ensures rows == ReconcileReturns(old(Contents()), now, cfg, locked)
      ensures jobs.Keys == old(jobs).Keys && rows.Keys <= jobs.Keys
      ensures forall id | id in jobs :: id in rows <==> Lost(old(jobs), heartbeats, now, cfg.stale, locked, id)
      ensures forall id | id in jobs ::
                if id in rows then jobs[id] == rows[id] && TakenBack(old(jobs)[id], jobs[id], now, cfg.backoff)
                else jobs[id] == old(jobs)[id]
    {
      var t := Contents();
      RequeuedRows(t, now, cfg, locked);
      var taken := set id | id in jobs && Taken(t, now, cfg.stale, locked, id);
      jobs := map id | id in jobs :: if id in taken then Requeued(jobs[id], now, cfg.backoff) else jobs[id];
      rows := map id | id in jobs && id in taken :: jobs[id];
    }

    method DeleteOrphanHeartbeats()
      modifies this`heartbeats
      ensures Contents() == PruneHeartbeats(old(Contents()))
      ensures forall id | id in heartbeats :: id in old(heartbeats) && heartbeats[id] == old(heartbeats)[id]
      ensures forall id | id in old(heartbeats) ::
                id in heartbeats <==> id in jobs && jobs[id].status == Processing
    {
      heartbeats := map id | id in heartbeats && id in jobs && jobs[id].status == Processing :: heartbeats[id];
    }

    method ExpirePendingRows(now: int)
      modifies this`jobs
      ensures Contents() == ExpirePending(old(Contents()), now) && jobs.Keys == old(jobs).Keys
      ensures forall id | id in jobs :: TimedOut(old(jobs)[id], jobs[id], now)
    {
      jobs := map id | id in jobs :: Expired(jobs[id], now);
    }

    /** Returns the rows taken, as the first statement left them. */
    method ReconcileStaleJobs(now: int, cfg: Settings, locked: set<JobId>) returns (rows: map<JobId, Job>)
      requires Valid()
      modifies this
      ensures Valid() && rows == ReconcileReturns(old(Contents()), now, cfg, locked)
      ensures ReconciledTo(old(Contents()), now, cfg, locked, Contents())
      ensures Contents() == Reconcile(old(Contents()), now, cfg, locked)
      ensures records == old(records) && jobs.Keys == old(jobs).Keys && rows.Keys <= jobs.Keys
      ensures forall id | id in jobs :: id in rows <==> Lost(old(jobs), old(heartbeats), now, cfg.stale, locked, id)
      ensures forall id | id in rows :: TakenBack(old(jobs)[id], rows[id], now, cfg.backoff)
      ensures forall id | id in jobs :: TimedOut(if id in rows then rows[id] else old(jobs)[id], jobs[id], now)
      ensures forall id | id in old(heartbeats) ::
                id in heartbeats <==> id in jobs && old(jobs)[id].status == Processing && id !in rows
      ensures forall id | id in heartbeats :: id in old(heartbeats) && heartbeats[id] == old(heartbeats)[id]
    {
      ReconcileRows(Contents(), now, cfg, locked);
      ReconciledOk(Contents(), now, cfg, locked, Reconcile(Contents(), now, cfg, locked));
      rows := RequeueStaleRows(now, cfg, locked);
      DeleteOrphanHeartbeats();
      ExpirePendingRows(now);
    }
  }
}
