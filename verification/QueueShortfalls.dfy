/** Runs that reach what the obvious claims about the queue rule out, each from a single waiting job. */
module QueueShortfalls {
  import opened Basics
  import opened QueueTables
  import opened QueueProtocol
  import opened QueueTimed

  // ----- a queue of one row -----

  /** The queue with the one job 0 and at most one heartbeat, before anything is finalized. */
  function One(job: Job, heartbeats: map<JobId, Heartbeat>, now: int, handed: set<Ticket>): State {
    State(Tables(map[0 := job], heartbeats, map[]), now, handed, {})
  }

  function Waiting(): Job {
    NewJob(0, "4f2a", 7, "octo/demo", 1)
  }

  lemma Claiming(job: Job, now: int, handed: set<Ticket>, worker: WorkerId)
    requires Eligible(job, now)
    ensures var claim, s := DoClaim(worker, {}, Some(0)), One(job, map[], now, handed);
            && Enabled(s, claim)
            && Next(s, claim) == One(ClaimedRow(job, now, worker), map[0 := Heartbeat(worker, now)], now,
                                     handed + {Ticket(0, job.fence)})
  {
    var s := One(job, map[], now, handed);
    assert Claimable(s.t, now, {}, 0) && FirstClaimable(s.t, now, {}, 0);
    assert s.t.jobs[0 := ClaimedRow(job, now, worker)] == map[0 := ClaimedRow(job, now, worker)];
  }

  lemma Losing(job: Job, heartbeat: Heartbeat, now: int, handed: set<Ticket>)
    ensures Next(One(job, map[0 := heartbeat], now, handed), LoseHeartbeats({0})) == One(job, map[], now, handed)
  {
    assert map[0 := heartbeat] - {0} == map[];
  }

  /** A reconcile takes a processing row without a heartbeat. */
  lemma Taking(job: Job, now: int, handed: set<Ticket>, cfg: Settings)
    requires job.status == Processing
    ensures Next(One(job, map[], now, handed), DoReconcile(cfg, {}))
         == One(Expired(Requeued(job, now, cfg.backoff), now), map[], now, handed)
    ensures var t := One(job, map[], now, handed).t;
            0 in ReconcileReturns(t, now, cfg, {}) &&
            ReconcileReturns(t, now, cfg, {})[0] == Requeued(job, now, cfg.backoff)
  {
    var t := One(job, map[], now, handed).t;
    ReconcileRows(t, now, cfg, {});
    var t' := Reconcile(t, now, cfg, {});
    assert t'.jobs == map[0 := Expired(Requeued(job, now, cfg.backoff), now)];
    assert t'.heartbeats == map[];
  }

  /** A release with a stale token takes the heartbeat and leaves the row. */
  lemma StaleReleasing(job: Job, heartbeat: Heartbeat, now: int, handed: set<Ticket>, token: nat)
    requires token != job.fence && Ticket(0, token) in handed
    ensures var release, s := DoRelease(0, token, 0), One(job, map[0 := heartbeat], now, handed);
            Enabled(s, release) && Next(s, release) == One(job, map[], now, handed)
  {
    assert map[0 := heartbeat] - {0} == map[];
  }

  lemma Starts()
    ensures IsRun([One(Waiting(), map[], 0, {})], [])
  {
  }

  lemma Extend(states: seq<State>, labels: seq<Label>, l: Label, s': State)
    requires IsRun(states, labels) && Enabled(states[|labels|], l) && s' == Next(states[|labels|], l)
    ensures IsRun(states + [s'], labels + [l])
  {
    PathGrows(states, labels, l);
  }

  // ----- a live job is taken -----

  /** The job is claimed, and its heartbeat row lost, in the first second. */
  lemma ClaimLosesRow(worker: WorkerId) returns (states: seq<State>, labels: seq<Label>)
    ensures IsRun(states, labels) && |labels| == 2
    ensures states[2] == One(ClaimedRow(Waiting(), 0, worker), map[], 0, {Ticket(0, 0)})
  {
    var job, handed := ClaimedRow(Waiting(), 0, worker), {} + {Ticket(0, 0)};
    Starts();
    states, labels := [One(Waiting(), map[], 0, {})], [];
    Claiming(Waiting(), 0, {}, worker);
    var s1 := One(job, map[0 := Heartbeat(worker, 0)], 0, handed);
    Extend(states, labels, DoClaim(worker, {}, Some(0)), s1);
    states, labels := states + [s1], labels + [DoClaim(worker, {}, Some(0))];
    Losing(job, Heartbeat(worker, 0), 0, handed);
    var s2 := One(job, map[], 0, handed);
    Extend(states, labels, LoseHeartbeats({0}), s2);
    states, labels := states + [s2], labels + [LoseHeartbeats({0})];
  }

  /** A row that was claimed at instant 0 and taken back by a reconcile in the same second. */
  function Recovered(worker: WorkerId, cfg: Settings): Job {
    Requeued(ClaimedRow(Waiting(), 0, worker), 0, cfg.backoff)
  }

  lemma RecoveredIsDue(worker: WorkerId, cfg: Settings)
    ensures Eligible(Recovered(worker, cfg), cfg.backoff) && !Overdue(Recovered(worker, cfg), 0)
    ensures Recovered(worker, cfg).fence == 1
  {
  }

  /** After that a reconcile takes the job, and time passes until it is due again. */
  lemma ClaimIsLost(worker: WorkerId, cfg: Settings) returns (states: seq<State>, labels: seq<Label>)
    ensures IsRun(states, labels) && |labels| == 4
    ensures states[4] == One(Recovered(worker, cfg), map[], cfg.backoff, {Ticket(0, 0)})
  {
    states, labels := ClaimLosesRow(worker);
    Taking(ClaimedRow(Waiting(), 0, worker), 0, {Ticket(0, 0)}, cfg);
    RecoveredIsDue(worker, cfg);
    var s3 := One(Recovered(worker, cfg), map[], 0, {Ticket(0, 0)});
    Extend(states, labels, DoReconcile(cfg, {}), s3);
    states, labels := states + [s3], labels + [DoReconcile(cfg, {})];
    var s4 := One(Recovered(worker, cfg), map[], cfg.backoff, {Ticket(0, 0)});
    Extend(states, labels, Tick(cfg.backoff), s4);
    states, labels := states + [s4], labels + [Tick(cfg.backoff)];
  }

  /** A stale release and one reconcile take the job from an owner who claimed it in that very second,
      whatever the thresholds. */
  lemma FreshClaimIsTaken(cfg: Settings) returns (states: seq<State>, labels: seq<Label>)
    ensures IsRun(states, labels) && |labels| == 7
    ensures labels[4..] == [DoClaim("bob", {}, Some(0)), DoRelease(0, 0, 0), DoReconcile(cfg, {})]
    ensures states[4].now == states[6].now
    ensures ProcessingAt(states[6], 0) && states[6].t.jobs[0].worker == Some("bob") && !ProcessingAt(states[7], 0)
  {
    states, labels := ClaimIsLost("alice", cfg);
    var now, handed := cfg.backoff, {Ticket(0, 0)} + {Ticket(0, 1)};
    var job := ClaimedRow(Recovered("alice", cfg), now, "bob");
    RecoveredIsDue("alice", cfg);
    Claiming(Recovered("alice", cfg), now, {Ticket(0, 0)}, "bob");
    var s5 := One(job, map[0 := Heartbeat("bob", now)], now, handed);
    Extend(states, labels, DoClaim("bob", {}, Some(0)), s5);
    states, labels := states + [s5], labels + [DoClaim("bob", {}, Some(0))];
    StaleReleasing(job, Heartbeat("bob", now), now, handed, 0);
    var s6 := One(job, map[], now, handed);
    Extend(states, labels, DoRelease(0, 0, 0), s6);
    states, labels := states + [s6], labels + [DoRelease(0, 0, 0)];
    Taking(job, now, handed, cfg);
    var s7 := One(Expired(Requeued(job, now, cfg.backoff), now), map[], now, handed);
    Extend(states, labels, DoReconcile(cfg, {}), s7);
    states, labels := states + [s7], labels + [DoReconcile(cfg, {})];
  }

  // ----- recovered, dead, and enqueued again -----

  lemma SettingCheckRun(job: Job, now: int, handed: set<Ticket>, checkRun: int)
    ensures Next(One(job, map[], now, handed), DoSetCheckRun(0, checkRun))
         == One(job.(checkRun := Some(checkRun)), map[], now, handed)
  {
    assert map[0 := job][0 := job.(checkRun := Some(checkRun))] == map[0 := job.(checkRun := Some(checkRun))];
  }

  /** The row claimed at instant 0, when a reconcile takes it over an hour later. */
  lemma TakenTooLate(cfg: Settings) returns (dead: Job)
    ensures var late := Requeued(ClaimedRow(Waiting(), 0, "alice"), HOUR + 1, cfg.backoff);
            late.status == Pending && dead == Expired(late, HOUR + 1)
    ensures dead.status == Dead && dead.checkRun == None && dead.sha == Waiting().sha
  {
    dead := Expired(Requeued(ClaimedRow(Waiting(), 0, "alice"), HOUR + 1, cfg.backoff), HOUR + 1);
  }

  lemma EnqueueAnswersTrue(job: Job, now: int, handed: set<Ticket>)
    requires job.sha == Waiting().sha
    ensures var t := One(job, map[], now, handed).t;
            EnqueueReturns(t, Waiting().sha) && Enqueue(t, 1, Waiting()) == t
  {
    var id: JobId, jobs: map<JobId, Job> := 0, map[0 := job];
    assert id in jobs && jobs[id].sha == job.sha;
    assert HasSha(jobs, job.sha);
  }

  /** A reconcile kills a row in the transaction that reports it as pending again; a later
      set_check_run_id still changes the dead row; and enqueue_if_new answers True for its commit
      without adding anything. */
  lemma RecoveredAndDead(cfg: Settings) returns (states: seq<State>, labels: seq<Label>)
    ensures IsRun(states, labels) && |labels| == 5
    ensures labels[3..] == [DoReconcile(cfg, {}), DoSetCheckRun(0, 99)]
    ensures 0 in ReconcileReturns(states[3].t, states[3].now, cfg, {})
    ensures ReconcileReturns(states[3].t, states[3].now, cfg, {})[0].status == Pending
    ensures 0 in states[4].t.jobs && states[4].t.jobs[0].status == Dead
    ensures 0 in states[5].t.jobs && states[5].t.jobs[0].checkRun != states[4].t.jobs[0].checkRun
    ensures EnqueueReturns(states[5].t, Waiting().sha) && Enqueue(states[5].t, 1, Waiting()) == states[5].t
  {
    var job, now, handed := ClaimedRow(Waiting(), 0, "alice"), HOUR + 1, {Ticket(0, 0)};
    states, labels := ClaimLosesRow("alice");
    var s3 := One(job, map[], now, handed);
    Extend(states, labels, Tick(now), s3);
    states, labels := states + [s3], labels + [Tick(now)];
    Taking(job, now, handed, cfg);
    var dead := TakenTooLate(cfg);
    var s4 := One(dead, map[], now, handed);
    Extend(states, labels, DoReconcile(cfg, {}), s4);
    states, labels := states + [s4], labels + [DoReconcile(cfg, {})];
    SettingCheckRun(dead, now, handed, 99);
    var s5 := One(dead.(checkRun := Some(99)), map[], now, handed);
    Extend(states, labels, DoSetCheckRun(0, 99), s5);
    states, labels := states + [s5], labels + [DoSetCheckRun(0, 99)];
    EnqueueAnswersTrue(dead.(checkRun := Some(99)), now, handed);
  }
}
