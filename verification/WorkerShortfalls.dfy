/** Runs of workers that reach what the obvious claims about the worker rule out. */
module WorkerShortfalls {
  import opened Basics
  import opened QueueTables
  import opened QueueProtocol
  import opened WorkerTasks
  import opened QueueShortfalls
  import D = Decimal

  lemma WorldStarts()
    ensures IsWorldRun([World(One(Waiting(), map[], 0, {}), [], [])], [])
  {
    Starts();
  }

  lemma ExtendWorld(ws: seq<World>, acts: seq<Action>, a: Action, w': World)
    requires IsWorldRun(ws, acts) && WorldStep(ws[|acts|], a, w')
    ensures IsWorldRun(ws + [w'], acts + [a])
  {
    var more, path := ws + [w'], acts + [a];
    forall i {:trigger path[i]} | 0 <= i < |path| ensures WorldStep(more[i], path[i], more[i + 1]) {
      if i < |acts| {
        assert path[i] == acts[i] && more[i] == ws[i] && more[i + 1] == ws[i + 1];
      }
    }
  }

  lemma ExtendQueue(ws: seq<World>, acts: seq<Action>, l: Label, q': State)
    returns (ws': seq<World>, acts': seq<Action>)
    requires IsWorldRun(ws, acts) && Enabled(ws[|acts|].q, l) && q' == Next(ws[|acts|].q, l)
    requires l.LoseHeartbeats? || l.DoReconcile? || l.Tick?
    ensures IsWorldRun(ws', acts') && acts' == acts + [Environment(l)]
    ensures ws' == ws + [World(q', ws[|acts|].tasks, ws[|acts|].posts)]
  {
    var w := ws[|acts|];
    ExtendWorld(ws, acts, Environment(l), World(q', w.tasks, w.posts));
    ws', acts' := ws + [World(q', w.tasks, w.posts)], acts + [Environment(l)];
  }

  /** A task claims the job, works, and posts its review. */
  lemma ClaimAndPost(ws: seq<World>, acts: seq<Action>, job: Job, worker: WorkerId)
    returns (ws': seq<World>, acts': seq<Action>)
    requires IsWorldRun(ws, acts) && Eligible(job, ws[|acts|].q.now)
    requires ws[|acts|].q == One(job, map[], ws[|acts|].q.now, ws[|acts|].q.handed)
    ensures |ws'| == |acts| + 4
    ensures var n, task := |acts|, |ws[|acts|].tasks|;
            var w, w' := ws[n], ws'[n + 3];
            && IsWorldRun(ws', acts') && ws <= ws'
            && acts' == acts + [Claimed(worker, {}, 0), FinishWork(task), Post(task, true)]
            && w'.q == One(ClaimedRow(job, w.q.now, worker), map[0 := Heartbeat(worker, w.q.now)], w.q.now,
                           w.q.handed + {Ticket(0, job.fence)})
            && w'.tasks == w.tasks + [Task(Ticket(0, job.fence), Posted)]
            && w'.posts == w.posts + [Ticket(0, job.fence)]
  {
    var w, ticket := ws[|acts|], Ticket(0, job.fence);
    var task := |w.tasks|;
    Claiming(job, w.q.now, w.q.handed, worker);
    var q := One(ClaimedRow(job, w.q.now, worker), map[0 := Heartbeat(worker, w.q.now)], w.q.now,
                 w.q.handed + {ticket});
    var w1 := World(q, w.tasks + [Task(ticket, Working)], w.posts);
    ExtendWorld(ws, acts, Claimed(worker, {}, 0), w1);
    ws', acts' := ws + [w1], acts + [Claimed(worker, {}, 0)];
    Idling(w1, FinishWork(task));
    var w2 := World(q, w.tasks + [Task(ticket, Ready)], w.posts);
    assert Advance(w1, task, Ready) == w2.tasks;
    ExtendWorld(ws', acts', FinishWork(task), w2);
    ws', acts' := ws' + [w2], acts' + [FinishWork(task)];
    Idling(w2, Post(task, true));
    var w3 := World(q, w.tasks + [Task(ticket, Posted)], w.posts + [ticket]);
    assert Advance(w2, task, Posted) == w3.tasks;
    ExtendWorld(ws', acts', Post(task, true), w3);
    ws', acts' := ws' + [w3], acts' + [Post(task, true)];
  }

  /** Working and posting are no steps of the queue. */
  lemma Idling(w: World, a: Action)
    requires Possible(w, a) && (a.FinishWork? || a.Post?)
    ensures Enabled(w.q, Transaction(w, a)) && Next(w.q, Transaction(w, a)) == w.q
  {
  }

  // ----- a success that ends as a failure -----

  lemma Finalizing(s: State, token: nat, verdict: Verdict)
    requires FenceMatches(s.t, 0, token) && Ticket(0, token) in s.handed
    ensures var l := DoFinalize(0, token, verdict, None);
            && Enabled(s, l) && Next(s, l).handed == s.handed
            && FenceMatches(Next(s, l).t, 0, token) && Next(s, l).t.jobs[0].status == verdict
  {
  }

  /** A commit that its caller never hears of is followed by the exception handler's, under the same
      token: the job is reviewed and committed as SUCCESS, and ends as FAILURE. */
  lemma SuccessBecomesFailure() returns (ws: seq<World>, acts: seq<Action>)
    ensures IsWorldRun(ws, acts) && |acts| == 5
    ensures acts[2..] == [Post(0, true), CommitSuccess(0, None, false), HandleFail(0, None)]
    ensures 0 in ws[4].q.t.jobs && ws[4].q.t.jobs[0].status == Success
    ensures 0 in ws[5].q.t.jobs && ws[5].q.t.jobs[0].status == Failure
  {
    WorldStarts();
    ws, acts := ClaimAndPost([World(One(Waiting(), map[], 0, {}), [], [])], [], Waiting(), "alice");
    var w := ws[3];
    Finalizing(w.q, 0, Success);
    var w4 := World(Next(w.q, DoFinalize(0, 0, Success, None)), Advance(w, 0, Handling), w.posts);
    ExtendWorld(ws, acts, CommitSuccess(0, None, false), w4);
    ws, acts := ws + [w4], acts + [CommitSuccess(0, None, false)];
    Finalizing(w4.q, 0, Failure);
    var w5 := World(Next(w4.q, DoFinalize(0, 0, Failure, None)), Advance(w4, 0, Ended), w4.posts);
    ExtendWorld(ws, acts, HandleFail(0, None), w5);
    ws, acts := ws + [w5], acts + [HandleFail(0, None)];
  }

  // ----- a job that is reviewed twice -----

  /** The job is lost to a reconcile behind its worker's back, and falls due again. */
  lemma LoseAndRecover(ws: seq<World>, acts: seq<Action>, worker: WorkerId, cfg: Settings)
    returns (ws': seq<World>, acts': seq<Action>)
    requires IsWorldRun(ws, acts)
    requires ws[|acts|].q == One(ClaimedRow(Waiting(), 0, worker), map[0 := Heartbeat(worker, 0)], 0, {Ticket(0, 0)})
    ensures |ws'| == |acts| + 4
    ensures var w, w' := ws[|acts|], ws'[|acts| + 3];
            && IsWorldRun(ws', acts') && |acts'| == |acts| + 3 && acts <= acts' && ws <= ws'
            && w'.q == One(Recovered(worker, cfg), map[], cfg.backoff, {Ticket(0, 0)})
            && w'.tasks == w.tasks && w'.posts == w.posts
  {
    var job, handed := ClaimedRow(Waiting(), 0, worker), {Ticket(0, 0)};
    LosingAndTaking(worker, cfg);
    ws', acts' := ExtendQueue(ws, acts, LoseHeartbeats({0}), One(job, map[], 0, handed));
    ws', acts' := ExtendQueue(ws', acts', DoReconcile(cfg, {}), One(Recovered(worker, cfg), map[], 0, handed));
    ws', acts' := ExtendQueue(ws', acts', Tick(cfg.backoff), One(Recovered(worker, cfg), map[], cfg.backoff, handed));
  }

  lemma LosingAndTaking(worker: WorkerId, cfg: Settings)
    ensures var job, handed := ClaimedRow(Waiting(), 0, worker), {Ticket(0, 0)};
            && Next(One(job, map[0 := Heartbeat(worker, 0)], 0, handed), LoseHeartbeats({0}))
            == One(job, map[], 0, handed)
            && Next(One(job, map[], 0, handed), DoReconcile(cfg, {})) == One(Recovered(worker, cfg), map[], 0, handed)
  {
    var job, handed := ClaimedRow(Waiting(), 0, worker), {Ticket(0, 0)};
    Losing(job, Heartbeat(worker, 0), 0, handed);
    Taking(job, 0, handed, cfg);
    RecoveredIsDue(worker, cfg);
  }

  /** The fence does not prevent a second review: one job is posted under both of its tokens. */
  lemma PostedTwice(cfg: Settings) returns (ws: seq<World>, acts: seq<Action>)
    ensures IsWorldRun(ws, acts) && |acts| == 9
    ensures acts[2] == Post(0, true) && acts[8] == Post(1, true)
    ensures ws[9].posts == [Ticket(0, 0), Ticket(0, 1)] && PostTokens(ws[9].posts, 0) == [0, 1]
  {
    WorldStarts();
    ws, acts := ClaimAndPost([World(One(Waiting(), map[], 0, {}), [], [])], [], Waiting(), "alice");
    assert {} + {Ticket(0, 0)} == {Ticket(0, 0)};
    ws, acts := LoseAndRecover(ws, acts, "alice", cfg);
    RecoveredIsDue("alice", cfg);
    ws, acts := ClaimAndPost(ws, acts, Recovered("alice", cfg), "bob");
    TwoPosts(ws[9].posts);
  }

  lemma TwoPosts(posts: seq<Ticket>)
    requires posts == [Ticket(0, 0), Ticket(0, 1)]
    ensures PostTokens(posts, 0) == [0, 1]
  {
    var first := posts[..1];
    assert first == [Ticket(0, 0)] && first[..0] == [];
    assert PostTokens(first[..0], 0) == [];
    assert PostTokens(first, 0) == [0];
  }

  // ----- a job that is reviewed as often as it may be claimed -----

  function ReleasedRow(job: Job, now: int): Job {
    job.(status := Pending, worker := None, scheduledAt := now, fence := job.fence + 1)
  }

  /** The worker shuts down between the post and the commit of its task. */
  lemma ShutDown(ws: seq<World>, acts: seq<Action>, task: nat, job: Job, heartbeat: Heartbeat)
    returns (ws': seq<World>, acts': seq<Action>)
    requires IsWorldRun(ws, acts) && task < |ws[|acts|].tasks| && job.status == Processing
    requires ws[|acts|].tasks[task].ticket == Ticket(0, job.fence) && Ticket(0, job.fence) in ws[|acts|].q.handed
    requires ws[|acts|].q == One(job, map[0 := heartbeat], ws[|acts|].q.now, ws[|acts|].q.handed)
    ensures IsWorldRun(ws', acts') && ws <= ws' && acts' == acts + [ShutdownRelease(task)]
    ensures var w := ws[|acts|];
            ws'[|acts'|] == World(One(ReleasedRow(job, w.q.now), map[], w.q.now, w.q.handed), w.tasks, w.posts)
  {
    var w := ws[|acts|];
    var w' := World(One(ReleasedRow(job, w.q.now), map[], w.q.now, w.q.handed), w.tasks, w.posts);
    Releasing(job, heartbeat, w.q.now, w.q.handed);
    ExtendWorld(ws, acts, ShutdownRelease(task), w');
    ws', acts' := ws + [w'], acts + [ShutdownRelease(task)];
  }

  lemma Releasing(job: Job, heartbeat: Heartbeat, now: int, handed: set<Ticket>)
    requires job.status == Processing && Ticket(0, job.fence) in handed
    ensures var release, s := DoRelease(0, job.fence, 0), One(job, map[0 := heartbeat], now, handed);
            Enabled(s, release) && Next(s, release) == One(ReleasedRow(job, now), map[], now, handed)
  {
    assert map[0 := job][0 := ReleasedRow(job, now)] == map[0 := ReleasedRow(job, now)];
    assert map[0 := heartbeat] - {0} == map[];
  }

  /** A fresh id for the worker of each round. */
  function Name(n: nat): WorkerId {
    "worker-" + D.Print(n)
  }

  /** The world after `n` rounds of claiming and posting, the last task at work. */
  ghost predicate Posting(w: World, n: nat, max: nat, job: Job) {
    && 1 <= n <= max && job.status == Processing && job.attempts == n == job.fence + 1 && job.maxAttempts == max
    && w.q == One(job, map[0 := Heartbeat(Name(n), 0)], 0, w.q.handed) && Ticket(0, job.fence) in w.q.handed
    && |w.tasks| == |w.posts| == n && w.tasks[n - 1].ticket == Ticket(0, n - 1)
    && forall k | 0 <= k < n :: w.posts[k] == Ticket(0, k)
  }

  lemma StartsWith(max: nat)
    ensures IsWorldRun([World(One(Waiting().(maxAttempts := max), map[], 0, {}), [], [])], [])
  {
  }

  lemma {:induction false} PostingRounds(n: nat, max: nat) returns (ws: seq<World>, acts: seq<Action>, job: Job)
    requires 1 <= n <= max
    ensures IsWorldRun(ws, acts) && Posting(ws[|acts|], n, max, job)
  {
    if n == 1 {
      var waiting := Waiting().(maxAttempts := max);
      StartsWith(max);
      ws, acts := ClaimAndPost([World(One(waiting, map[], 0, {}), [], [])], [], waiting, Name(1));
      job := ClaimedRow(waiting, 0, Name(1));
    } else {
      ws, acts, job := PostingRounds(n - 1, max);
      ws, acts := ShutDown(ws, acts, n - 2, job, Heartbeat(Name(n - 1), 0));
      var released := ReleasedRow(job, 0);
      ws, acts := ClaimAndPost(ws, acts, released, Name(n));
      job := ClaimedRow(released, 0, Name(n));
    }
  }

  /** The bound on reviews is tight: for every allowance and every number of reviews up to it, some run
      posts the one job exactly that often. */
  lemma PostedUpTo(n: nat, max: nat) returns (ws: seq<World>, acts: seq<Action>)
    requires 1 <= n <= max
    ensures IsWorldRun(ws, acts) && 0 in ws[|acts|].q.t.jobs && ws[|acts|].q.t.jobs[0].maxAttempts == max
    ensures |PostTokens(ws[|acts|].posts, 0)| == n
  {
    var job: Job;
    ws, acts, job := PostingRounds(n, max);
    CountPosts(ws[|acts|].posts);
  }

  lemma {:induction false} CountPosts(posts: seq<Ticket>)
    requires forall k | 0 <= k < |posts| :: posts[k].job == 0
    ensures |PostTokens(posts, 0)| == |posts|
  {
    if posts == [] {
    } else {
      CountPosts(posts[..|posts| - 1]);
    }
  }
}
