/** ReviewWorker.run_forever and its semaphore. Other coroutines run only while the loop awaits, so a
    schedule lists, await by await, which job tasks finish there, whether a stop signal arrives, and how
    each claim turns out. */
module WorkerLoop {
  import opened QueueTables

  type TaskId = nat

  datatype Event = Finish(task: TaskId) | StopSignal

  datatype ClaimResult = Raised | NoJob | Got(job: JobId, fence: nat)

  /** One turn of the loop: what happens while it waits for a permit, while it claims, and while it
      sleeps afterwards. */
  datatype Turn = Turn(acquiring: seq<Event>, claiming: seq<Event>, result: ClaimResult, sleeping: seq<Event>)

  /** The worker's fields, recorded each time `while self.running` is tested. */
  datatype Snapshot = Snapshot(
    running: bool,
    permits: nat,
    nextTask: TaskId,
    tasks: map<TaskId, JobId>,
    active: map<JobId, nat>)

  // ----- what a turn does -----

  /** A finished task is gone, with the entry of its job, and has returned its permit. */
  ghost function Happening(s: Snapshot, e: Event): Snapshot {
    match e
    case StopSignal => s.(running := false)
    case Finish(task) =>
      if task in s.tasks
      then s.(permits := s.permits + 1, tasks := s.tasks - {task}, active := s.active - {s.tasks[task]})
      else s
  }

  ghost function Passing(s: Snapshot, events: seq<Event>): Snapshot {
    if events == [] then s else Happening(Passing(s, events[..|events| - 1]), events[|events| - 1])
  }

  ghost function Spawning(s: Snapshot, job: JobId, fence: nat): Snapshot {
    s.(nextTask := s.nextTask + 1, tasks := s.tasks[s.nextTask := job], active := s.active[job := fence])
  }

  /** What comes of a claim: a task, or the permit back; but an exception after a stop keeps the permit. */
  ghost function Settling(s: Snapshot, result: ClaimResult): Snapshot {
    match result
    case Got(job, fence) => Spawning(s, job, fence)
    case NoJob => s.(permits := s.permits + 1)
    case Raised => if s.running then s.(permits := s.permits + 1) else s
  }

  /** The rest of a turn, with a permit in hand. */
  ghost function Claiming(s: Snapshot, turn: Turn): Snapshot {
    var settled := Settling(Passing(s, turn.claiming), turn.result);
    if turn.result.Got? then settled else Passing(settled, turn.sleeping)
  }

  /** Nothing stops the turn: the worker is still running when it gets its permit. */
  ghost predicate Passes(s: Snapshot, turn: Turn) {
    s.running && Passing(s, turn.acquiring).running && Passing(s, turn.acquiring).permits > 0
  }

  ghost function Turned(s: Snapshot, turn: Turn): Snapshot
    requires Passes(s, turn)
  {
    var acquired := Passing(s, turn.acquiring);
    Claiming(acquired.(permits := acquired.permits - 1), turn)
  }

  ghost predicate FinishesIn(events: seq<Event>, task: TaskId) {
    exists i | 0 <= i < |events| :: events[i] == Finish(task)
  }

  /** While events pass, the tasks that finish are gone, and no other is. */
  lemma {:induction false} PassingFinishes(s: Snapshot, events: seq<Event>)
    ensures var s' := Passing(s, events);
            && s'.nextTask == s.nextTask
            && (s'.running <==> s.running && forall i | 0 <= i < |events| :: events[i] != StopSignal)
            && (forall task :: task in s'.tasks <==> task in s.tasks && !FinishesIn(events, task))
            && (forall task | task in s'.tasks :: s'.tasks[task] == s.tasks[task])
  {
    if events == [] {
    } else {
      var front, last := events[..|events| - 1], events[|events| - 1];
      PassingFinishes(s, front);
      assert forall i | 0 <= i < |front| :: events[i] == front[i];
      forall task ensures FinishesIn(events, task) <==> FinishesIn(front, task) || last == Finish(task) {
        if last == Finish(task) {
          assert events[|front|] == Finish(task);
        }
      }
    }
  }

  /** What the worker has to show for a turn with which it gets through: exactly one new task for a job it
      got, with the job's fence, and none otherwise. */
  ghost predicate Started(s: Snapshot, result: ClaimResult, s': Snapshot) {
    && (forall task | task in s'.tasks && task != s.nextTask :: task in s.tasks && s'.tasks[task] == s.tasks[task])
    && match result
       case Got(job, fence) =>
         && s'.nextTask == s.nextTask + 1 && s.nextTask in s'.tasks && s'.tasks[s.nextTask] == job
         && job in s'.active && s'.active[job] == fence
       case _ => s'.nextTask == s.nextTask
  }

  lemma TurnStarts(s: Snapshot, turn: Turn)
    requires Passes(s, turn)
    ensures Started(s, turn.result, Turned(s, turn))
  {
    var acquired := Passing(s, turn.acquiring);
    PassingFinishes(s, turn.acquiring);
    ClaimingStarts(acquired.(permits := acquired.permits - 1), turn);
  }

  lemma ClaimingStarts(s: Snapshot, turn: Turn)
    ensures Started(s, turn.result, Claiming(s, turn))
  {
    var claimed := Passing(s, turn.claiming);
    PassingFinishes(s, turn.claiming);
    if !turn.result.Got? {
      PassingFinishes(claimed.(permits := claimed.permits + 1), turn.sleeping);
      PassingFinishes(claimed, turn.sleeping);
    }
  }

  /** A task goes on until it finishes, whatever else a turn does. */
  lemma TaskGoesOn(s: Snapshot, turn: Turn, task: TaskId)
    requires Passes(s, turn) && task in s.tasks && task < s.nextTask
    ensures task in Turned(s, turn).tasks || FinishesIn(turn.acquiring, task)
            || FinishesIn(turn.claiming, task) || FinishesIn(turn.sleeping, task)
  {
    var acquired := Passing(s, turn.acquiring);
    PassingFinishes(s, turn.acquiring);
    ClaimingGoesOn(acquired.(permits := acquired.permits - 1), turn, task);
  }

  lemma ClaimingGoesOn(s: Snapshot, turn: Turn, task: TaskId)
    requires task in s.tasks ==> task < s.nextTask
    ensures task in s.tasks ==>
              task in Claiming(s, turn).tasks || FinishesIn(turn.claiming, task) || FinishesIn(turn.sleeping, task)
  {
    var claimed := Passing(s, turn.claiming);
    PassingFinishes(s, turn.claiming);
    if !turn.result.Got? {
      PassingFinishes(claimed.(permits := claimed.permits + 1), turn.sleeping);
      PassingFinishes(claimed, turn.sleeping);
    }
  }

  /** Turn by turn, `heads` leads on from its first snapshot. */
  ghost predicate Chained(heads: seq<Snapshot>, turns: seq<Turn>) {
    && |heads| == |turns| + 1
    && forall k | 0 <= k < |turns| :: Passes(heads[k], turns[k]) && heads[k + 1] == Turned(heads[k], turns[k])
  }

  /** The loop has got through the first turns, from `start` to `now`. */
  ghost predicate Follows(heads: seq<Snapshot>, turns: seq<Turn>, through: nat, start: Snapshot, now: Snapshot) {
    && through <= |turns| && Chained(heads, turns[..through]) && heads[0] == start && heads[through] == now
  }

  lemma FollowsOn(heads: seq<Snapshot>, turns: seq<Turn>, through: nat, start: Snapshot, now: Snapshot)
    requires Follows(heads, turns, through, start, now) && through < |turns| && Passes(now, turns[through])
    ensures Follows(heads + [Turned(now, turns[through])], turns, through + 1, start, Turned(now, turns[through]))
  {
    var more, all := heads + [Turned(now, turns[through])], turns[..through + 1];
    forall k | 0 <= k < |all| ensures Passes(more[k], all[k]) && more[k + 1] == Turned(more[k], all[k]) {
      if k < through {
        assert more[k] == heads[k] && more[k + 1] == heads[k + 1] && all[k] == turns[..through][k];
      }
    }
  }

  /** A run over `turns` with these heads: it gets through one turn after the other until it has stopped or
      has no turn left, and ends there; or it stops, or blocks, while it waits for its next permit. */
  ghost predicate Ran(heads: seq<Snapshot>, turns: seq<Turn>, end: Snapshot, blocked: bool) {
    && 0 < |heads| <= |turns| + 1 && Chained(heads, turns[..|heads| - 1])
    && var last, through := heads[|heads| - 1], |heads| - 1;
       if !last.running || through == |turns| then !blocked && end == last
       else !Passes(last, turns[through]) && end == Passing(last, turns[through].acquiring)
            && (blocked || !end.running)
  }

  /** How many of the turns get a job. */
  ghost function Gots(turns: seq<Turn>): nat {
    if turns == [] then 0
    else Gots(turns[..|turns| - 1]) + if turns[|turns| - 1].result.Got? then 1 else 0
  }

  /** The loop starts as many tasks as its turns get jobs. */
  lemma {:induction false} TasksStarted(heads: seq<Snapshot>, turns: seq<Turn>)
    requires Chained(heads, turns)
    ensures heads[|turns|].nextTask == heads[0].nextTask + Gots(turns)
  {
    if turns == [] {
    } else {
      var last := |turns| - 1;
      assert Passes(heads[last], turns[last]) && heads[last + 1] == Turned(heads[last], turns[last]);
      TurnStarts(heads[last], turns[last]);
      TasksStarted(heads[..|turns|], turns[..last]);
    }
  }

  /** In a run every turn that the loop gets through starts what it has to, and the tasks started are as
      many as the jobs got. */
  lemma RunStarts(heads: seq<Snapshot>, turns: seq<Turn>, end: Snapshot, blocked: bool)
    requires Ran(heads, turns, end, blocked)
    ensures forall k | 0 <= k < |heads| - 1 :: Started(heads[k], turns[k].result, heads[k + 1])
    ensures heads[|heads| - 1].nextTask == heads[0].nextTask + Gots(turns[..|heads| - 1])
  {
    var through := turns[..|heads| - 1];
    forall k | 0 <= k < |heads| - 1 ensures Started(heads[k], turns[k].result, heads[k + 1]) {
      assert through[k] == turns[k] && heads[k + 1] == Turned(heads[k], through[k]);
      TurnStarts(heads[k], through[k]);
    }
    TasksStarted(heads, through);
  }

  /** What has happened to jobs, in order. */
  datatype Entry = JobClaimed(job: JobId) | TaskDone(job: JobId)

  /** The last thing that happened to the job is a claim. */
  ghost predicate ClaimedLast(log: seq<Entry>, job: JobId) {
    log != [] &&
    var last := log[|log| - 1];
    if last.job == job then last.JobClaimed? else ClaimedLast(log[..|log| - 1], job)
  }

  /** Since some claim of the job, no task of it has finished. */
  ghost predicate Undisturbed(log: seq<Entry>, job: JobId) {
    exists k | 0 <= k < |log| :: log[k] == JobClaimed(job) && forall m | k < m < |log| :: log[m] != TaskDone(job)
  }

  lemma {:induction false} ClaimedLastUndisturbed(log: seq<Entry>, job: JobId)
    ensures ClaimedLast(log, job) <==> Undisturbed(log, job)
  {
    if log == [] {
    } else {
      var front, last := log[..|log| - 1], log[|log| - 1];
      ClaimedLastUndisturbed(front, job);
      assert forall k | 0 <= k < |front| :: front[k] == log[k];
      if last == JobClaimed(job) {
        assert log[|front|] == JobClaimed(job);
      } else if last != TaskDone(job) && Undisturbed(front, job) {
        var k :| 0 <= k < |front| && front[k] == JobClaimed(job)
                 && forall m | k < m < |front| :: front[m] != TaskDone(job);
        assert log[k] == JobClaimed(job);
      }
    }
  }

  ghost predicate ActiveLogged(active: map<JobId, nat>, log: seq<Entry>) {
    forall job :: job in active <==> ClaimedLast(log, job)
  }

  lemma LoggedClaim(active: map<JobId, nat>, log: seq<Entry>, job: JobId, fence: nat)
    requires ActiveLogged(active, log)
    ensures ActiveLogged(active[job := fence], log + [JobClaimed(job)])
  {
    assert (log + [JobClaimed(job)])[..|log|] == log;
  }

  lemma LoggedDone(active: map<JobId, nat>, log: seq<Entry>, job: JobId)
    requires ActiveLogged(active, log)
    ensures ActiveLogged(active - {job}, log + [TaskDone(job)])
  {
    assert (log + [TaskDone(job)])[..|log|] == log;
  }

  class ReviewWorker {
    const concurrency: nat
    var running: bool
    var permits: nat
    var nextTask: TaskId
    var tasks: map<TaskId, JobId>      // unfinished job tasks
    var active: map<JobId, nat>        // job -> fence of the latest claim
    ghost var heads: seq<Snapshot>
    ghost var log: seq<Entry>

    constructor (concurrency: nat)
      ensures this.concurrency == concurrency && running && permits == concurrency && nextTask == 0
      ensures tasks == map[] && active == map[] && heads == [] && Valid() && InHand() == 0
    {
      this.concurrency := concurrency;
      running, permits, nextTask := true, concurrency, 0;
      tasks, active, heads, log := map[], map[], [], [];
    }

    /** Active entries belong to unfinished tasks, and to the jobs of which no task has finished since they
        were last claimed; task ids are never reused. */
    ghost predicate Valid()
      reads this
    {
      && active.Keys <= tasks.Values
      && (forall task | task in tasks :: task < nextTask)
      && ActiveLogged(active, log)
    }

    /** Permits handed out but not held by an unfinished job task. */
    ghost function InHand(): int
      reads this
    {
      concurrency - permits - |tasks|
    }

    /** The finally block of _safe_process_job, or the signal handler. */
    method Handle(event: Event)
      requires Valid()
      modifies this`running, this`permits, this`tasks, this`active, this`log
      ensures Valid() && InHand() == old(InHand())
      ensures event.StopSignal? ==> !running && tasks == old(tasks)
      ensures event.StopSignal? ==> active == old(active) && permits == old(permits)
      ensures event.Finish? ==> running == old(running) && tasks == old(tasks) - {event.task}
      ensures event.Finish? && event.task in old(tasks) ==>
                active == old(active) - {old(tasks)[event.task]} && permits == old(permits) + 1
      ensures tasks.Keys <= old(tasks).Keys && (running ==> old(running))
      ensures active.Keys <= old(active).Keys
      ensures Head() == Happening(old(Head()), event)
    {
      match event
      case StopSignal =>
        running := false;
      case Finish(task) =>
        if task in tasks {
          var job := tasks[task];
          TakenOut(tasks, task);
          LoggedDone(active, log, job);
          tasks := tasks - {task};
          active := active - {job};
          log := log + [TaskDone(job)];
          permits := permits + 1;
        }
    }

    method HandleAll(events: seq<Event>)
      requires Valid()
      modifies this`running, this`permits, this`tasks, this`active, this`log
      ensures Valid() && InHand() == old(InHand())
      ensures tasks.Keys <= old(tasks).Keys && (running ==> old(running))
      ensures active.Keys <= old(active).Keys
      ensures Head() == Passing(old(Head()), events)
    {
      for i := 0 to |events|
        invariant Valid() && InHand() == old(InHand())
        invariant tasks.Keys <= old(tasks).Keys && (running ==> old(running))
        invariant active.Keys <= old(active).Keys
        invariant Head() == Passing(old(Head()), events[..i])
      {
        assert events[..i + 1][..i] == events[..i];
        Handle(events[i]);
      }
      assert events[..|events|] == events;
    }

    /** The semaphore hands out a permit. */
    method Acquire()
      requires Valid() && permits > 0
      modifies this`permits
      ensures Valid() && permits == old(permits) - 1 && InHand() == old(InHand()) + 1
      ensures Head() == old(Head()).(permits := permits)
    {
      permits := permits - 1;
    }

    /** The semaphore takes a permit back. */
    method GiveBack()
      requires Valid()
      modifies this`permits
      ensures Valid() && permits == old(permits) + 1 && InHand() == old(InHand()) - 1
      ensures Head() == old(Head()).(permits := permits)
    {
      permits := permits + 1;
    }

    /** The body of a successful claim: remember the job, start its task. */
    method Spawn(job: JobId, fence: nat)
      requires Valid()
      modifies this`active, this`tasks, this`nextTask, this`log
      ensures Valid() && InHand() == old(InHand()) - 1
      ensures active == old(active)[job := fence] && tasks == old(tasks)[old(nextTask) := job]
      ensures nextTask == old(nextTask) + 1
      ensures Head() == Spawning(old(Head()), job, fence)
    {
      LoggedClaim(active, log, job, fence);
      active := active[job := fence];
      log := log + [JobClaimed(job)];
      ghost var before := tasks;
      tasks := tasks[nextTask := job];
      assert tasks.Values >= before.Values + {job} by {
        assert tasks[nextTask] == job;
        assert forall task | task in before :: tasks[task] == before[task];
      }
      assert tasks.Keys == before.Keys + {nextTask};
      nextTask := nextTask + 1;
    }

    /** Starts a task for the job that the claim returned, or gives the permit back; an exception after a
        stop keeps it. */
    method Settle(result: ClaimResult)
      requires Valid() && InHand() == 1
      modifies this`permits, this`nextTask, this`tasks, this`active, this`log
      ensures Valid() && (InHand() == 0 || (!running && InHand() == 1))
      ensures Head() == Settling(old(Head()), result)
    {
      match result
      case Raised =>
        if running {
          GiveBack();
        }
      case NoJob =>
        GiveBack();
      case Got(job, fence) =>
        Spawn(job, fence);
    }

    /** The rest of a turn, with a permit in hand: claim, settle, and sleep if there was no job. */
    method ClaimAndSpawn(turn: Turn)
      requires Valid() && InHand() == 1
      modifies this`running, this`permits, this`nextTask, this`tasks, this`active, this`log
      ensures Valid() && (InHand() == 0 || (!running && InHand() == 1))
      ensures Head() == Claiming(old(Head()), turn)
    {
      HandleAll(turn.claiming);
      Settle(turn.result);
      if !turn.result.Got? {
        HandleAll(turn.sleeping);
      }
    }

    ghost function Head(): Snapshot
      reads this
    {
      Snapshot(running, permits, nextTask, tasks, active)
    }

    /** No permit is lost or conjured up, and there are never more entries than unfinished tasks. */
    ghost predicate Balanced(head: Snapshot) {
      head.running ==> head.permits + |head.tasks| == concurrency && |head.active| <= |head.tasks|
    }

    ghost predicate AllBalanced(since: nat)
      reads this`heads
    {
      forall i | since <= i < |heads| :: Balanced(heads[i])
    }

    /** One turn of the loop. `through` is false when the worker stops while it waits for its permit, and
        when it waits for ever, which `blocked` reports. */
    method TakeTurn(turn: Turn) returns (through: bool, blocked: bool)
      requires Valid() && InHand() == 0 && running
      modifies this`running, this`permits, this`nextTask, this`tasks, this`active, this`log
      ensures Valid() && (InHand() == 0 || (!running && InHand() == 1)) && |active| <= |tasks|
      ensures through == Passes(old(Head()), turn) && blocked == (!through && permits == 0)
      ensures Head() == if through then Turned(old(Head()), turn) else Passing(old(Head()), turn.acquiring)
      ensures !through ==> InHand() == 0 && (blocked || !running)
    {
      HandleAll(turn.acquiring);
      ActiveBounded(active, tasks);
      if permits == 0 {
        return false, true;
      }
      Acquire();
      if !running {
        GiveBack();
        return false, false;
      }
      ClaimAndSpawn(turn);
      ActiveBounded(active, tasks);
      return true, false;
    }

    /** The test of `while self.running`. */
    ghost method RecordHead(since: nat)
      requires Valid() && (InHand() == 0 || (!running && InHand() == 1)) && AllBalanced(since)
      modifies this`heads
      ensures Valid() && heads == old(heads) + [Head()] && AllBalanced(since)
      ensures |active| <= |tasks|
    {
      ActiveBounded(active, tasks);
      heads := heads + [Head()];
    }

    /** Runs the loop over a schedule, until it stops, blocks on the semaphore for ever, or the schedule
        ends. `blocked` reports the second case. */
    method RunForever(turns: seq<Turn>) returns (blocked: bool)
      requires Valid() && InHand() == 0
      modifies this
      ensures Valid()
      ensures old(heads) <= heads
      ensures forall i | |old(heads)| <= i < |heads| :: Balanced(heads[i])
      ensures !blocked && |heads| - |old(heads)| <= |turns| ==> !running
      ensures blocked ==> permits == 0 && |tasks| == concurrency
      ensures |active| <= |tasks|
      ensures InHand() == 0 || (!running && InHand() == 1)
      ensures |old(heads)| < |heads| && heads[|old(heads)|] == old(Head())
      ensures Ran(heads[|old(heads)|..], turns, Head(), blocked)
    {
      blocked := false;
      var turn := 0;
      ghost var chain := [Head()];
      while true
        invariant Valid() && (InHand() == 0 || (!running && InHand() == 1)) && !blocked
        invariant Follows(chain, turns, turn, old(Head()), Head())
        invariant heads == old(heads) + chain[..turn]
        invariant AllBalanced(|old(heads)|)
        decreases |turns| - turn
      {
        RecordHead(|old(heads)|);
        assert heads == old(heads) + chain && heads[|old(heads)|..] == chain;
        if !running || turn == |turns| {
          return;
        }
        ghost var before := Head();
        var through: bool;
        through, blocked := TakeTurn(turns[turn]);
        if !through {
          return;
        }
        FollowsOn(chain, turns, turn, old(Head()), before);
        chain := chain + [Head()];
        turn := turn + 1;
      }
    }

    /** The release part of shutdown: wait (while `draining` happens), then release every entry left.
        `released` lists the tokens handed to release_job. The job of an unfinished task is among them if
        and only if no task of it has finished since some claim of it, hence since the last: when a worker
        re-claims its own lost job, the older task's end hides the job from the shutdown. */
    method Shutdown(draining: seq<Event>) returns (released: map<JobId, nat>)
      requires Valid()
      modifies this`running, this`permits, this`tasks, this`active, this`log
      ensures Valid() && InHand() == old(InHand()) && released == active
      ensures forall task | task in tasks :: tasks[task] in released <==> Undisturbed(log, tasks[task])
      ensures released.Keys <= tasks.Values && released.Keys <= old(active).Keys
      ensures old(active) == map[] ==> released == map[] && tasks == old(tasks)
      ensures Head() == if old(active) == map[] then old(Head()) else Passing(old(Head()), draining)
    {
      if active == map[] {
        forall task | task in tasks ensures !Undisturbed(log, tasks[task]) {
          ClaimedLastUndisturbed(log, tasks[task]);
        }
        return map[];
      }
      HandleAll(draining);
      released := active;
      forall task | task in tasks ensures tasks[task] in released <==> Undisturbed(log, tasks[task]) {
        ClaimedLastUndisturbed(log, tasks[task]);
      }
    }
  }

  method ClaimedJob() returns (worker: ReviewWorker)
    ensures fresh(worker) && worker.Valid() && worker.InHand() == 0 && worker.permits == 1 && worker.nextTask == 1
    ensures worker.tasks == map[0 := 0] && worker.active == map[0 := 0]
  {
    worker := new ReviewWorker(2);
    worker.Acquire();
    worker.Spawn(0, 0);
  }

  /** A worker with job 0 claims it again, having lost it. */
  method ReclaimedJob() returns (worker: ReviewWorker)
    ensures fresh(worker) && worker.Valid() && worker.InHand() == 0
    ensures worker.tasks == map[0 := 0, 1 := 0] && worker.active == map[0 := 1]
  {
    worker := ClaimedJob();
    var tasks: map<TaskId, JobId>, active: map<JobId, nat> := map[0 := 0], map[0 := 0];
    assert tasks[1 := 0] == map[0 := 0, 1 := 0] && active[0 := 1] == map[0 := 1];
    worker.Acquire();
    worker.Spawn(0, 1);
  }

  /** Then it finishes the older task and shuts down: the newer task is unfinished, and its job is not
      released. */
  method ReclaimedJobIsForgotten() returns (worker: ReviewWorker, released: map<JobId, nat>)
    ensures fresh(worker) && worker.Valid() && worker.InHand() == 0
    ensures worker.tasks == map[1 := 0] && released == map[]
  {
    worker := ReclaimedJob();
    worker.Handle(Finish(0));
    assert map[0 := 0, 1 := 0] - {0} == map[1 := 0];
    worker.Handle(StopSignal);
    released := worker.Shutdown([]);
  }

  lemma TakenOut(tasks: map<TaskId, JobId>, task: TaskId)
    requires task in tasks
    ensures tasks.Values == (tasks - {task}).Values + {tasks[task]}
    ensures |tasks| == |tasks - {task}| + 1
  {
    var rest := tasks - {task};
    assert forall other | other in tasks :: other == task || rest[other] == tasks[other];
    assert forall other | other in rest :: tasks[other] == rest[other];
    assert tasks.Keys == rest.Keys + {task};
  }

  lemma {:induction false} ValuesBounded(m: map<TaskId, JobId>)
    ensures |m.Values| <= |m.Keys|
    decreases |m.Keys|
  {
    if m.Keys != {} {
      var task :| task in m.Keys;
      var rest := m - {task};
      assert m.Keys == rest.Keys + {task};
      assert m.Values == rest.Values + {m[task]} by {
        assert forall other | other in m :: other == task || rest[other] == m[other];
        assert forall other | other in rest :: m[other] == rest[other];
      }
      ValuesBounded(rest);
    } else {
      assert m.Values == {};
    }
  }

  /** Two tasks may share one entry (a worker that re-claims its own lost job), never the reverse. */
  lemma ActiveBounded(active: map<JobId, nat>, tasks: map<TaskId, JobId>)
    requires active.Keys <= tasks.Values
    ensures |active| <= |tasks|
  {
    ValuesBounded(tasks);
    assert tasks.Values == active.Keys + (tasks.Values - active.Keys);
  }
}
