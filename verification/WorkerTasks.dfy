/** process_job as the queue's client: one task per claim, which works, calls post_review, commits, and
    on an exception releases the job or fails it. A task may stop for ever between any two steps (its
    worker crashed or cancelled it), a commit may succeed although its caller sees an exception, and a
    shutdown may release a task's token at any time. */
module WorkerTasks {
  import opened Basics
  import opened QueueTables
  import opened QueueProtocol
  import opened QueueRuns

  datatype Phase =
    | Working   // up to and including the analysis
    | Ready     // about to call post_review
    | Posted    // post_review returned
    | Handling  // in the exception handler
    | Ended

  datatype Task = Task(ticket: Ticket, phase: Phase)

  /** `posts` logs the post_review calls, whether they return or raise. */
  datatype World = World(q: State, tasks: seq<Task>, posts: seq<Ticket>)

  datatype Action =
    | Claimed(worker: WorkerId, locked: set<JobId>, id: JobId)
    | RejectPayload(task: nat, feedback: Option<Dict>)
    | FinishWork(task: nat)
    | Post(task: nat, ok: bool)
    | Raise(task: nat)                       // any other exception inside the try block
    | CommitSuccess(task: nat, feedback: Option<Dict>, acknowledged: bool)
    | HandleRelease(task: nat, delay: nat)
    | HandleFail(task: nat, feedback: Option<Dict>)
    | Stop(task: nat)                        // cancelled, crashed, or the handler's own call failed
    | ShutdownRelease(task: nat)
    | Environment(l: Label)                  // everything that no task does

  ghost predicate WorldInit(w: World) {
    Init(w.q) && w.tasks == [] && w.posts == []
  }

  /** The queue transaction behind an action; `Tick(0)` stands for none. */
  ghost function Transaction(w: World, a: Action): Label
    requires Possible(w, a)
  {
    match a
    case Claimed(worker, locked, id) => DoClaim(worker, locked, Some(id))
    case RejectPayload(i, feedback) => DoFinalize(w.tasks[i].ticket.job, w.tasks[i].ticket.token, Failure, feedback)
    case CommitSuccess(i, feedback, _) => DoFinalize(w.tasks[i].ticket.job, w.tasks[i].ticket.token, Success, feedback)
    case HandleRelease(i, delay) => DoRelease(w.tasks[i].ticket.job, w.tasks[i].ticket.token, delay)
    case HandleFail(i, feedback) => DoFinalize(w.tasks[i].ticket.job, w.tasks[i].ticket.token, Failure, feedback)
    case ShutdownRelease(i) => DoRelease(w.tasks[i].ticket.job, w.tasks[i].ticket.token, 0)
    case Environment(l) => l
    case _ => Tick(0)
  }

  ghost predicate InPhase(w: World, i: nat, phase: Phase) {
    i < |w.tasks| && w.tasks[i].phase == phase
  }

  ghost predicate Possible(w: World, a: Action) {
    match a
    case Claimed(_, locked, id) => FirstClaimable(w.q.t, w.q.now, locked, id)
    case RejectPayload(i, _) => InPhase(w, i, Working)
    case FinishWork(i) => InPhase(w, i, Working)
    case Post(i, _) => InPhase(w, i, Ready)
    case Raise(i) => InPhase(w, i, Working) || InPhase(w, i, Ready) || InPhase(w, i, Posted)
    case CommitSuccess(i, _, _) => InPhase(w, i, Posted)
    case HandleRelease(i, _) => InPhase(w, i, Handling)
    case HandleFail(i, _) => InPhase(w, i, Handling)
    case Stop(i) => i < |w.tasks|
    case ShutdownRelease(i) => i < |w.tasks|
    case Environment(l) => Enabled(w.q, l) && !l.DoFinalize? && !l.DoRelease? && (l.DoClaim? ==> l.got == None)
  }

  ghost function Advance(w: World, i: nat, phase: Phase): seq<Task>
    requires i < |w.tasks|
  {
    w.tasks[i := w.tasks[i].(phase := phase)]
  }

  ghost function TasksAfter(w: World, a: Action): seq<Task>
    requires Possible(w, a)
  {
    match a
    case Claimed(_, _, id) => w.tasks + [Task(Ticket(id, w.q.t.jobs[id].fence), Working)]
    case FinishWork(i) => Advance(w, i, Ready)
    case Post(i, ok) => Advance(w, i, if ok then Posted else Handling)
    case Raise(i) => Advance(w, i, Handling)
    case CommitSuccess(i, _, acknowledged) =>
      var matched := FenceMatches(w.q.t, w.tasks[i].ticket.job, w.tasks[i].ticket.token);
      Advance(w, i, if matched && acknowledged then Ended else Handling)
    case RejectPayload(i, _) => Advance(w, i, Ended)
    case HandleRelease(i, _) => Advance(w, i, Ended)
    case HandleFail(i, _) => Advance(w, i, Ended)
    case Stop(i) => Advance(w, i, Ended)
    case _ => w.tasks
  }

  ghost function PostsAfter(w: World, a: Action): seq<Ticket>
    requires Possible(w, a)
  {
    if a.Post? then w.posts + [w.tasks[a.task].ticket] else w.posts
  }

  ghost predicate WorldStep(w: World, a: Action, w': World) {
    && Possible(w, a)
    && Enabled(w.q, Transaction(w, a))
    && w' == World(Next(w.q, Transaction(w, a)), TasksAfter(w, a), PostsAfter(w, a))
  }

  // ----- the invariant -----

  /** Tasks and tickets are in one-to-one correspondence, and each task posts at most once. */
  ghost predicate WorldInv(w: World) {
    && Inv(w.q)
    && TasksOk(w.tasks, w.posts, w.q.handed)
    && SuccessesPosted(w)
  }

  /** Whoever committed a SUCCESS had called post_review. */
  ghost predicate SuccessesPosted(w: World) {
    forall id | id in w.q.t.jobs && w.q.t.jobs[id].status == Success :: Ticket(id, w.q.t.jobs[id].fence) in w.posts
  }

  /** The queue's part of every action is a legal step of the queue: a task only uses the ticket that
      its claim returned. */
  lemma ActionIsTransaction(w: World, a: Action)
    requires WorldInv(w) && Possible(w, a)
    ensures Enabled(w.q, Transaction(w, a))
  {
  }

  // ----- what an action does -----

  /** What finalize_job under `ticket` leaves behind: nothing new unless the fence matches. */
  ghost predicate Finalizes(t: Tables, t': Tables, now: int, ticket: Ticket, verdict: Verdict, feedback: Option<Dict>) {
    if ticket.job in t.jobs && t.jobs[ticket.job].fence == ticket.token
    then && ticket.job in t'.jobs && ticket.job !in t'.heartbeats
         && t'.jobs[ticket.job] ==
            t.jobs[ticket.job].(status := verdict, completedAt := Some(now),
                                result := if feedback == Some(map[]) then None else feedback)
         && t.jobs[ticket.job].sha in t'.records
         && t'.records[t.jobs[ticket.job].sha].feedback == (if feedback.Some? then feedback.value else map[])
    else t' == t
  }

  /** What release_job under `ticket` leaves behind: the heartbeat goes in any case. */
  ghost predicate Releases(t: Tables, t': Tables, now: int, ticket: Ticket, delay: nat) {
    && t'.heartbeats == t.heartbeats - {ticket.job} && t'.records == t.records
    && t'.jobs == if ticket.job in t.jobs && t.jobs[ticket.job].fence == ticket.token
                     && t.jobs[ticket.job].status == Processing
                  then t.jobs[ticket.job := t.jobs[ticket.job].(status := Pending, worker := None,
                                                               scheduledAt := now + delay,
                                                               fence := ticket.token + 1)]
                  else t.jobs
  }

  /** Each action's effect on the tables, under the acting task's own ticket. */
  lemma ActionEffect(w: World, a: Action, w': World)
    requires WorldStep(w, a, w')
    ensures var t, t', now := w.q.t, w'.q.t, w.q.now;
            match a
            case Claimed(worker, _, id) =>
              && id in t.jobs && id in t'.jobs && id in t'.heartbeats && t'.heartbeats[id] == Heartbeat(worker, now)
              && t'.jobs[id] == t.jobs[id].(status := Processing, startedAt := Some(now), worker := Some(worker),
                                            attempts := t.jobs[id].attempts + 1)
            case RejectPayload(i, feedback) => Finalizes(t, t', now, w.tasks[i].ticket, Failure, feedback)
            case CommitSuccess(i, feedback, _) => Finalizes(t, t', now, w.tasks[i].ticket, Success, feedback)
            case HandleFail(i, feedback) => Finalizes(t, t', now, w.tasks[i].ticket, Failure, feedback)
            case HandleRelease(i, delay) => Releases(t, t', now, w.tasks[i].ticket, delay)
            case ShutdownRelease(i) => Releases(t, t', now, w.tasks[i].ticket, 0)
            case Environment(_) => true
            case _ => w'.q == w.q
  {
  }

  /** Each action's effect on the tasks and the log of posts: a claim starts a task with the ticket it was
      given, and any other action moves at most its own task. */
  lemma TaskEffect(w: World, a: Action, w': World)
    requires WorldStep(w, a, w')
    ensures match a
            case Claimed(_, _, id) =>
              w'.tasks == w.tasks + [Task(Ticket(id, w.q.t.jobs[id].fence), Working)] && w'.posts == w.posts
            case ShutdownRelease(_) => w'.tasks == w.tasks && w'.posts == w.posts
            case Environment(_) => w'.tasks == w.tasks && w'.posts == w.posts
            case _ =>
              var task, ticket := w.tasks[a.task], w.tasks[a.task].ticket;
              var committed := ticket.job in w.q.t.jobs && w.q.t.jobs[ticket.job].fence == ticket.token;
              && |w'.tasks| == |w.tasks| && w'.tasks[a.task].ticket == ticket
              && (forall k | 0 <= k < |w.tasks| && k != a.task :: w'.tasks[k] == w.tasks[k])
              && w'.posts == (if a.Post? then w.posts + [ticket] else w.posts)
              && match a
                 case FinishWork(_) => task.phase == Working && w'.tasks[a.task].phase == Ready
                 case Post(_, ok) =>
                   task.phase == Ready && w'.tasks[a.task].phase == (if ok then Posted else Handling)
                 case Raise(_) =>
                   task.phase != Handling && task.phase != Ended && w'.tasks[a.task].phase == Handling
                 case CommitSuccess(_, _, acknowledged) =>
                   task.phase == Posted
                   && w'.tasks[a.task].phase == (if committed && acknowledged then Ended else Handling)
                 case RejectPayload(_, _) => task.phase == Working && w'.tasks[a.task].phase == Ended
                 case HandleRelease(_, _) => task.phase == Handling && w'.tasks[a.task].phase == Ended
                 case HandleFail(_, _) => task.phase == Handling && w'.tasks[a.task].phase == Ended
                 case _ => w'.tasks[a.task].phase == Ended
  {
  }

  lemma SuccessComesFromCommit(w: World, a: Action, w': World, id: JobId)
    requires WorldInv(w) && WorldStep(w, a, w') && id in w'.q.t.jobs && w'.q.t.jobs[id].status == Success
    ensures Ticket(id, w'.q.t.jobs[id].fence) in w'.posts
  {
    var l := Transaction(w, a);
    if id in w.q.t.jobs {
      StepRow(w.q, l, id);
      if Commits(w.q, l, id) {
        assert a.CommitSuccess?;
        assert Ticket(id, w'.q.t.jobs[id].fence) == w.tasks[a.task].ticket;
      } else {
        assert Displaced(w.q.t.jobs[id], w'.q.t.jobs[id]);
      }
    } else {
      StepNewRow(w.q, l, id);
    }
  }

  lemma HandedGrows(s: State, l: Label)
    requires Enabled(s, l)
    ensures s.handed <= Next(s, l).handed
  {
  }

  /** The ticket of a claim is new. */
  lemma ClaimIsNew(s: State, id: JobId, now: int)
    requires Inv(s) && id in s.t.jobs && Eligible(s.t.jobs[id], now)
    ensures Ticket(id, s.t.jobs[id].fence) !in s.handed
  {
    assert Accounted(s.t.jobs[id]);
  }

  lemma WorldStepInv(w: World, a: Action, w': World)
    requires WorldInv(w) && WorldStep(w, a, w')
    ensures WorldInv(w')
  {
    StepInv(w.q, Transaction(w, a));
    forall id | id in w'.q.t.jobs && w'.q.t.jobs[id].status == Success
      ensures Ticket(id, w'.q.t.jobs[id].fence) in w'.posts
    {
      SuccessComesFromCommit(w, a, w', id);
    }
    TasksStep(w, a, w');
  }

  /** What tasks keep to themselves. */
  ghost predicate TasksOk(tasks: seq<Task>, posts: seq<Ticket>, handed: set<Ticket>) {
    && (forall i | 0 <= i < |tasks| :: tasks[i].ticket in handed)
    && (forall i, j | 0 <= i < j < |tasks| :: tasks[i].ticket != tasks[j].ticket)
    && (forall k | 0 <= k < |posts| :: posts[k] in handed)
    && (forall k, m | 0 <= k < m < |posts| :: posts[k] != posts[m])
    && (forall i | 0 <= i < |tasks| :: PostedInTime(tasks[i], posts))
  }

  ghost predicate PostedInTime(task: Task, posts: seq<Ticket>) {
    && (task.phase == Posted ==> task.ticket in posts)
    && (task.phase == Working || task.phase == Ready ==> task.ticket !in posts)
  }

  lemma TaskAdvances(tasks: seq<Task>, posts: seq<Ticket>, handed: set<Ticket>, i: nat, phase: Phase)
    requires TasksOk(tasks, posts, handed) && i < |tasks|
    requires PostedInTime(tasks[i].(phase := phase), posts)
    ensures TasksOk(tasks[i := tasks[i].(phase := phase)], posts, handed)
  {
  }

  lemma TaskPosts(tasks: seq<Task>, posts: seq<Ticket>, handed: set<Ticket>, i: nat, phase: Phase)
    requires TasksOk(tasks, posts, handed) && i < |tasks| && tasks[i].phase == Ready
    requires phase == Posted || phase == Handling
    ensures TasksOk(tasks[i := tasks[i].(phase := phase)], posts + [tasks[i].ticket], handed)
  {
    assert PostedInTime(tasks[i], posts);
    forall j | 0 <= j < |tasks| && j != i ensures PostedInTime(tasks[j], posts + [tasks[i].ticket]) {
      assert PostedInTime(tasks[j], posts) && tasks[j].ticket != tasks[i].ticket;
    }
  }

  lemma TaskStarts(tasks: seq<Task>, posts: seq<Ticket>, handed: set<Ticket>, ticket: Ticket)
    requires TasksOk(tasks, posts, handed) && ticket !in handed
    ensures TasksOk(tasks + [Task(ticket, Working)], posts, handed + {ticket})
  {
  }

  lemma TasksOkMore(tasks: seq<Task>, posts: seq<Ticket>, handed: set<Ticket>, more: set<Ticket>)
    requires TasksOk(tasks, posts, handed) && handed <= more
    ensures TasksOk(tasks, posts, more)
  {
  }

  lemma TasksStep(w: World, a: Action, w': World)
    requires WorldInv(w) && WorldStep(w, a, w')
    ensures TasksOk(w'.tasks, w'.posts, w'.q.handed)
  {
    if a.Claimed? {
      ClaimIsNew(w.q, a.id, w.q.now);
      TaskStarts(w.tasks, w.posts, w.q.handed, Ticket(a.id, w.q.t.jobs[a.id].fence));
    } else {
      HandedGrows(w.q, Transaction(w, a));
      if a.Post? {
        TaskPosts(w.tasks, w.posts, w.q.handed, a.task, if a.ok then Posted else Handling);
      } else if !a.ShutdownRelease? && !a.Environment? {
        assert PostedInTime(w.tasks[a.task], w.posts);
        TaskAdvances(w.tasks, w.posts, w.q.handed, a.task, w'.tasks[a.task].phase);
      }
      TasksOkMore(w'.tasks, w'.posts, w.q.handed, w'.q.handed);
    }
  }

  // ----- runs -----

  ghost predicate IsWorldRun(ws: seq<World>, acts: seq<Action>) {
    && |ws| == |acts| + 1
    && WorldInit(ws[0])
    && forall i {:trigger acts[i]} | 0 <= i < |acts| :: WorldStep(ws[i], acts[i], ws[i + 1])
  }

  lemma {:induction false} WorldInvAlways(ws: seq<World>, acts: seq<Action>, i: nat)
    requires IsWorldRun(ws, acts) && i < |ws|
    ensures WorldInv(ws[i])
  {
    if i == 0 {
      InitInv(ws[0].q);
    } else {
      WorldInvAlways(ws, acts, i - 1);
      WorldStepInv(ws[i - 1], acts[i - 1], ws[i]);
    }
  }

  ghost function Queues(ws: seq<World>): seq<State> {
    seq(|ws|, i requires 0 <= i < |ws| => ws[i].q)
  }

  ghost function Transactions(ws: seq<World>, acts: seq<Action>): seq<Label>
    requires |acts| <= |ws|
  {
    seq(|acts|, i requires 0 <= i < |acts| => if Possible(ws[i], acts[i]) then Transaction(ws[i], acts[i]) else Tick(0))
  }

  lemma TransactionAt(ws: seq<World>, acts: seq<Action>, i: nat)
    requires IsWorldRun(ws, acts) && i < |acts|
    ensures var l := Transactions(ws, acts)[i];
            && Possible(ws[i], acts[i]) && l == Transaction(ws[i], acts[i])
            && Enabled(ws[i].q, l) && ws[i + 1].q == Next(ws[i].q, l)
  {
    assert WorldStep(ws[i], acts[i], ws[i + 1]);
  }

  lemma QueueStepAt(ws: seq<World>, acts: seq<Action>, i: nat)
    requires IsWorldRun(ws, acts) && i < |acts|
    ensures Enabled(Queues(ws)[i], Transactions(ws, acts)[i])
    ensures Queues(ws)[i + 1] == Next(Queues(ws)[i], Transactions(ws, acts)[i])
  {
    TransactionAt(ws, acts, i);
  }

  /** Worker runs are queue runs: every theorem about the queue holds of the workers. */
  lemma {:induction false} WorldRunIsQueueRun(ws: seq<World>, acts: seq<Action>)
    requires IsWorldRun(ws, acts)
    ensures IsRun(Queues(ws), Transactions(ws, acts))
  {
    var states, labels := Queues(ws), Transactions(ws, acts);
    forall i {:trigger labels[i]} | 0 <= i < |labels|
      ensures Enabled(states[i], labels[i]) && states[i + 1] == Next(states[i], labels[i])
    {
      QueueStepAt(ws, acts, i);
    }
  }

  // ----- post_review -----

  /** The tokens under which `id` was posted, in call order. */
  ghost function PostTokens(posts: seq<Ticket>, id: JobId): (tokens: seq<nat>)
    ensures forall k | 0 <= k < |tokens| :: Ticket(id, tokens[k]) in posts
  {
    if posts == [] then []
    else
      var last := posts[|posts| - 1];
      PostTokens(posts[..|posts| - 1], id) + if last.job == id then [last.token] else []
  }

  lemma {:induction false} PostTokensDistinct(posts: seq<Ticket>, id: JobId)
    requires forall k, m | 0 <= k < m < |posts| :: posts[k] != posts[m]
    ensures var tokens := PostTokens(posts, id);
            && (forall k, m | 0 <= k < m < |tokens| :: tokens[k] != tokens[m])
            && (forall token: nat :: Ticket(id, token) in posts ==> token in tokens)
  {
    if posts == [] {
    } else {
      var rest, last := posts[..|posts| - 1], posts[|posts| - 1];
      PostTokensDistinct(rest, id);
      assert posts == rest + [last] && last !in rest;
    }
  }

  /** Distinct numbers below `n` are at most `n` many. */
  lemma {:induction false} DistinctBelow(s: seq<nat>, n: nat)
    requires forall k, m | 0 <= k < m < |s| :: s[k] != s[m]
    requires forall k | 0 <= k < |s| :: s[k] < n
    ensures |s| <= n
  {
    if |s| == 0 {
    } else {
      if k :| 0 <= k < |s| && s[k] == n - 1 {
        var s' := s[..k] + s[k + 1..];
        DistinctBelow(s', n - 1);
      } else {
        assert s[0] < n;
        DistinctBelow(s[1..], n - 1);
      }
    }
  }

  /** A job's post_review calls never outnumber its claims, hence never exceed `maxAttempts`; and a job
      in SUCCESS was posted at least once, by the very claim that committed it. */
  lemma PostsBounded(ws: seq<World>, acts: seq<Action>, i: nat, id: JobId)
    requires IsWorldRun(ws, acts) && i < |ws| && id in ws[i].q.t.jobs
    ensures var job, tokens := ws[i].q.t.jobs[id], PostTokens(ws[i].posts, id);
            && |tokens| <= job.attempts <= job.maxAttempts
            && (job.status == Success ==> |tokens| >= 1 && job.fence in tokens)
  {
    WorldInvAlways(ws, acts, i);
    var w := ws[i];
    assert Accounted(w.q.t.jobs[id]);
    PostTokensDistinct(w.posts, id);
    var tokens := PostTokens(w.posts, id);
    forall k | 0 <= k < |tokens| ensures tokens[k] < w.q.t.jobs[id].attempts {
      assert Ticket(id, tokens[k]) in w.q.handed;
    }
    DistinctBelow(tokens, w.q.t.jobs[id].attempts);
  }

  /** The post comes before the commit: when a SUCCESS commits, its claim's call is already logged. */
  lemma PostPrecedesCommit(ws: seq<World>, acts: seq<Action>, i: nat)
    requires IsWorldRun(ws, acts) && i < |acts|
    requires acts[i].CommitSuccess? && acts[i].task < |ws[i].tasks|
    ensures ws[i].tasks[acts[i].task].ticket in ws[i].posts
  {
    WorldInvAlways(ws, acts, i);
    assert WorldStep(ws[i], acts[i], ws[i + 1]);
    assert PostedInTime(ws[i].tasks[acts[i].task], ws[i].posts);
  }

  /** Whatever the workers do, only tasks holding one token ever finalize a job. */
  lemma OneCommittingClaim(ws: seq<World>, acts: seq<Action>, i: nat, j: nat, id: JobId)
    requires IsWorldRun(ws, acts) && i < |acts| && j < |acts|
    requires Commits(ws[i].q, Transactions(ws, acts)[i], id) && Commits(ws[j].q, Transactions(ws, acts)[j], id)
    ensures acts[i].task == acts[j].task
  {
    WorldRunIsQueueRun(ws, acts);
    OneCommittingToken(Queues(ws), Transactions(ws, acts), i, j, id);
    TransactionAt(ws, acts, i);
    TransactionAt(ws, acts, j);
    if i <= j {
      TasksKeepTickets(ws, acts, i, j, acts[i].task);
    } else {
      TasksKeepTickets(ws, acts, j, i, acts[j].task);
    }
    WorldInvAlways(ws, acts, i);
    WorldInvAlways(ws, acts, j);
  }

  lemma {:induction false} TasksKeepTickets(ws: seq<World>, acts: seq<Action>, i: nat, j: nat, task: nat)
    requires IsWorldRun(ws, acts) && i <= j < |ws| && task < |ws[i].tasks|
    ensures task < |ws[j].tasks| && ws[j].tasks[task].ticket == ws[i].tasks[task].ticket
    decreases j
  {
    if i == j {
    } else {
      TasksKeepTickets(ws, acts, i, j - 1, task);
      assert WorldStep(ws[j - 1], acts[j - 1], ws[j]);
    }
  }
}
