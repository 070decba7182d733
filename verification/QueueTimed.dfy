/** Liveness as safety: how long a lost job can stay in processing, and what a heartbeat buys. */
module QueueTimed {
  import opened Basics
  import opened QueueTables
  import opened QueueProtocol
  import opened QueueRuns

  // ----- one reconcile -----

  ghost predicate Settled(t: Tables, now: int, stale: nat, id: JobId)
    requires id in t.jobs
  {
    match t.jobs[id].status
    case Processing => id in t.heartbeats && t.heartbeats[id].at >= now - stale
    case Pending => t.jobs[id].createdAt >= now - HOUR
    case _ => true
  }

  /** After a reconcile every row it did not find locked is terminal, or processing with a fresh
      heartbeat, or pending and at most an hour old; the latter holds of locked rows as well. */
  lemma ReconcileSettles(t: Tables, now: int, cfg: Settings, locked: set<JobId>, id: JobId)
    requires id in t.jobs
    ensures var t' := Reconcile(t, now, cfg, locked);
            && id in t'.jobs
            && (id !in locked ==> Settled(t', now, cfg.stale, id))
            && !Overdue(t'.jobs[id], now)
  {
    ReconcileRows(t, now, cfg, locked);
  }

  /** A row returned as recovered is dead by the time the transaction ends exactly when its commit
      was enqueued more than an hour ago. */
  lemma RecoveredRowMayBeDead(t: Tables, now: int, cfg: Settings, locked: set<JobId>, id: JobId)
    requires id in ReconcileReturns(t, now, cfg, locked)
    requires ReconcileReturns(t, now, cfg, locked)[id].status == Pending
    ensures id in Reconcile(t, now, cfg, locked).jobs
    ensures Reconcile(t, now, cfg, locked).jobs[id].status == Dead <==> t.jobs[id].createdAt < now - HOUR
  {
    ReconcileRows(t, now, cfg, locked);
  }

  /** A release leaves a processing row behind without its heartbeat exactly when its token is stale;
      such a row is taken by the next reconcile that can lock it, however fresh its owner was. */
  lemma StaleReleaseOrphans(t: Tables, now: int, id: JobId, token: nat, delay: nat, later: int, stale: nat)
    requires id in t.jobs && t.jobs[id].status == Processing
    ensures var t' := Release(t, now, id, token, delay);
            && (t'.jobs[id].status == Processing <==> token != t.jobs[id].fence)
            && (Taken(t', later, stale, {}, id) <==> token != t.jobs[id].fence)
  {
  }

  // ----- detection latency -----

  /** `k` is a reconcile of the run that did not find the row of `id` locked. */
  ghost predicate ReconciledAt(labels: seq<Label>, k: int, stale: nat, id: JobId) {
    0 <= k < |labels| && labels[k].DoReconcile? && labels[k].cfg.stale == stale && id !in labels[k].locked
  }

  /** No state is more than `gap` seconds past the last reconcile of `id`, or past the start. */
  ghost predicate ReconciledEvery(states: seq<State>, labels: seq<Label>, gap: nat, stale: nat, id: JobId)
    requires |states| == |labels| + 1
  {
    forall i | 0 <= i < |states| && states[i].now > states[0].now + gap ::
      exists k | 0 <= k < i :: ReconciledAt(labels, k, stale, id) && states[k].now >= states[i].now - gap
  }

  ghost predicate ProcessingAt(s: State, id: JobId) {
    id in s.t.jobs && s.t.jobs[id].status == Processing
  }

  /** In `s` the job is processing under `fence`, with a heartbeat row no older than `floor`. */
  ghost predicate BeatenSince(s: State, id: JobId, fence: nat, floor: int) {
    && ProcessingAt(s, id) && s.t.jobs[id].fence == fence
    && id in s.t.heartbeats && s.t.heartbeats[id].at >= floor
  }

  /** A processing row was processing, under the same fence, one step ago; or it was just claimed. */
  lemma StepProcessing(s: State, l: Label, id: JobId)
    requires Inv(s) && Enabled(s, l) && ProcessingAt(Next(s, l), id)
    ensures if ProcessingAt(s, id) then s.t.jobs[id].fence == Next(s, l).t.jobs[id].fence
            else ClaimsJob(l, id) && BeatenSince(Next(s, l), id, Next(s, l).t.jobs[id].fence, s.now)
  {
    if id in s.t.jobs {
      StepRow(s, l, id);
    } else {
      StepNewRow(s, l, id);
    }
  }

  lemma RunProcessing(states: seq<State>, labels: seq<Label>, i: nat, id: JobId)
    requires IsRun(states, labels) && i < |labels| && ProcessingAt(states[i + 1], id)
    ensures if ProcessingAt(states[i], id) then states[i].t.jobs[id].fence == states[i + 1].t.jobs[id].fence
            else BeatenSince(states[i + 1], id, states[i + 1].t.jobs[id].fence, states[i].now)
  {
    InvAlways(states, labels, i);
    StepProcessing(states[i], labels[i], id);
  }

  lemma {:induction false} ClockMonotone(states: seq<State>, labels: seq<Label>, i: nat, j: nat)
    requires IsRun(states, labels) && i <= j < |states|
    ensures states[i].now <= states[j].now
    decreases j
  {
    if i == j {
    } else {
      ClockMonotone(states, labels, i, j - 1);
      assert Enabled(states[j - 1], labels[j - 1]);
    }
  }

  lemma {:induction false} BeatenAfter(states: seq<State>, labels: seq<Label>, k: nat, i: nat, id: JobId, floor: int)
    returns (j: nat)
    requires IsRun(states, labels) && k <= i < |states| && floor <= states[k].now
    requires ProcessingAt(states[k], id) ==> BeatenSince(states[k], id, states[k].t.jobs[id].fence, floor)
    requires ProcessingAt(states[i], id)
    ensures j <= i && BeatenSince(states[j], id, states[i].t.jobs[id].fence, floor)
    decreases i
  {
    if i == k {
      j := k;
    } else {
      RunProcessing(states, labels, i - 1, id);
      if ProcessingAt(states[i - 1], id) {
        j := BeatenAfter(states, labels, k, i - 1, id, floor);
      } else {
        ClockMonotone(states, labels, k, i - 1);
        j := i;
      }
    }
  }

  lemma AfterReconcile(states: seq<State>, labels: seq<Label>, k: nat, stale: nat, id: JobId)
    requires IsRun(states, labels) && ReconciledAt(labels, k, stale, id)
    ensures states[k + 1].now == states[k].now
    ensures ProcessingAt(states[k + 1], id) ==>
              BeatenSince(states[k + 1], id, states[k + 1].t.jobs[id].fence, states[k].now - stale)
  {
    var s, l := states[k], labels[k];
    ReconcileRows(s.t, s.now, l.cfg, l.locked);
    if id in s.t.jobs {
      ReconcileSettles(s.t, s.now, l.cfg, l.locked, id);
    }
  }

  /** With reconciles that do not skip its row at most `gap` apart, a job still processing at state `i`
      had, under the same claim, a heartbeat no older than `stale + gap` seconds: so no job stays in
      processing longer than that after its claim's last heartbeat, even if heartbeat rows are lost. */
  lemma LostJobsAreDetected(states: seq<State>, labels: seq<Label>, gap: nat, stale: nat, i: nat, id: JobId)
    returns (j: nat)
    requires IsRun(states, labels) && ReconciledEvery(states, labels, gap, stale, id)
    requires i < |states| && ProcessingAt(states[i], id)
    ensures j <= i && BeatenSince(states[j], id, states[i].t.jobs[id].fence, states[i].now - stale - gap)
  {
    if states[i].now <= states[0].now + gap {
      j := BeatenAfter(states, labels, 0, i, id, states[i].now - stale - gap);
    } else {
      var k :| 0 <= k < i && ReconciledAt(labels, k, stale, id) && states[k].now >= states[i].now - gap;
      AfterReconcile(states, labels, k, stale, id);
      j := BeatenAfter(states, labels, k + 1, i, id, states[i].now - stale - gap);
    }
  }

  // ----- how long a job can wait -----

  ghost predicate PendingAt(s: State, id: JobId) {
    id in s.t.jobs && s.t.jobs[id].status == Pending
  }

  lemma StepCreated(s: State, l: Label, id: JobId)
    requires Inv(s) && Enabled(s, l)
    ensures s.now <= Next(s, l).now
    ensures if id in s.t.jobs
            then id in Next(s, l).t.jobs && Next(s, l).t.jobs[id].createdAt == s.t.jobs[id].createdAt
            else id in Next(s, l).t.jobs ==> Next(s, l).t.jobs[id].createdAt == s.now
  {
    if id in s.t.jobs {
      StepRow(s, l, id);
    }
  }

  lemma RunCreated(states: seq<State>, labels: seq<Label>, i: nat, id: JobId)
    requires IsRun(states, labels) && i < |labels|
    ensures states[i].now <= states[i + 1].now
    ensures if id in states[i].t.jobs
            then id in states[i + 1].t.jobs && states[i + 1].t.jobs[id].createdAt == states[i].t.jobs[id].createdAt
            else id in states[i + 1].t.jobs ==> states[i + 1].t.jobs[id].createdAt == states[i].now
  {
    InvAlways(states, labels, i);
    StepCreated(states[i], labels[i], id);
  }

  /** No row was created in the future. */
  lemma {:induction false} CreatedInThePast(states: seq<State>, labels: seq<Label>, i: nat, id: JobId)
    requires IsRun(states, labels) && i < |states| && id in states[i].t.jobs
    ensures states[i].t.jobs[id].createdAt <= states[i].now
  {
    if i == 0 {
    } else {
      RunCreated(states, labels, i - 1, id);
      if id in states[i - 1].t.jobs {
        CreatedInThePast(states, labels, i - 1, id);
      }
    }
  }

  /** No row changes when it was created. */
  lemma {:induction false} CreatedOnce(states: seq<State>, labels: seq<Label>, i: nat, j: nat, id: JobId)
    requires IsRun(states, labels) && i <= j < |states| && id in states[i].t.jobs
    ensures id in states[j].t.jobs && states[j].t.jobs[id].createdAt == states[i].t.jobs[id].createdAt
    decreases j
  {
    if i == j {
    } else {
      CreatedOnce(states, labels, i, j - 1, id);
      RunCreated(states, labels, j - 1, id);
    }
  }

  /** A job that a reconcile leaves pending has not existed for over an hour. */
  lemma YoungWhenSpared(states: seq<State>, labels: seq<Label>, m: nat, k: nat, id: JobId)
    requires IsRun(states, labels) && m <= k < |labels| && labels[k].DoReconcile?
    requires id in states[m].t.jobs && PendingAt(states[k + 1], id)
    ensures states[k].now - states[m].now <= HOUR
  {
    CreatedInThePast(states, labels, m, id);
    CreatedOnce(states, labels, m, k, id);
    CreatedOnce(states, labels, k, k + 1, id);
    SparedAt(states, labels, k, id);
  }

  lemma SparedAt(states: seq<State>, labels: seq<Label>, k: nat, id: JobId)
    requires IsRun(states, labels) && k < |labels| && labels[k].DoReconcile? && id in states[k].t.jobs
    ensures id in states[k + 1].t.jobs && !Overdue(states[k + 1].t.jobs[id], states[k].now)
  {
    ReconcileSettles(states[k].t, states[k].now, labels[k].cfg, labels[k].locked, id);
    assert states[k + 1] == Next(states[k], labels[k]);
  }

  /** No state is more than `gap` seconds past the last reconcile, whatever its settings and whatever rows
      it found locked, or past the start. */
  ghost predicate ExpiredEvery(states: seq<State>, labels: seq<Label>, gap: nat)
    requires |states| == |labels| + 1
  {
    forall i | 0 <= i < |states| && states[i].now > states[0].now + gap ::
      exists k | 0 <= k < i :: labels[k].DoReconcile? && states[k].now >= states[i].now - gap
  }

  /** With reconciles at most `gap` apart, a job that is pending in every state from `m` to `i` has been so
      for at most an hour and `gap` seconds. */
  lemma WaitingEnds(states: seq<State>, labels: seq<Label>, gap: nat, m: nat, i: nat, id: JobId)
    requires IsRun(states, labels) && ExpiredEvery(states, labels, gap)
    requires m <= i < |states| && forall k | m <= k <= i :: PendingAt(states[k], id)
    ensures states[i].now - states[m].now <= HOUR + gap
  {
    ClockMonotone(states, labels, 0, m);
    if states[i].now > states[0].now + gap {
      var k :| 0 <= k < i && labels[k].DoReconcile? && states[k].now >= states[i].now - gap;
      if k < m {
        ClockMonotone(states, labels, k, m);
      } else {
        assert PendingAt(states[m], id) && PendingAt(states[k + 1], id);
        YoungWhenSpared(states, labels, m, k, id);
      }
    }
  }

  // ----- a released job may die before it falls due -----

  /** A row that waits until `due`, or that an expiry has killed. */
  ghost predicate Parked(s: State, id: JobId, due: int, created: int) {
    && id in s.t.jobs && s.t.jobs[id].createdAt == created
    && ((s.t.jobs[id].status == Pending && s.t.jobs[id].scheduledAt == due)
        || (s.t.jobs[id].status == Dead && created < s.now - HOUR))
  }

  lemma StepParked(s: State, l: Label, id: JobId, due: int, created: int)
    requires Inv(s) && Enabled(s, l) && Parked(s, id, due, created) && s.now < due
    ensures Parked(Next(s, l), id, due, created)
    ensures l.DoReconcile? ==> (Next(s, l).t.jobs[id].status == Dead <==> created < s.now - HOUR)
  {
    StepRow(s, l, id);
    if l.DoReconcile? {
      ReconcileRows(s.t, s.now, l.cfg, l.locked);
    }
  }

  lemma {:induction false} StaysParked(states: seq<State>, labels: seq<Label>, i: nat, k: nat, id: JobId, due: int,
    created: int)
    requires IsRun(states, labels) && i <= k < |states| && Parked(states[i], id, due, created) && states[k].now < due
    ensures Parked(states[k], id, due, created)
    decreases k
  {
    if i == k {
    } else {
      ClockMonotone(states, labels, k - 1, k);
      StaysParked(states, labels, i, k - 1, id, due, created);
      InvAlways(states, labels, k - 1);
      StepParked(states[k - 1], labels[k - 1], id, due, created);
    }
  }

  /** A job released with a delay, say on a rate limit, is dead after a reconcile `k` that comes before the
      delay is over exactly when its commit was enqueued more than an hour before that reconcile; until
      then it stays pending. */
  lemma ReleasedRowMayDie(states: seq<State>, labels: seq<Label>, i: nat, k: nat, id: JobId)
    requires IsRun(states, labels) && i < k < |labels| && labels[k].DoReconcile?
    requires labels[i].DoRelease? && labels[i].job == id && ReleaseMatches(states[i].t, id, labels[i].token)
    requires states[k].now < states[i].now + labels[i].delay
    ensures id in states[k + 1].t.jobs
    ensures if states[i].t.jobs[id].createdAt < states[k].now - HOUR
            then states[k + 1].t.jobs[id].status == Dead else states[k + 1].t.jobs[id].status == Pending
  {
    var due, created := states[i].now + labels[i].delay, states[i].t.jobs[id].createdAt;
    assert states[i + 1] == Next(states[i], labels[i]) && Parked(states[i + 1], id, due, created);
    StaysParked(states, labels, i + 1, k, id, due, created);
    InvAlways(states, labels, k);
    StepParked(states[k], labels[k], id, due, created);
    assert states[k + 1] == Next(states[k], labels[k]);
  }

  // ----- a claim that keeps beating keeps its job -----

  /** Step `l` writes the heartbeat of `id` for `worker`. */
  ghost predicate Beats(l: Label, id: JobId, worker: WorkerId) {
    l.DoBeatWrite? && l.read.job == id && l.read.worker == worker
  }

  /** The holder of `token` on `id` ends its own claim. */
  ghost predicate EndsClaim(l: Label, id: JobId, token: nat) {
    (l.DoFinalize? || l.DoRelease?) && l.job == id && l.token == token
  }

  /** What may strip a live owner of its heartbeat row behind its back. */
  ghost predicate Strips(l: Label, id: JobId, token: nat) {
    || (l.LoseHeartbeats? && id in l.lost)
    || (l.DoRelease? && l.job == id && l.token != token)
  }

  /** The step, at or after the claim at `c`, that last wrote the heartbeat before step `i`. */
  ghost function LastBeat(labels: seq<Label>, c: nat, i: nat, id: JobId, worker: WorkerId): (j: nat)
    requires c < i <= |labels|
    ensures c <= j < i
    ensures forall k | c < k < i && Beats(labels[k], id, worker) :: k <= j
  {
    if i == c + 1 then c
    else if Beats(labels[i - 1], id, worker) then i - 1
    else LastBeat(labels, c, i - 1, id, worker)
  }

  /** The claim at `c`, or a heartbeat of its worker since then, is at most `quiet` seconds old at
      step `i`. */
  ghost predicate RecentlyBeaten(states: seq<State>, labels: seq<Label>, c: nat, i: nat, id: JobId, quiet: nat)
    requires c < i < |labels| < |states| && ClaimsJob(labels[c], id)
  {
    exists j | c <= j < i ::
      (j == c || Beats(labels[j], id, labels[c].worker)) && states[j].now >= states[i].now - quiet
  }

  /** What the claim at `c` needs of step `i`: nobody strips its heartbeat, its holder does not end it,
      a heartbeat transaction takes at most `slow` seconds, and a reconcile comes at most `quiet`
      seconds after the last heartbeat, with `slow + quiet` within its threshold. */
  ghost predicate KeepsBeating(states: seq<State>, labels: seq<Label>, c: nat, i: nat, id: JobId, slow: nat, quiet: nat)
    requires c < i < |labels| < |states| && ClaimsJob(labels[c], id) && id in states[c].t.jobs
  {
    var token, worker := states[c].t.jobs[id].fence, labels[c].worker;
    && !Strips(labels[i], id, token)
    && !EndsClaim(labels[i], id, token)
    && (Beats(labels[i], id, worker) ==> labels[i].read.at >= states[i].now - slow)
    && (labels[i].DoReconcile? ==>
      labels[i].cfg.stale >= slow + quiet && RecentlyBeaten(states, labels, c, i, id, quiet))
  }

  /** The last heartbeat is at least as recent as any other. */
  lemma LastBeatIsRecent(states: seq<State>, labels: seq<Label>, c: nat, i: nat, id: JobId, quiet: nat)
    requires IsRun(states, labels) && c < i < |labels| && ClaimsJob(labels[c], id)
    requires RecentlyBeaten(states, labels, c, i, id, quiet)
    ensures states[LastBeat(labels, c, i, id, labels[c].worker)].now >= states[i].now - quiet
  {
    var j :| c <= j < i && (j == c || Beats(labels[j], id, labels[c].worker)) && states[j].now >= states[i].now - quiet;
    ClockMonotone(states, labels, j, LastBeat(labels, c, i, id, labels[c].worker));
  }

  ghost predicate Held(s: State, id: JobId, token: nat, worker: WorkerId, floor: int) {
    BeatenSince(s, id, token, floor) && s.t.heartbeats[id].worker == worker && HeldBy(s.t, id, worker)
  }

  lemma StepKeepsHeld(s: State, l: Label, id: JobId, token: nat, worker: WorkerId, floor: int)
    requires Inv(s) && Enabled(s, l) && Held(s, id, token, worker, floor)
    requires !Strips(l, id, token) && !EndsClaim(l, id, token)
    requires l.DoReconcile? ==> floor >= s.now - l.cfg.stale
    requires Beats(l, id, worker) ==> l.read.at >= floor
    ensures Held(Next(s, l), id, token, worker, floor)
  {
    match l
    case DoReconcile(cfg, locked) =>
      ReconcileRows(s.t, s.now, cfg, locked);
      assert Accounted(s.t.jobs[id]);
      ReconciledRow(s.t, s.now, cfg, locked, id);
    case _ =>
  }

  /** A beat replaces the row's age outright, so only the new instant counts. */
  lemma StepBeats(s: State, l: Label, id: JobId, token: nat, worker: WorkerId, floor: int)
    requires Enabled(s, l) && Held(s, id, token, worker, floor) && Beats(l, id, worker)
    ensures Held(Next(s, l), id, token, worker, l.read.at)
  {
  }

  lemma RunKeepsHeld(states: seq<State>, labels: seq<Label>, i: nat, id: JobId, token: nat, worker: WorkerId,
    floor: int, floor': int)
    requires IsRun(states, labels) && i < |labels| && Held(states[i], id, token, worker, floor)
    requires !Strips(labels[i], id, token) && !EndsClaim(labels[i], id, token)
    requires labels[i].DoReconcile? ==> floor >= states[i].now - labels[i].cfg.stale
    requires if Beats(labels[i], id, worker) then labels[i].read.at >= floor' else floor' == floor
    ensures Held(states[i + 1], id, token, worker, floor')
  {
    InvAlways(states, labels, i);
    if Beats(labels[i], id, worker) {
      StepBeats(states[i], labels[i], id, token, worker, floor);
    } else {
      StepKeepsHeld(states[i], labels[i], id, token, worker, floor);
    }
  }

  /** The claim at `c` is intact in state `n`, with a heartbeat row at least as young as its last one. */
  ghost predicate ClaimIntact(states: seq<State>, labels: seq<Label>, c: nat, n: nat, id: JobId, slow: nat)
    requires c < n <= |labels| < |states| && ClaimsJob(labels[c], id) && id in states[c].t.jobs
  {
    Held(states[n], id, states[c].t.jobs[id].fence, labels[c].worker,
         states[LastBeat(labels, c, n, id, labels[c].worker)].now - slow)
  }

  lemma ClaimStartsIntact(states: seq<State>, labels: seq<Label>, c: nat, id: JobId, slow: nat)
    requires IsRun(states, labels) && c < |labels| && ClaimsJob(labels[c], id)
    ensures id in states[c].t.jobs && ClaimIntact(states, labels, c, c + 1, id, slow)
  {
  }

  lemma ClaimStaysIntact(states: seq<State>, labels: seq<Label>, c: nat, n: nat, id: JobId, slow: nat, quiet: nat)
    requires IsRun(states, labels) && c < n < |labels| && ClaimsJob(labels[c], id) && id in states[c].t.jobs
    requires ClaimIntact(states, labels, c, n, id, slow) && KeepsBeating(states, labels, c, n, id, slow, quiet)
    ensures ClaimIntact(states, labels, c, n + 1, id, slow)
  {
    var token, worker := states[c].t.jobs[id].fence, labels[c].worker;
    if labels[n].DoReconcile? {
      LastBeatIsRecent(states, labels, c, n, id, quiet);
    }
    RunKeepsHeld(states, labels, n, id, token, worker, states[LastBeat(labels, c, n, id, worker)].now - slow,
                 states[LastBeat(labels, c, n + 1, id, worker)].now - slow);
  }

  ghost predicate AlwaysBeating(states: seq<State>, labels: seq<Label>, c: nat, n: nat, id: JobId,
    slow: nat, quiet: nat)
    requires c < n <= |labels| < |states| && ClaimsJob(labels[c], id) && id in states[c].t.jobs
  {
    forall j | c < j < n :: KeepsBeating(states, labels, c, j, id, slow, quiet)
  }

  lemma BeatingAt(states: seq<State>, labels: seq<Label>, c: nat, n: nat, j: nat, id: JobId, slow: nat, quiet: nat)
    requires c < j < n <= |labels| < |states| && ClaimsJob(labels[c], id) && id in states[c].t.jobs
    requires AlwaysBeating(states, labels, c, n, id, slow, quiet)
    ensures KeepsBeating(states, labels, c, j, id, slow, quiet)
  {
  }

  /** Under those conditions, up to step `n`, no reconcile ever takes the claim: in every state `i` the
      job is still processing under the claim's token and worker, with a heartbeat row. */
  lemma {:induction false} BeatingClaimIsKept(states: seq<State>, labels: seq<Label>, c: nat, n: nat, i: nat, id: JobId,
                                              slow: nat, quiet: nat)
    requires IsRun(states, labels) && c < i <= n <= |labels| && ClaimsJob(labels[c], id) && id in states[c].t.jobs
    requires AlwaysBeating(states, labels, c, n, id, slow, quiet)
    ensures ClaimIntact(states, labels, c, i, id, slow)
    decreases i
  {
    if i == c + 1 {
      ClaimStartsIntact(states, labels, c, id, slow);
    } else {
      BeatingClaimIsKept(states, labels, c, n, i - 1, id, slow, quiet);
      BeatingAt(states, labels, c, n, i - 1, id, slow, quiet);
      ClaimStaysIntact(states, labels, c, i - 1, id, slow, quiet);
    }
  }

  // ----- whose heartbeat it is -----

  /** `k` is the claim under which the job is being processed in `s`. */
  ghost predicate ClaimedBy(states: seq<State>, labels: seq<Label>, k: int, s: State, id: JobId)
    requires ProcessingAt(s, id)
  {
    && 0 <= k < |labels| < |states|
    && ClaimsJob(labels[k], id) && s.t.jobs[id].worker == Some(labels[k].worker)
    && id in states[k].t.jobs && states[k].t.jobs[id].fence == s.t.jobs[id].fence
  }

  lemma StepKeepsWorker(s: State, l: Label, id: JobId)
    requires Inv(s) && Enabled(s, l) && ProcessingAt(Next(s, l), id)
    ensures if ProcessingAt(s, id) then
      Next(s, l).t.jobs[id].worker == s.t.jobs[id].worker && Next(s, l).t.jobs[id].fence == s.t.jobs[id].fence
            else ClaimsJob(l, id) && id in s.t.jobs && Next(s, l).t.jobs[id].worker == Some(l.worker)
                 && Next(s, l).t.jobs[id].fence == s.t.jobs[id].fence
  {
    if id in s.t.jobs {
      StepRow(s, l, id);
    } else {
      StepNewRow(s, l, id);
    }
  }

  lemma {:induction false} ProcessingHasClaim(states: seq<State>, labels: seq<Label>, i: nat, id: JobId)
    returns (k: nat)
    requires IsRun(states, labels) && i < |states| && ProcessingAt(states[i], id)
    ensures k < i && ClaimedBy(states, labels, k, states[i], id)
  {
    if i == 0 {
    } else {
      InvAlways(states, labels, i - 1);
      StepKeepsWorker(states[i - 1], labels[i - 1], id);
      if ProcessingAt(states[i - 1], id) {
        k := ProcessingHasClaim(states, labels, i - 1, id);
      } else {
        k := i - 1;
      }
    }
  }

  /** Every heartbeat row belongs to a job in processing and names the worker whose claim is current,
      although update_heartbeat reads and writes in two steps and rows are lost or deleted by others. */
  lemma HeartbeatNamesClaimer(states: seq<State>, labels: seq<Label>, i: nat, id: JobId) returns (k: nat)
    requires IsRun(states, labels) && i < |states| && id in states[i].t.heartbeats
    ensures k < i && ProcessingAt(states[i], id) && ClaimedBy(states, labels, k, states[i], id)
    ensures states[i].t.heartbeats[id].worker == labels[k].worker
  {
    InvAlways(states, labels, i);
    assert HeldBy(states[i].t, id, states[i].t.heartbeats[id].worker);
    k := ProcessingHasClaim(states, labels, i, id);
  }

  // ----- the stale release -----

  /** A superseded holder exists exactly for a job that has been claimed at least twice. */
  lemma SupersededHolder(s: State, id: JobId)
    requires Inv(s) && ProcessingAt(s, id)
    ensures s.t.jobs[id].attempts >= 2 <==>
      exists stale: nat :: stale != s.t.jobs[id].fence && Ticket(id, stale) in s.handed
  {
    assert Accounted(s.t.jobs[id]);
    if s.t.jobs[id].attempts >= 2 {
      assert Ticket(id, 0) in s.handed && 0 != s.t.jobs[id].fence;
    }
  }

  /** In `s` the job is processing under `fence` without a heartbeat row. */
  ghost predicate Orphaned(s: State, id: JobId, fence: nat) {
    ProcessingAt(s, id) && s.t.jobs[id].fence == fence && id !in s.t.heartbeats
  }

  /** No heartbeat brings an orphaned claim's row back, and a reconcile that does not skip it takes it. */
  lemma StepOrphaned(s: State, l: Label, id: JobId, fence: nat)
    requires Inv(s) && Enabled(s, l) && Orphaned(s, id, fence)
    ensures ProcessingAt(Next(s, l), id) ==> Orphaned(Next(s, l), id, fence)
    ensures l.DoReconcile? && id !in l.locked ==> !ProcessingAt(Next(s, l), id)
  {
    StepRow(s, l, id);
    if l.DoReconcile? {
      ReconcileRows(s.t, s.now, l.cfg, l.locked);
    }
  }

  /** Once orphaned at `i`, a claim stays so for as long as it lasts, whatever its owner beats. */
  lemma {:induction false} OrphanedForGood(states: seq<State>, labels: seq<Label>, i: nat, j: nat, id: JobId,
    fence: nat)
    requires IsRun(states, labels) && i <= j < |states| && Orphaned(states[i], id, fence)
    requires forall k | i <= k <= j :: ProcessingAt(states[k], id)
    ensures Orphaned(states[j], id, fence)
    decreases j
  {
    if i == j {
    } else {
      OrphanedForGood(states, labels, i, j - 1, id, fence);
      InvAlways(states, labels, j - 1);
      assert ProcessingAt(states[j - 1], id);
      StepOrphaned(states[j - 1], labels[j - 1], id, fence);
    }
  }

  /** "A claim that keeps beating is never taken" fails without the proviso on stale releases: after a
      superseded holder's release at `i`, the live owner's claim is without a heartbeat for as long as
      it lasts, however often it beats, and the first reconcile `j` that does not skip the row takes it,
      whatever its threshold. */
  lemma StaleReleaseTakesLiveJob(states: seq<State>, labels: seq<Label>, i: nat, j: nat, id: JobId)
    requires IsRun(states, labels) && i < j < |labels| && labels[i].DoRelease? && labels[i].job == id
    requires ProcessingAt(states[i], id) && forall k | i < k <= j :: ProcessingAt(states[k], id)
    requires labels[j].DoReconcile? && id !in labels[j].locked
    ensures labels[i].token != states[i].t.jobs[id].fence
    ensures forall k | i < k <= j :: Orphaned(states[k], id, states[i].t.jobs[id].fence)
    ensures !ProcessingAt(states[j + 1], id)
  {
    assert states[i + 1] == Next(states[i], labels[i]) && ProcessingAt(states[i + 1], id);
    var fence := states[i].t.jobs[id].fence;
    assert Orphaned(states[i + 1], id, fence);
    forall k | i < k <= j ensures Orphaned(states[k], id, fence) {
      OrphanedForGood(states, labels, i + 1, k, id, fence);
    }
    InvAlways(states, labels, j);
    StepOrphaned(states[j], labels[j], id, fence);
  }
}
