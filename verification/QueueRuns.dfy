/** What holds over whole runs of the queue, whatever the interleaving. */
module QueueRuns {
  import opened Basics
  import opened QueueTables
  import opened QueueProtocol

  /** `l`, taken in `s`, is a finalize_job of `id` that does not raise. */
  ghost predicate Commits(s: State, l: Label, id: JobId) {
    l.DoFinalize? && l.job == id && FenceMatches(s.t, id, l.token)
  }

  ghost predicate SameButCheckRun(a: Job, b: Job) {
    b == a.(checkRun := b.checkRun)
  }

  // ----- one step, one row -----

  /** Neither a claim nor a commit: the row is left alone, or its holder loses it, or it waited too long. */
  ghost predicate Displaced(job: Job, job': Job) {
    || SameButCheckRun(job, job')
    || (job.status == Processing && (job'.status == Pending || job'.status == Dead) && job'.attempts == job.attempts)
    || (job.status == Pending && job'.status == Dead && job'.attempts == job.attempts)
  }

  ghost predicate SameIdentity(job: Job, job': Job) {
    job'.sha == job.sha && job'.maxAttempts == job.maxAttempts && job'.createdAt == job.createdAt
  }

  lemma StepDisplaces(s: State, l: Label, id: JobId)
    requires Enabled(s, l) && id in s.t.jobs && !ClaimsJob(l, id) && !Commits(s, l, id)
    ensures id in Next(s, l).t.jobs
    ensures SameIdentity(s.t.jobs[id], Next(s, l).t.jobs[id])
    ensures Displaced(s.t.jobs[id], Next(s, l).t.jobs[id])
  {
    if l.DoReconcile? {
      ReconcileRows(s.t, s.now, l.cfg, l.locked);
    }
  }

  /** The whole life of a row, one step at a time. */
  lemma StepRow(s: State, l: Label, id: JobId)
    requires Inv(s) && Enabled(s, l) && id in s.t.jobs
    ensures id in Next(s, l).t.jobs
    ensures var job, job' := s.t.jobs[id], Next(s, l).t.jobs[id];
            && SameIdentity(job, job')
            && (ClaimsJob(l, id) ==> job.status == Pending && job'.status == Processing && job'.fence == job.fence)
            && (Commits(s, l, id) ==>
                  (job.status == Processing || job.status.Finalized()) &&
                    job'.status == l.verdict && job'.fence == job.fence
                  && job'.attempts == job.attempts && job'.result == ResultColumn(l.feedback))
            && (!ClaimsJob(l, id) && !Commits(s, l, id) ==> Displaced(job, job'))
  {
    if Commits(s, l, id) {
      MatchingTokenIsNewest(s, id, l.token);
    } else if !ClaimsJob(l, id) {
      StepDisplaces(s, l, id);
    }
  }

  /** A row that was not there is neither claimed nor finalized, and starts out unclaimed. */
  lemma StepNewRow(s: State, l: Label, id: JobId)
    requires Inv(s) && Enabled(s, l) && id !in s.t.jobs
    ensures !ClaimsJob(l, id) && !Commits(s, l, id)
    ensures id in Next(s, l).t.jobs ==> Next(s, l).t.jobs[id].status == Pending && Next(s, l).t.jobs[id].attempts == 0
  {
  }

  // ----- terminal statuses are absorbing -----

  /** A dead row never changes again, whichever way it died (the one-hour timeout bumps no fence),
      but for the check-run column, which no fence protects. */
  lemma {:induction false} DeadStaysDead(states: seq<State>, labels: seq<Label>, i: nat, j: nat, id: JobId)
    requires IsRun(states, labels) && i <= j < |states|
    requires id in states[i].t.jobs && states[i].t.jobs[id].status == Dead
    ensures id in states[j].t.jobs && SameButCheckRun(states[i].t.jobs[id], states[j].t.jobs[id])
    decreases j
  {
    if i == j {
    } else {
      DeadStaysDead(states, labels, i, j - 1, id);
      InvAlways(states, labels, j - 1);
      StepRow(states[j - 1], labels[j - 1], id);
    }
  }

  /** A finalized row stays finalized, under the same fence, and is never claimed again. */
  lemma {:induction false} FinalizedStaysFinalized(states: seq<State>, labels: seq<Label>, i: nat, j: nat, id: JobId)
    requires IsRun(states, labels) && i <= j < |states|
    requires id in states[i].t.jobs && states[i].t.jobs[id].status.Finalized()
    ensures id in states[j].t.jobs && states[j].t.jobs[id].status.Finalized()
    ensures states[j].t.jobs[id].fence == states[i].t.jobs[id].fence
    ensures states[j].t.jobs[id].attempts == states[i].t.jobs[id].attempts
    decreases j
  {
    if i == j {
    } else {
      FinalizedStaysFinalized(states, labels, i, j - 1, id);
      InvAlways(states, labels, j - 1);
      StepRow(states[j - 1], labels[j - 1], id);
    }
  }

  // ----- claims and their tokens -----

  /** The tokens that the first `n` steps handed out for `id`, in order. */
  ghost function ClaimTokens(states: seq<State>, labels: seq<Label>, n: nat, id: JobId): seq<nat>
    requires n <= |labels| < |states|
  {
    if n == 0 then []
    else ClaimTokens(states, labels, n - 1, id) +
         if ClaimsJob(labels[n - 1], id) && id in states[n - 1].t.jobs then [states[n - 1].t.jobs[id].fence] else []
  }

  ghost function Attempts(s: State, id: JobId): nat {
    if id in s.t.jobs then s.t.jobs[id].attempts else 0
  }

  /** The k-th claim of a job gets token k - 1, so no two claims share one; and a job is claimed at
      most `maxAttempts` times. */
  lemma TokensCountClaims(states: seq<State>, labels: seq<Label>, n: nat, id: JobId)
    requires IsRun(states, labels) && n <= |labels|
    ensures var tokens := ClaimTokens(states, labels, n, id);
            && (forall k | 0 <= k < |tokens| :: tokens[k] == k)
            && (if id in states[n].t.jobs
                then |tokens| == states[n].t.jobs[id].attempts <= states[n].t.jobs[id].maxAttempts
                else |tokens| == 0)
  {
    TokensAlwaysCount(states, labels, n, id);
    InvAlways(states, labels, n);
    assert id in states[n].t.jobs ==> Accounted(states[n].t.jobs[id]);
  }

  /** The tokens handed out so far are 0, 1, 2 and so on, one for each attempt. */
  ghost predicate TokensCount(states: seq<State>, labels: seq<Label>, n: nat, id: JobId)
    requires n <= |labels| < |states|
  {
    var tokens := ClaimTokens(states, labels, n, id);
    |tokens| == Attempts(states[n], id) && forall k | 0 <= k < |tokens| :: tokens[k] == k
  }

  lemma TokensCountOn(states: seq<State>, labels: seq<Label>, n: nat, id: JobId)
    requires n < |labels| < |states| && TokensCount(states, labels, n, id)
    requires Attempts(states[n + 1], id) == Attempts(states[n], id) + (if ClaimsJob(labels[n], id) then 1 else 0)
    requires ClaimsJob(labels[n], id) ==>
               id in states[n].t.jobs && states[n].t.jobs[id].fence == Attempts(states[n], id)
    ensures TokensCount(states, labels, n + 1, id)
  {
  }

  lemma NoTokensAtStart(states: seq<State>, labels: seq<Label>, id: JobId)
    requires |labels| < |states| && Init(states[0])
    ensures TokensCount(states, labels, 0, id)
  {
  }

  lemma RunKeepsCount(states: seq<State>, labels: seq<Label>, n: nat, n': nat, id: JobId)
    requires IsRun(states, labels) && n < |labels| && n' == n + 1 && TokensCount(states, labels, n, id)
    ensures TokensCount(states, labels, n', id)
  {
    RunCountsClaim(states, labels, n, id);
    TokensCountOn(states, labels, n, id);
  }

  lemma {:induction false} TokensAlwaysCount(states: seq<State>, labels: seq<Label>, n: nat, id: JobId)
    requires IsRun(states, labels) && n <= |labels|
    ensures TokensCount(states, labels, n, id)
  {
    if n == 0 {
      NoTokensAtStart(states, labels, id);
    } else {
      TokensAlwaysCount(states, labels, n - 1, id);
      RunKeepsCount(states, labels, n - 1, n, id);
    }
  }

  lemma RunCountsClaim(states: seq<State>, labels: seq<Label>, n: nat, id: JobId)
    requires IsRun(states, labels) && n < |labels|
    ensures Attempts(states[n + 1], id) == Attempts(states[n], id) + (if ClaimsJob(labels[n], id) then 1 else 0)
    ensures ClaimsJob(labels[n], id) ==>
              id in states[n].t.jobs && states[n].t.jobs[id].fence == Attempts(states[n], id)
  {
    InvAlways(states, labels, n);
    StepCountsClaim(states[n], labels[n], id);
  }

  lemma StepCountsClaim(s: State, l: Label, id: JobId)
    requires Inv(s) && Enabled(s, l)
    ensures var s' := Next(s, l);
            if id in s.t.jobs
            then id in s'.t.jobs &&
              s'.t.jobs[id].attempts == s.t.jobs[id].attempts + (if ClaimsJob(l, id) then 1 else 0)
                 && (ClaimsJob(l, id) ==> s.t.jobs[id].fence == s.t.jobs[id].attempts)
            else !ClaimsJob(l, id) && (id in s'.t.jobs ==> s'.t.jobs[id].attempts == 0)
  {
    if id in s.t.jobs {
      StepAttempts(s, l, id);
      assert Accounted(s.t.jobs[id]);
    } else {
      StepNewRow(s, l, id);
    }
  }

  /** Behind every ticket there is the claim that handed it out. */
  lemma {:induction false} TicketHasClaim(states: seq<State>, labels: seq<Label>, n: nat, id: JobId, token: nat)
    returns (k: nat)
    requires IsRun(states, labels) && n <= |labels| && Ticket(id, token) in states[n].handed
    ensures k < n && ClaimsJob(labels[k], id) && id in states[k].t.jobs && states[k].t.jobs[id].fence == token
  {
    k := n - 1;
    if Ticket(id, token) in states[n - 1].handed {
      k := TicketHasClaim(states, labels, n - 1, id, token);
    }
  }

  // ----- the fence -----

  /** All successful finalize_job calls on a job carry one token: the last one handed out. */
  lemma OneCommittingToken(states: seq<State>, labels: seq<Label>, i: nat, j: nat, id: JobId)
    requires IsRun(states, labels) && i < |labels| && j < |labels|
    requires Commits(states[i], labels[i], id) && Commits(states[j], labels[j], id)
    ensures labels[i].token == labels[j].token
  {
    if i > j {
      OneCommittingToken(states, labels, j, i, id);
    } else {
      InvAlways(states, labels, i);
      StepRow(states[i], labels[i], id);
      if i < j {
        FinalizedStaysFinalized(states, labels, i + 1, j, id);
      }
    }
  }

  /** No claim of a job follows a successful finalize_job of it. */
  lemma NoClaimAfterCommit(states: seq<State>, labels: seq<Label>, i: nat, k: nat, id: JobId)
    requires IsRun(states, labels) && i < |labels| && k < |labels|
    requires Commits(states[i], labels[i], id) && ClaimsJob(labels[k], id)
    ensures k < i
    ensures states[k].t.jobs[id].fence <= labels[i].token
  {
    InvAlways(states, labels, i);
    InvAlways(states, labels, k);
    StepRow(states[i], labels[i], id);
    StepRow(states[k], labels[k], id);
    if i < k {
      FinalizedStaysFinalized(states, labels, i + 1, k, id);
    }
    MatchingTokenIsNewest(states[i], id, labels[i].token);
    AttemptsGrow(states, labels, k + 1, i, id);
    StepAttempts(states[k], labels[k], id);
    assert Accounted(states[k].t.jobs[id]);
  }

  /** The committing token is the last one handed out: some claim before the commit got it, and at
      the end of the run no later token exists. */
  lemma CommitCarriesLastToken(states: seq<State>, labels: seq<Label>, i: nat, id: JobId) returns (k: nat)
    requires IsRun(states, labels) && i < |labels| && Commits(states[i], labels[i], id)
    ensures k < i && ClaimsJob(labels[k], id) && id in states[k].t.jobs && states[k].t.jobs[id].fence == labels[i].token
    ensures var tokens := ClaimTokens(states, labels, |labels|, id);
            |tokens| > 0 && tokens[|tokens| - 1] == labels[i].token
  {
    k := TicketHasClaim(states, labels, i, id, labels[i].token);
    InvAlways(states, labels, i);
    MatchingTokenIsNewest(states[i], id, labels[i].token);
    StepRow(states[i], labels[i], id);
    FinalizedStaysFinalized(states, labels, i + 1, |labels|, id);
    TokensCountClaims(states, labels, |labels|, id);
  }

  lemma {:induction false} AttemptsGrow(states: seq<State>, labels: seq<Label>, i: nat, j: nat, id: JobId)
    requires IsRun(states, labels) && i <= j < |states| && id in states[i].t.jobs
    ensures id in states[j].t.jobs && states[i].t.jobs[id].attempts <= states[j].t.jobs[id].attempts
    decreases j
  {
    if i == j {
    } else {
      AttemptsGrow(states, labels, i, j - 1, id);
      StepAttempts(states[j - 1], labels[j - 1], id);
    }
  }

  // ----- how long a job can take -----

  /** How many more status changes a row can see. */
  ghost function Remaining(job: Job): int {
    if job.status.Terminal() then 0
    else 2 * (job.maxAttempts - job.attempts) + (if job.status == Pending then 1 else 2)
  }

  /** Every status change of an unfinished row uses up at least one of them. */
  lemma StepSpends(s: State, l: Label, id: JobId)
    requires Inv(s) && Enabled(s, l) && id in s.t.jobs
    ensures var job, job' := s.t.jobs[id], Next(s, l).t.jobs[id];
            0 <= Remaining(job') <= Remaining(job) -
              (if !job.status.Terminal() && job'.status != job.status then 1 else 0)
  {
    StepInv(s, l);
    StepRow(s, l, id);
    StepAttempts(s, l, id);
    assert Accounted(s.t.jobs[id]) && Accounted(Next(s, l).t.jobs[id]);
  }

  /** Status changes of `id` in the first `n` steps, up to and including its first terminal one. */
  ghost function StatusChanges(states: seq<State>, n: nat, id: JobId): nat
    requires n < |states|
  {
    if n == 0 then 0
    else StatusChanges(states, n - 1, id) +
         if id in states[n - 1].t.jobs && id in states[n].t.jobs && !states[n - 1].t.jobs[id].status.Terminal()
            && states[n].t.jobs[id].status != states[n - 1].t.jobs[id].status then 1 else 0
  }

  lemma {:induction false} FewStatusChanges(states: seq<State>, labels: seq<Label>, n: nat, id: JobId)
    requires IsRun(states, labels) && n <= |labels|
    ensures if id in states[n].t.jobs
            then StatusChanges(states, n, id) + Remaining(states[n].t.jobs[id])
              <= 2 * states[n].t.jobs[id].maxAttempts + 1
                 && 0 <= Remaining(states[n].t.jobs[id])
            else StatusChanges(states, n, id) == 0
  {
    if n == 0 {
    } else {
      FewStatusChanges(states, labels, n - 1, id);
      InvAlways(states, labels, n - 1);
      if id in states[n - 1].t.jobs {
        StepRow(states[n - 1], labels[n - 1], id);
        StepSpends(states[n - 1], labels[n - 1], id);
      } else {
        StepNewRow(states[n - 1], labels[n - 1], id);
      }
    }
  }

  // ----- a job without attempts left -----

  /** The row waits with no attempt left, or is dead. */
  ghost predicate Exhausted(s: State, id: JobId) {
    && id in s.t.jobs && s.t.jobs[id].attempts == s.t.jobs[id].maxAttempts
    && (s.t.jobs[id].status == Pending || s.t.jobs[id].status == Dead)
  }

  lemma StepExhausted(s: State, l: Label, id: JobId)
    requires Inv(s) && Enabled(s, l) && Exhausted(s, id)
    ensures !ClaimsJob(l, id) && Exhausted(Next(s, l), id)
  {
    StepRow(s, l, id);
    StepAttempts(s, l, id);
  }

  /** A pending row with no attempt left is never claimed again, and can only become dead. */
  lemma {:induction false} ExhaustedForGood(states: seq<State>, labels: seq<Label>, i: nat, j: nat, id: JobId)
    requires IsRun(states, labels) && i <= j < |states| && Exhausted(states[i], id)
    ensures Exhausted(states[j], id)
    ensures forall k | i <= k < j :: !ClaimsJob(labels[k], id)
    decreases j
  {
    if i == j {
    } else {
      ExhaustedForGood(states, labels, i, j - 1, id);
      InvAlways(states, labels, j - 1);
      StepExhausted(states[j - 1], labels[j - 1], id);
    }
  }

  /** That is where release_job, which does not look at the attempts, leaves a job on its last one; a
      reconcile makes it dead. */
  lemma LastReleaseExhausts(t: Tables, now: int, cfg: Settings, id: JobId, token: nat, delay: nat)
    requires ReleaseMatches(t, id, token) && Accounted(t.jobs[id])
    ensures var released, taken := Release(t, now, id, token, delay).jobs[id], Requeued(t.jobs[id], now, cfg.backoff);
            && released.status == Pending && released.attempts == t.jobs[id].attempts
            && (released.attempts == released.maxAttempts <==> taken.status == Dead)
  {
  }

  // ----- a requeued job waits -----

  /** How long the step that took a job back makes it wait: the release's delay, or the reconcile's
      back-off, which grows linearly with the attempts. */
  ghost function Wait(l: Label, attempts: nat): nat {
    match l
    case DoRelease(_, _, delay) => delay
    case DoReconcile(cfg, _) => cfg.backoff * attempts
    case _ => 0
  }

  lemma StepRequeues(s: State, l: Label, id: JobId)
    requires Inv(s) && Enabled(s, l) && id in s.t.jobs && s.t.jobs[id].status == Processing
    requires id in Next(s, l).t.jobs && Next(s, l).t.jobs[id].status == Pending
    ensures Next(s, l).t.jobs[id].scheduledAt == s.now + Wait(l, s.t.jobs[id].attempts)
  {
    match l
    case DoReconcile(cfg, locked) => ReconcileRows(s.t, s.now, cfg, locked);
    case _ =>
  }

  /** A row that nobody may claim before `due`, in a state before `due`. */
  ghost predicate Shelved(s: State, id: JobId, due: int) {
    id in s.t.jobs && (s.t.jobs[id].status == Dead ||
      (s.t.jobs[id].status == Pending && s.t.jobs[id].scheduledAt == due))
  }

  lemma StepShelved(s: State, l: Label, id: JobId, due: int)
    requires Inv(s) && Enabled(s, l) && Shelved(s, id, due)
    ensures ClaimsJob(l, id) ==> s.now >= due
    ensures Shelved(Next(s, l), id, due) || Next(s, l).now >= due
    ensures Next(s, l).now >= s.now
  {
    StepRow(s, l, id);
  }

  lemma {:induction false} StaysShelved(states: seq<State>, labels: seq<Label>, i: nat, j: nat, id: JobId, due: int)
    requires IsRun(states, labels) && i <= j < |states| && Shelved(states[i], id, due)
    ensures Shelved(states[j], id, due) || states[j].now >= due
    decreases j
  {
    if i == j {
    } else {
      StaysShelved(states, labels, i, j - 1, id, due);
      InvAlways(states, labels, j - 1);
      if Shelved(states[j - 1], id, due) {
        StepShelved(states[j - 1], labels[j - 1], id, due);
      } else {
        assert Enabled(states[j - 1], labels[j - 1]);
      }
    }
  }

  /** A job taken back from its holder is not claimed again before its delay or back-off has passed. */
  lemma RequeuedJobWaits(states: seq<State>, labels: seq<Label>, i: nat, k: nat, id: JobId)
    requires IsRun(states, labels) && i < k < |labels| && ClaimsJob(labels[k], id)
    requires id in states[i].t.jobs && states[i].t.jobs[id].status == Processing
    requires id in states[i + 1].t.jobs && states[i + 1].t.jobs[id].status == Pending
    ensures states[k].now >= states[i].now + Wait(labels[i], states[i].t.jobs[id].attempts)
  {
    var due := states[i].now + Wait(labels[i], states[i].t.jobs[id].attempts);
    InvAlways(states, labels, i);
    StepRequeues(states[i], labels[i], id);
    StaysShelved(states, labels, i + 1, k, id, due);
    if Shelved(states[k], id, due) {
      InvAlways(states, labels, k);
      StepShelved(states[k], labels[k], id, due);
    }
  }

  // ----- the review records -----

  datatype Outcome = Outcome(verdict: Verdict, feedback: Option<Dict>)

  /** What the last successful finalize_job of `id` among the first `n` steps committed. */
  ghost function LastCommit(states: seq<State>, labels: seq<Label>, n: nat, id: JobId): Option<Outcome>
    requires n <= |labels| < |states|
  {
    if n == 0 then None
    else if Commits(states[n - 1], labels[n - 1], id) then Some(Outcome(labels[n - 1].verdict, labels[n - 1].feedback))
    else LastCommit(states, labels, n - 1, id)
  }

  ghost predicate FinalizedIn(s: State, id: JobId) {
    id in s.t.jobs && s.t.jobs[id].status.Finalized()
  }

  ghost predicate ShowsOutcome(s: State, id: JobId, outcome: Outcome) {
    && FinalizedIn(s, id)
    && s.t.jobs[id].status == outcome.verdict
    && s.t.jobs[id].result == (if outcome.feedback == Some(map[]) then None else outcome.feedback)
  }

  lemma StepResult(s: State, l: Label, id: JobId)
    requires Inv(s) && Enabled(s, l)
    ensures var s' := Next(s, l);
            if Commits(s, l, id) then ShowsOutcome(s', id, Outcome(l.verdict, l.feedback))
            else (FinalizedIn(s', id) <==> FinalizedIn(s, id))
                 && (FinalizedIn(s, id) ==> s'.t.jobs[id].result == s.t.jobs[id].result
                                            && s'.t.jobs[id].status == s.t.jobs[id].status)
  {
    if id in s.t.jobs {
      StepRow(s, l, id);
    } else {
      StepNewRow(s, l, id);
    }
  }

  /** A job is finalized exactly if somebody committed it, and shows the verdict and the result of the
      last commit. */
  lemma {:induction false} ResultIsLastCommit(states: seq<State>, labels: seq<Label>, n: nat, id: JobId)
    requires IsRun(states, labels) && n <= |labels|
    ensures var last := LastCommit(states, labels, n, id);
            && (last.Some? <==> FinalizedIn(states[n], id))
            && (last.Some? ==> ShowsOutcome(states[n], id, last.value))
  {
    if n == 0 {
    } else {
      ResultIsLastCommit(states, labels, n - 1, id);
      InvAlways(states, labels, n - 1);
      StepResult(states[n - 1], labels[n - 1], id);
    }
  }

  /** SUCCESS may turn into FAILURE and back: a step changes the status of a finalized job exactly if it
      is a further commit with another verdict than the last one; and that commit carries the very
      token of the earlier one at `k`, which alone is what lets it through. */
  lemma SecondFinalizeOverwrites(states: seq<State>, labels: seq<Label>, i: nat, id: JobId) returns (k: nat)
    requires IsRun(states, labels) && i < |labels| && FinalizedIn(states[i], id)
    ensures k < i && Commits(states[k], labels[k], id) && labels[k].verdict == states[i].t.jobs[id].status
    ensures id in states[i + 1].t.jobs
    ensures states[i + 1].t.jobs[id].status != states[i].t.jobs[id].status <==>
              && labels[i].DoFinalize? && labels[i].job == id
              && labels[i].token == labels[k].token && labels[i].verdict != labels[k].verdict
  {
    ResultIsLastCommit(states, labels, i, id);
    k := LastCommitAt(states, labels, i, id);
    InvAlways(states, labels, i);
    StepResult(states[i], labels[i], id);
    CommitSetsFence(states, labels, k, i, id);
  }

  lemma {:induction false} LastCommitAt(states: seq<State>, labels: seq<Label>, n: nat, id: JobId) returns (k: nat)
    requires n <= |labels| < |states| && LastCommit(states, labels, n, id).Some?
    ensures k < n && Commits(states[k], labels[k], id)
    ensures LastCommit(states, labels, n, id) == Some(Outcome(labels[k].verdict, labels[k].feedback))
  {
    if Commits(states[n - 1], labels[n - 1], id) {
      k := n - 1;
    } else {
      k := LastCommitAt(states, labels, n - 1, id);
    }
  }

  /** After a commit the fence keeps the committing token. */
  lemma CommitSetsFence(states: seq<State>, labels: seq<Label>, k: nat, i: nat, id: JobId)
    requires IsRun(states, labels) && k < i < |states| && Commits(states[k], labels[k], id)
    ensures id in states[i].t.jobs && states[i].t.jobs[id].fence == labels[k].token
  {
    InvAlways(states, labels, k);
    StepRow(states[k], labels[k], id);
    FinalizedStaysFinalized(states, labels, k + 1, i, id);
  }

  /** The records table is a function of the run's commits: one row for each job that somebody
      finalized, holding the last committed feedback, and nothing else. */
  lemma RecordsAreLastCommits(states: seq<State>, labels: seq<Label>, n: nat, id: JobId)
    requires IsRun(states, labels) && n <= |labels| && id in states[n].t.jobs
    ensures var t, last := states[n].t, LastCommit(states, labels, n, id);
            var sha := t.jobs[id].sha;
            && (sha in t.records <==> last.Some?)
            && (last.Some? ==>
                  t.records[sha] == Record(id, t.jobs[id].prNumber, t.jobs[id].repo,
                                           match last.value.feedback case None => map[] case Some(d) => d))
            && t.records.Keys == set other | other in t.jobs && t.jobs[other].status.Finalized() :: t.jobs[other].sha
  {
    var t := states[n].t;
    ResultIsLastCommit(states, labels, n, id);
    InvAlways(states, labels, n);
    assert Mirrored(t, id);
    forall sha ensures sha in t.records <==>
      exists other :: other in t.jobs && t.jobs[other].status.Finalized() && t.jobs[other].sha == sha {
      FinalizedHasRecord(t, sha);
    }
  }

  /** With mirrored records, the record check of enqueue_if_new is redundant for the tables. */
  lemma EnqueueAdds(t: Tables, newId: JobId, job: Job)
    requires RecordsMirrorJobs(t) && UniqueShas(t) && newId !in t.jobs
    ensures Enqueue(t, newId, job) == InsertJob(t, newId, job)
    ensures UniqueShas(Enqueue(t, newId, job))
    ensures Enqueue(t, newId, job) != t <==> forall id | id in t.jobs :: t.jobs[id].sha != job.sha
  {
    if job.sha in t.records {
      assert HasSha(t.jobs, job.sha);
    }
    if !HasSha(t.jobs, job.sha) {
      assert newId in InsertJob(t, newId, job).jobs;
    }
  }

  lemma FinalizedHasRecord(t: Tables, sha: Sha)
    requires RecordsMirrorJobs(t)
    ensures sha in t.records <==> exists id :: id in t.jobs && t.jobs[id].sha == sha && t.jobs[id].status.Finalized()
  {
    if sha in t.records {
      assert Mirrored(t, t.records[sha].jobId);
    }
    if id :| id in t.jobs && t.jobs[id].sha == sha && t.jobs[id].status.Finalized() {
      assert Mirrored(t, id);
    }
  }

  /** enqueue_if_new answers False exactly for finalized commits; it adds a row exactly when the
      commit has none (so an unfinished or dead commit is answered True with nothing added); and its
      look at the records never changes what the insert would have done. */
  lemma EnqueueAnswers(states: seq<State>, labels: seq<Label>, n: nat, newId: JobId, job: Job)
    requires IsRun(states, labels) && n <= |labels| && newId !in states[n].t.jobs
    ensures var t := states[n].t;
            && (!EnqueueReturns(t, job.sha) <==>
                  exists id :: id in t.jobs && t.jobs[id].sha == job.sha && LastCommit(states, labels, n, id).Some?)
            && (Enqueue(t, newId, job) != t <==> forall id | id in t.jobs :: t.jobs[id].sha != job.sha)
            && Enqueue(t, newId, job) == InsertJob(t, newId, job)
            && UniqueShas(Enqueue(t, newId, job))
  {
    var t := states[n].t;
    InvAlways(states, labels, n);
    EnqueueAdds(t, newId, job);
    forall id | id in t.jobs ensures LastCommit(states, labels, n, id).Some? <==> t.jobs[id].status.Finalized() {
      ResultIsLastCommit(states, labels, n, id);
    }
    FinalizedHasRecord(t, job.sha);
  }
}
