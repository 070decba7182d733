/** Several claim_job transactions in flight at once: each runs its statement, which locks the row it
    returns, and commits later; statements and commits interleave in any order. `at(w)` is the NOW() of
    the transaction of `w`. */
module ClaimContest {
  import opened Basics
  import opened QueueTables
  import opened QueueProtocol

  /** `waiting` claimers have yet to run their statement, `holding` ones have locked a row, `won` ones
      have committed it, and `missed` ones got no row. */
  datatype Contest = Contest(
    t: Tables,
    waiting: set<WorkerId>,
    holding: map<WorkerId, JobId>,
    won: map<WorkerId, JobId>,
    missed: set<WorkerId>)

  datatype Move = Take(w: WorkerId, id: JobId) | Miss(w: WorkerId) | Commit(w: WorkerId)

  ghost predicate Start(c: Contest, claimers: set<WorkerId>) {
    c.waiting == claimers && c.holding == map[] && c.won == map[] && c.missed == {}
  }

  /** Nothing is locked but the rows that other claimers hold. */
  ghost predicate Legal(c: Contest, at: WorkerId -> int, m: Move) {
    match m
    case Take(w, id) => w in c.waiting && FirstClaimable(c.t, at(w), c.holding.Values, id)
    case Miss(w) => w in c.waiting && forall id :: !Claimable(c.t, at(w), c.holding.Values, id)
    case Commit(w) => w in c.holding && c.holding[w] in c.t.jobs
  }

  ghost function Play(c: Contest, at: WorkerId -> int, m: Move): Contest
    requires Legal(c, at, m)
  {
    match m
    case Take(w, id) => c.(waiting := c.waiting - {w}, holding := c.holding[w := id])
    case Miss(w) => c.(waiting := c.waiting - {w}, missed := c.missed + {w})
    case Commit(w) =>
      c.(t := Claim(c.t, at(w), w, c.holding[w]), holding := c.holding - {w}, won := c.won[w := c.holding[w]])
  }

  ghost predicate IsContest(cs: seq<Contest>, at: WorkerId -> int, ms: seq<Move>, claimers: set<WorkerId>) {
    && |cs| == |ms| + 1
    && Start(cs[0], claimers)
    && forall i {:trigger ms[i]} | 0 <= i < |ms| :: Legal(cs[i], at, ms[i]) && cs[i + 1] == Play(cs[i], at, ms[i])
  }

  ghost function EligibleRows(t: Tables, now: int): set<JobId> {
    set id | id in t.jobs && Eligible(t.jobs[id], now)
  }

  /** Every row with a claimer, locked or committed. */
  ghost function Owned(c: Contest): map<WorkerId, JobId> {
    c.holding + c.won
  }

  ghost predicate Injective(m: map<WorkerId, JobId>) {
    forall v, w | v in m && w in m && m[v] == m[w] :: v == w
  }

  /** Seen from the start tables `t0`: each owned row was eligible at its claimer's instant, and no row
      left over that was eligible then comes before it; each has one claimer; and whoever missed left
      nothing over that was eligible at its own instant. */
  ghost predicate ContestInv(c: Contest, t0: Tables, at: WorkerId -> int, claimers: set<WorkerId>) {
    Books(c, t0, at, claimers) && Rows(c, t0, at)
  }

  ghost predicate Books(c: Contest, t0: Tables, at: WorkerId -> int, claimers: set<WorkerId>) {
    var owned := Owned(c);
    && c.holding.Keys !! c.won.Keys && c.waiting !! owned.Keys && c.missed !! owned.Keys && c.waiting !! c.missed
    && c.waiting + owned.Keys + c.missed == claimers
    && Injective(owned)
    && (forall w | w in owned :: owned[w] in EligibleRows(t0, at(w)))
    && (forall w | w in c.missed :: EligibleRows(t0, at(w)) <= owned.Values)
    && BestOwned(t0, at, owned, owned.Values)
  }

  /** Committed rows show their claim, and all others are as they were. */
  ghost predicate RowsOf(t: Tables, won: map<WorkerId, JobId>, t0: Tables, at: WorkerId -> int) {
    && t.jobs.Keys == t0.jobs.Keys
    && (forall id | id in t0.jobs && id !in won.Values :: t.jobs[id] == t0.jobs[id])
    && (forall w | w in won :: won[w] in t0.jobs && t.jobs[won[w]] == ClaimedRow(t0.jobs[won[w]], at(w), w))
  }

  ghost predicate Rows(c: Contest, t0: Tables, at: WorkerId -> int) {
    RowsOf(c.t, c.won, t0, at)
  }

  /** Of the rows eligible at `now` and not in `taken`, none comes before `id`. */
  ghost predicate BestFor(t0: Tables, now: int, id: JobId, taken: set<JobId>) {
    && id in t0.jobs
    && forall other | other in EligibleRows(t0, now) && other !in taken :: !Before(t0.jobs[other], t0.jobs[id])
  }

  ghost predicate BestOwned(t0: Tables, at: WorkerId -> int, owned: map<WorkerId, JobId>, taken: set<JobId>) {
    forall w | w in owned :: BestFor(t0, at(w), owned[w], taken)
  }

  lemma OwnedValues(c: Contest)
    requires c.holding.Keys !! c.won.Keys
    ensures Owned(c).Values == c.holding.Values + c.won.Values
  {
    assert forall w | w in c.holding :: Owned(c)[w] == c.holding[w];
    assert forall w | w in c.won :: Owned(c)[w] == c.won[w];
  }

  /** What is left for a claimer whose instant is `now`. */
  lemma ClaimableLeft(c: Contest, t0: Tables, at: WorkerId -> int, claimers: set<WorkerId>, now: int, id: JobId)
    requires ContestInv(c, t0, at, claimers)
    ensures Claimable(c.t, now, c.holding.Values, id) <==> id in EligibleRows(t0, now) - Owned(c).Values
    ensures Claimable(c.t, now, c.holding.Values, id) ==> c.t.jobs[id] == t0.jobs[id]
  {
    OwnedValues(c);
    if id in t0.jobs && id in c.won.Values {
      var w :| w in c.won && c.won[w] == id;
      assert c.t.jobs[id] == ClaimedRow(t0.jobs[id], at(w), w);
    }
  }

  lemma ValuesWith(m: map<WorkerId, JobId>, w: WorkerId, id: JobId)
    requires w !in m
    ensures m[w := id].Values == m.Values + {id}
  {
    assert m[w := id][w] == id;
    assert forall v | v in m :: m[w := id][v] == m[v];
  }

  lemma OwnedMore(c: Contest, w: WorkerId, id: JobId)
    requires w !in Owned(c)
    ensures Owned(c.(waiting := c.waiting - {w}, holding := c.holding[w := id])) == Owned(c)[w := id]
    ensures Owned(c)[w := id].Values == Owned(c).Values + {id}
  {
    assert c.holding[w := id] + c.won == (c.holding + c.won)[w := id];
    ValuesWith(Owned(c), w, id);
  }

  lemma TakeOwned(c: Contest, t0: Tables, at: WorkerId -> int, claimers: set<WorkerId>, w: WorkerId, id: JobId)
    requires ContestInv(c, t0, at, claimers) && Legal(c, at, Take(w, id))
    ensures w !in Owned(c) && id in EligibleRows(t0, at(w)) - Owned(c).Values
  {
    ClaimableLeft(c, t0, at, claimers, at(w), id);
  }

  /** The row taken is the first of those left over at the claimer's instant. */
  lemma TakeFirst(c: Contest, t0: Tables, at: WorkerId -> int, claimers: set<WorkerId>, w: WorkerId, id: JobId,
    other: JobId)
    requires ContestInv(c, t0, at, claimers) && FirstClaimable(c.t, at(w), c.holding.Values, id)
    requires other in EligibleRows(t0, at(w)) && other !in Owned(c).Values
    ensures id in t0.jobs && !Before(t0.jobs[other], t0.jobs[id])
  {
    ClaimableLeft(c, t0, at, claimers, at(w), id);
    ClaimableLeft(c, t0, at, claimers, at(w), other);
  }

  lemma TakeBest(c: Contest, t0: Tables, at: WorkerId -> int, claimers: set<WorkerId>, w: WorkerId, id: JobId)
    requires ContestInv(c, t0, at, claimers) && FirstClaimable(c.t, at(w), c.holding.Values, id)
    ensures BestFor(t0, at(w), id, Owned(c).Values)
  {
    ClaimableLeft(c, t0, at, claimers, at(w), id);
    forall other | other in EligibleRows(t0, at(w)) && other !in Owned(c).Values
      ensures !Before(t0.jobs[other], t0.jobs[id])
    {
      TakeFirst(c, t0, at, claimers, w, id, other);
    }
  }

  lemma BestOwnedMore(t0: Tables, at: WorkerId -> int, owned: map<WorkerId, JobId>, taken: set<JobId>,
    w: WorkerId, id: JobId)
    requires BestOwned(t0, at, owned, taken) && BestFor(t0, at(w), id, taken)
    ensures BestOwned(t0, at, owned[w := id], taken + {id})
  {
    var more := owned[w := id];
    forall v | v in more ensures BestFor(t0, at(v), more[v], taken + {id}) {
      assert BestFor(t0, at(v), more[v], taken);
    }
  }

  lemma TakeBooks(c: Contest, c': Contest, t0: Tables, at: WorkerId -> int, claimers: set<WorkerId>, w: WorkerId,
    id: JobId)
    requires Books(c, t0, at, claimers) && w in c.waiting && id in EligibleRows(t0, at(w)) - Owned(c).Values
    requires c' == c.(waiting := c.waiting - {w}, holding := c.holding[w := id])
    requires Owned(c') == Owned(c)[w := id] && Owned(c').Values == Owned(c).Values + {id} && w !in Owned(c)
    requires BestOwned(t0, at, Owned(c)[w := id], Owned(c).Values + {id})
    ensures Books(c', t0, at, claimers)
  {
  }

  lemma TakeInv(c: Contest, t0: Tables, at: WorkerId -> int, claimers: set<WorkerId>, w: WorkerId, id: JobId)
    requires ContestInv(c, t0, at, claimers) && Legal(c, at, Take(w, id))
    ensures ContestInv(Play(c, at, Take(w, id)), t0, at, claimers)
  {
    TakeOwned(c, t0, at, claimers, w, id);
    OwnedMore(c, w, id);
    TakeBest(c, t0, at, claimers, w, id);
    BestOwnedMore(t0, at, Owned(c), Owned(c).Values, w, id);
    TakeBooks(c, Play(c, at, Take(w, id)), t0, at, claimers, w, id);
  }

  lemma MissInv(c: Contest, t0: Tables, at: WorkerId -> int, claimers: set<WorkerId>, w: WorkerId)
    requires ContestInv(c, t0, at, claimers) && Legal(c, at, Miss(w))
    ensures ContestInv(Play(c, at, Miss(w)), t0, at, claimers)
  {
    forall id | id in EligibleRows(t0, at(w)) ensures id in Owned(c).Values {
      ClaimableLeft(c, t0, at, claimers, at(w), id);
    }
    assert Owned(Play(c, at, Miss(w))) == Owned(c);
  }

  /** The row that `w` has locked is nobody else's. */
  lemma HeldAlone(c: Contest, t0: Tables, at: WorkerId -> int, claimers: set<WorkerId>, w: WorkerId)
    requires Books(c, t0, at, claimers) && w in c.holding
    ensures c.holding[w] in t0.jobs && Eligible(t0.jobs[c.holding[w]], at(w))
    ensures c.holding[w] !in c.won.Values
    ensures (c.holding - {w}).Values == c.holding.Values - {c.holding[w]}
  {
    var owned, id := Owned(c), c.holding[w];
    assert owned[w] == id;
    forall v | v in c.won ensures c.won[v] != id {
      assert owned[v] == c.won[v] && v != w;
    }
    forall v | v in c.holding && v != w ensures c.holding[v] != id && (c.holding - {w})[v] == c.holding[v] {
      assert owned[v] == c.holding[v];
    }
  }

  lemma CommitRows(c: Contest, t0: Tables, at: WorkerId -> int, claimers: set<WorkerId>, w: WorkerId)
    requires ContestInv(c, t0, at, claimers) && Legal(c, at, Commit(w))
    ensures Rows(Play(c, at, Commit(w)), t0, at)
  {
    HeldAlone(c, t0, at, claimers, w);
    RowsMore(c.t, c.won, t0, at, w, c.holding[w]);
  }

  lemma RowsMore(t: Tables, won: map<WorkerId, JobId>, t0: Tables, at: WorkerId -> int, w: WorkerId, id: JobId)
    requires RowsOf(t, won, t0, at) && w !in won && id in t0.jobs && id !in won.Values
    ensures id in t.jobs && RowsOf(Claim(t, at(w), w, id), won[w := id], t0, at)
  {
    var t', won' := Claim(t, at(w), w, id), won[w := id];
    ValuesWith(won, w, id);
    assert t'.jobs == t.jobs[id := ClaimedRow(t0.jobs[id], at(w), w)];
    forall v | v in won' ensures won'[v] in t0.jobs && t'.jobs[won'[v]] == ClaimedRow(t0.jobs[won'[v]], at(v), v) {
      if v != w {
        assert won[v] in won.Values;
      }
    }
  }

  /** Books are about who owns what, not about whether it is committed. */
  lemma SameBooks(c: Contest, c': Contest, t0: Tables, at: WorkerId -> int, claimers: set<WorkerId>)
    requires Books(c, t0, at, claimers) && Owned(c') == Owned(c)
    requires c'.waiting == c.waiting && c'.missed == c.missed && c'.holding.Keys !! c'.won.Keys
    ensures Books(c', t0, at, claimers)
  {
  }

  lemma CommitMoves(holding: map<WorkerId, JobId>, won: map<WorkerId, JobId>, w: WorkerId)
    requires w in holding && holding.Keys !! won.Keys
    ensures (holding - {w}) + won[w := holding[w]] == holding + won
    ensures (holding - {w}).Keys !! won[w := holding[w]].Keys
  {
  }

  lemma CommitInv(c: Contest, t0: Tables, at: WorkerId -> int, claimers: set<WorkerId>, w: WorkerId)
    requires ContestInv(c, t0, at, claimers) && Legal(c, at, Commit(w))
    ensures ContestInv(Play(c, at, Commit(w)), t0, at, claimers)
  {
    CommitRows(c, t0, at, claimers, w);
    CommitMoves(c.holding, c.won, w);
    SameBooks(c, Play(c, at, Commit(w)), t0, at, claimers);
  }

  lemma {:induction false} ContestInvAlways(cs: seq<Contest>, at: WorkerId -> int, ms: seq<Move>,
    claimers: set<WorkerId>, i: nat)
    requires IsContest(cs, at, ms, claimers) && i < |cs|
    ensures ContestInv(cs[i], cs[0].t, at, claimers)
  {
    if i == 0 {
    } else {
      ContestInvAlways(cs, at, ms, claimers, i - 1);
      match ms[i - 1]
      case Take(w, id) => TakeInv(cs[i - 1], cs[0].t, at, claimers, w, id);
      case Miss(w) => MissInv(cs[i - 1], cs[0].t, at, claimers, w);
      case Commit(w) => CommitInv(cs[i - 1], cs[0].t, at, claimers, w);
    }
  }

  lemma {:induction false} InjectiveSize(m: map<WorkerId, JobId>)
    requires Injective(m)
    ensures |m.Values| == |m.Keys|
    decreases |m.Keys|
  {
    if w :| w in m.Keys {
      WithoutKey(m, w);
      InjectiveSize(m - {w});
    }
  }

  lemma WithoutKey(m: map<WorkerId, JobId>, w: WorkerId)
    requires Injective(m) && w in m
    ensures Injective(m - {w})
    ensures m.Keys == (m - {w}).Keys + {w} && w !in (m - {w}).Keys
    ensures m.Values == (m - {w}).Values + {m[w]} && m[w] !in (m - {w}).Values
  {
    var rest := m - {w};
    assert m == rest[w := m[w]];
    ValuesWith(rest, w, m[w]);
    forall v | v in rest ensures rest[v] != m[w] {
      assert rest[v] == m[v] && v != w;
    }
  }

  // ----- when every claimer is through -----

  ghost predicate Over(c: Contest) {
    c.waiting == {} && c.holding == map[]
  }

  /** Once every claimer is through: each row taken is processing under the one claimer that won it, and
      was eligible at that claimer's instant; every other row is as it was; and of those, none that the
      winner could have had has a higher priority than its own, or the same and an earlier creation, and
      none was eligible at the instant of a claimer that came away empty. */
  lemma ContestSettles(cs: seq<Contest>, at: WorkerId -> int, ms: seq<Move>, claimers: set<WorkerId>)
    requires IsContest(cs, at, ms, claimers) && Over(cs[|ms|])
    ensures var t0, end := cs[0].t, cs[|ms|];
            && Injective(end.won) && end.won.Keys + end.missed == claimers && end.won.Keys !! end.missed
            && end.t.jobs.Keys == t0.jobs.Keys
            && (forall w | w in end.won ::
                  && end.won[w] in EligibleRows(t0, at(w))
                  && end.t.jobs[end.won[w]] == ClaimedRow(t0.jobs[end.won[w]], at(w), w))
            && (forall id | id in t0.jobs && id !in end.won.Values :: end.t.jobs[id] == t0.jobs[id])
            && (forall w, other | w in end.won && other in EligibleRows(t0, at(w)) - end.won.Values ::
                  NoBetter(t0.jobs[other], t0.jobs[end.won[w]]))
            && (forall w | w in end.missed :: EligibleRows(t0, at(w)) <= end.won.Values)
  {
    ContestInvAlways(cs, at, ms, claimers, |ms|);
    assert Owned(cs[|ms|]) == cs[|ms|].won;
  }

  predicate NoBetter(left: Job, taken: Job) {
    left.priority <= taken.priority && (left.priority == taken.priority ==> left.createdAt >= taken.createdAt)
  }

  /** If all claimers see the same eligible rows, no job falling due between their instants, then k of
      them take exactly the best min(k, m) of those m rows. */
  lemma BestRowsTaken(cs: seq<Contest>, at: WorkerId -> int, ms: seq<Move>, claimers: set<WorkerId>, all: set<JobId>)
    requires IsContest(cs, at, ms, claimers) && Over(cs[|ms|])
    requires forall w | w in claimers :: EligibleRows(cs[0].t, at(w)) == all
    ensures var taken := cs[|ms|].won.Values;
            && taken <= all && taken <= cs[0].t.jobs.Keys
            && |taken| == (if |claimers| <= |all| then |claimers| else |all|)
            && (forall id, other | id in taken && other in all - taken ::
                  other in cs[0].t.jobs && NoBetter(cs[0].t.jobs[other], cs[0].t.jobs[id]))
  {
    var t0, end := cs[0].t, cs[|ms|];
    ContestSettles(cs, at, ms, claimers);
    forall id | id in end.won.Values
      ensures id in all && id in t0.jobs
      ensures forall other | other in all - end.won.Values :: other in t0.jobs && NoBetter(t0.jobs[other], t0.jobs[id])
    {
      var w :| w in end.won && end.won[w] == id;
      assert EligibleRows(t0, at(w)) == all;
    }
    TakenCount(end, claimers, all);
  }

  lemma TakenCount(end: Contest, claimers: set<WorkerId>, all: set<JobId>)
    requires Injective(end.won) && end.won.Keys + end.missed == claimers && end.won.Keys !! end.missed
    requires end.won.Values <= all
    requires forall w | w in end.missed :: all <= end.won.Values
    ensures |end.won.Values| == (if |claimers| <= |all| then |claimers| else |all|)
  {
    InjectiveSize(end.won);
    assert |claimers| == |end.won.Keys| + |end.missed|;
    Subsets(end.won.Values, all);
    if w :| w in end.missed {
      assert end.won.Values == all;
    }
  }

  lemma Subsets(a: set<JobId>, b: set<JobId>)
    requires a <= b
    ensures |a| <= |b|
  {
    assert b == a + (b - a);
  }

  // ----- a contest is claims of the queue -----

  /** Every commit and every miss of a contest is one claim transaction of the queue at the claimer's
      instant, which finds exactly the rows of the other claimers locked; taking a lock is no step. */
  lemma MoveIsClaim(c: Contest, t0: Tables, at: WorkerId -> int, claimers: set<WorkerId>, m: Move, s: State)
    requires ContestInv(c, t0, at, claimers) && Legal(c, at, m)
    requires s.t == c.t && s.now == at(m.w)
    ensures var c' := Play(c, at, m);
            match m
            case Take(_, _) => c'.t == c.t
            case Miss(w) =>
              Enabled(s, DoClaim(w, c.holding.Values, None)) && c'.t == c.t
            case Commit(w) =>
              var claim := DoClaim(w, (c.holding - {w}).Values, Some(c.holding[w]));
              Enabled(s, claim) && Next(s, claim).t == c'.t
  {
    if m.Commit? {
      CommitIsFirst(c, t0, at, claimers, m.w);
    }
  }

  /** The row that `w` locked is still a first claimable one when `w` commits, with the others' locked. */
  lemma CommitIsFirst(c: Contest, t0: Tables, at: WorkerId -> int, claimers: set<WorkerId>, w: WorkerId)
    requires ContestInv(c, t0, at, claimers) && Legal(c, at, Commit(w))
    ensures FirstClaimable(c.t, at(w), (c.holding - {w}).Values, c.holding[w])
  {
    var id := c.holding[w];
    HeldAlone(c, t0, at, claimers, w);
    OwnedValues(c);
    assert c.t.jobs[id] == t0.jobs[id];
    forall other | other in c.t.jobs && other != id && Claimable(c.t, at(w), (c.holding - {w}).Values, other)
      ensures !Before(c.t.jobs[other], c.t.jobs[id])
    {
      ClaimableLeft(c, t0, at, claimers, at(w), other);
      assert Owned(c)[w] == id;
    }
  }

  /** The claim of the queue behind a move, if it is a commit or a miss. */
  ghost function ClaimBehind(c: Contest, m: Move): seq<Label> {
    match m
    case Take(_, _) => []
    case Miss(w) => [DoClaim(w, c.holding.Values, None)]
    case Commit(w) => if w in c.holding then [DoClaim(w, (c.holding - {w}).Values, Some(c.holding[w]))] else []
  }

  ghost function Claims(cs: seq<Contest>, ms: seq<Move>, n: nat): seq<Label>
    requires n <= |ms| < |cs|
  {
    if n == 0 then [] else Claims(cs, ms, n - 1) + ClaimBehind(cs[n - 1], ms[n - 1])
  }

  lemma MoverIsClaimer(c: Contest, t0: Tables, at: WorkerId -> int, claimers: set<WorkerId>, m: Move)
    requires ContestInv(c, t0, at, claimers) && Legal(c, at, m)
    ensures m.w in claimers
  {
    if m.Commit? {
      assert m.w in Owned(c);
    }
  }

  lemma ClaimKeepsClock(s: State, l: Label)
    requires Enabled(s, l) && l.DoClaim?
    ensures Next(s, l).now == s.now && (l.got == None ==> Next(s, l) == s)
  {
  }

  lemma PathTakesMove(states: seq<State>, labels: seq<Label>, c: Contest, t0: Tables, at: WorkerId -> int,
    claimers: set<WorkerId>, m: Move) returns (states': seq<State>)
    requires IsPath(states, labels) && states[|labels|].t == c.t && states[|labels|].now == at(m.w)
    requires ContestInv(c, t0, at, claimers) && Legal(c, at, m)
    ensures IsPath(states', labels + ClaimBehind(c, m)) && states'[0] == states[0]
    ensures var last := states'[|states'| - 1];
            last.t == Play(c, at, m).t && last.now == states[|labels|].now
  {
    var last := states[|labels|];
    MoveIsClaim(c, t0, at, claimers, m, last);
    if m.Take? {
      states' := states;
      assert labels + [] == labels;
    } else {
      var claim := ClaimBehind(c, m)[0];
      PathGrows(states, labels, claim);
      ClaimKeepsClock(last, claim);
      states' := states + [Next(last, claim)];
    }
  }

  /** `states` is the stretch of queue run behind the first `n` moves, from `s`. */
  ghost predicate PathBehind(cs: seq<Contest>, ms: seq<Move>, n: nat, s: State, states: seq<State>)
    requires n <= |ms| < |cs|
  {
    && IsPath(states, Claims(cs, ms, n)) && states[0] == s
    && states[|states| - 1].t == cs[n].t && states[|states| - 1].now == s.now
  }

  lemma PathBehindGrows(cs: seq<Contest>, at: WorkerId -> int, ms: seq<Move>, claimers: set<WorkerId>, s: State,
    n: nat, n': nat, states: seq<State>) returns (states': seq<State>)
    requires IsContest(cs, at, ms, claimers) && n < |ms| && n' == n + 1 && forall w | w in claimers :: at(w) == s.now
    requires PathBehind(cs, ms, n, s, states)
    ensures PathBehind(cs, ms, n', s, states')
  {
    ContestInvAlways(cs, at, ms, claimers, n);
    MoverIsClaimer(cs[n], cs[0].t, at, claimers, ms[n]);
    states' := PathTakesMove(states, Claims(cs, ms, n), cs[n], cs[0].t, at, claimers, ms[n]);
  }

  /** A contest whose claimers share one instant is a stretch of a queue run, of claims alone, that starts
      from any state with the same tables at that instant and ends with the tables of the contest. */
  lemma {:induction false} ContestIsPath(cs: seq<Contest>, at: WorkerId -> int, ms: seq<Move>,
    claimers: set<WorkerId>, s: State, n: nat) returns (states: seq<State>)
    requires IsContest(cs, at, ms, claimers) && n <= |ms|
    requires s.t == cs[0].t && forall w | w in claimers :: at(w) == s.now
    ensures PathBehind(cs, ms, n, s, states)
  {
    if n == 0 {
      states := [s];
    } else {
      states := ContestIsPath(cs, at, ms, claimers, s, n - 1);
      states := PathBehindGrows(cs, at, ms, claimers, s, n - 1, n, states);
    }
  }
}
