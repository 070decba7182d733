/** Sorting and greedy selection over any ranking: what the inline-comment filter needs of them. */
module Ranking {

  /** `less` ranks elements, possibly with ties: both it and its negation are transitive. */
  ghost predicate IsRanking<T(!new)>(less: (T, T) -> bool) {
    && (forall x :: !less(x, x))
    && (forall x, y | less(x, y) :: !less(y, x))
    && (forall x, y, z | !less(x, y) && !less(y, z) :: !less(x, z))
  }

  ghost predicate Descending<T>(less: (T, T) -> bool, s: seq<T>) {
    forall i, j | 0 <= i < j < |s| :: !less(s[i], s[j])
  }

  // ----- list.sort(key=..., reverse=True): descending and stable -----

  function Insert<T>(less: (T, T) -> bool, x: T, sorted: seq<T>): (r: seq<T>)
    ensures multiset(r) == multiset(sorted) + multiset{x}
  {
    if sorted == [] || !less(x, sorted[0]) then [x] + sorted
    else
      assert sorted == [sorted[0]] + sorted[1..];
      [sorted[0]] + Insert(less, x, sorted[1..])
  }

  function Sort<T>(less: (T, T) -> bool, s: seq<T>): (r: seq<T>)
    ensures multiset(r) == multiset(s)
  {
    if s == [] then []
    else
      assert s == [s[0]] + s[1..];
      Insert(less, s[0], Sort(less, s[1..]))
  }

  lemma {:induction false} InsertDescends<T(!new)>(less: (T, T) -> bool, x: T, sorted: seq<T>)
    requires IsRanking(less) && Descending(less, sorted)
    ensures Descending(less, Insert(less, x, sorted))
  {
    if sorted != [] && less(x, sorted[0]) {
      InsertDescends(less, x, sorted[1..]);
      var rest := Insert(less, x, sorted[1..]);
      forall j | 0 <= j < |rest| ensures !less(sorted[0], rest[j]) {
        assert rest[j] in multiset(sorted[1..]) + multiset{x};
      }
    }
  }

  lemma {:induction false} SortDescends<T(!new)>(less: (T, T) -> bool, s: seq<T>)
    requires IsRanking(less)
    ensures Descending(less, Sort(less, s))
  {
    if s == [] {
    } else {
      SortDescends(less, s[1..]);
      InsertDescends(less, s[0], Sort(less, s[1..]));
    }
  }

  /** The elements of `s` that tie with `x`, in order. */
  ghost function Ties<T>(less: (T, T) -> bool, s: seq<T>, x: T): seq<T> {
    if s == [] then []
    else (if !less(s[0], x) && !less(x, s[0]) then [s[0]] else []) + Ties(less, s[1..], x)
  }

  lemma {:induction false} InsertStable<T(!new)>(less: (T, T) -> bool, y: T, sorted: seq<T>, x: T)
    requires IsRanking(less) && Descending(less, sorted)
    ensures Ties(less, Insert(less, y, sorted), x) == Ties(less, [y], x) + Ties(less, sorted, x)
  {
    var r := Insert(less, y, sorted);
    if sorted == [] || !less(y, sorted[0]) {
      assert r[0] == y && r[1..] == sorted;
    } else {
      assert r[0] == sorted[0] && r[1..] == Insert(less, y, sorted[1..]);
      InsertStable(less, y, sorted[1..], x);
    }
  }

  lemma TiesHead<T>(less: (T, T) -> bool, y: T, s: seq<T>, x: T)
    ensures Ties(less, [y] + s, x) == Ties(less, [y], x) + Ties(less, s, x)
  {
    assert ([y] + s)[1..] == s;
  }

  lemma TiesOfSort<T>(less: (T, T) -> bool, s: seq<T>, x: T)
    requires s != []
    requires Ties(less, Sort(less, s), x) == Ties(less, [s[0]], x) + Ties(less, Sort(less, s[1..]), x)
    requires Ties(less, Sort(less, s[1..]), x) == Ties(less, s[1..], x)
    ensures Ties(less, Sort(less, s), x) == Ties(less, s, x)
  {
    TiesHead(less, s[0], s[1..], x);
    assert s == [s[0]] + s[1..];
  }

  /** Elements that tie keep their order. */
  lemma {:induction false} SortStable<T(!new)>(less: (T, T) -> bool, s: seq<T>, x: T)
    requires IsRanking(less)
    ensures Ties(less, Sort(less, s), x) == Ties(less, s, x)
  {
    if s == [] {
    } else {
      SortStable(less, s[1..], x);
      SortDescends(less, s[1..]);
      InsertStable(less, s[0], Sort(less, s[1..]), x);
      TiesOfSort(less, s, x);
    }
  }

  // ----- greedy selection under a cap -----

  predicate Crowded<T>(close: (T, T) -> bool, chosen: seq<T>, x: T) {
    exists i | 0 <= i < |chosen| :: close(chosen[i], x)
  }

  /** What a greedy scan of `rest` ends up with once it has `chosen`. */
  function Pick<T>(close: (T, T) -> bool, rest: seq<T>, chosen: seq<T>, cap: int): seq<T> {
    if rest == [] then chosen
    else
      var chosen' := if Crowded(close, chosen, rest[0]) then chosen else chosen + [rest[0]];
      if |chosen'| >= cap then chosen' else Pick(close, rest[1..], chosen', cap)
  }

  ghost predicate Spread<T>(close: (T, T) -> bool, s: seq<T>) {
    forall i, j | 0 <= i < j < |s| :: !close(s[i], s[j])
  }

  /** `x` has a close neighbour in `selected` ranked at least as high. */
  ghost predicate Covered<T>(less: (T, T) -> bool, close: (T, T) -> bool, x: T, selected: seq<T>) {
    exists i | 0 <= i < |selected| :: close(selected[i], x) && !less(selected[i], x)
  }

  ghost predicate AllAtLeast<T>(less: (T, T) -> bool, s: seq<T>, x: T) {
    forall i | 0 <= i < |s| :: !less(s[i], x)
  }

  /** `x` has such a neighbour, or the cap was filled by elements ranked at least as high. */
  ghost predicate Justified<T>(less: (T, T) -> bool, close: (T, T) -> bool, x: T, selected: seq<T>, cap: int) {
    Covered(less, close, x, selected) || (|selected| >= cap && AllAtLeast(less, selected, x))
  }

  lemma {:induction false} PickJustified<T(!new)>(less: (T, T) -> bool, close: (T, T) -> bool,
    rest: seq<T>, chosen: seq<T>, cap: int)
    requires IsRanking(less) && Descending(less, rest) && forall x :: close(x, x)
    requires forall i | 0 <= i < |rest| :: AllAtLeast(less, chosen, rest[i])
    requires chosen == [] || |chosen| < cap
    ensures var selected := Pick(close, rest, chosen, cap);
            && chosen <= selected
            && forall i | 0 <= i < |rest| :: Justified(less, close, rest[i], selected, cap)
  {
    if rest == [] {
    } else {
      var x := rest[0];
      var chosen' := if Crowded(close, chosen, x) then chosen else chosen + [x];
      assert AllAtLeast(less, chosen, x);
      assert Covered(less, close, x, chosen') by {
        if !Crowded(close, chosen, x) {
          assert chosen'[|chosen|] == x;
        }
      }
      assert forall i | 0 <= i < |rest| :: AllAtLeast(less, chosen', rest[i]);
      if |chosen'| < cap {
        PickJustified(less, close, rest[1..], chosen', cap);
        CoveredStays(less, close, x, chosen', Pick(close, rest, chosen, cap));
        assert forall i | 0 < i < |rest| :: rest[i] == rest[1..][i - 1];
      }
    }
  }

  lemma CoveredStays<T>(less: (T, T) -> bool, close: (T, T) -> bool, x: T, chosen: seq<T>, selected: seq<T>)
    requires Covered(less, close, x, chosen) && chosen <= selected
    ensures Covered(less, close, x, selected)
  {
    var i :| 0 <= i < |chosen| && close(chosen[i], x) && !less(chosen[i], x);
    assert selected[i] == chosen[i];
  }

  /** What is picked keeps the order of the list. */
  lemma {:induction false} PickDescends<T>(less: (T, T) -> bool, close: (T, T) -> bool,
    rest: seq<T>, chosen: seq<T>, cap: int)
    requires Descending(less, chosen) && Descending(less, rest)
    requires forall i | 0 <= i < |rest| :: AllAtLeast(less, chosen, rest[i])
    ensures Descending(less, Pick(close, rest, chosen, cap))
  {
    if rest == [] {
    } else {
      var chosen' := if Crowded(close, chosen, rest[0]) then chosen else chosen + [rest[0]];
      assert AllAtLeast(less, chosen, rest[0]);
      if |chosen'| < cap {
        forall i | 0 <= i < |rest[1..]| ensures AllAtLeast(less, chosen', rest[1..][i]) {
          assert rest[1..][i] == rest[i + 1] && AllAtLeast(less, chosen, rest[i + 1]);
        }
        PickDescends(less, close, rest[1..], chosen', cap);
      }
    }
  }

  lemma {:induction false} PickSpread<T>(close: (T, T) -> bool, rest: seq<T>, chosen: seq<T>, cap: int)
    requires Spread(close, chosen)
    requires chosen == [] || |chosen| < cap
    ensures var selected := Pick(close, rest, chosen, cap);
            && Spread(close, selected)
            && (forall x | x in selected :: x in chosen || x in rest)
            && |selected| <= (if cap < 1 then 1 else cap)
            && (selected == [] <==> chosen == [] && rest == [])
  {
    if rest == [] {
    } else {
      var chosen' := if Crowded(close, chosen, rest[0]) then chosen else chosen + [rest[0]];
      if |chosen'| < cap {
        PickSpread(close, rest[1..], chosen', cap);
      }
    }
  }
}
