/** ReviewWorker._select_inline_comments: rank the findings, then keep greedily, at most `cap` of them
    and never two within five lines of one file. */
module InlineComments {
  import opened Basics
  import opened Ranking

  const PROXIMITY := 5

  datatype Comment = Comment(path: string, line: int, body: string, severity: string, suggestedFix: Option<string>)

  function Rank(severity: string, default: int): int {
    match severity
    case "INFO" => 0
    case "WARNING" => 1
    case "CRITICAL" => 2
    case _ => default
  }

  /** What Python's `strip` removes. */
  predicate IsSpace(c: char) {
    var n := c as int;
    || 0x09 <= n <= 0x0D || 0x1C <= n <= 0x20 || n == 0x85 || n == 0xA0 || n == 0x1680
    || 0x2000 <= n <= 0x200A || n == 0x2028 || n == 0x2029 || n == 0x202F || n == 0x205F || n == 0x3000
  }

  predicate HasFix(c: Comment) {
    c.suggestedFix.Some? && exists i | 0 <= i < |c.suggestedFix.value| :: !IsSpace(c.suggestedFix.value[i])
  }

  /** The sort key: severity, then a fix to offer, then brevity. */
  datatype Key = Key(rank: int, fix: int, brevity: int) {
    predicate Below(other: Key) {
      || rank < other.rank
      || (rank == other.rank && fix < other.fix)
      || (rank == other.rank && fix == other.fix && brevity < other.brevity)
    }
  }

  function KeyOf(c: Comment): Key {
    Key(Rank(c.severity, 0), if HasFix(c) then 1 else 0, -|c.body|)
  }

  predicate Less(a: Comment, b: Comment) {
    KeyOf(a).Below(KeyOf(b))
  }

  /** Two comments on one file, at most five lines apart. */
  predicate Close(a: Comment, b: Comment) {
    a.path == b.path && -PROXIMITY <= a.line - b.line <= PROXIMITY
  }

  predicate Candidate(c: Comment, minSeverity: string) {
    Rank(c.severity, 0) >= Rank(minSeverity, 1)
  }

  function Candidates(comments: seq<Comment>, minSeverity: string): (r: seq<Comment>)
    ensures forall c :: c in r <==> c in comments && Candidate(c, minSeverity)
  {
    if comments == [] then []
    else (if Candidate(comments[0], minSeverity) then [comments[0]] else []) + Candidates(comments[1..], minSeverity)
  }

  lemma LessIsRanking()
    ensures IsRanking(Less)
  {
    forall x, y, z: Comment | !Less(x, y) && !Less(y, z) ensures !Less(x, z) {
      KeysRank(KeyOf(x), KeyOf(y), KeyOf(z));
    }
  }

  lemma KeysRank(x: Key, y: Key, z: Key)
    requires !x.Below(y) && !y.Below(z)
    ensures !x.Below(z)
  {
  }

  function Selection(comments: seq<Comment>, minSeverity: string, cap: int): seq<Comment> {
    Pick(Close, Sort(Less, Candidates(comments, minSeverity)), [], cap)
  }

  /** Selected comments on one file are more than five lines apart; every candidate left out is within
      five lines of a selected one ranked at least as high, or the cap is filled by comments ranked at
      least as high; no more than the cap are selected, except that a cap of zero selects one as soon as
      there is a candidate (and a negative cap, which nothing can keep to, does the same). */
  lemma SelectionDominates(comments: seq<Comment>, minSeverity: string, cap: int)
    ensures var selected := Selection(comments, minSeverity, cap);
            && Spread(Close, selected)
            && (forall s | s in selected :: s in comments && Candidate(s, minSeverity))
            && (forall c | c in comments && Candidate(c, minSeverity) :: Justified(Less, Close, c, selected, cap))
            && |selected| <= (if cap < 1 then 1 else cap)
            && (cap >= 0 ==>
                  (|selected| > cap <==> cap == 0 && exists c | c in comments :: Candidate(c, minSeverity)))
            && (selected == [] <==> forall c | c in comments :: !Candidate(c, minSeverity))
  {
    var candidates := Candidates(comments, minSeverity);
    var sorted := Sort(Less, candidates);
    LessIsRanking();
    SortDescends(Less, candidates);
    PickJustified(Less, Close, sorted, [], cap);
    PickSpread(Close, sorted, [], cap);
    SameElements(sorted, candidates);
    assert candidates == [] <==> forall c | c in comments :: !Candidate(c, minSeverity) by {
      if candidates != [] {
        assert candidates[0] in candidates;
      }
    }
  }

  lemma SameElements(a: seq<Comment>, b: seq<Comment>)
    requires multiset(a) == multiset(b)
    ensures forall c :: c in a <==> c in b
    ensures a == [] <==> b == []
  {
    assert forall c :: c in a <==> c in multiset(a);
    assert |multiset(a)| == |a| && |multiset(b)| == |b|;
  }

  /** A CRITICAL finding with no selected neighbour is only ever dropped in favour of CRITICAL ones. */
  lemma CriticalsComeFirst(comments: seq<Comment>, minSeverity: string, cap: int, c: Comment, s: Comment)
    requires c in comments && c.severity == "CRITICAL"
    requires s in Selection(comments, minSeverity, cap)
    requires forall other | other in Selection(comments, minSeverity, cap) :: !Close(other, c)
    ensures s.severity == "CRITICAL" && |Selection(comments, minSeverity, cap)| >= cap
  {
    SelectionDominates(comments, minSeverity, cap);
    var selected := Selection(comments, minSeverity, cap);
    assert Justified(Less, Close, c, selected, cap);
    var i :| 0 <= i < |selected| && selected[i] == s;
    assert !Less(selected[i], c);
  }

  // ----- the same in the fields of the comments -----

  /** CRITICAL over WARNING over all else. */
  predicate MoreSevere(a: string, b: string) {
    (a == "CRITICAL" && b != "CRITICAL") || (a == "WARNING" && b != "CRITICAL" && b != "WARNING")
  }

  /** The fix is there, and not only white space. */
  predicate OffersFix(c: Comment) {
    c.suggestedFix.Some? && exists i | 0 <= i < |c.suggestedFix.value| :: c.suggestedFix.value[i] !in WHITE_SPACE
  }

  const WHITE_SPACE: string :=
    " \t\n\r\U{0B}\U{0C}\U{1C}\U{1D}\U{1E}\U{1F}\U{85}\U{A0}\U{1680}\U{2000}\U{2001}\U{2002}\U{2003}\U{2004}"
    + "\U{2005}\U{2006}\U{2007}\U{2008}\U{2009}\U{200A}\U{2028}\U{2029}\U{202F}\U{205F}\U{3000}"

  lemma WhiteSpaceIsSpace(c: char)
    ensures IsSpace(c) <==> c in WHITE_SPACE
  {
  }

  /** `a` goes before `b`: it is more severe; or as severe, with a fix to offer where `b` has none; or equal
      in both, and no longer. */
  predicate NotBehind(a: Comment, b: Comment) {
    || MoreSevere(a.severity, b.severity)
    || (!MoreSevere(b.severity, a.severity) && OffersFix(a) && !OffersFix(b))
    || (!MoreSevere(b.severity, a.severity) && OffersFix(a) == OffersFix(b) && |a.body| <= |b.body|)
  }

  lemma NotBehindIsRank(a: Comment, b: Comment)
    ensures NotBehind(a, b) <==> !Less(a, b)
  {
    forall c: char ensures IsSpace(c) <==> c in WHITE_SPACE {
      WhiteSpaceIsSpace(c);
    }
  }

  /** A comment is considered from the configured severity up; an unknown setting counts as WARNING. */
  predicate Considered(c: Comment, minSeverity: string) {
    if minSeverity == "INFO" then true
    else if minSeverity == "CRITICAL" then c.severity == "CRITICAL"
    else c.severity == "CRITICAL" || c.severity == "WARNING"
  }

  lemma ConsideredIsCandidate(c: Comment, minSeverity: string)
    ensures Considered(c, minSeverity) <==> Candidate(c, minSeverity)
  {
  }

  predicate Near(a: Comment, b: Comment) {
    a.path == b.path && -5 <= a.line - b.line <= 5
  }

  /** Of two selected comments on one file the lines differ by six or more, and the earlier one is not
      behind the later; every considered comment that is not selected has a selected one near it that is
      not behind it, or the cap is filled by such. */
  lemma SelectionInFields(comments: seq<Comment>, minSeverity: string, cap: int)
    ensures var selected := Selection(comments, minSeverity, cap);
            && (forall i, j | 0 <= i < j < |selected| && selected[i].path == selected[j].path ::
                  selected[i].line - selected[j].line >= 6 || selected[j].line - selected[i].line >= 6)
            && (forall i, j | 0 <= i < j < |selected| :: NotBehind(selected[i], selected[j]))
            && (forall i | 0 <= i < |selected| :: selected[i] in comments && Considered(selected[i], minSeverity))
            && (forall c | c in comments && Considered(c, minSeverity) && c !in selected ::
                  || (exists i | 0 <= i < |selected| :: Near(selected[i], c) && NotBehind(selected[i], c))
                  || (|selected| >= cap && forall i | 0 <= i < |selected| :: NotBehind(selected[i], c)))
  {
    var selected := Selection(comments, minSeverity, cap);
    SelectionDominates(comments, minSeverity, cap);
    SelectionDescends(comments, minSeverity, cap);
    forall i, j | 0 <= i < j < |selected| ensures NotBehind(selected[i], selected[j]) {
      NotBehindIsRank(selected[i], selected[j]);
    }
    forall i | 0 <= i < |selected| ensures selected[i] in comments && Considered(selected[i], minSeverity) {
      ConsideredIsCandidate(selected[i], minSeverity);
    }
    forall c | c in comments && Considered(c, minSeverity) && c !in selected
      ensures || (exists i | 0 <= i < |selected| :: Near(selected[i], c) && NotBehind(selected[i], c))
              || (|selected| >= cap && forall i | 0 <= i < |selected| :: NotBehind(selected[i], c))
    {
      LeftOut(comments, minSeverity, cap, c);
    }
  }

  lemma LeftOut(comments: seq<Comment>, minSeverity: string, cap: int, c: Comment)
    requires c in comments && Considered(c, minSeverity)
    ensures var selected := Selection(comments, minSeverity, cap);
            || (exists i | 0 <= i < |selected| :: Near(selected[i], c) && NotBehind(selected[i], c))
            || (|selected| >= cap && forall i | 0 <= i < |selected| :: NotBehind(selected[i], c))
  {
    var selected := Selection(comments, minSeverity, cap);
    SelectionDominates(comments, minSeverity, cap);
    ConsideredIsCandidate(c, minSeverity);
    assert Justified(Less, Close, c, selected, cap);
    forall i | 0 <= i < |selected| ensures NotBehind(selected[i], c) <==> !Less(selected[i], c) {
      NotBehindIsRank(selected[i], c);
    }
    if Covered(Less, Close, c, selected) {
      var i :| 0 <= i < |selected| && Close(selected[i], c) && !Less(selected[i], c);
      assert Near(selected[i], c);
    }
  }

  /** The considered comments that rank with `x`, in the order in which the review lists them. */
  function Alike(comments: seq<Comment>, minSeverity: string, x: Comment): seq<Comment> {
    if comments == [] then []
    else
      (if Considered(comments[0], minSeverity) && NotBehind(comments[0], x) && NotBehind(x, comments[0])
       then [comments[0]] else [])
      + Alike(comments[1..], minSeverity, x)
  }

  /** Comments that rank alike come up in that order. */
  lemma TiesInInputOrder(comments: seq<Comment>, minSeverity: string, x: Comment)
    ensures Ties(Less, Sort(Less, Candidates(comments, minSeverity)), x) == Alike(comments, minSeverity, x)
  {
    LessIsRanking();
    SortStable(Less, Candidates(comments, minSeverity), x);
    TiesOfCandidates(comments, minSeverity, x);
  }

  lemma TiesAlone(c: Comment, x: Comment)
    ensures Ties(Less, [c], x) == if !Less(c, x) && !Less(x, c) then [c] else []
  {
    assert [c][1..] == [] && Ties(Less, [], x) == [];
  }

  lemma {:induction false} TiesOfCandidates(comments: seq<Comment>, minSeverity: string, x: Comment)
    ensures Ties(Less, Candidates(comments, minSeverity), x) == Alike(comments, minSeverity, x)
  {
    if comments == [] {
    } else {
      var c, rest := comments[0], comments[1..];
      ConsideredIsCandidate(c, minSeverity);
      NotBehindIsRank(c, x);
      NotBehindIsRank(x, c);
      TiesOfCandidates(rest, minSeverity, x);
      TiesHead(Less, c, Candidates(rest, minSeverity), x);
      TiesAlone(c, x);
      assert Candidates(comments, minSeverity)
          == (if Candidate(c, minSeverity) then [c] else []) + Candidates(rest, minSeverity);
      if !Candidate(c, minSeverity) {
        assert Candidates(comments, minSeverity) == Candidates(rest, minSeverity);
      }
    }
  }

  lemma SelectionDescends(comments: seq<Comment>, minSeverity: string, cap: int)
    ensures Descending(Less, Selection(comments, minSeverity, cap))
  {
    LessIsRanking();
    SortDescends(Less, Candidates(comments, minSeverity));
    PickDescends(Less, Close, Sort(Less, Candidates(comments, minSeverity)), [], cap);
  }

  method SelectInlineComments(comments: seq<Comment>, minSeverity: string, cap: int) returns (selected: seq<Comment>)
    ensures selected == Selection(comments, minSeverity, cap)
  {
    var candidates := Candidates(comments, minSeverity);
    candidates := Sort(Less, candidates);
    selected := [];
    var i := 0;
    while i < |candidates|
      invariant 0 <= i <= |candidates|
      invariant Pick(Close, candidates, [], cap) == Pick(Close, candidates[i..], selected, cap)
    {
      var c := candidates[i];
      assert candidates[i..][0] == c && candidates[i..][1..] == candidates[i + 1..];
      var tooClose := Crowded(Close, selected, c);
      if !tooClose {
        selected := selected + [c];
      }
      if |selected| >= cap {
        break;
      }
      i := i + 1;
    }
  }
}
