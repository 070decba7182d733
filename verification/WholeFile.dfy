/** AIService._chunk_by_ast: diff-scoped chunks where they exist, and otherwise the whole file, split at
    boundary nodes. */
module WholeFile {
  import opened Basics
  import opened Packing
  import opened ChangedLines
  import opened Chunker
  import D = Decimal

  /** A chunk of the whole file: packed top-level nodes, a member of an oversized class on its own, or a
      SKIP note. */
  datatype Out = Packed(nodes: seq<Node>) | Alone(member: Node) | Flagged(node: Node)

  function Texts(nodes: seq<Node>): seq<string> {
    seq(|nodes|, i requires 0 <= i < |nodes| => nodes[i].text)
  }

  function OutText(path: string, o: Out): string {
    match o
    case Packed(nodes) => Join("\n", ["FILE: " + path] + Texts(nodes))
    case Alone(member) => "FILE: " + path + "\n" + member.text
    case Flagged(node) => SkipNote(path, node)
  }

  function OutTexts(path: string, outs: seq<Out>): seq<string> {
    seq(|outs|, i requires 0 <= i < |outs| => OutText(path, outs[i]))
  }

  datatype Flow = Flow(outs: seq<Out>, current: seq<Node>)

  datatype Splitter = Splitter(path: string, boundary: set<string>, max: nat) {

    predicate OversizedBoundary(node: Node) {
      node.kind in boundary && Tokens(node.text) > max
    }

    function MemberChunks(children: seq<Node>): seq<Out> {
      if children == [] then []
      else MemberChunks(children[..|children| - 1]) +
           var sub := children[|children| - 1];
           if sub.kind in boundary then [Alone(sub)] else []
    }

    predicate HasMembers(node: Node) {
      IsClass(node.kind) && node.body.Some? && exists sub | sub in node.body.value.children :: sub.kind in boundary
    }

    /** An oversized boundary node: its boundary members one by one, or a note. */
    function Split(node: Node): seq<Out> {
      if HasMembers(node) then MemberChunks(node.body.value.children) else [Flagged(node)]
    }

    function Step(st: Flow, node: Node): Flow {
      if OversizedBoundary(node) then Flow(st.outs + Split(node), st.current)
      else if node.kind in boundary && Total(Texts(st.current)) + Tokens(node.text) > max
      then Flow(st.outs + [Packed(st.current)], [node])
      else Flow(st.outs, st.current + [node])
    }

    function Run(nodes: seq<Node>): Flow {
      if nodes == [] then Flow([], []) else Step(Run(nodes[..|nodes| - 1]), nodes[|nodes| - 1])
    }

    function Outs(nodes: seq<Node>): seq<Out> {
      var st := Run(nodes);
      if st.current == [] then st.outs else st.outs + [Packed(st.current)]
    }

    /** The nodes that whole-file chunking keeps whole. */
    function Kept(nodes: seq<Node>): seq<Node> {
      if nodes == [] then []
      else Kept(nodes[..|nodes| - 1]) + if OversizedBoundary(nodes[|nodes| - 1]) then [] else [nodes[|nodes| - 1]]
    }

    /** A boundary node is in a packed chunk only if everything up to it fits the budget. */
    predicate FitsAtBoundaries(nodes: seq<Node>) {
      forall i | 0 <= i < |nodes| && nodes[i].kind in boundary :: Total(Texts(nodes[..i + 1])) <= max
    }

    predicate GoodOut(o: Out) {
      o.Packed? ==> o.nodes != [] && FitsAtBoundaries(o.nodes)
    }
  }

  /** The contents of the packed chunks, in order. */
  function PackedNodes(outs: seq<Out>): seq<Node> {
    if outs == [] then []
    else PackedNodes(outs[..|outs| - 1]) + if outs[|outs| - 1].Packed? then outs[|outs| - 1].nodes else []
  }

  lemma {:induction false} PackedNodesConcat(a: seq<Out>, b: seq<Out>)
    ensures PackedNodes(a + b) == PackedNodes(a) + PackedNodes(b)
  {
    if b == [] {
      assert a + b == a;
    } else {
      assert (a + b)[..|a + b| - 1] == a + b[..|b| - 1];
      PackedNodesConcat(a, b[..|b| - 1]);
    }
  }

  lemma {:induction false} MemberChunksAlone(s: Splitter, children: seq<Node>)
    ensures forall o | o in s.MemberChunks(children) :: o.Alone?
  {
    if children == [] {
    } else {
      MemberChunksAlone(s, children[..|children| - 1]);
    }
  }

  lemma {:induction false} MemberChunksExist(s: Splitter, children: seq<Node>)
    ensures s.MemberChunks(children) != [] <==> exists sub | sub in children :: sub.kind in s.boundary
  {
    if children == [] {
    } else {
      var front, last := children[..|children| - 1], children[|children| - 1];
      MemberChunksExist(s, front);
      assert forall sub :: sub in children <==> sub in front || sub == last;
    }
  }

  lemma SplitUnpacked(s: Splitter, node: Node)
    ensures s.Split(node) != [] && (forall o | o in s.Split(node) :: !o.Packed?)
    ensures PackedNodes(s.Split(node)) == []
  {
    if s.HasMembers(node) {
      MemberChunksAlone(s, node.body.value.children);
      MemberChunksExist(s, node.body.value.children);
    }
    NoPackedNodes(s.Split(node));
  }

  lemma {:induction false} NoPackedNodes(outs: seq<Out>)
    requires forall o | o in outs :: !o.Packed?
    ensures PackedNodes(outs) == []
  {
    if outs == [] {
    } else {
      NoPackedNodes(outs[..|outs| - 1]);
      assert !outs[|outs| - 1].Packed?;
    }
  }

  lemma TextsSnoc(nodes: seq<Node>, node: Node)
    ensures Texts(nodes + [node]) == Texts(nodes) + [node.text]
    ensures Total(Texts(nodes + [node])) == Total(Texts(nodes)) + Tokens(node.text)
  {
    assert (Texts(nodes) + [node.text])[..|nodes|] == Texts(nodes);
  }

  lemma FitsSnoc(s: Splitter, nodes: seq<Node>, node: Node)
    requires s.FitsAtBoundaries(nodes)
    requires node.kind in s.boundary ==> Total(Texts(nodes)) + Tokens(node.text) <= s.max
    ensures s.FitsAtBoundaries(nodes + [node])
  {
    TextsSnoc(nodes, node);
    forall i | 0 <= i < |nodes + [node]| && (nodes + [node])[i].kind in s.boundary
      ensures Total(Texts((nodes + [node])[..i + 1])) <= s.max
    {
      if i < |nodes| {
        assert (nodes + [node])[..i + 1] == nodes[..i + 1];
      } else {
        assert (nodes + [node])[..i + 1] == nodes + [node];
      }
    }
  }

  /** The budget test only ever closes a chunk that holds something. */
  lemma StepGood(s: Splitter, st: Flow, node: Node)
    requires (forall o | o in st.outs :: s.GoodOut(o)) && s.FitsAtBoundaries(st.current)
    ensures var st' := s.Step(st, node);
            (forall o | o in st'.outs :: s.GoodOut(o)) && s.FitsAtBoundaries(st'.current)
  {
    if s.OversizedBoundary(node) {
      SplitUnpacked(s, node);
    } else if node.kind in s.boundary && Total(Texts(st.current)) + Tokens(node.text) > s.max {
      assert Texts([]) == [] && st.current != [];
      FitsSnoc(s, [], node);
      assert [] + [node] == [node];
    } else {
      FitsSnoc(s, st.current, node);
    }
  }

  function FlowNodes(st: Flow): seq<Node> {
    PackedNodes(st.outs) + st.current
  }

  lemma StepKeeps(s: Splitter, st: Flow, node: Node)
    ensures FlowNodes(s.Step(st, node)) == FlowNodes(st) + (if s.OversizedBoundary(node) then [] else [node])
    ensures s.Step(st, node).outs != [] || s.Step(st, node).current != []
  {
    if s.OversizedBoundary(node) {
      SplitUnpacked(s, node);
      PackedNodesConcat(st.outs, s.Split(node));
    } else {
      JoinKeeps(st, node);
      CloseKeeps(st, node);
    }
  }

  lemma JoinKeeps(st: Flow, node: Node)
    ensures FlowNodes(Flow(st.outs, st.current + [node])) == FlowNodes(st) + [node]
  {
  }

  lemma CloseKeeps(st: Flow, node: Node)
    ensures FlowNodes(Flow(st.outs + [Packed(st.current)], [node])) == FlowNodes(st) + [node]
  {
    PackedNodesConcat(st.outs, [Packed(st.current)]);
    PackedOne(st.current);
  }

  lemma PackedOne(nodes: seq<Node>)
    ensures PackedNodes([Packed(nodes)]) == nodes
  {
    assert [Packed(nodes)][..0] == [];
  }

  lemma {:induction false} RunKeeps(s: Splitter, nodes: seq<Node>)
    ensures var st := s.Run(nodes);
            && (forall o | o in st.outs :: s.GoodOut(o)) && s.FitsAtBoundaries(st.current)
            && FlowNodes(st) == s.Kept(nodes)
            && (nodes != [] ==> st.outs != [] || st.current != [])
  {
    if nodes == [] {
    } else {
      var front, last := nodes[..|nodes| - 1], nodes[|nodes| - 1];
      RunKeeps(s, front);
      StepGood(s, s.Run(front), last);
      StepKeeps(s, s.Run(front), last);
    }
  }

  /** A chunk past the budget ends in a node that is no boundary. */
  lemma PastBoundary(s: Splitter, nodes: seq<Node>)
    requires nodes != [] && s.FitsAtBoundaries(nodes)
    ensures Total(Texts(nodes)) > s.max ==> nodes[|nodes| - 1].kind !in s.boundary
  {
    assert nodes[..|nodes| - 1 + 1] == nodes;
  }

  lemma OutsGood(s: Splitter, nodes: seq<Node>)
    ensures forall o | o in s.Outs(nodes) :: s.GoodOut(o)
    ensures PackedNodes(s.Outs(nodes)) == s.Kept(nodes)
    ensures s.Outs(nodes) == [] <==> nodes == []
  {
    var st := s.Run(nodes);
    RunKeeps(s, nodes);
    PackedNodesConcat(st.outs, [Packed(st.current)]);
    PackedOne(st.current);
  }

  /** Whole-file chunking loses nothing within budget: the packed chunks hold, in source order, every
      top-level node but the oversized boundary ones; no chunk is a bare header; a boundary node joins a
      chunk only within budget, so a chunk exceeds the budget only past its last boundary node; and there
      is a chunk whenever there is a node. */
  lemma WholeFileKeepsNodes(s: Splitter, nodes: seq<Node>)
    ensures PackedNodes(s.Outs(nodes)) == s.Kept(nodes)
    ensures forall o | o in s.Outs(nodes) && o.Packed? ::
              && o.nodes != [] && s.FitsAtBoundaries(o.nodes)
              && (Total(Texts(o.nodes)) > s.max ==> o.nodes[|o.nodes| - 1].kind !in s.boundary)
    ensures s.Outs(nodes) == [] <==> nodes == []
  {
    OutsGood(s, nodes);
    forall o | o in s.Outs(nodes) && o.Packed?
      ensures o.nodes != [] && s.FitsAtBoundaries(o.nodes)
      ensures Total(Texts(o.nodes)) > s.max ==> o.nodes[|o.nodes| - 1].kind !in s.boundary
    {
      assert s.GoodOut(o);
      PastBoundary(s, o.nodes);
    }
  }

  // ----- chunks past the budget -----

  /** Counted as the code counts: by the floored estimates of the node texts, without the file line. */
  predicate OverBudget(s: Splitter, o: Out) {
    match o
    case Packed(nodes) => Total(Texts(nodes)) > s.max
    case Alone(member) => Tokens(member.text) > s.max
    case Flagged(_) => false
  }

  predicate AnyOverBudget(s: Splitter, outs: seq<Out>) {
    exists i | 0 <= i < |outs| :: OverBudget(s, outs[i])
  }

  predicate HasBigMember(s: Splitter, children: seq<Node>) {
    exists i | 0 <= i < |children| :: children[i].kind in s.boundary && Tokens(children[i].text) > s.max
  }

  /** `node` takes a branch without a budget test to bad effect: it is no boundary and the current chunk
      `current` has no room for it, or it is an oversized class with an oversized boundary member. */
  predicate Bursts(s: Splitter, current: seq<Node>, node: Node) {
    if node.kind !in s.boundary then Total(Texts(current)) + Tokens(node.text) > s.max
    else s.OversizedBoundary(node) && s.HasMembers(node) && HasBigMember(s, node.body.value.children)
  }

  predicate BurstsAt(s: Splitter, nodes: seq<Node>, i: nat)
    requires i < |nodes|
  {
    Bursts(s, s.Run(nodes[..i]).current, nodes[i])
  }

  predicate AnyBursts(s: Splitter, nodes: seq<Node>) {
    exists i | 0 <= i < |nodes| :: BurstsAt(s, nodes, i)
  }

  lemma OverBudgetConcat(s: Splitter, a: seq<Out>, b: seq<Out>)
    ensures AnyOverBudget(s, a + b) <==> AnyOverBudget(s, a) || AnyOverBudget(s, b)
  {
    var all := a + b;
    assert forall i | 0 <= i < |a| :: all[i] == a[i];
    assert forall i | 0 <= i < |b| :: all[|a| + i] == b[i];
  }

  lemma OverBudgetOne(s: Splitter, o: Out)
    ensures AnyOverBudget(s, [o]) == OverBudget(s, o)
  {
    assert [o][0] == o;
  }

  lemma BigMemberSnoc(s: Splitter, children: seq<Node>, sub: Node)
    ensures HasBigMember(s, children + [sub]) <==>
              HasBigMember(s, children) || (sub.kind in s.boundary && Tokens(sub.text) > s.max)
  {
    var all := children + [sub];
    assert all[|children|] == sub;
    assert forall i | 0 <= i < |children| :: all[i] == children[i];
  }

  lemma {:induction false} MembersOver(s: Splitter, children: seq<Node>)
    ensures AnyOverBudget(s, s.MemberChunks(children)) <==> HasBigMember(s, children)
  {
    if children == [] {
    } else {
      var front, sub := children[..|children| - 1], children[|children| - 1];
      MembersOver(s, front);
      BigMemberSnoc(s, front, sub);
      assert children == front + [sub];
      if sub.kind in s.boundary {
        OverBudgetConcat(s, s.MemberChunks(front), [Alone(sub)]);
        OverBudgetOne(s, Alone(sub));
      } else {
        assert s.MemberChunks(children) == s.MemberChunks(front);
      }
    }
  }

  lemma SplitOver(s: Splitter, node: Node)
    ensures AnyOverBudget(s, s.Split(node)) <==>
              s.HasMembers(node) && HasBigMember(s, node.body.value.children)
  {
    if s.HasMembers(node) {
      MembersOver(s, node.body.value.children);
    } else {
      OverBudgetOne(s, Flagged(node));
    }
  }

  lemma BurstsPrefix(s: Splitter, nodes: seq<Node>, i: nat)
    requires i + 1 < |nodes|
    ensures BurstsAt(s, nodes[..|nodes| - 1], i) == BurstsAt(s, nodes, i)
  {
    assert nodes[..|nodes| - 1][..i] == nodes[..i];
  }

  lemma BurstsSnoc(s: Splitter, nodes: seq<Node>)
    requires nodes != []
    ensures AnyBursts(s, nodes) <==> AnyBursts(s, nodes[..|nodes| - 1]) || BurstsAt(s, nodes, |nodes| - 1)
  {
    var front := nodes[..|nodes| - 1];
    if i :| 0 <= i < |front| && BurstsAt(s, nodes, i) {
      BurstsPrefix(s, nodes, i);
      assert BurstsAt(s, front, i);
    }
    if i :| 0 <= i < |front| && BurstsAt(s, front, i) {
      BurstsPrefix(s, nodes, i);
    }
  }

  ghost predicate FlowOver(s: Splitter, st: Flow) {
    AnyOverBudget(s, st.outs) || OverBudget(s, Packed(st.current))
  }

  lemma StepOver(s: Splitter, st: Flow, node: Node)
    ensures FlowOver(s, s.Step(st, node)) <==> FlowOver(s, st) || Bursts(s, st.current, node)
  {
    if s.OversizedBoundary(node) {
      SplitOver(s, node);
      OverBudgetConcat(s, st.outs, s.Split(node));
    } else {
      TextsSnoc(st.current, node);
      TextsSnoc([], node);
      assert Texts([]) == [] && [] + [node] == [node];
      OverBudgetConcat(s, st.outs, [Packed(st.current)]);
      OverBudgetOne(s, Packed(st.current));
    }
  }

  lemma {:induction false} RunOver(s: Splitter, nodes: seq<Node>)
    ensures FlowOver(s, s.Run(nodes)) <==> AnyBursts(s, nodes)
  {
    if nodes == [] {
      assert Texts([]) == [];
    } else {
      var front := nodes[..|nodes| - 1];
      RunOver(s, front);
      StepOver(s, s.Run(front), nodes[|nodes| - 1]);
      BurstsSnoc(s, nodes);
    }
  }

  /** Some chunk exceeds the budget if and only if a node that is no boundary came up when the current
      chunk had no room for it, or an oversized class has a boundary member that is itself over the
      budget: neither branch looks at the budget. */
  lemma WholeFileBudget(s: Splitter, nodes: seq<Node>)
    ensures AnyOverBudget(s, s.Outs(nodes)) <==> AnyBursts(s, nodes)
  {
    var st := s.Run(nodes);
    RunOver(s, nodes);
    OverBudgetConcat(s, st.outs, [Packed(st.current)]);
    OverBudgetOne(s, Packed(st.current));
    assert st.current == [] ==> Texts(st.current) == [];
  }

  /** What staying within the budget means for the text of a chunk, estimates being floored. */
  lemma OutTextBounded(s: Splitter, o: Out)
    requires !OverBudget(s, o) && (o.Packed? ==> o.nodes != [])
    ensures o.Packed? ==> |OutText(s.path, o)| <= |FileHeader(s.path)| + 4 * s.max + 4 * |o.nodes| - 1
    ensures o.Alone? ==> |OutText(s.path, o)| <= |FileHeader(s.path)| + 4 * s.max + 3
  {
    if o.Packed? {
      var texts := Texts(o.nodes);
      JoinedLength("\n", texts);
      assert (["FILE: " + s.path] + texts)[1..] == texts;
    }
  }

  lemma OutTextsConcat(path: string, a: seq<Out>, b: seq<Out>)
    ensures OutTexts(path, a + b) == OutTexts(path, a) + OutTexts(path, b)
  {
  }

  // ----- what the texts hold -----

  /** What a chunk's text holds: the file line and every node in order, each at its offset, one to a line;
      or the file line and the member; or the note. */
  ghost predicate OutReads(path: string, text: string, o: Out) {
    match o
    case Packed(nodes) => "FILE: " + path + "\n" <= text && Laid(text, |path| + 7, Texts(nodes), "\n")
    case Alone(member) => text == "FILE: " + path + "\n" + member.text
    case Flagged(node) =>
      exists estimate: nat :: 4 * estimate <= |node.text| <= 4 * estimate + 3 &&
        text == "### [SKIP] " + path + " - unit " + node.kind + " too large for review ("
                + D.Print(estimate) + " tokens)"
  }

  ghost predicate OutsRead(path: string, texts: seq<string>, outs: seq<Out>) {
    |texts| == |outs| && forall i | 0 <= i < |outs| :: OutReads(path, texts[i], outs[i])
  }

  lemma OutTextReads(path: string, o: Out)
    requires o.Packed? ==> o.nodes != []
    ensures OutReads(path, OutText(path, o), o)
  {
    if o.Flagged? {
      var estimate := Tokens(o.node.text);
      assert 4 * estimate <= |o.node.text| <= 4 * estimate + 3;
    } else if o.Packed? {
      var texts := Texts(o.nodes);
      assert (["FILE: " + path] + texts)[1..] == texts;
      assert OutText(path, o) == ("FILE: " + path + "\n") + Join("\n", texts);
      JoinLaid("FILE: " + path + "\n", "\n", texts);
    }
  }

  lemma SplitterReads(s: Splitter, nodes: seq<Node>)
    ensures OutsRead(s.path, OutTexts(s.path, s.Outs(nodes)), s.Outs(nodes))
  {
    var outs := s.Outs(nodes);
    OutsGood(s, nodes);
    forall i | 0 <= i < |outs| ensures OutReads(s.path, OutText(s.path, outs[i]), outs[i]) {
      assert outs[i] in outs && s.GoodOut(outs[i]);
      OutTextReads(s.path, outs[i]);
    }
  }

  method ChunkMembers(s: Splitter, children: seq<Node>) returns (chunks: seq<string>, found: bool)
    ensures chunks == OutTexts(s.path, s.MemberChunks(children))
    ensures found <==> exists sub | sub in children :: sub.kind in s.boundary
  {
    chunks, found := [], false;
    for i := 0 to |children|
      invariant chunks == OutTexts(s.path, s.MemberChunks(children[..i]))
      invariant found <==> exists sub | sub in children[..i] :: sub.kind in s.boundary
    {
      var sub := children[i];
      assert children[..i + 1][..i] == children[..i] && children[..i + 1] == children[..i] + [sub];
      if sub.kind in s.boundary {
        OutTextsConcat(s.path, s.MemberChunks(children[..i]), [Alone(sub)]);
        chunks := chunks + ["FILE: " + s.path + "\n" + sub.text];
        found := true;
      }
    }
    assert children[..|children|] == children;
  }

  /** The branch for an oversized boundary node. */
  method ChunkOversized(s: Splitter, node: Node) returns (chunks: seq<string>)
    ensures chunks == OutTexts(s.path, s.Split(node))
  {
    if IsClass(node.kind) && node.body.Some? {
      var found: bool;
      chunks, found := ChunkMembers(s, node.body.value.children);
      if found {
        return;
      }
    }
    chunks := [SkipNote(s.path, node)];
  }

  /** The locals of the loop stand for `st`. */
  ghost predicate Tracks(path: string, st: Flow, chunks: seq<string>, currentChunk: seq<string>, currentTokens: nat) {
    && chunks == OutTexts(path, st.outs)
    && currentChunk == ["FILE: " + path] + Texts(st.current)
    && currentTokens == Total(Texts(st.current))
  }

  lemma TracksJoined(path: string, st: Flow, chunks: seq<string>, currentChunk: seq<string>,
    currentTokens: nat, node: Node)
    requires Tracks(path, st, chunks, currentChunk, currentTokens)
    ensures Tracks(path, Flow(st.outs, st.current + [node]), chunks, currentChunk + [node.text],
      currentTokens + Tokens(node.text))
  {
    TextsSnoc(st.current, node);
  }

  lemma TracksClosed(path: string, st: Flow, chunks: seq<string>, currentChunk: seq<string>,
    currentTokens: nat, node: Node)
    requires Tracks(path, st, chunks, currentChunk, currentTokens)
    ensures Tracks(path, Flow(st.outs + [Packed(st.current)], [node]), chunks + [Join("\n", currentChunk)],
                  ["FILE: " + path, node.text], Tokens(node.text))
  {
    OutTextsConcat(path, st.outs, [Packed(st.current)]);
    TextsSnoc([], node);
    assert Texts([]) == [] && [] + [node] == [node];
  }

  method ChunkWholeFile(s: Splitter, nodes: seq<Node>) returns (chunks: seq<string>)
    ensures chunks == OutTexts(s.path, s.Outs(nodes))
    ensures OutsRead(s.path, chunks, s.Outs(nodes))
  {
    SplitterReads(s, nodes);
    chunks := [];
    var currentChunk := ["FILE: " + s.path];
    var currentTokens: nat := 0;
    for i := 0 to |nodes|
      invariant Tracks(s.path, s.Run(nodes[..i]), chunks, currentChunk, currentTokens)
    {
      var node := nodes[i];
      ghost var st := s.Run(nodes[..i]);
      assert nodes[..i + 1][..i] == nodes[..i];
      assert s.Run(nodes[..i + 1]) == s.Step(st, node);
      var nodeTokens := Tokens(node.text);
      if node.kind in s.boundary {
        if nodeTokens > s.max {
          var split := ChunkOversized(s, node);
          OutTextsConcat(s.path, st.outs, s.Split(node));
          chunks := chunks + split;
          continue;
        }
        if currentTokens + nodeTokens > s.max {
          TracksClosed(s.path, st, chunks, currentChunk, currentTokens, node);
          chunks := chunks + [Join("\n", currentChunk)];
          currentChunk := ["FILE: " + s.path, node.text];
          currentTokens := nodeTokens;
        } else {
          TracksJoined(s.path, st, chunks, currentChunk, currentTokens, node);
          currentChunk := currentChunk + [node.text];
          currentTokens := currentTokens + nodeTokens;
        }
      } else {
        TracksJoined(s.path, st, chunks, currentChunk, currentTokens, node);
        currentChunk := currentChunk + [node.text];
        currentTokens := currentTokens + nodeTokens;
      }
    }
    assert nodes[..|nodes|] == nodes;
    if |currentChunk| > 1 {
      OutTextsConcat(s.path, s.Run(nodes).outs, [Packed(s.Run(nodes).current)]);
      chunks := chunks + [Join("\n", currentChunk)];
    }
  }

  // ===== the entry point =====

  function AfterLastDot(path: string): (ext: string)
    requires '.' in path
    ensures '.' !in ext && |ext| < |path| && path[|path| - |ext| - 1..] == "." + ext
  {
    if path[|path| - 1] == '.' then "" else AfterLastDot(path[..|path| - 1]) + [path[|path| - 1]]
  }

  /** What follows the last dot, with the dot. */
  function Extension(path: string): (ext: string)
    ensures '.' !in path ==> ext == ""
    ensures '.' in path ==>
              0 < |ext| <= |path| && path[|path| - |ext|..] == ext && ext[0] == '.' && '.' !in ext[1..]
  {
    if '.' in path then "." + AfterLastDot(path) else ""
  }

  /** `tree` is what the parser made of `source`; an absent patch counts as an empty one. Any file in a
      supported language with a top-level node yields a chunk, however scoping turns out. */
  method ChunkByAst(path: string, source: string, tree: Tree, patch: string, max: nat)
    returns (chunks: seq<string>)
    ensures var ext, changed := Extension(path), Changed(patch);
            var boundary := BoundaryTypes(ext);
            chunks == if ext !in LANGUAGES then [FileHeader(path) + source]
                      else if !tree.hasError && AnyTouched(tree.children, changed)
                      then ChunkTexts(path, Scope(path, boundary, changed, max).Chunks(tree))
                      else OutTexts(path, Splitter(path, boundary, max).Outs(tree.children))
    ensures chunks == [] <==> Extension(path) in LANGUAGES && tree.children == []
    ensures var ext, changed := Extension(path), Changed(patch);
            var boundary := BoundaryTypes(ext);
            if ext !in LANGUAGES then chunks == ["FILE: " + path + "\n" + source]
            else if !tree.hasError
                    && exists i, line :: && 0 <= i < |tree.children| && line in changed
                                         && tree.children[i].startRow < line <= tree.children[i].endRow + 1
            then AllRead(path, chunks, Scope(path, boundary, changed, max).Chunks(tree))
            else OutsRead(path, chunks, Splitter(path, boundary, max).Outs(tree.children))
  {
    var ext := Extension(path);
    if ext !in LANGUAGES {
      return ["FILE: " + path + "\n" + source];
    }
    var boundary := BoundaryTypes(ext);
    WholeFileKeepsNodes(Splitter(path, boundary, max), tree.children);
    if patch != "" {
      var changed := ParseChangedLines(patch);
      ScopedEmpty(Scope(path, boundary, changed, max), tree);
      if changed != {} {
        var scoped := ChunkChangedNodes(Scope(path, boundary, changed, max), tree);
        if scoped != [] {
          return scoped;
        }
      }
    }
    chunks := ChunkWholeFile(Splitter(path, boundary, max), tree.children);
  }
}
