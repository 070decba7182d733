/** AIService._chunk_changed_nodes, over a given syntax tree. */
module Chunker {
  import opened Basics
  import opened Packing
  import D = Decimal

  /** A node ends before its end point, which is in row `endRow`; its last character is in row `lastRow`,
      which is the row before where the end point is at the start of a row. `body` is the child of that
      field name; `head` is the source text before it, right-stripped, which ends in row `headEndRow`. */
  datatype Node = Node(kind: string, text: string, startRow: nat, endRow: nat, lastRow: nat, body: Option<Body>)
  datatype Body = Body(head: string, headEndRow: nat, children: seq<Node>)
  datatype Tree = Tree(children: seq<Node>, hasError: bool)

  const LANGUAGES: set<string> := {".py", ".js", ".ts", ".go"}

  function BoundaryTypes(ext: string): set<string> {
    match ext
    case ".py" => {"class_definition", "function_definition", "decorated_definition"}
    case ".js" => {"class_declaration", "function_declaration", "arrow_function", "method_definition",
      "export_statement"}
    case ".go" => {"function_declaration", "method_declaration", "type_declaration"}
    case _ => {}
  }

  predicate IsClass(kind: string) {
    kind == "class_definition" || kind == "class_declaration"
  }

  /** By the points of the node, both ends included. */
  predicate Spans(node: Node, line: int) {
    node.startRow + 1 <= line <= node.endRow + 1
  }

  /** The node has text in `line`. */
  predicate HasTextIn(node: Node, line: int) {
    node.text != "" && Spans(node, line) && line <= node.lastRow + 1
  }

  predicate Touched(node: Node, changed: set<int>) {
    exists line | line in changed :: Spans(node, line)
  }

  /** Rows count from 0 and lines from 1. */
  lemma TouchedRows(node: Node, changed: set<int>)
    ensures Touched(node, changed) <==>
              exists line :: line in changed && node.startRow < line <= node.endRow + 1
  {
    if line :| line in changed && node.startRow < line <= node.endRow + 1 {
      assert Spans(node, line);
    }
  }

  /** The languages, and the node types at which their files may be cut. */
  lemma SourceTables(ext: string, kind: string)
    ensures ext in LANGUAGES <==> ext == ".py" || ext == ".js" || ext == ".ts" || ext == ".go"
    ensures kind in BoundaryTypes(".py") <==>
              kind == "class_definition" || kind == "function_definition" || kind == "decorated_definition"
    ensures kind in BoundaryTypes(".js") <==>
              || kind == "class_declaration" || kind == "function_declaration" || kind == "arrow_function"
              || kind == "method_definition" || kind == "export_statement"
    ensures kind in BoundaryTypes(".go") <==>
              kind == "function_declaration" || kind == "method_declaration" || kind == "type_declaration"
    ensures ext != ".py" && ext != ".js" && ext != ".go" ==> BoundaryTypes(ext) == {}
    ensures IsClass(kind) <==> kind == "class_definition" || kind == "class_declaration"
  {
  }

  function SkipNote(path: string, node: Node): string {
    "### [SKIP] " + path + " - unit " + node.kind + " too large for review (" + D.Print(Tokens(node.text)) + " tokens)"
  }

  // ===== diff-scoped chunking =====

  /** What one call of _chunk_changed_nodes works with. */
  datatype Scope = Scope(path: string, boundary: set<string>, changed: set<int>, max: nat) {

    predicate IsMember(sub: Node) {
      sub.kind in boundary && Touched(sub, changed)
    }

    /** The touched members of a class body, each under the class header. */
    function Members(head: string, children: seq<Node>): seq<Item> {
      if children == [] then []
      else Members(head, children[..|children| - 1]) +
           var sub := children[|children| - 1];
           if IsMember(sub) then [Piece(head + "\n" + sub.text)] else []
    }

    predicate Oversized(node: Node) {
      Tokens(node.text) > max
    }

    /** An oversized class with a touched member is represented by its touched members alone. */
    predicate Descends(node: Node) {
      IsClass(node.kind) && Oversized(node) && node.body.Some?
        && exists sub | sub in node.body.value.children :: IsMember(sub)
    }

    /** What a top-level node contributes. */
    function NodeItems(node: Node): seq<Item> {
      if !Touched(node, changed) then []
      else if Descends(node) then Members(node.body.value.head, node.body.value.children)
      else if Oversized(node) then [Skip(SkipNote(path, node))]
      else [Piece(node.text)]
    }

    function Items(nodes: seq<Node>): seq<Item> {
      if nodes == [] then [] else Items(nodes[..|nodes| - 1]) + NodeItems(nodes[|nodes| - 1])
    }

    /** The chunks of _chunk_changed_nodes, before they are written out. */
    function Chunks(tree: Tree): seq<Chunk> {
      if tree.hasError then [] else Pack(Items(tree.children), max)
    }
  }

  lemma {:induction false} MembersEmpty(s: Scope, head: string, children: seq<Node>)
    ensures s.Members(head, children) == [] <==> forall sub | sub in children :: !s.IsMember(sub)
  {
    if children == [] {
    } else {
      MembersEmpty(s, head, children[..|children| - 1]);
      assert children == children[..|children| - 1] + [children[|children| - 1]];
    }
  }

  lemma ChunkTextsConcat(path: string, a: seq<Chunk>, b: seq<Chunk>)
    ensures ChunkTexts(path, a + b) == ChunkTexts(path, a) + ChunkTexts(path, b)
  {
  }

  lemma FoldSnoc(items: seq<Item>, item: Item, max: nat)
    ensures Fold(items + [item], max) == AddItem(Fold(items, max), item, max)
  {
    assert (items + [item])[..|items|] == items;
  }

  lemma TotalSnoc(pieces: seq<string>, piece: string)
    ensures Total(pieces + [piece]) == Total(pieces) + Tokens(piece)
  {
    assert (pieces + [piece])[..|pieces|] == pieces;
  }

  /** The mutable locals of _chunk_changed_nodes with its nested functions add and flush. `items` is
      everything added so far. */
  class Packer {
    const path: string
    const max: nat
    var chunks: seq<string>
    var pending: seq<string>
    var pendingTokens: nat
    ghost var items: seq<Item>

    ghost predicate Valid()
      reads this
    {
      && chunks == ChunkTexts(path, Fold(items, max).groups)
      && pending == Fold(items, max).pending
      && pendingTokens == Total(pending)
    }

    constructor (path: string, max: nat)
      ensures this.path == path && this.max == max && items == [] && Valid()
    {
      this.path, this.max := path, max;
      chunks, pending, pendingTokens, items := [], [], 0, [];
    }

    method Flush()
      modifies this`chunks, this`pending, this`pendingTokens
      ensures pending == [] && (pendingTokens == 0 || old(pending) == [])
      ensures chunks == old(chunks) + if old(pending) == [] then [] else [ChunkText(path, Group(old(pending)))]
      ensures old(pending) == [] ==> pendingTokens == old(pendingTokens)
    {
      if pending != [] {
        chunks := chunks + ["FILE: " + path + "\n" + Join("\n\n", pending)];
        pending := [];
        pendingTokens := 0;
      }
    }

    method Add(text: string)
      requires Valid()
      modifies this
      ensures Valid() && items == old(items) + [Piece(text)]
    {
      var tokens := Tokens(text);
      FoldSnoc(items, Piece(text), max);
      TotalSnoc(pending, text);
      TotalSnoc([], text);
      ghost var st := Fold(items, max);
      if pending != [] && pendingTokens + tokens > max {
        Flush();
        ChunkTextsConcat(path, st.groups, [Group(st.pending)]);
      }
      pending := pending + [text];
      pendingTokens := pendingTokens + tokens;
      items := items + [Piece(text)];
    }

    method AddNote(note: string)
      requires Valid()
      modifies this
      ensures Valid() && items == old(items) + [Skip(note)]
    {
      ghost var st := Fold(items, max);
      FoldSnoc(items, Skip(note), max);
      Flush();
      chunks := chunks + [note];
      items := items + [Skip(note)];
      ChunkTextsConcat(path, Flushed(st), [Note(note)]);
      ChunkTextsConcat(path, st.groups, [Group(st.pending)]);
    }

    method Finish() returns (result: seq<string>)
      requires Valid()
      modifies this`chunks, this`pending, this`pendingTokens
      ensures result == ChunkTexts(path, Pack(items, max))
    {
      ghost var st := Fold(items, max);
      Flush();
      ChunkTextsConcat(path, st.groups, [Group(st.pending)]);
      result := chunks;
    }
  }

  lemma MembersSnoc(s: Scope, head: string, children: seq<Node>, i: nat)
    requires i < |children|
    ensures s.Members(head, children[..i + 1]) ==
              s.Members(head, children[..i])
                + if s.IsMember(children[i]) then [Piece(head + "\n" + children[i].text)] else []
  {
    assert children[..i + 1][..i] == children[..i];
  }

  /** One turn of the loop over a class body. */
  method AddMember(packer: Packer, s: Scope, head: string, sub: Node) returns (added: bool)
    requires packer.Valid()
    modifies packer
    ensures packer.Valid() && added == s.IsMember(sub)
    ensures packer.items == old(packer.items) + if added then [Piece(head + "\n" + sub.text)] else []
  {
    added := sub.kind in s.boundary && Touched(sub, s.changed);
    if added {
      packer.Add(head + "\n" + sub.text);
    }
  }

  method AddMembers(packer: Packer, s: Scope, head: string, children: seq<Node>) returns (emitted: bool)
    requires packer.Valid()
    modifies packer
    ensures packer.Valid() && packer.items == old(packer.items) + s.Members(head, children)
    ensures emitted <==> s.Members(head, children) != []
  {
    emitted := false;
    for i := 0 to |children|
      invariant packer.Valid() && packer.items == old(packer.items) + s.Members(head, children[..i])
      invariant emitted <==> s.Members(head, children[..i]) != []
    {
      MembersSnoc(s, head, children, i);
      var added := AddMember(packer, s, head, children[i]);
      emitted := emitted || added;
    }
    assert children[..|children|] == children;
  }

  /** One turn of the loop over the top-level nodes. */
  method AddNode(packer: Packer, s: Scope, node: Node)
    requires packer.Valid() && packer.path == s.path && packer.max == s.max
    modifies packer
    ensures packer.Valid() && packer.items == old(packer.items) + s.NodeItems(node)
  {
    if !Touched(node, s.changed) {
      return;
    }
    if IsClass(node.kind) && Tokens(node.text) > s.max && node.body.Some? {
      MembersEmpty(s, node.body.value.head, node.body.value.children);
      var emitted := AddMembers(packer, s, node.body.value.head, node.body.value.children);
      if emitted {
        return;
      }
    }
    if Tokens(node.text) > s.max {
      packer.AddNote(SkipNote(s.path, node));
      return;
    }
    packer.Add(node.text);
  }

  lemma ItemsPrefix(s: Scope, nodes: seq<Node>, i: nat)
    requires i < |nodes|
    ensures s.Items(nodes[..i + 1]) == s.Items(nodes[..i]) + s.NodeItems(nodes[i])
  {
    assert nodes[..i + 1][..i] == nodes[..i];
  }

  method ChunkChangedNodes(s: Scope, tree: Tree) returns (chunks: seq<string>)
    ensures chunks == ChunkTexts(s.path, s.Chunks(tree))
    ensures AllRead(s.path, chunks, s.Chunks(tree))
  {
    PackReads(s.path, s.Items(tree.children), s.max);
    if tree.hasError {
      assert ChunkTexts(s.path, []) == [];
      return [];
    }
    var packer := new Packer(s.path, s.max);
    var nodes := tree.children;
    for i := 0 to |nodes|
      invariant packer.Valid() && packer.path == s.path && packer.max == s.max && fresh(packer)
      invariant packer.items == s.Items(nodes[..i])
    {
      ItemsPrefix(s, nodes, i);
      AddNode(packer, s, nodes[i]);
    }
    assert nodes[..|nodes|] == nodes;
    chunks := packer.Finish();
  }

  // ----- what the scoped chunks hold -----

  /** Only what the diff touches: dropping the untouched nodes first changes nothing. */
  function TouchedOnly(nodes: seq<Node>, changed: set<int>): seq<Node> {
    if nodes == [] then []
    else
      TouchedOnly(nodes[..|nodes| - 1], changed)
      + (if Touched(nodes[|nodes| - 1], changed) then [nodes[|nodes| - 1]] else [])
  }

  lemma TouchedContributes(s: Scope, node: Node)
    ensures s.NodeItems(node) == [] <==> !Touched(node, s.changed)
  {
    if s.Descends(node) {
      MembersEmpty(s, node.body.value.head, node.body.value.children);
    }
  }

  lemma ItemsSnoc(s: Scope, nodes: seq<Node>, node: Node)
    ensures s.Items(nodes + [node]) == s.Items(nodes) + s.NodeItems(node)
  {
    assert (nodes + [node])[..|nodes|] == nodes;
  }

  lemma {:induction false} UntouchedContributeNothing(s: Scope, nodes: seq<Node>)
    ensures s.Items(nodes) == s.Items(TouchedOnly(nodes, s.changed))
  {
    if nodes == [] {
    } else {
      var front, last := nodes[..|nodes| - 1], nodes[|nodes| - 1];
      UntouchedContributeNothing(s, front);
      TouchedContributes(s, last);
      ItemsSnoc(s, TouchedOnly(front, s.changed), last);
      var kept := TouchedOnly(front, s.changed);
      if Touched(last, s.changed) {
        assert TouchedOnly(nodes, s.changed) == kept + [last];
      } else {
        assert TouchedOnly(nodes, s.changed) == kept && s.NodeItems(last) == [];
        assert s.Items(front) + [] == s.Items(front);
      }
    }
  }

  predicate AnyTouched(nodes: seq<Node>, changed: set<int>) {
    exists i | 0 <= i < |nodes| :: Touched(nodes[i], changed)
  }

  lemma {:induction false} TouchedGivesItems(s: Scope, nodes: seq<Node>)
    ensures s.Items(nodes) != [] <==> AnyTouched(nodes, s.changed)
  {
    if nodes == [] {
    } else {
      var front, last := nodes[..|nodes| - 1], nodes[|nodes| - 1];
      TouchedGivesItems(s, front);
      TouchedContributes(s, last);
      AnyTouchedSnoc(front, last, s.changed);
      assert nodes == front + [last];
    }
  }

  lemma AnyTouchedSnoc(nodes: seq<Node>, node: Node, changed: set<int>)
    ensures AnyTouched(nodes + [node], changed) <==> AnyTouched(nodes, changed) || Touched(node, changed)
  {
    var all := nodes + [node];
    assert all[|nodes|] == node;
    assert forall i | 0 <= i < |nodes| :: all[i] == nodes[i];
  }

  /** A piece over the budget is a member of an oversized class, under that class's header. */
  predicate MemberPiece(s: Scope, nodes: seq<Node>, text: string) {
    exists node | node in nodes :: node.body.Some? && s.Descends(node) &&
      exists sub | sub in node.body.value.children :: s.IsMember(sub) && text == node.body.value.head + "\n" + sub.text
  }

  lemma {:induction false} MembersAreMembers(s: Scope, head: string, children: seq<Node>, text: string)
    requires Piece(text) in s.Members(head, children)
    ensures exists sub | sub in children :: s.IsMember(sub) && text == head + "\n" + sub.text
  {
    if children == [] {
    } else {
      var front, last := children[..|children| - 1], children[|children| - 1];
      assert children == front + [last];
      if Piece(text) in s.Members(head, front) {
        MembersAreMembers(s, head, front, text);
      } else {
        assert s.IsMember(last) && text == head + "\n" + last.text;
      }
    }
  }

  lemma {:induction false} BigPiecesAreMembers(s: Scope, nodes: seq<Node>, text: string)
    requires Piece(text) in s.Items(nodes) && Tokens(text) > s.max
    ensures MemberPiece(s, nodes, text)
  {
    if nodes == [] {
    } else {
      var front, last := nodes[..|nodes| - 1], nodes[|nodes| - 1];
      assert nodes == front + [last];
      if Piece(text) in s.Items(front) {
        BigPiecesAreMembers(s, front, text);
        var node :| node in front && node.body.Some? && s.Descends(node) &&
          exists sub | sub in node.body.value.children ::
            s.IsMember(sub) && text == node.body.value.head + "\n" + sub.text;
        assert node in nodes;
      } else {
        assert Piece(text) in s.NodeItems(last) && s.Descends(last);
        MembersAreMembers(s, last.body.value.head, last.body.value.children, text);
      }
    }
  }

  /** The scoped chunks, read in order, are exactly the pieces of the touched nodes in source order. */
  lemma ScopedChunksExact(s: Scope, tree: Tree)
    requires !tree.hasError
    ensures Flatten(s.Chunks(tree)) == s.Items(tree.children) == s.Items(TouchedOnly(tree.children, s.changed))
  {
    PackKeepsItems(s.Items(tree.children), s.max);
    UntouchedContributeNothing(s, tree.children);
  }

  /** Every packed chunk is within budget, which bounds its text, or is a single class member. */
  lemma ScopedChunksWithinBudget(s: Scope, tree: Tree, c: Chunk)
    requires c in s.Chunks(tree) && c.Group?
    ensures c.pieces != []
    ensures if Total(c.pieces) <= s.max
            then |ChunkText(s.path, c)| <= |FileHeader(s.path)| + 4 * s.max + 5 * |c.pieces| - 2
            else |c.pieces| == 1 && MemberPiece(s, tree.children, c.pieces[0])
  {
    var items := s.Items(tree.children);
    PackAllowed(items, s.max);
    assert Allowed(c, s.max);
    if Total(c.pieces) <= s.max {
      GroupTextBounded(s.path, c.pieces, s.max);
    } else {
      var text := c.pieces[0];
      assert c.pieces[..0] == [] && Total(c.pieces) == Tokens(text);
      PackKeepsItems(items, s.max);
      ItemsInChunks(s.Chunks(tree), c);
      assert ItemsOf(c)[0] == Piece(text);
      BigPiecesAreMembers(s, tree.children, text);
    }
  }

  lemma {:induction false} ItemsInChunks(chunks: seq<Chunk>, c: Chunk)
    requires c in chunks
    ensures forall item | item in ItemsOf(c) :: item in Flatten(chunks)
  {
    var front, last := chunks[..|chunks| - 1], chunks[|chunks| - 1];
    assert chunks == front + [last];
    if c in front {
      ItemsInChunks(front, c);
    }
  }

  /** Scoping comes back empty exactly for a tree with errors or a diff that touches no top-level node. */
  lemma ScopedEmpty(s: Scope, tree: Tree)
    ensures s.Chunks(tree) == [] <==> tree.hasError || !AnyTouched(tree.children, s.changed)
    ensures s.Chunks(tree) == [] <==>
              (tree.hasError
               || forall i, line | 0 <= i < |tree.children| && line in s.changed ::
                    line <= tree.children[i].startRow || line > tree.children[i].endRow + 1)
  {
    forall i | 0 <= i < |tree.children|
      ensures !Touched(tree.children[i], s.changed) <==>
                forall line | line in s.changed ::
                  line <= tree.children[i].startRow || line > tree.children[i].endRow + 1
    {
      TouchedRows(tree.children[i], s.changed);
    }
    TouchedGivesItems(s, tree.children);
    PackKeepsItems(s.Items(tree.children), s.max);
    if s.Items(tree.children) == [] {
      assert Fold([], s.max) == PackState([], []);
    }
  }

  // ----- changed lines that scoping drops -----

  /** Where the text of an item comes from: a top-level node, a member under the header of the class that
      starts in row `startRow`, or no text at all, only the note on an oversized node. */
  datatype Source = Whole(node: Node) | Member(startRow: nat, body: Body, sub: Node) | Noted(node: Node)

  function ItemFrom(path: string, source: Source): Item {
    match source
    case Whole(node) => Piece(node.text)
    case Member(_, body, sub) => Piece(body.head + "\n" + sub.text)
    case Noted(node) => Skip(SkipNote(path, node))
  }

  function ItemsFrom(path: string, sources: seq<Source>): seq<Item> {
    seq(|sources|, i requires 0 <= i < |sources| => ItemFrom(path, sources[i]))
  }

  predicate HeadLine(startRow: nat, body: Body, line: int) {
    body.head != "" && startRow + 1 <= line <= body.headEndRow + 1
  }

  /** The text that comes from `source` holds text of `line`. */
  predicate Shows(source: Source, line: int) {
    match source
    case Whole(node) => HasTextIn(node, line)
    case Member(startRow, body, sub) => HeadLine(startRow, body, line) || HasTextIn(sub, line)
    case Noted(_) => false
  }

  predicate AnyShows(sources: seq<Source>, line: int) {
    exists i | 0 <= i < |sources| :: Shows(sources[i], line)
  }

  function MemberSources(s: Scope, startRow: nat, body: Body, children: seq<Node>): seq<Source> {
    if children == [] then []
    else
      var sub := children[|children| - 1];
      MemberSources(s, startRow, body, children[..|children| - 1])
      + (if s.IsMember(sub) then [Member(startRow, body, sub)] else [])
  }

  function NodeSources(s: Scope, node: Node): seq<Source> {
    if !Touched(node, s.changed) then []
    else if s.Descends(node) then MemberSources(s, node.startRow, node.body.value, node.body.value.children)
    else if s.Oversized(node) then [Noted(node)]
    else [Whole(node)]
  }

  function Sources(s: Scope, nodes: seq<Node>): seq<Source> {
    if nodes == [] then [] else Sources(s, nodes[..|nodes| - 1]) + NodeSources(s, nodes[|nodes| - 1])
  }

  lemma ItemsFromConcat(path: string, a: seq<Source>, b: seq<Source>)
    ensures ItemsFrom(path, a + b) == ItemsFrom(path, a) + ItemsFrom(path, b)
  {
  }

  lemma {:induction false} ItemsFromMembers(s: Scope, startRow: nat, body: Body, children: seq<Node>)
    ensures ItemsFrom(s.path, MemberSources(s, startRow, body, children)) == s.Members(body.head, children)
  {
    if children == [] {
    } else {
      var front, sub := children[..|children| - 1], children[|children| - 1];
      ItemsFromMembers(s, startRow, body, front);
      ItemsFromConcat(s.path, MemberSources(s, startRow, body, front), [Member(startRow, body, sub)]);
    }
  }

  lemma ItemsFromNode(s: Scope, node: Node)
    ensures ItemsFrom(s.path, NodeSources(s, node)) == s.NodeItems(node)
  {
    if s.Descends(node) {
      ItemsFromMembers(s, node.startRow, node.body.value, node.body.value.children);
    }
  }

  lemma {:induction false} ItemsFromSources(s: Scope, nodes: seq<Node>)
    ensures ItemsFrom(s.path, Sources(s, nodes)) == s.Items(nodes)
  {
    if nodes == [] {
    } else {
      var front, last := nodes[..|nodes| - 1], nodes[|nodes| - 1];
      ItemsFromSources(s, front);
      ItemsFromNode(s, last);
      ItemsFromConcat(s.path, Sources(s, front), NodeSources(s, last));
    }
  }

  lemma AnyShowsConcat(a: seq<Source>, b: seq<Source>, line: int)
    ensures AnyShows(a + b, line) <==> AnyShows(a, line) || AnyShows(b, line)
  {
    var all := a + b;
    assert forall i | 0 <= i < |a| :: all[i] == a[i];
    assert forall i | 0 <= i < |b| :: all[|a| + i] == b[i];
  }

  /** Some boundary member of the body has text in the line. */
  predicate InMember(boundary: set<string>, children: seq<Node>, line: int) {
    exists i | 0 <= i < |children| :: children[i].kind in boundary && HasTextIn(children[i], line)
  }

  predicate HasMember(s: Scope, children: seq<Node>) {
    exists i | 0 <= i < |children| :: s.IsMember(children[i])
  }

  lemma InMemberSnoc(s: Scope, children: seq<Node>, sub: Node, line: int)
    ensures InMember(s.boundary, children + [sub], line) <==>
              InMember(s.boundary, children, line) || (sub.kind in s.boundary && HasTextIn(sub, line))
    ensures HasMember(s, children + [sub]) <==> HasMember(s, children) || s.IsMember(sub)
  {
    var all := children + [sub];
    assert all[|children|] == sub;
    assert forall i | 0 <= i < |children| :: all[i] == children[i];
  }

  lemma {:induction false} MembersShow(s: Scope, startRow: nat, body: Body, children: seq<Node>, line: int)
    requires line in s.changed
    ensures AnyShows(MemberSources(s, startRow, body, children), line) <==>
              InMember(s.boundary, children, line)
              || (HeadLine(startRow, body, line) && HasMember(s, children))
  {
    if children == [] {
    } else {
      var front, sub := children[..|children| - 1], children[|children| - 1];
      MembersShow(s, startRow, body, front, line);
      var added := if s.IsMember(sub) then [Member(startRow, body, sub)] else [];
      AnyShowsConcat(MemberSources(s, startRow, body, front), added, line);
      assert s.IsMember(sub) ==> Shows(added[0], line) == (HeadLine(startRow, body, line) || HasTextIn(sub, line));
      assert sub.kind in s.boundary && HasTextIn(sub, line) ==> s.IsMember(sub);
      InMemberSnoc(s, front, sub, line);
      assert children == front + [sub];
    }
  }

  /** A touched node keeps `line` in view: it is shown whole, or it is a class that is descended into and
      the line is in its header or in a boundary member. */
  predicate KeepsInView(s: Scope, node: Node, line: int) {
    if !s.Oversized(node) then HasTextIn(node, line)
    else s.Descends(node) && (HeadLine(node.startRow, node.body.value, line)
                              || InMember(s.boundary, node.body.value.children, line))
  }

  lemma NodeShows(s: Scope, node: Node, line: int)
    requires line in s.changed
    ensures AnyShows(NodeSources(s, node), line) <==> Touched(node, s.changed) && KeepsInView(s, node, line)
  {
    if Touched(node, s.changed) {
      if s.Descends(node) {
        var children := node.body.value.children;
        var sub :| sub in children && s.IsMember(sub);
        assert HasMember(s, children);
        MembersShow(s, node.startRow, node.body.value, children, line);
      } else if s.Oversized(node) {
        assert NodeSources(s, node) == [Noted(node)];
      } else {
        assert Shows(NodeSources(s, node)[0], line) <==> HasTextIn(node, line);
      }
    }
  }

  lemma {:induction false} SourcesShow(s: Scope, nodes: seq<Node>, line: int)
    requires line in s.changed
    ensures AnyShows(Sources(s, nodes), line) <==>
              exists i | 0 <= i < |nodes| :: Touched(nodes[i], s.changed) && KeepsInView(s, nodes[i], line)
  {
    if nodes == [] {
    } else {
      var front, last := nodes[..|nodes| - 1], nodes[|nodes| - 1];
      SourcesShow(s, front, line);
      NodeShows(s, last, line);
      AnyShowsConcat(Sources(s, front), NodeSources(s, last), line);
      assert forall i | 0 <= i < |front| :: nodes[i] == front[i];
    }
  }

  /** Every item of the scoped chunks has its source, in order, and these sources show a changed line if
      and only if some touched node within budget has text in it, or it lies in the header of an oversized
      class that is descended into, or a boundary member of that class has text in it. The other changed
      lines are dropped: those of oversized nodes that only get a note, and those between the members of
      a class. */
  lemma ChangedLineInView(s: Scope, tree: Tree, line: int)
    requires line in s.changed && !tree.hasError
    ensures Flatten(s.Chunks(tree)) == ItemsFrom(s.path, Sources(s, tree.children))
    ensures AnyShows(Sources(s, tree.children), line) <==>
              exists i | 0 <= i < |tree.children| ::
                Touched(tree.children[i], s.changed) && KeepsInView(s, tree.children[i], line)
  {
    PackKeepsItems(s.Items(tree.children), s.max);
    ItemsFromSources(s, tree.children);
    SourcesShow(s, tree.children, line);
  }

  // ----- line 0 -----

  function WithoutZero(s: Scope): Scope {
    s.(changed := s.changed - {0})
  }

  lemma ZeroTouchesNothing(s: Scope, node: Node)
    ensures Touched(node, WithoutZero(s).changed) == Touched(node, s.changed)
  {
    if line :| line in s.changed && Spans(node, line) {
      assert line in WithoutZero(s).changed;
    }
  }

  lemma {:induction false} ZeroAddsNoMember(s: Scope, head: string, children: seq<Node>)
    ensures WithoutZero(s).Members(head, children) == s.Members(head, children)
  {
    if children == [] {
    } else {
      ZeroAddsNoMember(s, head, children[..|children| - 1]);
      ZeroTouchesNothing(s, children[|children| - 1]);
    }
  }

  lemma ZeroAddsNoItem(s: Scope, node: Node)
    ensures WithoutZero(s).NodeItems(node) == s.NodeItems(node)
  {
    ZeroTouchesNothing(s, node);
    if node.body.Some? {
      var head, children := node.body.value.head, node.body.value.children;
      ZeroAddsNoMember(s, head, children);
      MembersEmpty(s, head, children);
      MembersEmpty(WithoutZero(s), head, children);
    }
  }

  lemma {:induction false} ZeroAddsNoItems(s: Scope, nodes: seq<Node>)
    ensures WithoutZero(s).Items(nodes) == s.Items(nodes)
  {
    if nodes == [] {
    } else {
      ZeroAddsNoItems(s, nodes[..|nodes| - 1]);
      ZeroAddsNoItem(s, nodes[|nodes| - 1]);
    }
  }

  /** Line 0, which the tracker records for a file header, changes no chunk. */
  lemma ZeroIsHarmless(s: Scope, tree: Tree)
    ensures WithoutZero(s).Chunks(tree) == s.Chunks(tree)
  {
    ZeroAddsNoItems(s, tree.children);
  }
}
