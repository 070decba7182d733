/** Inputs on which the obvious claims about diffs, chunks and comments fail. */
module InputShortfalls {
  import opened Basics
  import opened TextLines
  import opened ChangedLines
  import P = Packing
  import C = Chunker
  import W = WholeFile
  import I = InlineComments

  // ----- diffs -----

  lemma OneHunk(base: seq<string>, h: Hunk)
    requires Fits(base, 0, 0, [h], 0)
    ensures TouchedLines(base, Patch(None, [h])) == Positions(h.edits, OldIndex(h))
    ensures AllRecorded([h]) == Recorded(h.edits, h.newStart)
  {
    assert [h][1..] == [];
    SpansTouch(base, 0, 0, [h]);
    assert SpansOf(0, 0, [h])[1..] == [];
  }

  lemma QuietLiteral(text: string)
    requires BreakFree(text)
    ensures Quiet(text)
  {
    BreakFreeLine(text);
  }

  lemma RemovalSides(text: string, lineNo: int)
    ensures var edits := [Removed(text)];
            && OldSide(edits) == [text] && NewSide(edits) == []
            && Recorded(edits, lineNo) == {lineNo} && Positions(edits, lineNo) == {lineNo + 1}
    ensures var edits := [Blank, Removed(text)];
            && OldSide(edits) == ["", text] && NewSide(edits) == [""]
            && Recorded(edits, lineNo) == {lineNo} && Positions(edits, lineNo) == {lineNo + 2}
  {
    var one, two := [Removed(text)], [Blank, Removed(text)];
    assert one[1..] == [] && two[1..] == one;
    assert OldSide(one) == [text] + OldSide([]) && NewSide(one) == NewSide([]);
    assert Recorded(one, lineNo) == {lineNo} + Recorded([], lineNo);
    assert Positions(one, lineNo) == {lineNo + 1} + Positions([], lineNo);
    assert Positions(one, lineNo + 1) == {lineNo + 2} + Positions([], lineNo + 1);
    assert OldSide(two) == [""] + OldSide(one) && NewSide(two) == [""] + NewSide(one);
  }

  /** A diff that empties a one-line file: the removal sits at line 1, and line 0 is recorded. */
  lemma EmptyRangeMisplaced()
    ensures var base, h := ["a"], Hunk(1, 0, [Removed("a")], "");
            && Fits(base, 0, 0, [h], 0) && QuietPatch(Patch(None, [h])) && Misplaced(h)
            && TouchedLines(base, Patch(None, [h])) == {1} && Changed(PatchText(Patch(None, [h]), true)) == {0}
  {
    var base, h := ["a"], Hunk(1, 0, [Removed("a")], "");
    RemovalSides("a", 0);
    FitsAlone(base, h);
    assert IsChange(h.edits[0]);
    QuietLiteral("a");
    QuietLiteral("");
    OneHunk(base, h);
    ChangedOfPatch(Patch(None, [h]), true);
  }

  /** A removal after an empty context line that is written as an empty raw line. */
  lemma EmptyRawLineMisplaces()
    ensures var base, h := ["", "b"], Hunk(1, 1, [Blank, Removed("b")], "");
            && Fits(base, 0, 0, [h], 0) && QuietPatch(Patch(None, [h])) && Misplaced(h)
            && TouchedLines(base, Patch(None, [h])) == {2} && Changed(PatchText(Patch(None, [h]), true)) == {1}
  {
    var base, h := ["", "b"], Hunk(1, 1, [Blank, Removed("b")], "");
    RemovalSides("b", 0);
    RemovalSides("b", 1);
    FitsAlone(base, h);
    assert h.edits[0].Blank? && IsChange(h.edits[1]);
    QuietLiteral("b");
    QuietLiteral("");
    OneHunk(base, h);
    ChangedOfPatch(Patch(None, [h]), true);
  }

  const FORM_FEED := '\U{0C}'

  /** A line that is cut in two by a form feed. */
  function Cut(before: string, after: string): string {
    before + [FORM_FEED] + after
  }

  lemma CutSplits(before: string, after: string, rest: string)
    requires BreakFree(before)
    ensures SplitLines(Cut(before, after) + "\n" + rest) == SplitLines(before + "\n" + (after + "\n" + rest))
  {
    SplitAfterLine(Cut(before, after), rest);
    SplitAfterLine(before, after + "\n" + rest);
    SplitAfterLine(after, rest);
    BreakFreeLine(before);
    CutFragments(before, after);
  }

  lemma CutFragments(before: string, after: string)
    requires BreakFree(before)
    ensures Fragments(Cut(before, after)) == [before] + Fragments(after)
  {
    var line := Cut(before, after);
    SplitAtBreak(before, FORM_FEED, after);
    assert Fragments(line) == [First(line)] + Later(line);
  }

  /** In a text, a raw context line that is cut before a blank counts as two. */
  lemma CutIsTwoLines(head: string, before: string, after: string, tail: seq<string>)
    requires BreakFree(before)
    ensures SplitLines(Text([head, " " + Cut(before, " " + after)] + tail, true))
         == SplitLines(Text([head, " " + before, " " + after] + tail, true))
  {
    var line, rest := " " + Cut(before, " " + after), Text(tail, true);
    var lines, split := [head, line] + tail, [head, " " + before, " " + after] + tail;
    assert lines[1..] == [line] + tail && lines[1..][1..] == tail;
    assert split[1..] == [" " + before, " " + after] + tail;
    assert split[1..][1..] == [" " + after] + tail && split[1..][1..][1..] == tail;
    assert Text(split[1..][1..], true) == " " + after + "\n" + rest;
    assert Text(split[1..], true) == " " + before + "\n" + (" " + after + "\n" + rest);
    assert Text(lines[1..], true) == line + "\n" + rest;
    assert line == Cut(" " + before, " " + after);
    CutSplits(" " + before, " " + after, rest);
    SplitAfterLine(head, Text(lines[1..], true));
    SplitAfterLine(head, Text(split[1..], true));
  }

  lemma FitsAlone(base: seq<string>, h: Hunk)
    requires base != [] && OldSide(h.edits) == base && h.oldStart == 1
    requires h.newStart == (if NewSide(h.edits) == [] then 0 else 1)
    ensures Fits(base, 0, 0, [h], 0) && OldIndex(h) == 0
  {
    assert base[0..|base|] == base;
    assert [h][1..] == [];
  }

  /** A context line that is cut, perhaps a `gap`, and an added line. */
  function CutHunk(line: string, gap: seq<Edit>, added: string): Hunk {
    Hunk(1, 1, [Context(line)] + gap + [Added(added)], "")
  }

  lemma CutSides(line: string, added: string)
    ensures var edits := CutHunk(line, [], added).edits;
            OldSide(edits) == [line] && NewSide(edits) == [line, added] && Positions(edits, 0) == {2}
    ensures var edits := CutHunk(line, [Blank], added).edits;
            OldSide(edits) == [line, ""] && NewSide(edits) == [line, "", added] && Positions(edits, 0) == {3}
  {
    var edits, rest := CutHunk(line, [], added).edits, [Added(added)];
    assert edits == [Context(line), Added(added)] && edits[1..] == rest && rest[1..] == [];
    assert OldSide(rest) == OldSide([]) && NewSide(rest) == [added] + NewSide([]);
    assert Positions(rest, 1) == {2} + Positions([], 2) && Positions(rest, 2) == {3} + Positions([], 3);
    var edits', rest' := CutHunk(line, [Blank], added).edits, [Blank, Added(added)];
    assert edits' == [Context(line), Blank, Added(added)] && edits'[1..] == rest' && rest'[1..] == rest;
    assert Positions(rest', 1) == Positions(rest, 2);
    assert OldSide(rest') == [""] + OldSide(rest) && NewSide(rest') == [""] + NewSide(rest);
  }

  lemma RawCut(line: string, added: string)
    ensures RawHeader(None) + Render([CutHunk(line, [], added)])
         == [Header(CutHunk(line, [], added)), " " + line, "+" + added]
    ensures RawHeader(None) + Render([CutHunk(line, [Blank], added)])
         == [Header(CutHunk(line, [Blank], added)), " " + line, "", "+" + added]
  {
    var edits, edits' := CutHunk(line, [], added).edits, CutHunk(line, [Blank], added).edits;
    assert edits == [Context(line), Added(added)] && edits[1..] == [Added(added)];
    assert edits' == [Context(line), Blank, Added(added)] && edits'[1..] == [Blank, Added(added)];
    assert edits'[1..][1..] == [Added(added)];
    assert RawEdits([Added(added)]) == ["+" + added] + RawEdits([]);
    assert RawEdits(edits'[1..]) == [""] + RawEdits([Added(added)]);
  }

  lemma ContextReadsAs(text: string)
    requires BreakFree(text)
    ensures ReadsAs(" " + text, Space)
  {
    QuietLiteral(text);
    EditReadsAs(Context(text));
  }

  lemma AddedReadsAs(text: string)
    requires BreakFree(text)
    ensures ReadsAs("+" + text, Plus)
  {
    QuietLiteral(text);
    EditReadsAs(Added(text));
  }

  lemma Pair<A, B>(r: (A, B) -> bool, a: A, b: B, rest: seq<A>, rest': seq<B>)
    requires r(a, b) && Pairwise(r, rest, rest')
    ensures Pairwise(r, [a] + rest, [b] + rest')
  {
  }

  lemma CutReadsAs(h: Hunk, before: string, after: string, added: string)
    requires BreakFree(before) && BreakFree(after) && BreakFree(added) && h.section == "" && h.newStart == 1
    ensures AllReadAs([Header(h), " " + before, " " + after, "+" + added], [HeaderMark(1), Space, Space, Plus])
    ensures AllReadAs([Header(h), " " + before, " " + after, "", "+" + added],
                      [HeaderMark(1), Space, Space, Other, Plus])
  {
    QuietLiteral("");
    HeaderReadsAs(h);
    ContextReadsAs(before);
    ContextReadsAs(after);
    AddedReadsAs(added);
    EditReadsAs(Blank);
    var head, marks := [Header(h), " " + before, " " + after], [HeaderMark(1), Space, Space];
    ThreePairs(ReadsAs, head, marks);
    OnePair(ReadsAs, "+" + added, Plus);
    Pair(ReadsAs, "", Other, ["+" + added], [Plus]);
    ReadConcat(head, ["+" + added], marks, [Plus]);
    ReadConcat(head, ["", "+" + added], marks, [Other, Plus]);
    assert head + ["+" + added] == [Header(h), " " + before, " " + after, "+" + added];
    assert head + ["", "+" + added] == [Header(h), " " + before, " " + after, "", "+" + added];
    assert marks + [Plus] == [HeaderMark(1), Space, Space, Plus];
    assert marks + [Other, Plus] == [HeaderMark(1), Space, Space, Other, Plus];
  }

  lemma OnePair<A, B>(r: (A, B) -> bool, a: A, b: B)
    requires r(a, b)
    ensures Pairwise(r, [a], [b])
  {
  }

  lemma ThreePairs<A, B>(r: (A, B) -> bool, a: seq<A>, b: seq<B>)
    requires |a| == |b| == 3 && r(a[0], b[0]) && r(a[1], b[1]) && r(a[2], b[2])
    ensures Pairwise(r, a, b)
  {
  }

  lemma ScanCut()
    ensures Scan([HeaderMark(1), Space, Space, Plus], 0) == {3}
    ensures Scan([HeaderMark(1), Space, Space, Other, Plus], 0) == {3}
  {
    var marks := [HeaderMark(1), Space, Space, Plus];
    assert marks[1..] == [Space, Space, Plus] && marks[1..][1..] == [Space, Plus];
    assert marks[1..][1..][1..] == [Plus] && [Plus][1..] == [];
    var marks' := [HeaderMark(1), Space, Space, Other, Plus];
    assert marks'[1..] == [Space, Space, Other, Plus] && marks'[1..][1..] == [Space, Other, Plus];
    assert marks'[1..][1..][1..] == [Other, Plus] && [Other, Plus][1..] == [Plus];
  }

  lemma CutChanged(before: string, after: string, added: string)
    requires BreakFree(before) && BreakFree(after) && BreakFree(added)
    ensures var h := CutHunk(Cut(before, " " + after), [], added); Changed(PatchText(Patch(None, [h]), true)) == {3}
  {
    var line := Cut(before, " " + after);
    var h := CutHunk(line, [], added);
    RawCut(line, added);
    CutIsTwoLines(Header(h), before, after, ["+" + added]);
    assert [Header(h), " " + line] + ["+" + added] == [Header(h), " " + line, "+" + added];
    var split := [Header(h), " " + before, " " + after, "+" + added];
    assert [Header(h), " " + before, " " + after] + ["+" + added] == split;
    CutReadsAs(h, before, after, added);
    ScanText(split, [HeaderMark(1), Space, Space, Plus], true, 0);
    ScanCut();
  }

  lemma CutBlankChanged(before: string, after: string, added: string)
    requires BreakFree(before) && BreakFree(after) && BreakFree(added)
    ensures var h := CutHunk(Cut(before, " " + after), [Blank], added);
            Changed(PatchText(Patch(None, [h]), true)) == {3}
  {
    var line := Cut(before, " " + after);
    var h := CutHunk(line, [Blank], added);
    RawCut(line, added);
    CutIsTwoLines(Header(h), before, after, ["", "+" + added]);
    assert [Header(h), " " + line] + ["", "+" + added] == [Header(h), " " + line, "", "+" + added];
    var split := [Header(h), " " + before, " " + after, "", "+" + added];
    assert [Header(h), " " + before, " " + after] + ["", "+" + added] == split;
    CutReadsAs(h, before, after, added);
    ScanText(split, [HeaderMark(1), Space, Space, Other, Plus], true, 0);
    ScanCut();
  }

  /** A form feed inside a context line, with a blank after it, counts as a line of its own, and puts the
      added line one too far: the reason why texts must be quiet. */
  lemma InnerBreakMisplaces(before: string, after: string, added: string)
    requires BreakFree(before) && BreakFree(after) && BreakFree(added)
    ensures var line := Cut(before, " " + after);
            var base, h := [line], CutHunk(line, [], added);
            && Fits(base, 0, 0, [h], 0) && !Misplaced(h)
            && TouchedLines(base, Patch(None, [h])) == {2} && Changed(PatchText(Patch(None, [h]), true)) == {3}
  {
    var line := Cut(before, " " + after);
    CutFits(line, added);
    CutChanged(before, after, added);
  }

  lemma CutFits(line: string, added: string)
    ensures var h := CutHunk(line, [], added);
            Fits([line], 0, 0, [h], 0) && !Misplaced(h) && TouchedLines([line], Patch(None, [h])) == {2}
    ensures var h := CutHunk(line, [Blank], added);
            Fits([line, ""], 0, 0, [h], 0) && Misplaced(h) && TouchedLines([line, ""], Patch(None, [h])) == {3}
  {
    var h, h' := CutHunk(line, [], added), CutHunk(line, [Blank], added);
    CutSides(line, added);
    FitsAlone([line], h);
    FitsAlone([line, ""], h');
    OneHunk([line], h);
    OneHunk([line, ""], h');
    forall i | 0 <= i < |h.edits| ensures !h.edits[i].Blank? {
      assert i == 0 || i == 1;
    }
    assert !BlankBeforeChange(h.edits);
    assert h'.edits[1].Blank? && IsChange(h'.edits[2]);
  }

  /** Two faults may cancel out: with an empty raw line after the cut one, the added line is recorded
      where it belongs, although its hunk is misplaced. */
  lemma FaultsCancelOut(before: string, after: string, added: string)
    requires BreakFree(before) && BreakFree(after) && BreakFree(added)
    ensures var line := Cut(before, " " + after);
            var base, h := [line, ""], CutHunk(line, [Blank], added);
            && Fits(base, 0, 0, [h], 0) && Misplaced(h)
            && TouchedLines(base, Patch(None, [h])) == {3} == Changed(PatchText(Patch(None, [h]), true))
  {
    CutFits(Cut(before, " " + after), added);
    CutBlankChanged(before, after, added);
  }

  // ----- chunks -----

  /** A text of more than `max` estimated tokens. */
  function Long(max: nat): string {
    seq(4 * (max + 1), _ => 'x')
  }

  function Method(row: nat): C.Node {
    C.Node("function_definition", "def f(self): pass", row, row, row, None)
  }

  /** A class in rows 0 to 3 with a one-line method in row 1, a field in row 2, and more text than fits. */
  function BigClass(max: nat): C.Node {
    var field := C.Node("expression_statement", "x = 1", 2, 2, 2, None);
    C.Node("class_definition", Long(max), 0, 3, 3, Some(C.Body("class A:", 0, [Method(1), field])))
  }

  lemma OneNode(s: C.Scope, node: C.Node)
    ensures s.Items([node]) == s.NodeItems(node) && C.Sources(s, [node]) == C.NodeSources(s, node)
  {
    assert [node][..0] == [];
  }

  /** Of the class body only the method is touched and a member. */
  lemma MembersOfBig(s: C.Scope, max: nat)
    requires s == C.Scope("a.py", C.BoundaryTypes(".py"), {2, 3}, max)
    ensures var children := BigClass(max).body.value.children;
            && s.Members("class A:", children) == [P.Piece("class A:" + "\n" + Method(1).text)]
            && s.IsMember(children[0]) && !s.IsMember(children[1])
  {
    var children := BigClass(max).body.value.children;
    assert C.Spans(Method(1), 2);
    assert children[..1] == [Method(1)] && children[..1][..0] == [];
    assert s.Members("class A:", children[..1]) == [P.Piece("class A:" + "\n" + Method(1).text)];
  }

  function FieldEdit(max: nat): C.Scope {
    C.Scope("a.py", C.BoundaryTypes(".py"), {2, 3}, max)
  }

  lemma BigDescends(max: nat)
    ensures C.Touched(BigClass(max), FieldEdit(max).changed) && FieldEdit(max).Descends(BigClass(max))
  {
    var node := BigClass(max);
    MembersOfBig(FieldEdit(max), max);
    assert C.Spans(node, 2);
    var sub := node.body.value.children[0];
    assert sub in node.body.value.children && FieldEdit(max).IsMember(sub);
  }

  lemma BigKeeps(max: nat)
    ensures C.KeepsInView(FieldEdit(max), BigClass(max), 2) && !C.KeepsInView(FieldEdit(max), BigClass(max), 3)
  {
    BigDescends(max);
    var children := BigClass(max).body.value.children;
    assert C.HasTextIn(children[0], 2) && !C.Spans(children[0], 3) && children[1].kind !in FieldEdit(max).boundary;
    assert C.InMember(FieldEdit(max).boundary, children, 2);
  }

  /** Editing the method and the field of that class shows the header and the method alone: line 3, the
      field, is changed and not in view. */
  lemma FieldDropped(max: nat)
    ensures var s, tree := FieldEdit(max), C.Tree([BigClass(max)], false);
            && P.Flatten(s.Chunks(tree)) == [P.Piece("class A:" + "\n" + Method(1).text)]
            && C.AnyShows(C.Sources(s, tree.children), 2) && !C.AnyShows(C.Sources(s, tree.children), 3)
  {
    var s, node := FieldEdit(max), BigClass(max);
    MembersOfBig(s, max);
    BigDescends(max);
    BigKeeps(max);
    OneNode(s, node);
    P.PackKeepsItems(s.Items([node]), s.max);
    C.NodeShows(s, node, 2);
    C.NodeShows(s, node, 3);
  }

  /** An oversized function is touched, and its changed line is not in view: there is only a note. */
  lemma FunctionDropped(max: nat)
    ensures var node := C.Node("function_definition", Long(max), 0, 3, 3, None);
            var s := C.Scope("a.py", C.BoundaryTypes(".py"), {2}, max);
            && P.Flatten(s.Chunks(C.Tree([node], false))) == [P.Skip(C.SkipNote("a.py", node))]
            && !C.AnyShows(C.Sources(s, [node]), 2)
  {
    var node := C.Node("function_definition", Long(max), 0, 3, 3, None);
    var s := C.Scope("a.py", C.BoundaryTypes(".py"), {2}, max);
    assert C.Spans(node, 2);
    OneNode(s, node);
    P.PackKeepsItems(s.Items([node]), s.max);
    C.NodeShows(s, node, 2);
  }

  /** Touching goes by points, with the end point included: a node that ends at the start of row 2, after
      the newline of row 1, is touched by line 3 and shown for it, though none of its text is there. */
  lemma NewlineTouched()
    ensures var node := C.Node("\n", "\n", 1, 2, 1, None);
            var s := C.Scope("a.go", C.BoundaryTypes(".go"), {3}, 1);
            && P.Flatten(s.Chunks(C.Tree([node], false))) == [P.Piece("\n")]
            && !C.AnyShows(C.Sources(s, [node]), 3)
  {
    var node := C.Node("\n", "\n", 1, 2, 1, None);
    var s := C.Scope("a.go", C.BoundaryTypes(".go"), {3}, 1);
    assert C.Spans(node, 3);
    OneNode(s, node);
    P.PackKeepsItems(s.Items([node]), s.max);
    C.NodeShows(s, node, 3);
  }

  /** Whatever the budget, a class over it whose one method is over it too becomes a chunk over it: the
      method, alone. */
  lemma LongMethodOverBudget(max: nat)
    ensures var s, sub := W.Splitter("a.py", C.BoundaryTypes(".py"), max), LongMethod(max);
            var outs := s.Outs([ClassOf(sub)]);
            && outs == [W.Alone(sub)] && W.OverBudget(s, W.Alone(sub))
            && W.OutTexts("a.py", outs) == ["FILE: a.py\n" + sub.text]
  {
    var s, sub := W.Splitter("a.py", C.BoundaryTypes(".py"), max), LongMethod(max);
    var node := ClassOf(sub);
    assert [node][..0] == [] && [sub][..0] == [];
    assert sub in [sub];
    assert s.Split(node) == s.MemberChunks([sub]) == [W.Alone(sub)];
    assert s.Run([node]) == W.Flow([W.Alone(sub)], []);
    assert "FILE: " + "a.py" + "\n" == "FILE: a.py\n";
  }

  function LongMethod(max: nat): C.Node {
    C.Node("function_definition", Long(max), 1, 1, 1, None)
  }

  function ClassOf(sub: C.Node): C.Node {
    C.Node("class_definition", "class A:\n" + sub.text, 0, 1, 1, Some(C.Body("class A:", 0, [sub])))
  }

  /** Whatever the budget, a file with one long statement becomes one chunk past it. */
  lemma LongStatementOverBudget(max: nat)
    ensures var s := W.Splitter("a.py", C.BoundaryTypes(".py"), max);
            var node := C.Node("expression_statement", Long(max), 0, 0, 0, None);
            s.Outs([node]) == [W.Packed([node])] && W.OverBudget(s, W.Packed([node]))
  {
    var s := W.Splitter("a.py", C.BoundaryTypes(".py"), max);
    var node := C.Node("expression_statement", Long(max), 0, 0, 0, None);
    assert [node][..0] == [] && [] + [node] == [node];
    assert W.Texts([node]) == [node.text] && [node.text][..0] == [];
    assert s.Run([node]) == W.Flow([], [node]);
  }

  // ----- comments -----

  /** A cap of zero keeps one comment. */
  lemma CapOfZeroKeepsOne(c: I.Comment)
    requires I.Candidate(c, "WARNING")
    ensures |I.Selection([c], "WARNING", 0)| == 1
  {
    I.SelectionDominates([c], "WARNING", 0);
    assert c in [c];
  }
}
