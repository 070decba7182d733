/** parse_changed_lines: which new-file lines a unified diff touches, and how that relates to applying
    the diff. */
module ChangedLines {
  import opened Basics
  import opened TextLines
  import D = Decimal

  // ----- HUNK_HEADER_RE -----

  function After(literal: string, s: string): Option<string> {
    if literal <= s then Some(s[|literal|..]) else None
  }

  /** `\d+(?:,\d+)?` at the start of `s`: the first number and what follows the range. */
  function TakeRange(s: string): Option<(nat, string)> {
    var first := D.Digits(s);
    var rest := s[|first|..];
    if first == "" then None
    else if rest != "" && rest[0] == ',' then
      var second := D.Digits(rest[1..]);
      if second == "" then None else Some((D.Parse(first), rest[1..][|second|..]))
    else Some((D.Parse(first), rest))
  }

  /** The first group of HUNK_HEADER_RE, when the line matches it. */
  function HunkStart(raw: string): Option<nat> {
    match After("@@ -", raw)
    case None => None
    case Some(s) =>
      match TakeRange(s)
      case None => None
      case Some((_, s)) =>
        match After(" +", s)
        case None => None
        case Some(s) =>
          match TakeRange(s)
          case None => None
          case Some((start, s)) => if After(" @@", s).Some? then Some(start) else None
  }

  // ----- the tracker -----

  /** How the tracker reads one raw line. */
  datatype Mark = HeaderMark(start: nat) | Plus | Minus | Space | Other

  function Kind(raw: string): Mark {
    match HunkStart(raw)
    case Some(start) => HeaderMark(start)
    case None =>
      if raw == "" then Other
      else if raw[0] == '+' then Plus
      else if raw[0] == '-' then Minus
      else if raw[0] == ' ' then Space
      else Other
  }

  function Map<A, B>(f: A -> B, s: seq<A>): seq<B> {
    seq(|s|, i requires 0 <= i < |s| => f(s[i]))
  }

  function Marks(lines: seq<string>): seq<Mark> {
    Map(Kind, lines)
  }

  /** The lines recorded from here on, when the counter stands at `lineNo`. */
  function Scan(marks: seq<Mark>, lineNo: int): set<int> {
    if marks == [] then {}
    else match marks[0]
      case HeaderMark(start) => Scan(marks[1..], start)
      case Plus => {lineNo} + Scan(marks[1..], lineNo + 1)
      case Minus => {lineNo} + Scan(marks[1..], lineNo)
      case Space => Scan(marks[1..], lineNo + 1)
      case Other => Scan(marks[1..], lineNo)
  }

  /** The result of parse_changed_lines. */
  function Changed(patch: string): set<int> {
    Scan(Marks(SplitLines(patch)), 0)
  }

  method ParseChangedLines(patch: string) returns (changed: set<int>)
    ensures changed == Changed(patch)
  {
    changed := {};
    var lineNo := 0;
    var lines := SplitLines(patch);
    for i := 0 to |lines|
      invariant Changed(patch) == changed + Scan(Marks(lines)[i..], lineNo)
    {
      var raw := lines[i];
      assert Marks(lines)[i..][0] == Kind(raw) && Marks(lines)[i..][1..] == Marks(lines)[i + 1..];
      var header := HunkStart(raw);
      if header.Some? {
        lineNo := header.value;
        continue;
      }
      if raw == "" {
        continue;
      }
      var marker := raw[0];
      if marker == '+' {
        changed := changed + {lineNo};
        lineNo := lineNo + 1;
      } else if marker == '-' {
        changed := changed + {lineNo};
      } else if marker == ' ' {
        lineNo := lineNo + 1;
      }
    }
  }

  // ----- unified diffs: POSIX.1-2008 diff, "Diff -u or -U Output Format" -----

  /** `Blank` is an empty context line written as an empty raw line, which the format permits; `NoNewline`
      is the remark that the file does not end in a newline. */
  datatype Edit =
    | Context(text: string)
    | Blank
    | Added(text: string)
    | Removed(text: string)
    | NoNewline(text: string)

  datatype Hunk = Hunk(oldStart: nat, newStart: nat, edits: seq<Edit>, section: string)

  /** The two lines that name the files, and what a tool may write before them. */
  datatype DiffHeader = DiffHeader(notes: seq<string>, oldName: string, newName: string)

  /** The patches of a pull request's files come without the file header; those of `diff` and `git diff`
      have it. */
  datatype Patch = Patch(header: Option<DiffHeader>, hunks: seq<Hunk>)

  function OldSide(edits: seq<Edit>): seq<string> {
    if edits == [] then []
    else match edits[0]
      case Context(text) => [text] + OldSide(edits[1..])
      case Blank => [""] + OldSide(edits[1..])
      case Removed(text) => [text] + OldSide(edits[1..])
      case _ => OldSide(edits[1..])
  }

  function NewSide(edits: seq<Edit>): seq<string> {
    if edits == [] then []
    else match edits[0]
      case Context(text) => [text] + NewSide(edits[1..])
      case Blank => [""] + NewSide(edits[1..])
      case Added(text) => [text] + NewSide(edits[1..])
      case _ => NewSide(edits[1..])
  }

  function RawEdit(e: Edit): string {
    match e
    case Context(text) => " " + text
    case Blank => ""
    case Added(text) => "+" + text
    case Removed(text) => "-" + text
    case NoNewline(text) => "\\" + text
  }

  /** A range and what follows it; a count of one is left out. */
  function RangeText(start: nat, count: nat, rest: string): string {
    D.Print(start) + if count == 1 then rest else "," + (D.Print(count) + rest)
  }

  function Header(h: Hunk): string {
    "@@ -" + RangeText(h.oldStart, |OldSide(h.edits)|,
                       " +" + RangeText(h.newStart, |NewSide(h.edits)|, " @@" + h.section))
  }

  function RawEdits(edits: seq<Edit>): seq<string> {
    if edits == [] then [] else [RawEdit(edits[0])] + RawEdits(edits[1..])
  }

  function Render(hunks: seq<Hunk>): seq<string> {
    if hunks == [] then [] else [Header(hunks[0])] + RawEdits(hunks[0].edits) + Render(hunks[1..])
  }

  function RawHeader(header: Option<DiffHeader>): seq<string> {
    match header
    case None => []
    case Some(h) => h.notes + ["--- " + h.oldName, "+++ " + h.newName]
  }

  /** The whole patch; its last line may lack a newline. */
  function PatchText(p: Patch, closed: bool): string {
    Text(RawHeader(p.header) + Render(p.hunks), closed)
  }

  // ----- reading back what Render wrote -----

  /** Printed digits followed by something else are read back whole. */
  lemma DigitsOfPrint(n: nat, rest: string)
    requires rest != "" && !D.IsDigit(rest[0])
    ensures var s := D.Print(n) + rest;
            D.Digits(s) == D.Print(n) && D.Parse(D.Digits(s)) == n && s[|D.Digits(s)|..] == rest
  {
    D.DigitsOfConcat(D.Print(n), rest);
    D.ParsePrint(n);
  }

  lemma TakeRangeOfText(start: nat, count: nat, rest: string)
    requires rest != "" && !D.IsDigit(rest[0]) && rest[0] != ','
    ensures TakeRange(RangeText(start, count, rest)) == Some((start, rest))
  {
    if count == 1 {
      DigitsOfPrint(start, rest);
    } else {
      var tail := "," + (D.Print(count) + rest);
      DigitsOfPrint(start, tail);
      assert tail[1..] == D.Print(count) + rest;
      DigitsOfPrint(count, rest);
    }
  }

  lemma AfterLiteral(literal: string, s: string)
    ensures After(literal, literal + s) == Some(s)
  {
  }

  /** A rendered header is recognised and yields its new-file start. */
  lemma HeaderRoundTrip(h: Hunk)
    ensures HunkStart(Header(h)) == Some(h.newStart)
  {
    var tail := " @@" + h.section;
    var newRange := RangeText(h.newStart, |NewSide(h.edits)|, tail);
    var oldRange := RangeText(h.oldStart, |OldSide(h.edits)|, " +" + newRange);
    AfterLiteral("@@ -", oldRange);
    TakeRangeOfText(h.oldStart, |OldSide(h.edits)|, " +" + newRange);
    AfterLiteral(" +", newRange);
    TakeRangeOfText(h.newStart, |NewSide(h.edits)|, tail);
    AfterLiteral(" @@", h.section);
  }

  // ----- what the header pattern matches -----

  ghost predicate Number(s: string) {
    s != "" && forall i | 0 <= i < |s| :: '0' <= s[i] <= '9'
  }

  /** The optional second half of a range. */
  ghost predicate CountPart(s: string) {
    s == "" || (s[0] == ',' && Number(s[1..]))
  }

  /** `raw` is a header whose parts are these, and `rest` whatever follows. */
  ghost predicate HeaderOf(raw: string, was: string, wasCount: string, now: string, nowCount: string, rest: string) {
    && Number(was) && CountPart(wasCount) && Number(now) && CountPart(nowCount)
    && raw == "@@ -" + (was + (wasCount + (" +" + (now + (nowCount + (" @@" + rest))))))
  }

  lemma {:induction false} DigitsWhole(number: string, rest: string)
    requires Number(number) && rest != "" && !D.IsDigit(rest[0])
    ensures D.Digits(number + rest) == number && (number + rest)[|number|..] == rest
  {
    D.DigitsOfConcat(number, rest);
  }

  lemma TakeNumberOf(number: string, rest: string)
    requires Number(number) && rest != "" && !D.IsDigit(rest[0]) && rest[0] != ','
    ensures TakeRange(number + rest) == Some((D.Parse(number), rest))
  {
    DigitsWhole(number, rest);
  }

  lemma TakePairOf(number: string, second: string, rest: string)
    requires Number(number) && Number(second) && rest != "" && !D.IsDigit(rest[0])
    ensures TakeRange(number + ("," + (second + rest))) == Some((D.Parse(number), rest))
  {
    var tail := "," + (second + rest);
    assert tail[0] == ',' && tail[1..] == second + rest;
    DigitsWhole(number, tail);
    DigitsWhole(second, rest);
  }

  lemma CommaFirst(count: string, rest: string)
    requires count != "" && CountPart(count)
    ensures Number(count[1..]) && count + rest == "," + (count[1..] + rest)
  {
    assert count == "," + count[1..];
  }

  lemma TakeRangeOf(number: string, count: string, rest: string)
    requires Number(number) && CountPart(count) && rest != "" && !D.IsDigit(rest[0]) && rest[0] != ','
    ensures TakeRange(number + (count + rest)) == Some((D.Parse(number), rest))
  {
    if count == "" {
      assert "" + rest == rest;
      TakeNumberOf(number, rest);
    } else {
      CommaFirst(count, rest);
      TakePairOf(number, count[1..], rest);
    }
  }

  lemma DigitsSplit(s: string)
    ensures s == D.Digits(s) + s[|D.Digits(s)|..]
    ensures D.Digits(s) != "" ==> Number(D.Digits(s))
  {
  }

  lemma Rejoin(number: string, second: string, tail: string)
    requires Number(second)
    ensures CountPart("," + second) && number + ("," + (second + tail)) == number + (("," + second) + tail)
  {
    assert ("," + second)[1..] == second;
  }

  /** A range that is read is one, and nothing but it is taken. */
  lemma TakeRangeParts(s: string) returns (number: string, count: string)
    requires TakeRange(s).Some?
    ensures Number(number) && CountPart(count) && s == number + (count + TakeRange(s).value.1)
    ensures TakeRange(s).value.0 == D.Parse(number)
  {
    number := D.Digits(s);
    var rest := s[|number|..];
    DigitsSplit(s);
    if rest != "" && rest[0] == ',' {
      var second := D.Digits(rest[1..]);
      DigitsSplit(rest[1..]);
      assert rest == "," + rest[1..];
      count := "," + second;
      Rejoin(number, second, rest[1..][|second|..]);
    } else {
      count := "";
      assert count + rest == rest;
    }
  }

  /** A line is a header exactly if it has the parts of one, and its start is then the number in the new
      range. */
  lemma HunkStartExact(raw: string, start: nat)
    ensures HunkStart(raw) == Some(start) <==>
              exists was: string, wasCount, now: string, nowCount, rest ::
                HeaderOf(raw, was, wasCount, now, nowCount, rest) && D.Parse(now) == start
  {
    if HunkStart(raw) == Some(start) {
      HunkStartParts(raw, start);
    }
    forall was: string, wasCount, now: string, nowCount, rest | HeaderOf(raw, was, wasCount, now, nowCount, rest)
      ensures HunkStart(raw) == Some(D.Parse(now))
    {
      HunkStartOf(raw, was, wasCount, now, nowCount, rest);
    }
  }

  lemma HunkStartOf(raw: string, was: string, wasCount: string, now: string, nowCount: string, rest: string)
    requires HeaderOf(raw, was, wasCount, now, nowCount, rest)
    ensures HunkStart(raw) == Some(D.Parse(now))
  {
    var tail := " @@" + rest;
    var newRange := now + (nowCount + tail);
    var oldRange := was + (wasCount + (" +" + newRange));
    AfterLiteral("@@ -", oldRange);
    TakeRangeOf(was, wasCount, " +" + newRange);
    AfterLiteral(" +", newRange);
    TakeRangeOf(now, nowCount, tail);
    AfterLiteral(" @@", rest);
  }

  /** A rendered header has the parts of one: both starts, and the number of lines on each side. */
  lemma HeaderParts(h: Hunk)
    ensures HeaderOf(Header(h), D.Print(h.oldStart), CountText(|OldSide(h.edits)|),
                     D.Print(h.newStart), CountText(|NewSide(h.edits)|), h.section)
  {
    CountIsPart(|OldSide(h.edits)|);
    CountIsPart(|NewSide(h.edits)|);
    var tail := " @@" + h.section;
    RangeParts(h.newStart, |NewSide(h.edits)|, tail);
    RangeParts(h.oldStart, |OldSide(h.edits)|, " +" + RangeText(h.newStart, |NewSide(h.edits)|, tail));
  }

  /** A count of one is left out. */
  function CountText(count: nat): string {
    if count == 1 then "" else "," + D.Print(count)
  }

  lemma CountIsPart(count: nat)
    ensures CountPart(CountText(count))
  {
    if count != 1 {
      assert CountText(count)[1..] == D.Print(count);
    }
  }

  lemma RangeParts(start: nat, count: nat, rest: string)
    ensures RangeText(start, count, rest) == D.Print(start) + (CountText(count) + rest)
  {
    if count == 1 {
      assert CountText(count) + rest == rest;
    }
  }

  lemma AfterParts(literal: string, s: string)
    ensures After(literal, s).Some? ==> s == literal + After(literal, s).value
  {
  }

  lemma HunkStartParts(raw: string, start: nat)
    requires HunkStart(raw) == Some(start)
    ensures exists was: string, wasCount, now: string, nowCount, rest ::
              HeaderOf(raw, was, wasCount, now, nowCount, rest) && D.Parse(now) == start
  {
    AfterParts("@@ -", raw);
    var oldRange := After("@@ -", raw).value;
    var was, wasCount := TakeRangeParts(oldRange);
    var afterOld := TakeRange(oldRange).value.1;
    AfterParts(" +", afterOld);
    NewRangeParts(raw, was, wasCount, After(" +", afterOld).value, start);
  }

  lemma NewRangeParts(raw: string, was: string, wasCount: string, newRange: string, start: nat)
    requires Number(was) && CountPart(wasCount) && raw == "@@ -" + (was + (wasCount + (" +" + newRange)))
    requires TakeRange(newRange).Some? && TakeRange(newRange).value.0 == start
    requires After(" @@", TakeRange(newRange).value.1).Some?
    ensures exists was: string, wasCount, now: string, nowCount, rest ::
              HeaderOf(raw, was, wasCount, now, nowCount, rest) && D.Parse(now) == start
  {
    var now, nowCount := TakeRangeParts(newRange);
    var tail := TakeRange(newRange).value.1;
    AfterParts(" @@", tail);
    assert HeaderOf(raw, was, wasCount, now, nowCount, After(" @@", tail).value);
  }

  ghost function EditMark(e: Edit): Mark {
    match e
    case Context(_) => Space
    case Added(_) => Plus
    case Removed(_) => Minus
    case _ => Other
  }

  /** No edit line is mistaken for a header, whatever its text. */
  lemma KindOfEdit(e: Edit)
    ensures Kind(RawEdit(e)) == EditMark(e)
  {
    var raw := RawEdit(e);
    assert raw == "" || raw[0] != '@';
    assert HunkStart(raw) == None;
  }

  ghost function EditMarks(edits: seq<Edit>): seq<Mark> {
    if edits == [] then [] else [EditMark(edits[0])] + EditMarks(edits[1..])
  }

  ghost function HunkMarks(hunks: seq<Hunk>): seq<Mark> {
    if hunks == [] then []
    else [HeaderMark(hunks[0].newStart)] + EditMarks(hunks[0].edits) + HunkMarks(hunks[1..])
  }

  lemma MapConcat<A, B>(f: A -> B, a: seq<A>, b: seq<A>)
    ensures Map(f, a + b) == Map(f, a) + Map(f, b)
  {
  }

  lemma MapOne<A, B>(f: A -> B, x: A)
    ensures Map(f, [x]) == [f(x)]
  {
  }

  /** What the tracker records in one hunk, its counter starting at `lineNo`. */
  function Recorded(edits: seq<Edit>, lineNo: int): set<int> {
    if edits == [] then {}
    else match edits[0]
      case Context(_) => Recorded(edits[1..], lineNo + 1)
      case Added(_) => {lineNo} + Recorded(edits[1..], lineNo + 1)
      case Removed(_) => {lineNo} + Recorded(edits[1..], lineNo)
      case _ => Recorded(edits[1..], lineNo)
  }

  function AllRecorded(hunks: seq<Hunk>): set<int> {
    if hunks == [] then {} else Recorded(hunks[0].edits, hunks[0].newStart) + AllRecorded(hunks[1..])
  }

  lemma {:induction false} ScanEdits(edits: seq<Edit>, more: seq<Hunk>, lineNo: int)
    requires forall n :: Scan(HunkMarks(more), n) == AllRecorded(more)
    ensures Scan(EditMarks(edits) + HunkMarks(more), lineNo) == Recorded(edits, lineNo) + AllRecorded(more)
  {
    var marks := EditMarks(edits) + HunkMarks(more);
    if edits == [] {
      assert marks == HunkMarks(more);
    } else {
      assert marks[1..] == EditMarks(edits[1..]) + HunkMarks(more);
      ScanEdits(edits[1..], more, if edits[0].Context? || edits[0].Added? then lineNo + 1 else lineNo);
    }
  }

  lemma {:induction false} ScanHunks(hunks: seq<Hunk>)
    ensures forall n :: Scan(HunkMarks(hunks), n) == AllRecorded(hunks)
  {
    if hunks == [] {
    } else {
      var h, rest := hunks[0], hunks[1..];
      ScanHunks(rest);
      ScanEdits(h.edits, rest, h.newStart);
      var marks := HunkMarks(hunks);
      assert marks[0] == HeaderMark(h.newStart) && marks[1..] == EditMarks(h.edits) + HunkMarks(rest);
    }
  }

  // ----- applying a diff -----

  /** Index in the old file of a hunk's first line; an empty range names the line before it. */
  function OldIndex(h: Hunk): int {
    if |OldSide(h.edits)| == 0 then h.oldStart else h.oldStart - 1
  }

  function OldEnd(h: Hunk): int {
    OldIndex(h) + |OldSide(h.edits)|
  }

  function Slice(lines: seq<string>, from: int, to: int): seq<string> {
    if 0 <= from <= to <= |lines| then lines[from..to] else []
  }

  /** The hunks fit `base` from index `oldPos` on, where `newPos` new lines exist already, at least `gap`
      old lines before the first hunk and one between any two, and their headers count correctly. */
  ghost predicate Fits(base: seq<string>, oldPos: int, newPos: int, hunks: seq<Hunk>, gap: nat)
    decreases |hunks|
  {
    if hunks == [] then oldPos <= |base|
    else
      var h := hunks[0];
      var newAt := newPos + OldIndex(h) - oldPos;
      && oldPos + gap <= OldIndex(h) && OldEnd(h) <= |base|
      && Slice(base, OldIndex(h), OldEnd(h)) == OldSide(h.edits)
      && h.newStart == (if NewSide(h.edits) == [] then newAt else newAt + 1)
      && Fits(base, OldEnd(h), newAt + |NewSide(h.edits)|, hunks[1..], 1)
  }

  /** A hunk as a replacement: the old lines from `at` to `end` give way to `after`. */
  datatype Change = Change(at: int, end: int, after: seq<string>, edits: seq<Edit>)

  function ChangeOf(h: Hunk): Change {
    Change(OldIndex(h), OldEnd(h), NewSide(h.edits), h.edits)
  }

  function Changes(hunks: seq<Hunk>): seq<Change> {
    if hunks == [] then []
    else [ChangeOf(hunks[0])] + Changes(hunks[1..])
  }

  /** The new file from the old file's index `oldPos` on. */
  function Apply(base: seq<string>, oldPos: int, changes: seq<Change>): seq<string>
    decreases |changes|
  {
    if changes == [] then Slice(base, oldPos, |base|)
    else Slice(base, oldPos, changes[0].at) + changes[0].after + Apply(base, changes[0].end, changes[1..])
  }

  /** A changed line of the new file: where it is, which edit made it, and the new file's text from
      there on. A removal sits at the next surviving line. */
  datatype Touch = Touch(line: int, edit: Edit, onward: seq<string>)

  /** The touches of `edits`, `pos` new lines into the file, with `tail` after them. */
  ghost function Touches(edits: seq<Edit>, pos: int, tail: seq<string>): seq<Touch> {
    if edits == [] then []
    else
      var onward := NewSide(edits) + tail;
      match edits[0]
      case Context(_) => Touches(edits[1..], pos + 1, tail)
      case Blank => Touches(edits[1..], pos + 1, tail)
      case Added(_) => [Touch(pos + 1, edits[0], onward)] + Touches(edits[1..], pos + 1, tail)
      case Removed(_) => [Touch(pos + 1, edits[0], onward)] + Touches(edits[1..], pos, tail)
      case NoNewline(_) => Touches(edits[1..], pos, tail)
  }

  ghost function AllTouches(base: seq<string>, oldPos: int, newPos: int, changes: seq<Change>): seq<Touch>
    decreases |changes|
  {
    if changes == [] then []
    else
      var c, rest := changes[0], changes[1..];
      var newAt := newPos + c.at - oldPos;
      Touches(c.edits, newAt, Apply(base, c.end, rest)) + AllTouches(base, c.end, newAt + |c.after|, rest)
  }

  /** In the new file, what follows the touched line is what the diff says follows it. */
  ghost predicate LocatedAt(file: seq<string>, touch: Touch) {
    1 <= touch.line <= |file| + 1 && file[touch.line - 1..] == touch.onward
  }

  ghost predicate Located(file: seq<string>, touches: seq<Touch>) {
    forall i | 0 <= i < |touches| :: LocatedAt(file, touches[i])
  }

  lemma {:induction false} TouchesLocated(file: seq<string>, edits: seq<Edit>, pos: int, tail: seq<string>)
    requires 0 <= pos <= |file| && file[pos..] == NewSide(edits) + tail
    ensures Located(file, Touches(edits, pos, tail))
  {
    if edits == [] {
    } else {
      if edits[0].Removed? || edits[0].NoNewline? {
        TouchesLocated(file, edits[1..], pos, tail);
      } else {
        assert file[pos + 1..] == file[pos..][1..] == NewSide(edits[1..]) + tail;
        TouchesLocated(file, edits[1..], pos + 1, tail);
      }
    }
  }

  ghost predicate Sits(base: seq<string>, oldPos: int, changes: seq<Change>)
    decreases |changes|
  {
    changes == [] ||
    (0 <= oldPos <= changes[0].at <= changes[0].end && changes[0].at <= |base|
     && changes[0].after == NewSide(changes[0].edits) && Sits(base, changes[0].end, changes[1..]))
  }

  lemma {:induction false} FitsSits(base: seq<string>, oldPos: int, newPos: int, hunks: seq<Hunk>, gap: nat)
    requires Fits(base, oldPos, newPos, hunks, gap) && 0 <= oldPos
    ensures Sits(base, oldPos, Changes(hunks))
    decreases |hunks|
  {
    if hunks == [] {
    } else {
      var h := hunks[0];
      FitsSits(base, OldEnd(h), newPos + OldIndex(h) - oldPos + |NewSide(h.edits)|, hunks[1..], 1);
    }
  }

  lemma DropPrefix(file: seq<string>, pos: int, first: seq<string>, rest: seq<string>)
    requires 0 <= pos <= |file| && file[pos..] == first + rest
    ensures pos + |first| <= |file| && file[pos + |first|..] == rest
  {
    assert file[pos + |first|..] == file[pos..][|first|..];
  }

  lemma DropTwo(file: seq<string>, pos: int, first: seq<string>, second: seq<string>, rest: seq<string>)
    requires 0 <= pos <= |file| && file[pos..] == first + second + rest
    ensures var pos' := pos + |first|;
            pos' + |second| <= |file| && file[pos'..] == second + rest && file[pos' + |second|..] == rest
  {
    assert first + second + rest == first + (second + rest);
    DropPrefix(file, pos, first, second + rest);
    DropPrefix(file, pos + |first|, second, rest);
  }

  /** Applying the diff puts every added text at its line, and every removal just before its line: if
      `file` continues with the applied diff, the touches are located in it. */
  lemma {:induction false} ApplyLocatesTouches(file: seq<string>, base: seq<string>, oldPos: int, newPos: int,
                                               changes: seq<Change>)
    requires Sits(base, oldPos, changes) && 0 <= newPos <= |file|
    requires file[newPos..] == Apply(base, oldPos, changes)
    ensures Located(file, AllTouches(base, oldPos, newPos, changes))
    decreases |changes|
  {
    if changes == [] {
    } else {
      var c, rest := changes[0], changes[1..];
      var kept, tail := Slice(base, oldPos, c.at), Apply(base, c.end, rest);
      var newAt := newPos + c.at - oldPos;
      DropTwo(file, newPos, kept, c.after, tail);
      ApplyLocatesTouches(file, base, c.end, newAt + |c.after|, rest);
      HunkLocated(file, c.edits, newAt, tail, AllTouches(base, c.end, newAt + |c.after|, rest));
    }
  }

  lemma HunkLocated(file: seq<string>, edits: seq<Edit>, pos: int, tail: seq<string>, more: seq<Touch>)
    requires 0 <= pos <= |file| && file[pos..] == NewSide(edits) + tail && Located(file, more)
    ensures Located(file, Touches(edits, pos, tail) + more)
  {
    TouchesLocated(file, edits, pos, tail);
  }

  // ----- when the recorded lines are the touched ones -----

  ghost function Lines(touches: seq<Touch>): set<int> {
    if touches == [] then {} else {touches[0].line} + Lines(touches[1..])
  }

  /** The same lines, straight from the edits. */
  ghost function Positions(edits: seq<Edit>, pos: int): set<int> {
    if edits == [] then {}
    else match edits[0]
      case Context(_) => Positions(edits[1..], pos + 1)
      case Blank => Positions(edits[1..], pos + 1)
      case Added(_) => {pos + 1} + Positions(edits[1..], pos + 1)
      case Removed(_) => {pos + 1} + Positions(edits[1..], pos)
      case NoNewline(_) => Positions(edits[1..], pos)
  }

  lemma {:induction false} LinesConcat(a: seq<Touch>, b: seq<Touch>)
    ensures Lines(a + b) == Lines(a) + Lines(b)
  {
    if a == [] {
      assert a + b == b;
    } else {
      assert (a + b)[1..] == a[1..] + b;
      LinesConcat(a[1..], b);
    }
  }

  lemma {:induction false} LinesOfTouches(edits: seq<Edit>, pos: int, tail: seq<string>)
    ensures Lines(Touches(edits, pos, tail)) == Positions(edits, pos)
  {
    if edits == [] {
    } else {
      LinesOfTouches(edits[1..], pos, tail);
      LinesOfTouches(edits[1..], pos + 1, tail);
    }
  }

  predicate IsChange(e: Edit) {
    e.Added? || e.Removed?
  }

  predicate HasChange(edits: seq<Edit>) {
    exists i | 0 <= i < |edits| :: IsChange(edits[i])
  }

  /** Some change comes after a raw line that is truly empty. */
  predicate BlankBeforeChange(edits: seq<Edit>) {
    exists i, j | 0 <= i < j < |edits| :: edits[i].Blank? && IsChange(edits[j])
  }

  /** The two families of hunks that the tracker misplaces. */
  predicate Misplaced(h: Hunk) {
    (NewSide(h.edits) == [] && HasChange(h.edits)) || BlankBeforeChange(h.edits)
  }

  lemma {:induction false} NoChangeNoLines(edits: seq<Edit>, lineNo: int, pos: int)
    requires !HasChange(edits)
    ensures Recorded(edits, lineNo) == {} && Positions(edits, pos) == {}
  {
    if edits == [] {
    } else {
      assert !IsChange(edits[0]);
      assert !HasChange(edits[1..]) by {
        assert forall i | 0 <= i < |edits[1..]| :: edits[1..][i] == edits[i + 1];
      }
      NoChangeNoLines(edits[1..], lineNo, pos + 1);
      NoChangeNoLines(edits[1..], lineNo + 1, pos + 1);
      NoChangeNoLines(edits[1..], lineNo, pos);
    }
  }

  lemma {:induction false} RecordedRight(edits: seq<Edit>, pos: int)
    requires !BlankBeforeChange(edits)
    ensures Recorded(edits, pos + 1) == Positions(edits, pos)
  {
    if edits == [] {
    } else {
      var rest := edits[1..];
      assert forall i | 0 <= i < |rest| :: rest[i] == edits[i + 1];
      if edits[0].Blank? {
        assert !HasChange(rest);
        NoChangeNoLines(rest, pos + 1, pos + 1);
      } else {
        RecordedRight(rest, pos);
        RecordedRight(rest, pos + 1);
      }
    }
  }

  lemma {:induction false} LinesInRange(edits: seq<Edit>, lineNo: int, pos: int)
    ensures forall n | n in Recorded(edits, lineNo) :: lineNo <= n <= lineNo + |NewSide(edits)|
    ensures forall n | n in Positions(edits, pos) :: pos + 1 <= n <= pos + 1 + |NewSide(edits)|
  {
    if edits == [] {
    } else {
      LinesInRange(edits[1..], lineNo, pos);
      LinesInRange(edits[1..], lineNo + 1, pos + 1);
    }
  }

  /** In a misplaced hunk the last change lies beyond everything recorded. */
  lemma {:induction false} LastChangeMissed(edits: seq<Edit>, lineNo: int, pos: int) returns (last: int)
    requires HasChange(edits) && lineNo <= pos + 1
    ensures last in Positions(edits, pos)
    ensures forall n | n in Recorded(edits, lineNo) :: n <= last
    ensures BlankBeforeChange(edits) ==> last >= pos + 2
    ensures lineNo <= pos || BlankBeforeChange(edits) ==> forall n | n in Recorded(edits, lineNo) :: n < last
  {
    var e, rest := edits[0], edits[1..];
    assert forall i | 0 <= i < |rest| :: rest[i] == edits[i + 1];
    if HasChange(rest) {
      var lineNo' := if e.Context? || e.Added? then lineNo + 1 else lineNo;
      var pos' := if e.Context? || e.Added? || e.Blank? then pos + 1 else pos;
      last := LastChangeMissed(rest, lineNo', pos');
      LinesInRange(rest, lineNo', pos');
      assert BlankBeforeChange(edits) ==> e.Blank? || BlankBeforeChange(rest);
      assert e.Blank? ==> lineNo' <= pos';
    } else {
      last := pos + 1;
      NoChangeNoLines(rest, lineNo, pos);
      NoChangeNoLines(rest, lineNo + 1, pos + 1);
      assert IsChange(e) && !BlankBeforeChange(edits);
    }
  }

  /** A hunk seen from the new file: where it starts, how many lines it has there, and which lines it
      touches and has recorded. */
  datatype Span = Span(at: int, size: nat, recorded: set<int>, touched: set<int>, misplaced: bool)

  ghost function SpanOf(h: Hunk, at: int): Span {
    Span(at, |NewSide(h.edits)|, Recorded(h.edits, h.newStart), Positions(h.edits, at), Misplaced(h))
  }

  ghost predicate SpanOk(s: Span) {
    && (forall n | n in s.recorded :: s.at <= n <= s.at + 1 + s.size)
    && (forall n | n in s.touched :: s.at < n <= s.at + 1 + s.size)
    && (if s.misplaced then exists missed :: missed in s.touched && forall n | n in s.recorded :: n < missed
        else s.recorded == s.touched)
  }

  lemma SpanOfOk(h: Hunk, at: int)
    requires h.newStart == (if NewSide(h.edits) == [] then at else at + 1)
    ensures SpanOk(SpanOf(h, at))
  {
    LinesInRange(h.edits, h.newStart, at);
    if Misplaced(h) {
      var missed := LastChangeMissed(h.edits, h.newStart, at);
    } else if HasChange(h.edits) {
      RecordedRight(h.edits, at);
    } else {
      NoChangeNoLines(h.edits, h.newStart, at);
    }
  }

  /** The spans are in order from `from` on, with at least one line between any two. */
  ghost predicate Apart(spans: seq<Span>, from: int) {
    spans == [] ||
    (SpanOk(spans[0]) && from <= spans[0].at && Apart(spans[1..], spans[0].at + spans[0].size + 1))
  }

  function RecordedIn(spans: seq<Span>): set<int> {
    if spans == [] then {} else spans[0].recorded + RecordedIn(spans[1..])
  }

  function TouchedIn(spans: seq<Span>): set<int> {
    if spans == [] then {} else spans[0].touched + TouchedIn(spans[1..])
  }

  predicate AllPlaced(spans: seq<Span>) {
    spans == [] || (!spans[0].misplaced && AllPlaced(spans[1..]))
  }

  lemma {:induction false} RecordedBeyond(spans: seq<Span>, from: int)
    requires Apart(spans, from)
    ensures forall n | n in RecordedIn(spans) :: from <= n
    ensures AllPlaced(spans) ==> RecordedIn(spans) == TouchedIn(spans)
    ensures forall n | n in TouchedIn(spans) :: from < n
  {
    if spans == [] {
    } else {
      RecordedBeyond(spans[1..], spans[0].at + spans[0].size + 1);
    }
  }

  /** The last misplaced span touches a line that nothing has recorded. */
  lemma {:induction false} SomeMissed(spans: seq<Span>, from: int) returns (missed: int)
    requires Apart(spans, from) && !AllPlaced(spans)
    ensures missed in TouchedIn(spans) && missed !in RecordedIn(spans) && from < missed
  {
    RecordedBeyond(spans[1..], spans[0].at + spans[0].size + 1);
    if AllPlaced(spans[1..]) {
      missed :| missed in spans[0].touched && forall n | n in spans[0].recorded :: n < missed;
    } else {
      missed := SomeMissed(spans[1..], spans[0].at + spans[0].size + 1);
    }
  }

  ghost function SpansOf(oldPos: int, newPos: int, hunks: seq<Hunk>): seq<Span>
    decreases |hunks|
  {
    if hunks == [] then []
    else
      var newAt := newPos + OldIndex(hunks[0]) - oldPos;
      [SpanOf(hunks[0], newAt)] + SpansOf(OldEnd(hunks[0]), newAt + |NewSide(hunks[0].edits)|, hunks[1..])
  }

  lemma FitsHead(base: seq<string>, oldPos: int, newPos: int, hunks: seq<Hunk>, gap: nat)
    requires Fits(base, oldPos, newPos, hunks, gap) && hunks != [] && 0 <= oldPos
    ensures var h := hunks[0];
            var newAt := newPos + OldIndex(h) - oldPos;
            && newPos + gap <= newAt
            && h.newStart == (if NewSide(h.edits) == [] then newAt else newAt + 1)
            && 0 <= OldEnd(h) && Fits(base, OldEnd(h), newAt + |NewSide(h.edits)|, hunks[1..], 1)
  {
  }

  lemma {:induction false} SpansApart(base: seq<string>, oldPos: int, newPos: int, hunks: seq<Hunk>, gap: nat)
    requires Fits(base, oldPos, newPos, hunks, gap) && 0 <= oldPos
    ensures Apart(SpansOf(oldPos, newPos, hunks), newPos + gap)
    decreases |hunks|
  {
    if hunks == [] {
    } else {
      var newAt := newPos + OldIndex(hunks[0]) - oldPos;
      FitsHead(base, oldPos, newPos, hunks, gap);
      SpanOfOk(hunks[0], newAt);
      SpansApart(base, OldEnd(hunks[0]), newAt + |NewSide(hunks[0].edits)|, hunks[1..], 1);
    }
  }

  lemma {:induction false} SpansRecord(oldPos: int, newPos: int, hunks: seq<Hunk>)
    ensures RecordedIn(SpansOf(oldPos, newPos, hunks)) == AllRecorded(hunks)
    ensures AllPlaced(SpansOf(oldPos, newPos, hunks)) <==> forall i | 0 <= i < |hunks| :: !Misplaced(hunks[i])
    decreases |hunks|
  {
    if hunks == [] {
    } else {
      var newAt := newPos + OldIndex(hunks[0]) - oldPos;
      SpansRecord(OldEnd(hunks[0]), newAt + |NewSide(hunks[0].edits)|, hunks[1..]);
      assert forall i | 0 < i < |hunks| :: hunks[i] == hunks[1..][i - 1];
    }
  }

  lemma LinesOfHunk(edits: seq<Edit>, pos: int, tail: seq<string>, more: seq<Touch>)
    ensures Lines(Touches(edits, pos, tail) + more) == Positions(edits, pos) + Lines(more)
  {
    LinesOfTouches(edits, pos, tail);
    LinesConcat(Touches(edits, pos, tail), more);
  }

  lemma LinesOfHead(base: seq<string>, oldPos: int, newPos: int, c: Change, rest: seq<Change>)
    ensures var newAt := newPos + c.at - oldPos;
            Lines(AllTouches(base, oldPos, newPos, [c] + rest)) ==
            Positions(c.edits, newAt) + Lines(AllTouches(base, c.end, newAt + |c.after|, rest))
  {
    var newAt := newPos + c.at - oldPos;
    assert ([c] + rest)[0] == c && ([c] + rest)[1..] == rest;
    LinesOfHunk(c.edits, newAt, Apply(base, c.end, rest), AllTouches(base, c.end, newAt + |c.after|, rest));
  }

  lemma {:induction false} SpansTouch(base: seq<string>, oldPos: int, newPos: int, hunks: seq<Hunk>)
    ensures TouchedIn(SpansOf(oldPos, newPos, hunks)) == Lines(AllTouches(base, oldPos, newPos, Changes(hunks)))
    decreases |hunks|
  {
    if hunks == [] {
    } else {
      var h, rest := hunks[0], hunks[1..];
      var newAt := newPos + OldIndex(h) - oldPos;
      SpansTouch(base, OldEnd(h), newAt + |NewSide(h.edits)|, rest);
      LinesOfHead(base, oldPos, newPos, ChangeOf(h), Changes(rest));
      TouchedInHead(SpanOf(h, newAt), SpansOf(OldEnd(h), newAt + |NewSide(h.edits)|, rest));
    }
  }

  lemma TouchedInHead(s: Span, rest: seq<Span>)
    ensures TouchedIn([s] + rest) == s.touched + TouchedIn(rest)
  {
    assert ([s] + rest)[1..] == rest;
  }

  // ----- line breaks inside the lines of a patch -----

  /** Breaks inside `text` do no harm: the tracker ignores every fragment after the first. Text without
      a break is quiet, and so is text that ends in a carriage return. */
  predicate Quiet(text: string) {
    forall i | 0 <= i < |Later(text)| :: Kind(Later(text)[i]) == Other
  }

  predicate QuietEdit(e: Edit) {
    e.Blank? || Quiet(e.text)
  }

  predicate QuietHunk(h: Hunk) {
    Quiet(h.section) && forall i | 0 <= i < |h.edits| :: QuietEdit(h.edits[i])
  }

  /** The tracker ignores the line, whatever its breaks. */
  predicate Ignored(line: string) {
    Kind(First(line)) == Other && Quiet(line)
  }

  predicate QuietPatch(p: Patch) {
    && (forall i | 0 <= i < |p.hunks| :: QuietHunk(p.hunks[i]))
    && (p.header.Some? ==>
          && (forall i | 0 <= i < |p.header.value.notes| :: Ignored(p.header.value.notes[i]))
          && Quiet(p.header.value.oldName) && Quiet(p.header.value.newName))
  }

  /** A raw line that the tracker reads as `mark`, even where splitting cuts it. */
  ghost predicate ReadsAs(line: string, mark: Mark) {
    Kind(First(line)) == mark && Quiet(line)
  }

  lemma EditReadsAs(e: Edit)
    requires QuietEdit(e)
    ensures ReadsAs(RawEdit(e), EditMark(e))
  {
    if e.Blank? {
      BlankLine();
    } else {
      KindOfEdit(e);
      SplitPrefix(RawEdit(e)[..1], e.text);
      KindOfEdit(e.(text := First(e.text)));
      assert RawEdit(e) == RawEdit(e)[..1] + e.text;
      assert RawEdit(e.(text := First(e.text))) == RawEdit(e)[..1] + First(e.text);
    }
  }

  lemma DigitsBreakFree(n: nat)
    ensures BreakFree(D.Print(n))
  {
  }

  /** A cut in what follows a range leaves the range whole. */
  lemma RangePrefix(start: nat, count: nat, rest: string)
    ensures First(RangeText(start, count, rest)) == RangeText(start, count, First(rest))
    ensures Later(RangeText(start, count, rest)) == Later(rest)
  {
    DigitsBreakFree(start);
    DigitsBreakFree(count);
    if count == 1 {
      SplitPrefix(D.Print(start), rest);
    } else {
      SplitPrefix(D.Print(start), "," + (D.Print(count) + rest));
      SplitPrefix(",", D.Print(count) + rest);
      SplitPrefix(D.Print(count), rest);
    }
  }

  lemma HeaderReadsAs(h: Hunk)
    requires Quiet(h.section)
    ensures ReadsAs(Header(h), HeaderMark(h.newStart))
  {
    var cut := h.(section := First(h.section));
    var tail := " @@" + h.section;
    var newRange := RangeText(h.newStart, |NewSide(h.edits)|, tail);
    SplitPrefix(" @@", h.section);
    RangePrefix(h.newStart, |NewSide(h.edits)|, tail);
    SplitPrefix(" +", newRange);
    RangePrefix(h.oldStart, |OldSide(h.edits)|, " +" + newRange);
    SplitPrefix("@@ -", RangeText(h.oldStart, |OldSide(h.edits)|, " +" + newRange));
    assert First(Header(h)) == Header(cut);
    HeaderRoundTrip(cut);
  }

  /** Line by line, the raw lines read as the marks. */
  ghost predicate AllReadAs(lines: seq<string>, marks: seq<Mark>) {
    Pairwise(ReadsAs, lines, marks)
  }

  ghost predicate Pairwise<A, B>(r: (A, B) -> bool, a: seq<A>, b: seq<B>) {
    |a| == |b| && forall i | 0 <= i < |a| :: r(a[i], b[i])
  }

  lemma PairwiseConcat<A, B>(r: (A, B) -> bool, a: seq<A>, b: seq<B>, a': seq<A>, b': seq<B>)
    requires Pairwise(r, a, b) && Pairwise(r, a', b')
    ensures Pairwise(r, a + a', b + b')
  {
  }

  lemma ReadConcat(a: seq<string>, b: seq<string>, m: seq<Mark>, n: seq<Mark>)
    requires AllReadAs(a, m) && AllReadAs(b, n)
    ensures AllReadAs(a + b, m + n)
  {
    PairwiseConcat(ReadsAs, a, m, b, n);
  }

  lemma {:induction false} EditsReadAs(edits: seq<Edit>)
    requires forall i | 0 <= i < |edits| :: QuietEdit(edits[i])
    ensures AllReadAs(RawEdits(edits), EditMarks(edits))
  {
    if edits == [] {
    } else {
      EditReadsAs(edits[0]);
      EditsReadAs(edits[1..]);
      ReadConcat([RawEdit(edits[0])], RawEdits(edits[1..]), [EditMark(edits[0])], EditMarks(edits[1..]));
    }
  }

  lemma {:induction false} HunksReadAs(hunks: seq<Hunk>)
    requires forall i | 0 <= i < |hunks| :: QuietHunk(hunks[i])
    ensures AllReadAs(Render(hunks), HunkMarks(hunks))
  {
    if hunks == [] {
    } else {
      var h := hunks[0];
      assert QuietHunk(h);
      HeaderReadsAs(h);
      EditsReadAs(h.edits);
      HunksReadAs(hunks[1..]);
      ReadConcat([Header(h)], RawEdits(h.edits), [HeaderMark(h.newStart)], EditMarks(h.edits));
      ReadConcat([Header(h)] + RawEdits(h.edits), Render(hunks[1..]),
        [HeaderMark(h.newStart)] + EditMarks(h.edits), HunkMarks(hunks[1..]));
    }
  }

  /** What a mark records, and where it leaves the counter. */
  ghost function Records(mark: Mark, lineNo: int): set<int> {
    if mark.Plus? || mark.Minus? then {lineNo} else {}
  }

  ghost function Advance(mark: Mark, lineNo: int): int {
    match mark
    case HeaderMark(start) => start
    case Plus => lineNo + 1
    case Space => lineNo + 1
    case _ => lineNo
  }

  lemma ScanStep(marks: seq<Mark>, lineNo: int)
    requires marks != []
    ensures Scan(marks, lineNo) == Records(marks[0], lineNo) + Scan(marks[1..], Advance(marks[0], lineNo))
  {
  }

  lemma {:induction false} ScanOthers(others: seq<Mark>, more: seq<Mark>, lineNo: int)
    requires forall i | 0 <= i < |others| :: others[i] == Other
    ensures Scan(others + more, lineNo) == Scan(more, lineNo)
  {
    if others == [] {
      assert others + more == more;
    } else {
      ScanStep(others + more, lineNo);
      assert (others + more)[1..] == others[1..] + more;
      ScanOthers(others[1..], more, lineNo);
    }
  }

  /** A line that reads as `mark` counts as `mark`, however it is cut. */
  lemma ScanLine(line: string, mark: Mark, more: seq<string>, lineNo: int)
    requires ReadsAs(line, mark)
    ensures Scan(Marks(Fragments(line) + more), lineNo)
         == Records(mark, lineNo) + Scan(Marks(more), Advance(mark, lineNo))
  {
    var marks := Marks(Later(line)) + Marks(more);
    FragmentMarks(line, more);
    ScanStep([mark] + marks, lineNo);
    assert ([mark] + marks)[1..] == marks;
    QuietMarks(line);
    ScanOthers(Marks(Later(line)), Marks(more), Advance(mark, lineNo));
  }

  lemma FragmentMarks(line: string, more: seq<string>)
    ensures Marks(Fragments(line) + more) == [Kind(First(line))] + (Marks(Later(line)) + Marks(more))
  {
    assert Fragments(line) + more == [First(line)] + (Later(line) + more);
    MapConcat(Kind, [First(line)], Later(line) + more);
    MapConcat(Kind, Later(line), more);
    MapOne(Kind, First(line));
  }

  lemma QuietMarks(line: string)
    requires Quiet(line)
    ensures forall i | 0 <= i < |Marks(Later(line))| :: Marks(Later(line))[i] == Other
  {
  }

  /** The newline that the last line may lack makes no difference. */
  lemma ScanOpen(line: string, lineNo: int)
    ensures Scan(Marks(SplitLines(line)), lineNo) == Scan(Marks(Fragments(line)), lineNo)
  {
    SplitOpen(line);
    if Fragments(line) == SplitLines(line) + [""] {
      MapConcat(Kind, SplitLines(line), [""]);
      MapOne(Kind, "");
      assert Kind("") == Other;
      ScanTrailing(Marks(SplitLines(line)), lineNo);
    }
  }

  lemma {:induction false} ScanTrailing(marks: seq<Mark>, lineNo: int)
    ensures Scan(marks + [Other], lineNo) == Scan(marks, lineNo)
  {
    if marks == [] {
      assert marks + [Other] == [Other];
      ScanStep([Other], lineNo);
    } else {
      ScanStep(marks + [Other], lineNo);
      ScanStep(marks, lineNo);
      assert (marks + [Other])[1..] == marks[1..] + [Other];
      ScanTrailing(marks[1..], Advance(marks[0], lineNo));
    }
  }

  lemma {:induction false} ScanText(lines: seq<string>, marks: seq<Mark>, closed: bool, lineNo: int)
    requires AllReadAs(lines, marks)
    ensures Scan(Marks(SplitLines(Text(lines, closed))), lineNo) == Scan(marks, lineNo)
  {
    if lines == [] {
    } else {
      var line, rest := lines[0], Text(lines[1..], closed);
      assert ReadsAs(line, marks[0]);
      ScanStep(marks, lineNo);
      if |lines| == 1 && !closed {
        ScanOpen(line, lineNo);
        ScanLine(line, marks[0], [], lineNo);
        assert Fragments(line) + [] == Fragments(line) && marks[1..] == [];
      } else {
        SplitAfterLine(line, rest);
        ScanLine(line, marks[0], SplitLines(rest), lineNo);
        ScanText(lines[1..], marks[1..], closed, Advance(marks[0], lineNo));
      }
    }
  }

  // ----- the file header -----

  ghost function FileMarks(header: Option<DiffHeader>): seq<Mark> {
    match header
    case None => []
    case Some(h) => seq(|h.notes|, _ => Other) + [Minus, Plus]
  }

  lemma FileHeaderReadsAs(p: Patch)
    requires QuietPatch(p)
    ensures AllReadAs(RawHeader(p.header), FileMarks(p.header))
  {
    if p.header.Some? {
      var h := p.header.value;
      var raw := ["--- " + h.oldName, "+++ " + h.newName];
      FileNameReadsAs("--- ", h.oldName);
      FileNameReadsAs("+++ ", h.newName);
      assert AllReadAs(raw, [Minus, Plus]);
      assert AllReadAs(h.notes, seq(|h.notes|, _ => Other));
      ReadConcat(h.notes, raw, seq(|h.notes|, _ => Other), [Minus, Plus]);
    }
  }

  lemma FileNameReadsAs(marker: string, name: string)
    requires marker == "--- " || marker == "+++ "
    requires Quiet(name)
    ensures ReadsAs(marker + name, if marker == "--- " then Minus else Plus)
  {
    SplitPrefix(marker, name);
    assert (marker + First(name))[0] == marker[0];
    assert HunkStart(marker + First(name)) == None;
  }

  /** The lines that name the files are taken for a removal and an addition, both at line 0. */
  lemma ScanFileHeader(header: Option<DiffHeader>, hunks: seq<Hunk>)
    ensures Scan(FileMarks(header) + HunkMarks(hunks), 0)
         == (if header.Some? then {0} else {}) + AllRecorded(hunks)
  {
    ScanHunks(hunks);
    var marks := HunkMarks(hunks);
    match header
    case None =>
      assert FileMarks(header) + marks == marks;
    case Some(h) =>
      var others: seq<Mark>, names := seq(|h.notes|, _ => Other), [Minus, Plus];
      assert FileMarks(header) + marks == others + (names + marks);
      ScanOthers(others, names + marks, 0);
      ScanStep(names + marks, 0);
      assert (names + marks)[1..] == [Plus] + marks;
      ScanStep([Plus] + marks, 0);
      assert ([Plus] + marks)[1..] == marks;
  }

  /** What the tracker makes of a whole patch. */
  lemma ChangedOfPatch(p: Patch, closed: bool)
    requires QuietPatch(p)
    ensures Changed(PatchText(p, closed)) == (if p.header.Some? then {0} else {}) + AllRecorded(p.hunks)
  {
    FileHeaderReadsAs(p);
    HunksReadAs(p.hunks);
    ReadConcat(RawHeader(p.header), Render(p.hunks), FileMarks(p.header), HunkMarks(p.hunks));
    ScanText(RawHeader(p.header) + Render(p.hunks), FileMarks(p.header) + HunkMarks(p.hunks), closed, 0);
    ScanFileHeader(p.header, p.hunks);
  }

  /** The lines of the new file that a patch of `base` touches. */
  ghost function TouchedLines(base: seq<string>, p: Patch): set<int> {
    Lines(AllTouches(base, 0, 0, Changes(p.hunks)))
  }

  ghost predicate AllHunksPlaced(p: Patch) {
    forall i | 0 <= i < |p.hunks| :: !Misplaced(p.hunks[i])
  }

  /** On the text of a well-formed diff, parse_changed_lines returns the touched lines of the new file and
      nothing else if and only if there is no file header, no hunk with an empty new range, and no change
      after an empty raw line in its hunk; a file header adds line 0 and does no other harm. */
  lemma ChangedLinesExact(base: seq<string>, p: Patch, closed: bool)
    requires Fits(base, 0, 0, p.hunks, 0) && QuietPatch(p)
    ensures Changed(PatchText(p, closed)) == TouchedLines(base, p) <==> p.header.None? && AllHunksPlaced(p)
    ensures Changed(PatchText(p, closed)) - {0} == TouchedLines(base, p) <==> AllHunksPlaced(p)
    ensures 0 in Changed(PatchText(p, closed)) <== p.header.Some?
    ensures Located(Apply(base, 0, Changes(p.hunks)), AllTouches(base, 0, 0, Changes(p.hunks)))
  {
    ChangedOfPatch(p, closed);
    FitsSits(base, 0, 0, p.hunks, 0);
    ApplyLocatesTouches(Apply(base, 0, Changes(p.hunks)), base, 0, 0, Changes(p.hunks));
    var spans := SpansOf(0, 0, p.hunks);
    SpansApart(base, 0, 0, p.hunks, 0);
    SpansRecord(0, 0, p.hunks);
    SpansTouch(base, 0, 0, p.hunks);
    RecordedBeyond(spans, 0);
    if !AllPlaced(spans) {
      var missed := SomeMissed(spans, 0);
    }
  }
}
