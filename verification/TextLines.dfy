/** Python's `str.splitlines`, which cuts a text at many characters besides the newline. */
module TextLines {

  predicate IsBreak(c: char) {
    var n := c as int;
    0x0A <= n <= 0x0D || 0x1C <= n <= 0x1E || n == 0x85 || n == 0x2028 || n == 0x2029
  }

  lemma BreaksAre(c: char)
    ensures IsBreak(c) <==> c in "\n\r\U{0B}\U{0C}\U{1C}\U{1D}\U{1E}\U{85}\U{2028}\U{2029}"
  {
  }

  /** How many characters the line break at the start of `s` takes: CR LF is one break. */
  function BreakLength(s: string): nat
    requires s != ""
  {
    if s[0] == '\r' && |s| > 1 && s[1] == '\n' then 2 else if IsBreak(s[0]) then 1 else 0
  }

  function Prepend(c: char, lines: seq<string>): seq<string> {
    if lines == [] then [[c]] else [[c] + lines[0]] + lines[1..]
  }

  /** A break at the very end opens no further line. */
  function SplitLines(s: string): seq<string>
    decreases |s|
  {
    if s == "" then []
    else if BreakLength(s) > 0 then [""] + SplitLines(s[BreakLength(s)..])
    else Prepend(s[0], SplitLines(s[1..]))
  }

  /** `lines` as a text: a newline after each, or after each but the last. */
  function Text(lines: seq<string>, closed: bool): string {
    if lines == [] then ""
    else if |lines| == 1 && !closed then lines[0]
    else lines[0] + "\n" + Text(lines[1..], closed)
  }

  /** What becomes of one line of a text: its first fragment, and those after a break inside it. */
  function Fragments(line: string): (fragments: seq<string>)
    ensures fragments != []
  {
    SplitLines(line + "\n")
  }

  function First(line: string): string {
    Fragments(line)[0]
  }

  function Later(line: string): seq<string> {
    Fragments(line)[1..]
  }

  ghost predicate BreakFree(s: string) {
    forall i | 0 <= i < |s| :: !IsBreak(s[i])
  }

  lemma BlankLine()
    ensures Fragments("") == [""]
  {
    var s := "" + "\n";
    assert s[0] == '\n' && BreakLength(s) == 1 && s[1..] == "";
    assert SplitLines(s) == [""] + SplitLines(s[1..]);
  }

  /** Where the first step of splitting a text that starts with `line` and a newline gets to. */
  lemma FirstBreak(line: string, rest: string)
    requires line != ""
    ensures var s, b := line + "\n" + rest, BreakLength(line + "\n");
            && BreakLength(s) == b && s[0] == line[0] && (b == 0 ==> !IsBreak(line[0]))
            && if b > |line| then line == "\r" && b == 2 && s[b..] == rest
               else s[b..] == line[b..] + "\n" + rest && s[1..] == line[1..] + "\n" + rest
  {
    var s := line + "\n" + rest;
    assert s[0] == line[0] && s[1] == (line + "\n")[1];
    if BreakLength(s) > |line| {
      assert line == [line[0]];
    }
  }

  lemma PrependConcat(c: char, a: seq<string>, b: seq<string>)
    requires a != []
    ensures Prepend(c, a + b) == Prepend(c, a) + b
  {
    assert (a + b)[1..] == a[1..] + b;
  }

  /** One step of splitting, over a break at the start of `line` or over its first character. */
  lemma SplitStep(line: string, rest: string)
    requires line != "" && BreakLength(line + "\n") <= |line|
    ensures var s, b := line + "\n" + rest, BreakLength(line + "\n");
            SplitLines(s) == if b > 0 then [""] + SplitLines(line[b..] + "\n" + rest)
                             else Prepend(line[0], SplitLines(line[1..] + "\n" + rest))
  {
    FirstBreak(line, rest);
  }

  lemma FragmentsStep(line: string)
    requires line != "" && BreakLength(line + "\n") <= |line|
    ensures var b := BreakLength(line + "\n");
            Fragments(line) == if b > 0 then [""] + Fragments(line[b..]) else Prepend(line[0], Fragments(line[1..]))
  {
    SplitStep(line, "");
    var b := BreakLength(line + "\n");
    assert line + "\n" + "" == line + "\n";
    assert line[b..] + "\n" + "" == line[b..] + "\n" && line[1..] + "\n" + "" == line[1..] + "\n";
  }

  /** A line that is a carriage return makes one break with its newline. */
  lemma SplitAfterReturn(rest: string)
    ensures SplitLines("\r" + "\n" + rest) == [""] + SplitLines(rest)
    ensures Fragments("\r") == [""]
  {
    var s, end := "\r" + "\n" + rest, "\r" + "\n";
    assert BreakLength(s) == 2 && s[2..] == rest;
    assert BreakLength(end) == 2 && end[2..] == "" && SplitLines("") == [];
  }

  /** The lines of a text are split one by one. */
  lemma {:induction false} SplitAfterLine(line: string, rest: string)
    ensures SplitLines(line + "\n" + rest) == Fragments(line) + SplitLines(rest)
    decreases |line|
  {
    if line == "" {
      BlankLine();
      assert ("" + "\n" + rest)[1..] == rest;
    } else {
      var b := BreakLength(line + "\n");
      FirstBreak(line, rest);
      if b > |line| {
        SplitAfterReturn(rest);
      } else {
        SplitStep(line, rest);
        FragmentsStep(line);
        SplitAfterLine(line[if b > 0 then b else 1..], rest);
        PrependConcat(line[0], Fragments(line[1..]), SplitLines(rest));
      }
    }
  }

  /** Without its newline a line splits the same, but for an empty fragment at the end. */
  lemma {:induction false} SplitOpen(line: string)
    ensures Fragments(line) == SplitLines(line) || Fragments(line) == SplitLines(line) + [""]
    decreases |line|
  {
    if line == "" {
      assert (line + "\n")[1..] == "";
    } else {
      var b := BreakLength(line + "\n");
      FirstBreak(line, "");
      assert line + "\n" + "" == line + "\n";
      if b > |line| {
        assert (line + "\n")[b..] == "" && line[1..] == "";
      } else if b > 0 {
        assert (line + "\n")[b..] == line[b..] + "\n";
        SplitOpen(line[b..]);
      } else {
        assert (line + "\n")[1..] == line[1..] + "\n";
        SplitOpen(line[1..]);
        PrependOpen(line[0], SplitLines(line[1..]), Fragments(line[1..]));
      }
    }
  }

  lemma PrependOpen(c: char, lines: seq<string>, fragments: seq<string>)
    requires fragments == lines || fragments == lines + [""]
    ensures Prepend(c, fragments) == Prepend(c, lines) || Prepend(c, fragments) == Prepend(c, lines) + [""]
  {
    assert [c] + "" == [c];
    if lines != [] && fragments == lines + [""] {
      PrependConcat(c, lines, [""]);
    }
  }

  /** A prefix without breaks stays with the first fragment. */
  lemma {:induction false} SplitPrefix(prefix: string, line: string)
    requires BreakFree(prefix)
    ensures First(prefix + line) == prefix + First(line) && Later(prefix + line) == Later(line)
  {
    if prefix == "" {
      assert prefix + line == line;
    } else {
      var s := prefix + line;
      assert !IsBreak(prefix[0]) && s[0] == prefix[0];
      assert (s + "\n")[1..] == (prefix[1..] + line) + "\n";
      SplitPrefix(prefix[1..], line);
    }
  }

  /** Ordinary text, tabs included, has no break; nor has any text above the Latin controls but for the two
      separators of Unicode. */
  lemma OrdinaryText(s: string)
    requires forall i | 0 <= i < |s| ::
               s[i] == '\t' || ' ' <= s[i] <= '~' || (s[i] >= '\U{A0}' && s[i] != '\U{2028}' && s[i] != '\U{2029}')
    ensures BreakFree(s) && Later(s) == []
  {
    BreakFreeLine(s);
  }

  /** The lines of a file with CR LF ends come without either. */
  lemma CrLfLine(line: string)
    requires BreakFree(line)
    ensures First(line + "\r") == line && Later(line + "\r") == []
  {
    SplitPrefix(line, "\r");
    var end := "\r" + "\n";
    assert BreakLength(end) == 2 && end[2..] == "";
    assert Fragments("\r") == [""] + SplitLines("");
    assert line + "" == line;
  }

  /** A break that is not part of a CR LF ends a fragment. */
  lemma SplitAtBreak(prefix: string, c: char, line: string)
    requires BreakFree(prefix) && IsBreak(c) && c != '\r'
    ensures First(prefix + [c] + line) == prefix && Later(prefix + [c] + line) == Fragments(line)
  {
    var tail := [c] + line;
    assert prefix + [c] + line == prefix + tail;
    SplitPrefix(prefix, tail);
    assert (tail + "\n")[1..] == line + "\n";
  }

  /** Lines without breaks are read back as they were written. */
  lemma {:induction false} SplitText(lines: seq<string>)
    requires forall i | 0 <= i < |lines| :: BreakFree(lines[i])
    ensures SplitLines(Text(lines, true)) == lines
  {
    if lines == [] {
    } else {
      BreakFreeLine(lines[0]);
      SplitAfterLine(lines[0], Text(lines[1..], true));
      SplitText(lines[1..]);
    }
  }

  /** The text whose last line is left open lacks the last newline and nothing else. */
  lemma {:induction false} OpenText(lines: seq<string>)
    requires lines != []
    ensures Text(lines, true) == Text(lines, false) + "\n"
  {
    if |lines| == 1 {
      assert lines[1..] == [];
    } else {
      OpenText(lines[1..]);
    }
  }

  lemma BreakFreeLine(line: string)
    requires BreakFree(line)
    ensures Fragments(line) == [line]
  {
    SplitPrefix(line, "");
    assert line + "" == line;
    BlankLine();
    assert Fragments(line) == [First(line)] + Later(line);
  }
}
