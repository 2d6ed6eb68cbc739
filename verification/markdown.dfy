/** The line classifier behind the text-to-PDF rendering: the content is
    split into lines, and each line becomes one block according to a fixed
    priority (fence, code, blank, heading, list item, paragraph). Only the
    classification is modelled; drawing the blocks is the PDF library's. */
module Markdown {
  import opened Base
  import opened Text

  function StripCarriageReturn(s: string): string {
    if |s| > 0 && s[|s| - 1] == '\r' then s[..|s| - 1] else s
  }

  /** `content.split(/\r?\n/)`: cut at every "\n", dropping one "\r" right
      before it. */
  function SplitLines(content: string): (lines: seq<string>)
    ensures |lines| >= 1
    ensures forall i :: 0 <= i < |lines| ==> !Contains(lines[i], '\n')
    decreases |content|
  {
    var k := IndexOf(content, '\n');
    if k < 0 then [content]
    else [StripCarriageReturn(content[..k])] + SplitLines(content[k + 1..])
  }

  function JoinLines(lines: seq<string>, separator: string): string
    requires |lines| >= 1
  {
    if |lines| == 1 then lines[0] else lines[0] + separator + JoinLines(lines[1..], separator)
  }

  lemma {:induction false} IndexOfIs(s: string, c: char, k: nat)
    requires k < |s| && s[k] == c
    requires forall j :: 0 <= j < k ==> s[j] != c
    ensures IndexOf(s, c) == k
    decreases k
  {
    if k > 0 {
      IndexOfIs(s[1..], c, k - 1);
    }
  }

  lemma {:induction false} IndexOfNone(s: string, c: char)
    requires !Contains(s, c)
    ensures IndexOf(s, c) == -1
    decreases |s|
  {
    if |s| > 0 {
      assert !Contains(s[1..], c) by {
        forall j | 0 <= j < |s[1..]| ensures s[1..][j] != c {
          assert s[1..][j] == s[j + 1];
        }
      }
      IndexOfNone(s[1..], c);
    }
  }

  /** Splitting undoes joining with "\n", provided no line holds a "\n" and
      no line but the last ends in "\r" (that "\r" would be taken for half
      of a "\r\n"). */
  lemma {:induction false} SplitJoinLf(lines: seq<string>)
    requires |lines| >= 1
    requires forall i :: 0 <= i < |lines| ==> !Contains(lines[i], '\n')
    requires forall i :: 0 <= i < |lines| - 1 ==> |lines[i]| == 0 || lines[i][|lines[i]| - 1] != '\r'
    ensures SplitLines(JoinLines(lines, "\n")) == lines
    decreases |lines|
  {
    var c := JoinLines(lines, "\n");
    if |lines| == 1 {
      IndexOfNone(c, '\n');
    } else {
      var l0 := lines[0];
      var rest := JoinLines(lines[1..], "\n");
      assert c == l0 + "\n" + rest;
      assert c[|l0|] == '\n';
      forall j | 0 <= j < |l0| ensures c[j] != '\n' {
        assert c[j] == l0[j];
      }
      IndexOfIs(c, '\n', |l0|);
      assert c[..|l0|] == l0;
      assert c[|l0| + 1..] == rest;
      SplitJoinLf(lines[1..]);
    }
  }

  /** Splitting undoes joining with "\r\n", provided no line holds a "\n". */
  lemma {:induction false} SplitJoinCrLf(lines: seq<string>)
    requires |lines| >= 1
    requires forall i :: 0 <= i < |lines| ==> !Contains(lines[i], '\n')
    ensures SplitLines(JoinLines(lines, "\r\n")) == lines
    decreases |lines|
  {
    var c := JoinLines(lines, "\r\n");
    if |lines| == 1 {
      IndexOfNone(c, '\n');
    } else {
      var l0 := lines[0];
      var rest := JoinLines(lines[1..], "\r\n");
      assert c == l0 + "\r\n" + rest;
      assert c[|l0| + 1] == '\n';
      assert c[|l0|] == '\r';
      forall j | 0 <= j < |l0| ensures c[j] != '\n' {
        assert c[j] == l0[j];
      }
      IndexOfIs(c, '\n', |l0| + 1);
      assert c[..|l0| + 1] == l0 + "\r";
      assert StripCarriageReturn(l0 + "\r") == l0;
      assert c[|l0| + 2..] == rest;
      SplitJoinCrLf(lines[1..]);
    }
  }

  /** One block per line, in the renderer's priority order. */
  datatype Block =
    | Fence(opensCode: bool)                      // a "```" line toggles code mode
    | CodeLine(text: string)                      // inside code: the raw line
    | Blank                                       // white space only
    | Heading(level: nat, size: int, text: string)
    | ListItem(text: string)
    | Paragraph(line: string, stripMarkdown: bool)

  predicate IsFence(line: string) {
    StartsWith(Trim(line), "```")
  }

  /** Font size of a heading: `Math.max(16, 26 - level * 2)`. */
  function HeadingSize(level: nat): int {
    if 26 - 2 * level > 16 then 26 - 2 * level else 16
  }

  /** What `(.*)` captures from the start of `s`: the longest prefix with no
      line terminator. */
  predicate Captured(s: string, text: string) {
    && StartsWith(s, text)
    && (forall i :: 0 <= i < |text| ==> !IsLineTerminator(text[i]))
    && (|text| < |s| ==> IsLineTerminator(s[|text|]))
  }

  /** `s` opens with exactly `n` '#' marks and then a white-space character. */
  predicate HashesThenSpace(s: string, n: nat) {
    n < |s| && (forall i :: 0 <= i < n ==> s[i] == '#') && IsSpace(s[n])
  }

  /** `trimmed.match(/^(#{1,6})\s+(.*)/)`: one to six '#', white space, then
      the text up to the next line terminator. */
  function MatchHeading(trimmed: string): (m: Option<(nat, string)>)
    ensures m.Some? <==> exists n :: 1 <= n <= 6 && HashesThenSpace(trimmed, n)
    ensures m.Some? ==> 1 <= m.value.0 <= 6 && HashesThenSpace(trimmed, m.value.0)
    ensures m.Some? ==> LeadingRun(trimmed, '#') == m.value.0
    // `\s+` is greedy: the text starts after the whole run of white space
    ensures m.Some? ==> Captured(TrimStart(trimmed[m.value.0..]), m.value.1)
  {
    var n := LeadingRun(trimmed, '#');
    if 1 <= n <= 6 && n < |trimmed| && IsSpace(trimmed[n]) then
      assert HashesThenSpace(trimmed, n);
      Some((n, UpToLineEnd(TrimStart(trimmed[n..]))))
    else None
  }

  /** A list marker: "-", "*", "+", or one or more digits and a ".". */
  predicate IsMarker(p: string) {
    || p in {"-", "*", "+"}
    || (|p| >= 2 && p[|p| - 1] == '.' && forall i :: 0 <= i < |p| - 1 ==> IsDigit(p[i]))
  }

  /** Length of a list marker at the start of `s`: one of "-", "*", "+", or
      digits followed by "."; 0 when there is none. */
  function MarkerLength(s: string): (n: nat)
    ensures n <= |s|
  {
    if |s| > 0 && (s[0] == '-' || s[0] == '*' || s[0] == '+') then 1
    else
      var d := LeadingDigits(s);
      if d > 0 && d < |s| && s[d] == '.' then d + 1 else 0
  }

  /** `MarkerLength` finds the one marker `s` can start with. */
  lemma MarkerLengthExact(s: string)
    ensures MarkerLength(s) > 0 ==> IsMarker(s[..MarkerLength(s)])
    ensures forall k :: 0 < k <= |s| && IsMarker(s[..k]) ==> MarkerLength(s) == k
  {
    var m := MarkerLength(s);
    if m == 1 && (s[0] == '-' || s[0] == '*' || s[0] == '+') {
      assert s[..1] == [s[0]];
    } else if m > 0 {
      assert s[..m][m - 1] == '.';
      assert forall i :: 0 <= i < m - 1 ==> s[..m][i] == s[i];
    }
    forall k | 0 < k <= |s| && IsMarker(s[..k]) ensures MarkerLength(s) == k {
      var p := s[..k];
      assert p[0] == s[0];
      if p in {"-", "*", "+"} {
        assert |p| == 1;
      } else {
        assert IsDigit(s[0]);
        assert forall i :: 0 <= i < k - 1 ==> s[i] == p[i];
        assert s[k - 1] == p[k - 1] == '.';
        assert LeadingDigits(s) == k - 1;
      }
    }
  }

  /** `line.match(/^\s*([-*+]|\d+\.)\s+(.*)/)` on the untrimmed line: after
      the leading white space, a marker and white space; the text follows the
      white space up to a line terminator. */
  function MatchListItem(line: string): (m: Option<string>)
    ensures var s := TrimStart(line);
      m.Some? <==> exists k :: 0 < k < |s| && IsMarker(s[..k]) && IsSpace(s[k])
    ensures var s := TrimStart(line);
      m.Some? ==> exists k :: 0 < k < |s| && IsMarker(s[..k]) && IsSpace(s[k]) && Captured(TrimStart(s[k..]), m.value)
  {
    var s := TrimStart(line);
    var m := MarkerLength(s);
    MarkerLengthExact(s);
    if m > 0 && m < |s| && IsSpace(s[m]) then Some(UpToLineEnd(TrimStart(s[m..]))) else None
  }

  /** The block a line becomes, given whether a code block is open. */
  function ClassifyLine(line: string, inCode: bool, markdown: bool): Block {
    var trimmed := Trim(line);
    if IsFence(line) then Fence(!inCode)
    else if inCode then CodeLine(if |line| > 0 then line else " ")
    else if |trimmed| == 0 then Blank
    else if MatchHeading(trimmed).Some? then
      var (level, text) := MatchHeading(trimmed).value;
      Heading(level, HeadingSize(level), text)
    else if MatchListItem(line).Some? then ListItem(MatchListItem(line).value)
    else Paragraph(line, markdown)
  }

  function NextMode(line: string, inCode: bool): bool {
    if IsFence(line) then !inCode else inCode
  }

  /** The `lines.forEach` pass: a left fold carrying the code-block flag,
      giving the blocks and the flag after the last line. */
  function Classify(lines: seq<string>, inCode: bool, markdown: bool): (seq<Block>, bool)
    decreases |lines|
  {
    if |lines| == 0 then ([], inCode)
    else
      var (rest, final) := Classify(lines[1..], NextMode(lines[0], inCode), markdown);
      ([ClassifyLine(lines[0], inCode, markdown)] + rest, final)
  }

  /** Blocks for a whole file: no code block is open at the start. */
  function RenderPlan(content: string, markdown: bool): seq<Block> {
    Classify(SplitLines(content), false, markdown).0
  }

  function FenceCount(lines: seq<string>): nat {
    if |lines| == 0 then 0 else (if IsFence(lines[0]) then 1 else 0) + FenceCount(lines[1..])
  }

  predicate Odd(n: nat) {
    n % 2 == 1
  }

  /** Whether code mode is on when line `i` is reached. */
  function ModeAt(lines: seq<string>, i: nat, inCode: bool): bool
    requires i <= |lines|
  {
    inCode != Odd(FenceCount(lines[..i]))
  }

  /** The fold gives one block per line, and code mode ends on exactly when
      it started on with an even number of fences, or off with an odd one. */
  lemma {:induction false} ClassifyShape(lines: seq<string>, inCode: bool, markdown: bool)
    ensures |Classify(lines, inCode, markdown).0| == |lines|
    ensures Classify(lines, inCode, markdown).1 == (inCode != Odd(FenceCount(lines)))
    decreases |lines|
  {
    if |lines| > 0 {
      ClassifyShape(lines[1..], NextMode(lines[0], inCode), markdown);
    }
  }

  /** The fold agrees with classifying every line on its own, in the mode
      the fences before it leave. */
  lemma {:induction false} ClassifyPointwise(lines: seq<string>, inCode: bool, markdown: bool, i: nat)
    requires i < |lines|
    ensures |Classify(lines, inCode, markdown).0| == |lines|
    ensures Classify(lines, inCode, markdown).0[i] == ClassifyLine(lines[i], ModeAt(lines, i, inCode), markdown)
    decreases i
  {
    ClassifyShape(lines, inCode, markdown);
    var next := NextMode(lines[0], inCode);
    var rest := Classify(lines[1..], next, markdown).0;
    assert Classify(lines, inCode, markdown).0 == [ClassifyLine(lines[0], inCode, markdown)] + rest;
    if i > 0 {
      ClassifyPointwise(lines[1..], next, markdown, i - 1);
      ModeAtStep(lines, i, inCode);
      assert lines[i] == lines[1..][i - 1];
    } else {
      assert lines[..0] == [];
      assert ModeAt(lines, 0, inCode) == inCode;
    }
  }

  /** Past the first line, the mode is the one the first line leaves. */
  lemma ModeAtStep(lines: seq<string>, i: nat, inCode: bool)
    requires 0 < i <= |lines|
    ensures ModeAt(lines, i, inCode) == ModeAt(lines[1..], i - 1, NextMode(lines[0], inCode))
  {
    assert lines[..i][1..] == lines[1..][..i - 1];
    assert lines[..i][0] == lines[0];
  }

  /** After a whole file, a code block is left open exactly when the file has
      an odd number of fence lines. */
  lemma EndsInCodeIffOddFences(content: string, markdown: bool)
    ensures Classify(SplitLines(content), false, markdown).1 == Odd(FenceCount(SplitLines(content)))
    ensures |RenderPlan(content, markdown)| == |SplitLines(content)|
  {
    ClassifyShape(SplitLines(content), false, markdown);
  }

  /** A fence line toggles code mode, even inside a code block. */
  lemma FenceAlwaysToggles(line: string, inCode: bool, markdown: bool)
    requires IsFence(line)
    ensures ClassifyLine(line, inCode, markdown) == Fence(!inCode)
  {
  }

  /** Inside a code block every other line is kept verbatim (an empty one
      as a single space), whatever it looks like. */
  lemma CodeIsVerbatim(line: string, markdown: bool)
    requires !IsFence(line)
    ensures ClassifyLine(line, true, markdown) == CodeLine(if |line| > 0 then line else " ")
  {
  }

  /** Outside code, a non-fence line is blank exactly when it is all white
      space. */
  lemma BlankIffWhiteSpace(line: string, markdown: bool)
    requires !IsFence(line)
    ensures ClassifyLine(line, false, markdown) == Blank <==> AllSpace(line)
  {
    TrimEmptyIffAllSpace(line);
  }

  /** Heading levels are 1 to 6 and their sizes lie in 16..24, shrinking
      (never growing) with the level. */
  lemma HeadingSizes(line: string, inCode: bool, markdown: bool, a: nat, b: nat)
    ensures ClassifyLine(line, inCode, markdown).Heading? ==>
              var h := ClassifyLine(line, inCode, markdown);
              1 <= h.level <= 6 && h.size == HeadingSize(h.level) && 16 <= h.size <= 24
    ensures a <= b ==> HeadingSize(a) >= HeadingSize(b)
  {
  }

  /** A level-two heading gets size 22 and its text after the marks. */
  lemma HeadingExample()
    ensures ClassifyLine("## Setup", false, true) == Heading(2, 22, "Setup")
  {
    var l := "## Setup";
    assert TrimStart(l) == l by { assert !IsSpace(l[0]); }
    assert TrimEnd(l) == l by { assert !IsSpace(l[|l| - 1]); }
    assert !IsFence(l) by { assert l[..3] != "```" by { assert l[2] != '`'; } }
    assert LeadingRun(l, '#') == 2 by {
      assert l[0] == '#' && l[1] == '#' && l[2] == ' ';
    }
    assert l[2..] == " Setup";
    assert TrimStart(" Setup") == "Setup" by { assert " Setup"[1..] == "Setup"; }
    UpToLineEndWhole("Setup");
    assert MatchHeading(l) == Some((2, "Setup"));
  }

  /** The list pattern runs on the untrimmed line: a marker followed by
      trailing white space is an empty item. */
  lemma TrailingSpaceListExample()
    ensures ClassifyLine("- ", false, true) == ListItem("")
  {
    var l := "- ";
    assert TrimStart(l) == l;
    assert TrimEnd(l) == "-" by { assert l[..1] == "-"; }
    assert Trim(l) == "-";
    assert !IsFence(l);
    assert LeadingRun("-", '#') == 0;
    assert MarkerLength(l) == 1;
    assert l[1..] == " ";
    assert TrimStart(" ") == "" by { assert " "[1..] == ""; }
  }

  /** A bare marker with nothing after it is a paragraph. */
  lemma BareMarkerExample()
    ensures ClassifyLine("-", false, true) == Paragraph("-", true)
  {
    var l := "-";
    assert Trim(l) == l;
    assert !IsFence(l);
    assert LeadingRun(l, '#') == 0;
    assert MarkerLength(l) == 1;
  }

  /** Seven '#' exceed the heading pattern's six: the line is a paragraph. */
  lemma SevenHashesExample()
    ensures ClassifyLine("####### x", false, false) == Paragraph("####### x", false)
  {
    var l := "####### x";
    assert TrimStart(l) == l by { assert !IsSpace(l[0]); }
    assert TrimEnd(l) == l by { assert !IsSpace(l[|l| - 1]); }
    assert !IsFence(l) by { assert l[0] != '`'; }
    assert LeadingRun(l, '#') == 7 by {
      assert forall i :: 0 <= i < 7 ==> l[i] == '#';
      assert l[7] == ' ';
    }
    assert MatchHeading(l).None?;
    assert MarkerLength(l) == 0 by { assert LeadingDigits(l) == 0; }
    assert MatchListItem(l).None?;
  }
}
