/**
How a repair candidate is spliced into a file, and what that does to the lines around it
(hybrid_review_service.py: the replace-span path of `preview_fix` and `_assemble_python_edit`).
*/
module FixSplice {
  import opened Text

  /** `"".join(lines[:start - 1])`, the text before a 1-based line. */
  function Before(lines: seq<string>, start: int): string
    requires 1 <= start <= |lines| + 1
  {
    Join(lines[..start - 1])
  }

  function After(lines: seq<string>, end: int): string
    requires 0 <= end <= |lines|
  {
    Join(lines[end..])
  }

  /** The replacement with the line terminator the splice adds to it. */
  function Terminated(replacement: string, content: string, lines: seq<string>, end: int): string {
    if replacement != "" && (end < |lines| || (content != "" && Closed(content)))
    then replacement + "\n"
    else replacement
  }

  /** The replace-span path: whole lines `start..end` become the replacement. */
  function SpliceLines(content: string, start: int, end: int, replacement: string): string
    requires 1 <= start <= end <= |Lines(content)|
  {
    var lines := Lines(content);
    Before(lines, start) + Terminated(replacement, content, lines, end) + After(lines, end)
  }

  /** `"\n".join(indent + line if line else line for line in logical.splitlines())` */
  function Indent(indent: string, lines: seq<string>): seq<string> {
    seq(|lines|, i requires 0 <= i < |lines| => if lines[i] == "\n" then "\n" else indent + lines[i])
  }

  /** The statement and definition modes of `_assemble_python_edit`, by character offsets. */
  function AssembleLines(content: string, start: int, end: int, indent: string, logical: string): string
    requires 1 <= start <= end <= |Lines(content)|
  {
    LineOffsets(content, start, end);
    var lines := Lines(content);
    SpliceAt(content, |Join(lines[..start - 1])|, |Join(lines[..end])|, Join(Indent(indent, Lines(logical))))
  }

  function SpliceAt(content: string, from: nat, to: nat, rendered: string): string
    requires from < to <= |content|
  {
    var terminated :=
      if rendered != "" && (to < |content| || content[to - 1] == '\n') then rendered + "\n" else rendered;
    content[..from] + terminated + content[to..]
  }

  lemma {:induction false} JoinThree(lines: seq<string>, from: nat, to: nat)
    requires from <= to <= |lines|
    ensures Join(lines) == Join(lines[..from]) + Join(lines[from..to]) + Join(lines[to..])
    ensures Join(lines[..to]) == Join(lines[..from]) + Join(lines[from..to])
  {
    JoinPrefix(lines, to);
    JoinPrefix(lines[..to], from);
    assert lines[..to][..from] == lines[..from] && lines[..to][from..] == lines[from..to];
  }

  lemma {:induction false} ClosedPart(lines: seq<string>, from: nat, to: nat)
    requires Proper(lines) && from < to <= |lines|
    ensures var part := Join(lines[from..to]);
            part != "" && (Closed(part) <==> Closed(lines[to - 1]))
  {
    var part := lines[from..to];
    assert part[|part| - 1] == lines[to - 1];
    ProperPart(lines, from, to);
    ClosedLast(part);
  }

  lemma {:induction false} LineOffsets(content: string, start: int, end: int)
    requires 1 <= start <= end <= |Lines(content)|
    ensures var lines := Lines(content);
            var middle := Join(lines[start - 1..end]);
            && content == Join(lines[..start - 1]) + middle + Join(lines[end..])
            && |Join(lines[..start - 1])| < |Join(lines[..end])| == |Join(lines[..start - 1]) + middle| <= |content|
            && (Closed(middle) <==> Closed(lines[end - 1])) && middle != ""
  {
    var lines := Lines(content);
    JoinLines(content);
    JoinThree(lines, start - 1, end);
    ClosedPart(lines, start - 1, end);
  }

  /** The expression mode: characters from one line and column to another. */
  function AssembleExpression(
    content: string, start: int, startColumn: nat, end: int, endColumn: nat, logical: string
  ): string
    requires ColumnsInside(Lines(content), start, startColumn, end, endColumn)
  {
    JoinLines(content);
    TrimRightPrefix(Lines(content)[start - 1]);
    TrimRightPrefix(Lines(content)[end - 1]);
    OffsetInside(Lines(content), start, startColumn);
    OffsetInside(Lines(content), end, endColumn);
    var lines := Lines(content);
    content[..|Join(lines[..start - 1])| + startColumn] + logical
    + content[|Join(lines[..end - 1])| + endColumn..]
  }

  /** Columns of an expression node: on existing lines and never past a line's terminator. */
  predicate ColumnsInside(lines: seq<string>, start: int, startColumn: nat, end: int, endColumn: nat) {
    && 1 <= start <= end <= |lines|
    && startColumn <= |TrimRight(lines[start - 1])|
    && endColumn <= |TrimRight(lines[end - 1])|
  }

  lemma OffsetInside(lines: seq<string>, line: int, column: nat)
    requires 1 <= line <= |lines| && column <= |lines[line - 1]|
    ensures |Join(lines[..line - 1])| + column <= |Join(lines)|
    ensures Join(lines)[..|Join(lines[..line - 1])| + column]
         == Join(lines[..line - 1]) + lines[line - 1][..column]
    ensures Join(lines)[|Join(lines[..line - 1])| + column..]
         == lines[line - 1][column..] + Join(lines[line..])
  {
    JoinPrefix(lines, line - 1);
    assert lines[line - 1..][1..] == lines[line..];
    var a, l, b := Join(lines[..line - 1]), lines[line - 1], Join(lines[line..]);
    assert Join(lines) == a + (l + b);
  }

  /**
  What a splice must do to the lines of a file for the ledger's arithmetic to be right: lines
  `start..end` become `count` lines and every other line keeps its text.
  */
  predicate Relines(content: string, revised: string, start: int, end: int, count: nat) {
    && 1 <= start <= end <= |Lines(content)|
    && |Lines(revised)| == |Lines(content)| - (end - start + 1) + count
    && Lines(revised)[..start - 1] == Lines(content)[..start - 1]
    && Lines(revised)[start - 1 + count..] == Lines(content)[end..]
  }

  /** The recorded `replacement_line_count`. */
  function LineCount(replacement: string): nat {
    |Lines(TrimRight(replacement))|
  }

  lemma RelinesFromParts(
    content: string, revised: string, start: int, end: int, before: seq<string>, middle: seq<string>, after: seq<string>
  )
    requires 1 <= start <= end <= |Lines(content)|
    requires before == Lines(content)[..start - 1] && after == Lines(content)[end..]
    requires Lines(revised) == before + middle + after
    ensures Relines(content, revised, start, end, |middle|)
  {
  }

  lemma ProperParts(before: seq<string>, middle: seq<string>, after: seq<string>)
    requires Proper(before) && Proper(middle) && Proper(after)
    requires forall i :: 0 <= i < |before| ==> Closed(before[i])
    requires after != [] ==> forall i :: 0 <= i < |middle| ==> Closed(middle[i])
    ensures Proper(before + middle + after)
    ensures Lines(Join(before) + Join(middle) + Join(after)) == before + middle + after
  {
    JoinAppend(before, middle);
    JoinAppend(before + middle, after);
    LinesJoin(before + middle + after);
  }

  /** The text that replaces the scope: as many lines as the replacement, all closed if others follow. */
  lemma {:induction false} TerminatedLines(replacement: string, content: string, lines: seq<string>, end: int)
    requires TrimRight(replacement) == replacement
    ensures var middle := Lines(Terminated(replacement, content, lines, end));
            && |middle| == LineCount(replacement) && Proper(middle)
            && Join(middle) == Terminated(replacement, content, lines, end)
            && (end < |lines| ==> forall i :: 0 <= i < |middle| ==> Closed(middle[i]))
  {
    JoinLines(Terminated(replacement, content, lines, end));
    if replacement != "" {
      TrimRightPrefix(replacement);
      CloseText(replacement);
    }
  }

  /** The replace-span splice touches exactly lines `start..end`. */
  lemma {:induction false} SpliceLinesRelines(content: string, start: int, end: int, replacement: string)
    requires 1 <= start <= end <= |Lines(content)|
    requires TrimRight(replacement) == replacement
    ensures Relines(content, SpliceLines(content, start, end, replacement), start, end, LineCount(replacement))
  {
    var lines := Lines(content);
    JoinLines(content);
    var text := Terminated(replacement, content, lines, end);
    TerminatedLines(replacement, content, lines, end);
    ProperParts(lines[..start - 1], Lines(text), lines[end..]);
    RelinesFromParts(content, SpliceLines(content, start, end, replacement), start, end,
                     lines[..start - 1], Lines(text), lines[end..]);
  }

  lemma IndentProper(indent: string, lines: seq<string>)
    requires Proper(lines) && forall i :: 0 <= i < |indent| ==> indent[i] != '\n'
    ensures Proper(Indent(indent, lines))
    ensures lines != [] ==> (Closed(Join(Indent(indent, lines))) <==> Closed(Join(lines)))
  {
    var out := Indent(indent, lines);
    forall i | 0 <= i < |lines| ensures IsLine(out[i]) && (Closed(out[i]) <==> Closed(lines[i])) {
    }
    if lines != [] {
      ClosedLast(lines);
      ClosedLast(out);
    }
  }

  /** The indented block has as many lines as the block and, like it, no terminator at its end. */
  lemma IndentedBlock(indent: string, logical: string)
    requires TrimRight(logical) == logical
    requires forall i :: 0 <= i < |indent| ==> indent[i] != '\n'
    ensures var rendered := Join(Indent(indent, Lines(logical)));
            TrimRight(rendered) == rendered && LineCount(rendered) == LineCount(logical)
  {
    JoinLines(logical);
    TrimRightTwice(logical);
    IndentProper(indent, Lines(logical));
    LinesJoin(Indent(indent, Lines(logical)));
  }

  lemma SpliceAtParts(content: string, a: string, m: string, c: string, rendered: string)
    requires content == a + m + c && m != ""
    ensures SpliceAt(content, |a|, |a + m|, rendered)
         == a + (if rendered != "" && (c != "" || Closed(m)) then rendered + "\n" else rendered) + c
  {
    assert content[..|a|] == a && content[|a + m|..] == c;
  }

  /** Assembling by offsets is the replace-span splice of the indented block. */
  lemma AssembleLinesIsSplice(content: string, start: int, end: int, indent: string, logical: string)
    requires 1 <= start <= end <= |Lines(content)|
    ensures AssembleLines(content, start, end, indent, logical)
         == SpliceLines(content, start, end, Join(Indent(indent, Lines(logical))))
  {
    var lines := Lines(content);
    LineOffsets(content, start, end);
    SpliceAtParts(content, Join(lines[..start - 1]), Join(lines[start - 1..end]), Join(lines[end..]),
                  Join(Indent(indent, Lines(logical))));
    JoinLines(content);
    ClosedLast(lines);
    if end < |lines| {
      ClosedLast(lines[end..]);
    }
  }

  lemma AssembleLinesRelines(content: string, start: int, end: int, indent: string, logical: string)
    requires 1 <= start <= end <= |Lines(content)|
    requires TrimRight(logical) == logical
    requires forall i :: 0 <= i < |indent| ==> indent[i] != '\n'
    ensures Relines(content, AssembleLines(content, start, end, indent, logical), start, end, LineCount(logical))
  {
    AssembleLinesIsSplice(content, start, end, indent, logical);
    IndentedBlock(indent, logical);
    SpliceLinesRelines(content, start, end, Join(Indent(indent, Lines(logical))));
  }

  lemma Prefixed(prefix: string, lines: seq<string>)
    requires lines != [] && Proper(lines)
    requires forall i :: 0 <= i < |prefix| ==> prefix[i] != '\n'
    ensures Proper([prefix + lines[0]] + lines[1..])
    ensures Join([prefix + lines[0]] + lines[1..]) == prefix + Join(lines)
  {
    var out := [prefix + lines[0]] + lines[1..];
    assert out[1..] == lines[1..];
    assert (prefix + lines[0]) + Join(lines[1..]) == prefix + (lines[0] + Join(lines[1..]));
    forall i | 0 <= i < |out| ensures IsLine(out[i]) && (i < |out| - 1 ==> Closed(out[i])) {
      assert IsLine(lines[i]);
    }
  }

  lemma LineSuffixed(l: string, suffix: string)
    requires IsLine(l) && !Closed(l)
    requires forall i :: 0 <= i < |suffix| - 1 ==> suffix[i] != '\n'
    ensures IsLine(l + suffix)
  {
  }

  function WithSuffix(lines: seq<string>, suffix: string): seq<string>
    requires lines != []
  {
    lines[..|lines| - 1] + [lines[|lines| - 1] + suffix]
  }

  lemma JoinSuffixed(lines: seq<string>, suffix: string)
    requires lines != []
    ensures Join(WithSuffix(lines, suffix)) == Join(lines) + suffix
  {
    var n := |lines| - 1;
    var out := WithSuffix(lines, suffix);
    JoinLast(lines);
    JoinLast(out);
    assert out[..n] == lines[..n] && out[n] == lines[n] + suffix;
    var a, b := Join(lines[..n]), lines[n];
    assert a + (b + suffix) == (a + b) + suffix;
  }

  lemma ProperSuffixed(lines: seq<string>, suffix: string)
    requires lines != [] && Proper(lines) && !Closed(lines[|lines| - 1])
    requires forall i :: 0 <= i < |suffix| - 1 ==> suffix[i] != '\n'
    ensures Proper(WithSuffix(lines, suffix))
  {
    LineSuffixed(lines[|lines| - 1], suffix);
  }

  /** A prefix of one line, a text and a suffix of another line have as many lines as the text. */
  lemma Embedded(prefix: string, text: string, suffix: string)
    requires text != "" && !Closed(text)
    requires forall i :: 0 <= i < |prefix| ==> prefix[i] != '\n'
    requires forall i :: 0 <= i < |suffix| - 1 ==> suffix[i] != '\n'
    ensures |Lines(prefix + text + suffix)| == |Lines(text)|
  {
    JoinLines(text);
    var lines := Lines(text);
    Prefixed(prefix, lines);
    var first := [prefix + lines[0]] + lines[1..];
    ClosedLast(first);
    JoinSuffixed(first, suffix);
    ProperSuffixed(first, suffix);
    LinesJoin(WithSuffix(first, suffix));
  }

  /** A column inside a line splits it so that only the right part can hold the terminator. */
  lemma InsideLine(l: string, column: nat)
    requires IsLine(l) && column <= |TrimRight(l)|
    ensures column <= |l|
    ensures forall i :: 0 <= i < column ==> l[i] != '\n'
    ensures forall i :: 0 <= i < |l[column..]| - 1 ==> l[column..][i] != '\n'
    ensures Closed(l) ==> column < |l| && Closed(l[column..])
  {
    TrimRightPrefix(l);
  }

  lemma Regroup(a: string, p: string, l: string, s: string, c: string)
    ensures (a + p) + l + (s + c) == a + (p + l + s) + c
  {
  }

  lemma {:induction false} ExpressionText(
    content: string, start: int, startColumn: nat, end: int, endColumn: nat, logical: string
  )
    requires ColumnsInside(Lines(content), start, startColumn, end, endColumn)
    ensures startColumn <= |Lines(content)[start - 1]| && endColumn <= |Lines(content)[end - 1]|
    ensures AssembleExpression(content, start, startColumn, end, endColumn, logical)
         == (Join(Lines(content)[..start - 1]) + Lines(content)[start - 1][..startColumn]) + logical
            + (Lines(content)[end - 1][endColumn..] + Join(Lines(content)[end..]))
  {
    JoinLines(content);
    TrimRightPrefix(Lines(content)[start - 1]);
    TrimRightPrefix(Lines(content)[end - 1]);
    UpTo(content, Lines(content), start, startColumn);
    From(content, Lines(content), end, endColumn);
    AssembledOf(content, start, startColumn, end, endColumn, logical,
                Join(Lines(content)[..start - 1]) + Lines(content)[start - 1][..startColumn],
                Lines(content)[end - 1][endColumn..] + Join(Lines(content)[end..]));
  }

  lemma {:induction false} AssembledOf(
    content: string, start: int, startColumn: nat, end: int, endColumn: nat, logical: string,
    before: string, after: string
  )
    requires ColumnsInside(Lines(content), start, startColumn, end, endColumn)
    requires |Join(Lines(content)[..start - 1])| + startColumn <= |content|
    requires |Join(Lines(content)[..end - 1])| + endColumn <= |content|
    requires content[..|Join(Lines(content)[..start - 1])| + startColumn] == before
    requires content[|Join(Lines(content)[..end - 1])| + endColumn..] == after
    ensures AssembleExpression(content, start, startColumn, end, endColumn, logical) == before + logical + after
  {
  }

  lemma {:induction false} UpTo(content: string, lines: seq<string>, line: int, column: nat)
    requires content == Join(lines) && 1 <= line <= |lines| && column <= |lines[line - 1]|
    ensures |Join(lines[..line - 1])| + column <= |content|
    ensures content[..|Join(lines[..line - 1])| + column] == Join(lines[..line - 1]) + lines[line - 1][..column]
  {
    OffsetInside(lines, line, column);
  }

  lemma {:induction false} From(content: string, lines: seq<string>, line: int, column: nat)
    requires content == Join(lines) && 1 <= line <= |lines| && column <= |lines[line - 1]|
    ensures |Join(lines[..line - 1])| + column <= |content|
    ensures content[|Join(lines[..line - 1])| + column..] == lines[line - 1][column..] + Join(lines[line..])
  {
    OffsetInside(lines, line, column);
  }

  /** The expression splice as a new stretch of text between whole lines. */
  lemma {:induction false} ExpressionShape(
    content: string, start: int, startColumn: nat, end: int, endColumn: nat, logical: string
  ) returns (middle: string)
    requires ColumnsInside(Lines(content), start, startColumn, end, endColumn)
    requires logical != "" && TrimRight(logical) == logical
    ensures AssembleExpression(content, start, startColumn, end, endColumn, logical)
         == Join(Lines(content)[..start - 1]) + middle + Join(Lines(content)[end..])
    ensures |Lines(middle)| == |Lines(logical)|
    ensures end < |Lines(content)| ==> Closed(middle)
  {
    var lines := Lines(content);
    ExpressionText(content, start, startColumn, end, endColumn, logical);
    JoinLines(content);
    TrimRightTwice(logical);
    InsideLine(lines[start - 1], startColumn);
    InsideLine(lines[end - 1], endColumn);
    var prefix, suffix := lines[start - 1][..startColumn], lines[end - 1][endColumn..];
    Embedded(prefix, logical, suffix);
    Regroup(Join(lines[..start - 1]), prefix, logical, suffix, Join(lines[end..]));
    assert end < |lines| ==> Closed(lines[end - 1]);
    ClosedEnd(prefix + logical, suffix);
    middle := prefix + logical + suffix;
  }

  lemma ClosedEnd(a: string, b: string)
    ensures b != "" ==> (Closed(a + b) <==> Closed(b))
  {
  }

  /** Replacing a stretch of whole lines by a text, closed unless it ends the file, relines the file. */
  lemma {:induction false} StretchRelines(content: string, revised: string, start: int, end: int, middle: string)
    requires 1 <= start <= end <= |Lines(content)| && (end < |Lines(content)| ==> Closed(middle))
    requires revised == Join(Lines(content)[..start - 1]) + middle + Join(Lines(content)[end..])
    ensures Relines(content, revised, start, end, |Lines(middle)|)
  {
    var lines := Lines(content);
    JoinLines(content);
    JoinLines(middle);
    if middle != "" {
      ClosedLast(Lines(middle));
    }
    ProperParts(lines[..start - 1], Lines(middle), lines[end..]);
    RelinesFromParts(content, revised, start, end, lines[..start - 1], Lines(middle), lines[end..]);
  }

  /** The expression splice turns its lines into as many as the replacement has. */
  lemma {:induction false} AssembleExpressionRelines(
    content: string, start: int, startColumn: nat, end: int, endColumn: nat, logical: string
  )
    requires ColumnsInside(Lines(content), start, startColumn, end, endColumn)
    requires logical != "" && TrimRight(logical) == logical
    ensures Relines(content, AssembleExpression(content, start, startColumn, end, endColumn, logical),
                    start, end, LineCount(logical))
  {
    var middle := ExpressionShape(content, start, startColumn, end, endColumn, logical);
    StretchRelines(content, AssembleExpression(content, start, startColumn, end, endColumn, logical), start, end,
                   middle);
  }
}
