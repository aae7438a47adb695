/**
What a confirmed repair does to the findings and changed ranges around it
(hybrid_review_service.py, `_confirm_fix_locked`), measured against the text itself.
*/
module FixRemap {
  import opened Wrappers
  import opened ReviewModels
  import opened Text
  import opened FixSplice
  import opened FixLedger

  // ---------------------------------------------------------------------------------------------
  // Candidates as the preview step records them

  function SpanCandidate(
    findingId: string, fileId: string, content: string, start: int, end: int, body: string
  ): PreparedFix
    requires 1 <= start <= end <= |Lines(content)|
  {
    var replacement := TrimRight(TrimLeft(body));
    PreparedFix(findingId, fileId, Sha(content), Sha(content), SpliceLines(content, start, end, replacement),
                start, end, LineCount(replacement))
  }

  function BlockCandidate(
    findingId: string, fileId: string, content: string, start: int, end: int, indent: string, body: string
  ): PreparedFix
    requires 1 <= start <= end <= |Lines(content)|
  {
    var logical := TrimRight(TrimLeft(body));
    PreparedFix(findingId, fileId, Sha(content), Sha(content), AssembleLines(content, start, end, indent, logical),
                start, end, LineCount(Join(Indent(indent, Lines(logical)))))
  }

  function ExpressionCandidate(
    findingId: string, fileId: string, content: string,
    start: int, startColumn: nat, end: int, endColumn: nat, body: string
  ): PreparedFix
    requires ColumnsInside(Lines(content), start, startColumn, end, endColumn)
  {
    var logical := TrimRight(TrimLeft(body));
    PreparedFix(findingId, fileId, Sha(content), Sha(content),
                AssembleExpression(content, start, startColumn, end, endColumn, logical),
                start, end, LineCount(logical))
  }

  /** The full-file repair of a syntax error. */
  function FileCandidate(findingId: string, fileId: string, content: string, body: string): PreparedFix
    requires content != ""
  {
    var replacement := TrimRight(TrimLeft(body));
    PreparedFix(findingId, fileId, Sha(content), Sha(content),
                replacement + (if Closed(content) then "\n" else ""),
                1, |Lines(content)|, LineCount(replacement))
  }

  /** The recorded scope and line count describe the candidate's real effect on the lines. */
  predicate Accurate(content: string, fix: PreparedFix) {
    Relines(content, fix.revisedContent, fix.fixStart, fix.fixEnd, fix.replacementLines)
  }

  lemma SpanCandidateAccurate(findingId: string, fileId: string, content: string, start: int, end: int, body: string)
    requires 1 <= start <= end <= |Lines(content)|
    ensures Accurate(content, SpanCandidate(findingId, fileId, content, start, end, body))
  {
    TrimRightTwice(TrimLeft(body));
    SpliceLinesRelines(content, start, end, TrimRight(TrimLeft(body)));
  }

  lemma BlockCandidateAccurate(
    findingId: string, fileId: string, content: string, start: int, end: int, indent: string, body: string
  )
    requires 1 <= start <= end <= |Lines(content)|
    requires forall i :: 0 <= i < |indent| ==> indent[i] != '\n'
    ensures Accurate(content, BlockCandidate(findingId, fileId, content, start, end, indent, body))
  {
    var logical := TrimRight(TrimLeft(body));
    TrimRightTwice(TrimLeft(body));
    IndentedBlock(indent, logical);
    AssembleLinesRelines(content, start, end, indent, logical);
  }

  lemma ExpressionCandidateAccurate(
    findingId: string, fileId: string, content: string,
    start: int, startColumn: nat, end: int, endColumn: nat, body: string
  )
    requires ColumnsInside(Lines(content), start, startColumn, end, endColumn)
    requires TrimRight(TrimLeft(body)) != ""
    ensures Accurate(content, ExpressionCandidate(findingId, fileId, content, start, startColumn, end, endColumn, body))
  {
    var logical := TrimRight(TrimLeft(body));
    TrimRightTwice(TrimLeft(body));
    AssembleExpressionRelines(content, start, startColumn, end, endColumn, logical);
  }

  lemma FileCandidateAccurate(findingId: string, fileId: string, content: string, body: string)
    requires content != "" && TrimRight(TrimLeft(body)) != ""
    ensures Accurate(content, FileCandidate(findingId, fileId, content, body))
  {
    var replacement := TrimRight(TrimLeft(body));
    TrimRightTwice(TrimLeft(body));
    JoinLines(content);
    var n := |Lines(content)|;
    SpliceLinesRelines(content, 1, n, replacement);
    assert SpliceLines(content, 1, n, replacement) == replacement + (if Closed(content) then "\n" else "");
  }

  /** What the preview step makes a candidate of. */
  datatype Edit =
    | Span(start: int, end: int)
    | Block(start: int, end: int, indent: string)
    | Expression(start: int, startColumn: nat, end: int, endColumn: nat)
    | WholeFile

  /** The scope lies in the file; an expression or a whole file is not replaced by nothing. */
  predicate Applicable(edit: Edit, content: string, body: string) {
    match edit
    case Span(start, end) => 1 <= start <= end <= |Lines(content)|
    case Block(start, end, indent) => 1 <= start <= end <= |Lines(content)| && '\n' !in indent
    case Expression(start, startColumn, end, endColumn) =>
      ColumnsInside(Lines(content), start, startColumn, end, endColumn) && TrimRight(TrimLeft(body)) != ""
    case WholeFile => content != "" && TrimRight(TrimLeft(body)) != ""
  }

  function Candidate(findingId: string, fileId: string, content: string, edit: Edit, body: string): PreparedFix
    requires Applicable(edit, content, body)
  {
    match edit
    case Span(start, end) => SpanCandidate(findingId, fileId, content, start, end, body)
    case Block(start, end, indent) => BlockCandidate(findingId, fileId, content, start, end, indent, body)
    case Expression(start, startColumn, end, endColumn) =>
      ExpressionCandidate(findingId, fileId, content, start, startColumn, end, endColumn, body)
    case WholeFile => FileCandidate(findingId, fileId, content, body)
  }

  lemma CandidateAccurate(findingId: string, fileId: string, content: string, edit: Edit, body: string)
    requires Applicable(edit, content, body)
    ensures Accurate(content, Candidate(findingId, fileId, content, edit, body))
  {
    match edit
    case Span(start, end) => SpanCandidateAccurate(findingId, fileId, content, start, end, body);
    case Block(start, end, indent) => BlockCandidateAccurate(findingId, fileId, content, start, end, indent, body);
    case Expression(start, startColumn, end, endColumn) =>
      ExpressionCandidateAccurate(findingId, fileId, content, start, startColumn, end, endColumn, body);
    case WholeFile => FileCandidateAccurate(findingId, fileId, content, body);
  }

  /** Whatever the preview step assembles: shifting by the recorded delta is shifting by the real one. */
  lemma DeltaIsReal(findingId: string, fileId: string, content: string, edit: Edit, body: string)
    requires Applicable(edit, content, body)
    ensures var fix := Candidate(findingId, fileId, content, edit, body);
            |Lines(fix.revisedContent)| - |Lines(content)| == LineDelta(fix)
  {
    CandidateAccurate(findingId, fileId, content, edit, body);
  }

  // ---------------------------------------------------------------------------------------------
  // Findings

  predicate WellPlaced(files: map<string, SourceFile>, item: Finding) {
    && item.fileId in files
    && 1 <= item.startLine <= item.endLine <= |Lines(files[item.fileId].content)|
  }

  /** The source lines a finding points at. */
  function Denoted(files: map<string, SourceFile>, item: Finding): seq<string>
    requires WellPlaced(files, item)
  {
    Lines(files[item.fileId].content)[item.startLine - 1..item.endLine]
  }

  function Revised(files: map<string, SourceFile>, fix: PreparedFix): map<string, SourceFile>
    requires fix.fileId in files
  {
    files[fix.fileId := files[fix.fileId].(content := fix.revisedContent)]
  }

  lemma {:induction false} SlicesBefore<T>(s: seq<T>, t: seq<T>, k: nat, i: nat, j: nat)
    requires i <= j <= k <= |s| && k <= |t| && s[..k] == t[..k]
    ensures s[i..j] == t[i..j]
  {
    forall n | 0 <= n < j - i ensures s[i..j][n] == t[i..j][n] {
      assert s[..k][i + n] == t[..k][i + n];
    }
  }

  lemma {:induction false} SlicesBehind<T>(s: seq<T>, t: seq<T>, k: nat, shifted: nat, i: nat, j: nat)
    requires k <= i <= j <= |s| && shifted <= |t| && s[k..] == t[shifted..]
    ensures j - k + shifted <= |t| && s[i..j] == t[i - k + shifted..j - k + shifted]
  {
    assert |s| - k == |t| - shifted;
    forall n | 0 <= n < j - i ensures s[i..j][n] == t[i - k + shifted..j - k + shifted][n] {
      assert s[k..][i - k + n] == t[shifted..][i - k + n];
    }
  }

  lemma {:induction false} LinesBefore(content: string, fix: PreparedFix, first: int, last: int)
    requires Accurate(content, fix) && 1 <= first <= last < fix.fixStart
    ensures last <= |Lines(content)| && last <= |Lines(fix.revisedContent)|
    ensures Lines(fix.revisedContent)[first - 1..last] == Lines(content)[first - 1..last]
  {
    SlicesBefore(Lines(content), Lines(fix.revisedContent), fix.fixStart - 1, first - 1, last);
  }

  lemma {:induction false} LinesBehind(content: string, fix: PreparedFix, first: int, last: int)
    requires Accurate(content, fix) && fix.fixEnd < first <= last <= |Lines(content)|
    ensures 1 <= first + LineDelta(fix) <= last + LineDelta(fix) <= |Lines(fix.revisedContent)|
    ensures Lines(fix.revisedContent)[first + LineDelta(fix) - 1..last + LineDelta(fix)]
         == Lines(content)[first - 1..last]
  {
    SlicesBehind(Lines(content), Lines(fix.revisedContent), fix.fixEnd, fix.fixStart - 1 + fix.replacementLines,
                 first - 1, last);
  }

  /** A finding that is kept still points at the very same lines. */
  lemma {:induction false} RemappedDenotesSame(files: map<string, SourceFile>, fix: PreparedFix, item: Finding)
    requires fix.fileId in files && Accurate(files[fix.fileId].content, fix)
    requires WellPlaced(files, item) && Remapped(item, fix, fix.fileId).Some?
    ensures var moved := Remapped(item, fix, fix.fileId).value;
            && moved.id == item.id && moved.fileId == item.fileId
            && WellPlaced(Revised(files, fix), moved)
            && Denoted(Revised(files, fix), moved) == Denoted(files, item)
  {
    if item.fileId == fix.fileId {
      if item.endLine < fix.fixStart {
        LinesBefore(files[fix.fileId].content, fix, item.startLine, item.endLine);
      } else {
        LinesBehind(files[fix.fileId].content, fix, item.startLine, item.endLine);
      }
    }
  }

  lemma {:induction false} KeptExactly(findings: seq<Finding>, fix: PreparedFix, fileId: string, kept: Finding)
    ensures kept in KeptFindings(findings, fix, fileId)
       <==> exists i :: 0 <= i < |findings| && Remapped(findings[i], fix, fileId) == Some(kept)
    decreases |findings|
  {
    if findings != [] {
      var last := |findings| - 1;
      KeptExactly(findings[..last], fix, fileId, kept);
      if i :| 0 <= i < |findings| && Remapped(findings[i], fix, fileId) == Some(kept) {
        if i < last {
          assert findings[..last][i] == findings[i];
        }
      }
    }
  }

  /**
  After a confirm, a finding is listed exactly when it comes from an earlier one that is neither
  the repaired finding nor overlapping the repair, and it points at the same text as before. The
  candidate was accurate for the text it was prepared on; the digest check makes that the current one.
  */
  lemma {:induction false} ConfirmKeepsDenotedText(
    s: Session, content: string, fix: PreparedFix, clean: bool, revisionId: string, attempt: nat, kept: Finding
  )
    requires fix.baseSha == Sha(content) && Accurate(content, fix)
    requires Confirmed(s, fix, clean, revisionId, attempt).Ok?
    requires LookupFinding(s, fix.findingId).value.fileId == fix.fileId
    requires forall i :: 0 <= i < |s.findings| ==> WellPlaced(s.files, s.findings[i])
    ensures var s' := Confirmed(s, fix, clean, revisionId, attempt).value;
            && (kept in s'.findings <==>
                  exists i :: 0 <= i < |s.findings| && Remapped(s.findings[i], fix, fix.fileId) == Some(kept))
            && forall i :: 0 <= i < |s.findings| && Remapped(s.findings[i], fix, fix.fileId) == Some(kept) ==>
                 && WellPlaced(s'.files, kept)
                 && Denoted(s'.files, kept) == Denoted(s.files, s.findings[i])
  {
    var s' := Confirmed(s, fix, clean, revisionId, attempt).value;
    KeptExactly(s.findings, fix, fix.fileId, kept);
    assert s'.files == Revised(s.files, fix);
    forall i | 0 <= i < |s.findings| && Remapped(s.findings[i], fix, fix.fileId) == Some(kept)
      ensures WellPlaced(s'.files, kept) && Denoted(s'.files, kept) == Denoted(s.files, s.findings[i])
    {
      RemappedDenotesSame(s.files, fix, s.findings[i]);
    }
  }

  // ---------------------------------------------------------------------------------------------
  // Changed ranges

  predicate ValidRange(r: LineRange) {
    1 <= r.startLine <= r.endLine
  }

  predicate InRange(r: LineRange, line: int) {
    r.startLine <= line <= r.endLine
  }

  predicate Overlaps(r: LineRange, fix: PreparedFix) {
    r.startLine <= fix.fixEnd && fix.fixStart <= r.endLine
  }

  /** The last line the code attributes to the replacement; an empty one still counts as a line. */
  function ReplacementEnd(fix: PreparedFix): int {
    fix.fixStart + (if fix.replacementLines > 1 then fix.replacementLines else 1) - 1
  }

  predicate ValidScope(fix: PreparedFix) {
    1 <= fix.fixStart <= fix.fixEnd
  }

  predicate Covered(ranges: seq<LineRange>, line: int) {
    exists i :: 0 <= i < |ranges| && InRange(ranges[i], line)
  }

  lemma AdjustedStaysValid(ranges: seq<LineRange>, fix: PreparedFix)
    requires ValidScope(fix) && forall i :: 0 <= i < |ranges| ==> ValidRange(ranges[i])
    ensures forall i :: 0 <= i < |ranges| ==> ValidRange(AdjustedRanges(ranges, fix)[i])
  {
  }

  lemma AdjustedRangeExactly(r: LineRange, fix: PreparedFix, line: int)
    requires ValidScope(fix) && ValidRange(r)
    ensures InRange(AdjustedRange(r, fix), line) <==>
              || (line < fix.fixStart && InRange(r, line))
              || (line - LineDelta(fix) > fix.fixEnd && InRange(r, line - LineDelta(fix)))
              || (Overlaps(r, fix) && fix.fixStart <= line <= ReplacementEnd(fix))
  {
  }

  /**
  The adjusted ranges cover exactly: the changed lines before the repair, the images of the changed
  lines after it, and the replacement when some changed range overlapped the repair.
  */
  lemma AdjustedCoversExactly(ranges: seq<LineRange>, fix: PreparedFix, line: int)
    requires ValidScope(fix) && forall i :: 0 <= i < |ranges| ==> ValidRange(ranges[i])
    ensures Covered(AdjustedRanges(ranges, fix), line) <==>
              || (line < fix.fixStart && Covered(ranges, line))
              || (line - LineDelta(fix) > fix.fixEnd && Covered(ranges, line - LineDelta(fix)))
              || ((exists i :: 0 <= i < |ranges| && Overlaps(ranges[i], fix))
                  && fix.fixStart <= line <= ReplacementEnd(fix))
  {
    var adjusted := AdjustedRanges(ranges, fix);
    forall i | 0 <= i < |ranges|
      ensures InRange(adjusted[i], line) <==>
                || (line < fix.fixStart && InRange(ranges[i], line))
                || (line - LineDelta(fix) > fix.fixEnd && InRange(ranges[i], line - LineDelta(fix)))
                || (Overlaps(ranges[i], fix) && fix.fixStart <= line <= ReplacementEnd(fix))
    {
      AdjustedRangeExactly(ranges[i], fix, line);
    }
  }

  /**
  A changed range of the old file ends inside the new file except in one case: the repair deleted
  the end of the file and the range overlapped it, which leaves a range one past the last line.
  */
  lemma AdjustedInsideFileExactly(content: string, fix: PreparedFix, r: LineRange)
    requires Accurate(content, fix) && ValidRange(r) && r.endLine <= |Lines(content)|
    ensures AdjustedRange(r, fix).endLine <= |Lines(fix.revisedContent)| <==>
              !(fix.replacementLines == 0 && fix.fixEnd == |Lines(content)| && Overlaps(r, fix))
  {
  }

  /** That case: deleting the only line of a file moves a range on it to line 1 of an empty file. */
  lemma AdjustedLeavesFile(findingId: string, fileId: string)
    ensures |Lines("x\n")| == 1
    ensures var fix := SpanCandidate(findingId, fileId, "x\n", 1, 1, "");
            && fix.revisedContent == ""
            && AdjustedRange(LineRange(1, 1), fix) == LineRange(1, 1)
            && |Lines(fix.revisedContent)| == 0
  {
  }
}
