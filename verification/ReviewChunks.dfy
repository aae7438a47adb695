/**
Review chunks and their bisection (domain/review_chunks.py, review_planner.py `split`).
*/
module ReviewChunks {
  import opened Wrappers
  import opened Text

  /** `{prefix}:{index}` for a planned chunk, `{parent}.1` and `{parent}.2` for its halves. */
  datatype ChunkId = Root(prefix: string, index: nat) | Child(parent: ChunkId, number: nat)

  datatype ChunkStatus =
    | Pending | Queued | Running | Validating | Completed | Failed | Cancelled | Superseded

  datatype ErrorCode =
    | PlanningError | ContextOverflow | ModelError | InvalidOutput | ValidationError
    | LocalModelConnectionRefused | LocalModelTimeout | LocalModelCircuitOpen

  datatype ContextReference = ContextReference(path: string, startLine: nat, endLine: nat, code: string, rank: nat)

  datatype Chunk = Chunk(
    id: ChunkId, reviewId: string, fileId: string, startLine: int, endLine: int, code: string,
    references: seq<ContextReference>, parent: Option<ChunkId>, splitDepth: nat,
    attemptCount: nat, status: ChunkStatus, errorCode: Option<ErrorCode>)

  function Depth(id: ChunkId): nat {
    match id
    case Root(_, _) => 0
    case Child(parent, _) => Depth(parent) + 1
  }

  /** The planner's halves of a chunk, or nothing when its text has fewer than two lines. */
  function Split(chunk: Chunk): seq<Chunk> {
    if |Lines(chunk.code)| < 2 then [] else [UpperHalf(chunk), LowerHalf(chunk)]
  }

  function Middle(chunk: Chunk): nat {
    |Lines(chunk.code)| / 2
  }

  function UpperHalf(chunk: Chunk): Chunk {
    Half(chunk, 1, chunk.startLine, chunk.startLine + Middle(chunk) - 1, Lines(chunk.code)[..Middle(chunk)])
  }

  function LowerHalf(chunk: Chunk): Chunk {
    Half(chunk, 2, chunk.startLine + Middle(chunk), chunk.endLine, Lines(chunk.code)[Middle(chunk)..])
  }

  function Half(chunk: Chunk, number: nat, startLine: int, endLine: int, body: seq<string>): Chunk {
    chunk.(id := Child(chunk.id, number), startLine := startLine, endLine := endLine,
           code := TrimRight(Join(body)), parent := Some(chunk.id), splitDepth := chunk.splitDepth + 1,
           attemptCount := 0, status := Pending, errorCode := None)
  }

  /** A range of lines that is non-empty and at least as long as the text it stands for. */
  predicate Fits(chunk: Chunk) {
    1 <= chunk.startLine <= chunk.endLine && |Lines(chunk.code)| <= chunk.endLine - chunk.startLine + 1
  }

  predicate InChunk(chunk: Chunk, line: int) {
    chunk.startLine <= line <= chunk.endLine
  }

  lemma {:induction false} TrimRightLines(s: string)
    ensures |Lines(TrimRight(s))| <= |Lines(s)|
    ensures forall k :: 0 <= k < |Lines(TrimRight(s))| - 1 ==> Lines(s)[k] == Lines(TrimRight(s))[k]
    decreases |s|
  {
    if s != "" && s[|s| - 1] == '\n' {
      var t := s[..|s| - 1];
      TrimRightLines(t);
      if t != "" && !Closed(t) {
        CloseText(t);
        assert t + "\n" == s;
      } else {
        JoinLines(t);
        AppendClosed(t, "\n");
        assert t + "\n" == s;
      }
    }
  }

  lemma {:induction false} AppendClosed(a: string, b: string)
    requires Closed(a)
    ensures Lines(a + b) == Lines(a) + Lines(b)
  {
    JoinLines(a);
    JoinLines(b);
    if a != "" {
      ClosedLast(Lines(a));
    }
    JoinAppend(Lines(a), Lines(b));
    LinesJoin(Lines(a) + Lines(b));
  }

  /**
  Bisection partitions the chunk's range into two adjacent non-empty halves which fit their texts
  again, one level deeper and waiting to be reviewed.
  */
  lemma {:induction false} SplitPartitions(chunk: Chunk)
    requires Fits(chunk) && Split(chunk) != []
    ensures var halves := Split(chunk);
            && |halves| == 2 && Fits(halves[0]) && Fits(halves[1])
            && halves[0].startLine == chunk.startLine && halves[1].endLine == chunk.endLine
            && halves[1].startLine == halves[0].endLine + 1
            && halves[0].id == Child(chunk.id, 1) && halves[1].id == Child(chunk.id, 2)
            && forall h :: h in halves ==>
                 h.status == Pending && h.splitDepth == chunk.splitDepth + 1
                 && h.reviewId == chunk.reviewId && h.fileId == chunk.fileId && h.references == chunk.references
  {
    var lines, middle := Lines(chunk.code), Middle(chunk);
    JoinLines(chunk.code);
    HalfFits(chunk, 1, chunk.startLine, chunk.startLine + middle - 1, lines[..middle]);
    HalfFits(chunk, 2, chunk.startLine + middle, chunk.endLine, lines[middle..]);
  }

  lemma {:induction false} HalfFits(chunk: Chunk, number: nat, startLine: int, endLine: int, body: seq<string>)
    requires Proper(body) && 1 <= startLine <= endLine && |body| <= endLine - startLine + 1
    ensures Fits(Half(chunk, number, startLine, endLine, body))
  {
    LinesJoin(body);
    TrimRightLines(Join(body));
  }

  /** The chunk's text is its source lines joined, trailing newlines stripped. */
  predicate Aligned(chunk: Chunk, source: string) {
    && 1 <= chunk.startLine <= chunk.endLine <= |Lines(source)|
    && chunk.code == TrimRight(Join(Lines(source)[chunk.startLine - 1..chunk.endLine]))
  }

  /** Trimming a list of lines shortens it and can only touch the last line that stays. */
  lemma TrimmedLines(body: seq<string>)
    requires Proper(body)
    ensures var lines := Lines(TrimRight(Join(body)));
            && |lines| <= |body|
            && forall k :: 0 <= k < |lines| - 1 ==> lines[k] == body[k]
  {
    LinesJoin(body);
    TrimRightLines(Join(body));
  }

  /** An aligned chunk has no more lines than its range. */
  lemma {:induction false} AlignedFits(chunk: Chunk, source: string)
    requires Aligned(chunk, source)
    ensures Fits(chunk)
  {
    JoinLines(source);
    ProperPart(Lines(source), chunk.startLine - 1, chunk.endLine);
    TrimmedLines(Lines(source)[chunk.startLine - 1..chunk.endLine]);
  }

  /** Cutting the trimmed lines cuts the untrimmed ones at the same place. */
  lemma CutTrimmed(body: seq<string>, middle: nat)
    requires Proper(body) && middle < |Lines(TrimRight(Join(body)))|
    ensures middle < |body|
    ensures var lines := Lines(TrimRight(Join(body)));
            && lines[..middle] == body[..middle]
            && TrimRight(Join(lines[middle..])) == TrimRight(Join(body[middle..]))
  {
    var lines := Lines(TrimRight(Join(body)));
    TrimmedLines(body);
    assert lines[..middle] == body[..middle];
    JoinPrefix(body, middle);
    JoinLines(TrimRight(Join(body)));
    JoinPrefix(lines, middle);
    ClosedLast(lines[middle..]);
    RestTrimmed(Join(body[..middle]), Join(lines[middle..]), Join(body[middle..]));
  }

  lemma CutSlice<T>(s: seq<T>, i: int, cut: int, j: int)
    requires 0 <= i <= cut <= j <= |s|
    ensures s[i..j][..cut - i] == s[i..cut] && s[i..j][cut - i..] == s[cut..j]
  {
  }

  /** Cutting the trimmed text of a slice of lines cuts the slice at the same place. */
  lemma {:induction false} CutSliceText(all: seq<string>, i: int, cut: int, j: int, code: string, middle: nat)
    requires 0 <= i <= j <= |all| && Proper(all[i..j])
    requires code == TrimRight(Join(all[i..j])) && middle < |Lines(code)| && cut == i + middle
    ensures cut < j
    ensures TrimRight(Join(Lines(code)[..middle])) == TrimRight(Join(all[i..cut]))
    ensures TrimRight(Join(Lines(code)[middle..])) == TrimRight(Join(all[cut..j]))
  {
    CutTrimmed(all[i..j], middle);
    CutSlice(all, i, cut, j);
  }

  lemma {:induction false} HalvesText(chunk: Chunk, source: string, from: int, cut: int, middle: nat)
    requires Aligned(chunk, source) && from == chunk.startLine - 1 && middle < |Lines(chunk.code)|
    requires cut == from + middle
    ensures cut < chunk.endLine
    ensures TrimRight(Join(Lines(chunk.code)[..middle])) == TrimRight(Join(Lines(source)[from..cut]))
    ensures TrimRight(Join(Lines(chunk.code)[middle..])) == TrimRight(Join(Lines(source)[cut..chunk.endLine]))
  {
    JoinLines(source);
    ProperPart(Lines(source), from, chunk.endLine);
    CutSliceText(Lines(source), from, cut, chunk.endLine, chunk.code, middle);
  }

  lemma {:induction false} HalvesAligned(chunk: Chunk, source: string)
    requires Aligned(chunk, source) && |Lines(chunk.code)| >= 2
    ensures Aligned(UpperHalf(chunk), source) && Aligned(LowerHalf(chunk), source)
  {
    var lines, middle, from := Lines(chunk.code), Middle(chunk), chunk.startLine - 1;
    HalvesText(chunk, source, from, from + middle, middle);
  }

  /** Bisection keeps text and line numbers aligned, so it does at every depth. */
  lemma {:induction false} SplitAligned(chunk: Chunk, source: string)
    requires Aligned(chunk, source) && Split(chunk) != []
    ensures Aligned(Split(chunk)[0], source) && Aligned(Split(chunk)[1], source)
  {
    HalvesAligned(chunk, source);
  }

  lemma RestTrimmed(head: string, rest: string, tail: string)
    requires rest != "" && head + rest == TrimRight(head + tail)
    ensures TrimRight(rest) == TrimRight(tail)
  {
    TrimRightPrefix(head + tail);
    var code := head + rest;
    assert code[|code| - 1] == rest[|rest| - 1] != '\n';
    assert rest <= tail by {
      assert (head + tail)[|head|..] == tail;
      assert (head + tail)[..|code|] == code;
    }
    forall i | |rest| <= i < |tail| ensures tail[i] == '\n' {
      assert tail[i] == (head + tail)[|head| + i];
    }
    TrimRightUnique(rest, tail);
  }
}
