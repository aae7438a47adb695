/** Grouping the top-level statements of a Python file into chunks (python_chunker.py). */
module PythonChunker {
  import opened Wrappers
  import opened Decimal
  import opened Text
  import opened ReviewChunks

  /** A top-level statement: whether it is a class or function definition, its lines, the lines of its decorators. */
  datatype Statement = Statement(definition: bool, line: int, endLine: Option<int>, decorators: seq<int>)

  datatype Range = Range(start: int, end: int)

  datatype Source = Source(fileId: string, path: string, content: string)

  // ---------------------------------------------------------------------------------------------
  // Ranges

  function Least(x: int, s: seq<int>): (m: int)
    ensures m <= x && forall i :: 0 <= i < |s| ==> m <= s[i]
    ensures m == x || m in s
    decreases |s|
  {
    if s == [] then x else if s[0] < x then Least(s[0], s[1..]) else Least(x, s[1..])
  }

  function Greatest(x: int, s: seq<int>): (m: int)
    ensures m >= x && forall i :: 0 <= i < |s| ==> m >= s[i]
    ensures m == x || m in s
    decreases |s|
  {
    if s == [] then x else if s[0] > x then Greatest(s[0], s[1..]) else Greatest(x, s[1..])
  }

  /** From the first decorator or the statement's own line, whichever comes first. */
  function StatementRange(s: Statement): Range {
    Range(Least(s.line, s.decorators), if s.endLine.Some? && s.endLine.value != 0 then s.endLine.value else s.line)
  }

  function Starts(group: seq<Statement>): seq<int> {
    seq(|group|, i requires 0 <= i < |group| => StatementRange(group[i]).start)
  }

  function Ends(group: seq<Statement>): seq<int> {
    seq(|group|, i requires 0 <= i < |group| => StatementRange(group[i]).end)
  }

  function GroupRange(group: seq<Statement>): Range
    requires group != []
  {
    Range(Least(Starts(group)[0], Starts(group)), Greatest(Ends(group)[0], Ends(group)))
  }

  /** Nothing, or one range from the least start to the greatest end. */
  function PendingRange(pending: seq<Statement>): seq<Range> {
    if pending == [] then [] else [GroupRange(pending)]
  }

  // ---------------------------------------------------------------------------------------------
  // Groups

  function Flatten(groups: seq<seq<Statement>>): seq<Statement> {
    if groups == [] then [] else Flatten(groups[..|groups| - 1]) + groups[|groups| - 1]
  }

  predicate IsGroup(group: seq<Statement>) {
    group != [] && (forall i :: 0 <= i < |group| ==> group[i].definition ==> |group| == 1)
  }

  /** A definition alone, or a whole run of other statements: two neighbours are never both such runs. */
  predicate IsGrouping(groups: seq<seq<Statement>>, statements: seq<Statement>) {
    && Flatten(groups) == statements
    && (forall g :: 0 <= g < |groups| ==> IsGroup(groups[g]))
    && (forall g :: 0 < g < |groups| ==> groups[g - 1][0].definition || groups[g][0].definition)
  }

  function RangesOf(groups: seq<seq<Statement>>): seq<Range>
    requires forall g :: 0 <= g < |groups| ==> groups[g] != []
  {
    seq(|groups|, g requires 0 <= g < |groups| => GroupRange(groups[g]))
  }

  /** There is no run of other statements to join. */
  predicate StartsAnew(groups: seq<seq<Statement>>)
    requires forall g :: 0 <= g < |groups| ==> groups[g] != []
  {
    groups == [] || groups[|groups| - 1][0].definition
  }

  /** A definition opens a group of its own; another statement joins the last group unless that is a definition. */
  function Groups(statements: seq<Statement>): (groups: seq<seq<Statement>>)
    ensures forall g :: 0 <= g < |groups| ==> groups[g] != []
  {
    if statements == [] then []
    else
      var n := |statements| - 1;
      var before, s := Groups(statements[..n]), statements[n];
      if s.definition || StartsAnew(before) then before + [[s]]
      else before[..|before| - 1] + [before[|before| - 1] + [s]]
  }

  lemma FlattenAppend(groups: seq<seq<Statement>>, group: seq<Statement>)
    ensures Flatten(groups + [group]) == Flatten(groups) + group
  {
    assert (groups + [group])[..|groups|] == groups;
  }

  lemma {:induction false} GroupingAlone(groups: seq<seq<Statement>>, seen: seq<Statement>, s: Statement)
    requires IsGrouping(groups, seen) && (s.definition || StartsAnew(groups))
    ensures IsGrouping(groups + [[s]], seen + [s])
  {
    FlattenAppend(groups, [s]);
  }

  lemma NoDefinitions(group: seq<Statement>)
    requires IsGroup(group) && !group[0].definition
    ensures forall i :: 0 <= i < |group| ==> !group[i].definition
  {
  }

  lemma {:induction false} GroupingJoined(
    head: seq<seq<Statement>>, last: seq<Statement>, seen: seq<Statement>, s: Statement
  )
    requires IsGrouping(head + [last], seen) && !s.definition && last != [] && !last[0].definition
    ensures IsGrouping(head + [last + [s]], seen + [s])
  {
    var was, groups := head + [last], head + [last + [s]];
    FlattenAppend(head, last);
    FlattenAppend(head, last + [s]);
    assert Flatten(head) + (last + [s]) == seen + [s];
    assert IsGroup(was[|head|]);
    NoDefinitions(last);
    forall g | 0 <= g < |groups| ensures IsGroup(groups[g]) {
      assert g < |head| ==> groups[g] == was[g] && IsGroup(was[g]);
    }
    forall g | 0 < g < |groups| ensures groups[g - 1][0].definition || groups[g][0].definition {
      assert groups[g - 1] == was[g - 1] && groups[g][0] == was[g][0];
    }
  }

  lemma {:induction false} GroupsAreGrouping(statements: seq<Statement>)
    ensures IsGrouping(Groups(statements), statements)
    decreases |statements|
  {
    if statements != [] {
      var n := |statements| - 1;
      GroupsAreGrouping(statements[..n]);
      assert statements == statements[..n] + [statements[n]];
      GroupingGrows(statements[..n], statements[n]);
    }
  }

  lemma {:induction false} GroupingGrows(seen: seq<Statement>, s: Statement)
    requires IsGrouping(Groups(seen), seen)
    ensures IsGrouping(Groups(seen + [s]), seen + [s])
  {
    var before := Groups(seen);
    if s.definition || StartsAnew(before) {
      GroupsAlone(seen, s);
      GroupingAlone(before, seen, s);
    } else {
      var m := |before| - 1;
      assert before == before[..m] + [before[m]];
      GroupsJoined(seen, s, before[..m], before[m]);
      GroupingJoined(before[..m], before[m], seen, s);
    }
  }

  /** How the groups grow by one statement. */
  lemma {:induction false} GroupsAlone(seen: seq<Statement>, s: Statement)
    requires s.definition || StartsAnew(Groups(seen))
    ensures Groups(seen + [s]) == Groups(seen) + [[s]]
  {
    assert (seen + [s])[..|seen|] == seen;
  }

  lemma {:induction false} GroupsJoined(
    seen: seq<Statement>, s: Statement, head: seq<seq<Statement>>, last: seq<Statement>
  )
    requires !s.definition && Groups(seen) == head + [last] && last != [] && !last[0].definition
    ensures Groups(seen + [s]) == head + [last + [s]]
  {
    assert (seen + [s])[..|seen|] == seen;
    assert (head + [last])[..|head|] == head;
  }

  lemma RangesAppend(groups: seq<seq<Statement>>, group: seq<Statement>)
    requires (forall g :: 0 <= g < |groups| ==> groups[g] != []) && group != []
    ensures RangesOf(groups + [group]) == RangesOf(groups) + [GroupRange(group)]
  {
  }

  lemma SingleRange(s: Statement)
    ensures GroupRange([s]) == StatementRange(s)
  {
    var range := StatementRange(s);
    assert Starts([s]) == [range.start] && Ends([s]) == [range.end];
  }

  /** The groups so far are those that are closed and the run of other statements that is still growing. */
  ghost predicate Growing(closed: seq<seq<Statement>>, pending: seq<Statement>, seen: seq<Statement>) {
    && Groups(seen) == closed + (if pending == [] then [] else [pending])
    && (pending != [] ==> !pending[0].definition)
    && (closed != [] ==> closed[|closed| - 1] != [] && closed[|closed| - 1][0].definition)
    && (forall g :: 0 <= g < |closed| ==> closed[g] != [])
  }

  lemma {:induction false} CloseRun(closed: seq<seq<Statement>>, pending: seq<Statement>, seen: seq<Statement>)
    requires Growing(closed, pending, seen)
    ensures RangesOf(Groups(seen)) == RangesOf(closed) + PendingRange(pending)
  {
    if pending == [] {
      assert closed + [] == closed;
    } else {
      RangesAppend(closed, pending);
    }
  }

  lemma {:induction false} AddDefinition(
    closed: seq<seq<Statement>>, pending: seq<Statement>, seen: seq<Statement>, s: Statement
  )
    requires Growing(closed, pending, seen) && s.definition
    ensures Growing(Groups(seen + [s]), [], seen + [s])
    ensures RangesOf(Groups(seen + [s])) == RangesOf(closed) + PendingRange(pending) + [StatementRange(s)]
  {
    GroupsAlone(seen, s);
    CloseRun(closed, pending, seen);
    RangesAppend(Groups(seen), [s]);
    SingleRange(s);
    assert Groups(seen + [s]) + [] == Groups(seen + [s]);
  }

  lemma {:induction false} AddOther(
    closed: seq<seq<Statement>>, pending: seq<Statement>, seen: seq<Statement>, s: Statement
  )
    requires Growing(closed, pending, seen) && !s.definition
    ensures Growing(closed, pending + [s], seen + [s])
  {
    if pending == [] {
      assert closed + [] == closed;
      GroupsAlone(seen, s);
      assert [] + [s] == [s];
    } else {
      GroupsJoined(seen, s, closed, pending);
    }
  }

  // ---------------------------------------------------------------------------------------------
  // What the ranges are

  /** Statements in the order of the source: only two plain ones may share a line. */
  predicate Sequential(statements: seq<Statement>) {
    && (forall i :: 0 <= i < |statements| ==>
          1 <= StatementRange(statements[i]).start <= StatementRange(statements[i]).end)
    && (forall i, j :: 0 <= i < j < |statements| ==> Follows(statements[i], statements[j]))
  }

  predicate Follows(s: Statement, t: Statement) {
    && StatementRange(s).end <= StatementRange(t).start
    && (s.definition || t.definition ==> StatementRange(s).end < StatementRange(t).start)
  }

  predicate Inside(s: Statement, range: Range) {
    range.start <= StatementRange(s).start && StatementRange(s).end <= range.end
  }

  /** Where a group's statements stand in the file. */
  function Offset(groups: seq<seq<Statement>>, g: nat): nat
    requires g <= |groups|
  {
    |Flatten(groups[..g])|
  }

  lemma {:induction false} GroupPlace(groups: seq<seq<Statement>>, g: nat)
    requires g < |groups|
    ensures Offset(groups, g + 1) == Offset(groups, g) + |groups[g]| <= |Flatten(groups)|
    ensures Flatten(groups)[Offset(groups, g)..Offset(groups, g + 1)] == groups[g]
    decreases |groups|
  {
    var n := |groups| - 1;
    assert groups[..g + 1][..g] == groups[..g] && groups[..n + 1] == groups;
    if g < n {
      GroupPlace(groups[..n], g);
      assert groups[..n][..g] == groups[..g] && groups[..n][..g + 1] == groups[..g + 1];
      assert Flatten(groups)[..|Flatten(groups[..n])|] == Flatten(groups[..n]);
    }
  }

  lemma {:induction false} OffsetsGrow(groups: seq<seq<Statement>>, g: nat, h: nat)
    requires g <= h <= |groups|
    ensures Offset(groups, g) <= Offset(groups, h)
    decreases h
  {
    if g < h {
      OffsetsGrow(groups, g, h - 1);
      GroupPlace(groups, h - 1);
    }
  }

  /** A group's range holds exactly its statements, from the first one's start to the last one's end. */
  lemma GroupTight(group: seq<Statement>)
    requires Sequential(group) && group != []
    ensures GroupRange(group) == Range(StatementRange(group[0]).start, StatementRange(group[|group| - 1]).end)
    ensures forall i :: 0 <= i < |group| ==> Inside(group[i], GroupRange(group))
  {
    var first, last := StatementRange(group[0]).start, StatementRange(group[|group| - 1]).end;
    forall i | 0 <= i < |group| ensures first <= Starts(group)[i] && Ends(group)[i] <= last {
      assert i > 0 ==> Follows(group[0], group[i]);
      assert i < |group| - 1 ==> Follows(group[i], group[|group| - 1]);
    }
    assert Least(Starts(group)[0], Starts(group)) >= first;
    assert Ends(group)[|group| - 1] == last;
  }

  lemma SequentialPart(statements: seq<Statement>, i: nat, j: nat)
    requires Sequential(statements) && i <= j <= |statements|
    ensures Sequential(statements[i..j])
  {
  }

  lemma GroupMember(groups: seq<seq<Statement>>, g: nat, i: nat)
    requires g < |groups| && i < |groups[g]|
    ensures Offset(groups, g) + i < |Flatten(groups)| && Flatten(groups)[Offset(groups, g) + i] == groups[g][i]
  {
    GroupPlace(groups, g);
    assert Flatten(groups)[Offset(groups, g)..Offset(groups, g + 1)][i] == groups[g][i];
  }

  lemma GroupSequential(groups: seq<seq<Statement>>, statements: seq<Statement>, g: nat)
    requires IsGrouping(groups, statements) && Sequential(statements) && g < |groups|
    ensures Sequential(groups[g]) && groups[g] != []
  {
    GroupPlace(groups, g);
    SequentialPart(statements, Offset(groups, g), Offset(groups, g + 1));
  }

  lemma GroupsFollow(groups: seq<seq<Statement>>, statements: seq<Statement>, g: nat, h: nat)
    requires IsGrouping(groups, statements) && Sequential(statements) && g < h < |groups|
    ensures groups[g] != [] && groups[h] != [] && Follows(groups[g][|groups[g]| - 1], groups[h][0])
  {
    GroupMember(groups, g, |groups[g]| - 1);
    GroupMember(groups, h, 0);
    GroupPlace(groups, g);
    OffsetsGrow(groups, g + 1, h);
    assert Follows(statements[Offset(groups, g) + |groups[g]| - 1], statements[Offset(groups, h)]);
  }

  /** The ranges stand in the order of the source and share no line. */
  lemma RangesAreOrdered(groups: seq<seq<Statement>>, statements: seq<Statement>, g: nat, h: nat)
    requires IsGrouping(groups, statements) && Sequential(statements) && g < h < |groups|
    ensures RangesOf(groups)[g].end < RangesOf(groups)[h].start
    decreases h - g
  {
    GroupSequential(groups, statements, g);
    GroupSequential(groups, statements, h);
    GroupTight(groups[g]);
    GroupTight(groups[h]);
    GroupsFollow(groups, statements, g, h);
    if !groups[g][0].definition && !groups[h][0].definition {
      assert groups[g][0].definition || groups[g + 1][0].definition;
      RangesAreOrdered(groups, statements, g, g + 1);
      RangesAreOrdered(groups, statements, g + 1, h);
      GroupSequential(groups, statements, g + 1);
      GroupTight(groups[g + 1]);
    }
  }

  lemma {:induction false} FindGroup(groups: seq<seq<Statement>>, k: nat) returns (g: nat, i: nat)
    requires k < |Flatten(groups)|
    ensures g < |groups| && i < |groups[g]| && groups[g][i] == Flatten(groups)[k]
    decreases |groups|
  {
    var n := |groups| - 1;
    if k < |Flatten(groups[..n])| {
      g, i := FindGroup(groups[..n], k);
    } else {
      g, i := n, k - |Flatten(groups[..n])|;
    }
  }

  /** The statement lies inside this range and shares no line with any other; a definition has a range of its own. */
  ghost predicate Home(ranges: seq<Range>, g: nat, s: Statement)
    requires g < |ranges|
  {
    && Inside(s, ranges[g])
    && (s.definition ==> ranges[g] == StatementRange(s))
    && (forall h :: 0 <= h < |ranges| && h != g ==>
          ranges[h].end < StatementRange(s).start || StatementRange(s).end < ranges[h].start)
  }

  ghost predicate HasHome(ranges: seq<Range>, s: Statement) {
    exists g: nat :: g < |ranges| && Home(ranges, g, s)
  }

  /** Every statement is in exactly one range. */
  lemma EachStatementOnce(groups: seq<seq<Statement>>, statements: seq<Statement>, k: nat)
    requires IsGrouping(groups, statements) && Sequential(statements) && k < |statements|
    ensures HasHome(RangesOf(groups), statements[k])
  {
    var g, i := FindGroup(groups, k);
    GroupSequential(groups, statements, g);
    GroupTight(groups[g]);
    var ranges, s := RangesOf(groups), statements[k];
    if s.definition {
      assert groups[g] == [s];
      SingleRange(s);
    }
    forall h | 0 <= h < |ranges| && h != g
      ensures ranges[h].end < StatementRange(s).start || StatementRange(s).end < ranges[h].start
    {
      if h < g {
        RangesAreOrdered(groups, statements, h, g);
      } else {
        RangesAreOrdered(groups, statements, g, h);
      }
    }
    assert Home(ranges, g, s);
  }

  lemma RangeBounds(groups: seq<seq<Statement>>, statements: seq<Statement>, g: nat, last: int)
    requires IsGrouping(groups, statements) && Sequential(statements) && g < |groups|
    requires forall k :: 0 <= k < |statements| ==> StatementRange(statements[k]).end <= last
    ensures 1 <= RangesOf(groups)[g].start <= RangesOf(groups)[g].end <= last
  {
    GroupSequential(groups, statements, g);
    GroupTight(groups[g]);
    GroupMember(groups, g, |groups[g]| - 1);
    assert Inside(groups[g][0], RangesOf(groups)[g]);
  }

  /** The ranges of the statements lie in the file, in order, without a common line, and hold each statement once. */
  ghost predicate Right(ranges: seq<Range>, statements: seq<Statement>, last: int) {
    && (forall g :: 0 <= g < |ranges| ==> 1 <= ranges[g].start <= ranges[g].end <= last)
    && (forall g, h :: 0 <= g < h < |ranges| ==> ranges[g].end < ranges[h].start)
    && (forall k :: 0 <= k < |statements| ==> HasHome(ranges, statements[k]))
  }

  lemma {:induction false} RangesAreRight(statements: seq<Statement>, last: int)
    requires Sequential(statements)
    requires forall k :: 0 <= k < |statements| ==> StatementRange(statements[k]).end <= last
    ensures Right(RangesOf(Groups(statements)), statements, last)
  {
    var groups := Groups(statements);
    var ranges := RangesOf(groups);
    GroupsAreGrouping(statements);
    forall g | 0 <= g < |ranges| ensures 1 <= ranges[g].start <= ranges[g].end <= last {
      RangeBounds(groups, statements, g, last);
    }
    forall g, h | 0 <= g < h < |ranges| ensures ranges[g].end < ranges[h].start {
      RangesAreOrdered(groups, statements, g, h);
    }
    forall k | 0 <= k < |statements| ensures HasHome(ranges, statements[k]) {
      EachStatementOnce(groups, statements, k);
    }
  }

  // ---------------------------------------------------------------------------------------------
  // The chunker

  /** What both chunkers put before a chunk's number. */
  function Prefix(reviewId: string, fileId: string, range: Range): string
    requires 1 <= range.start <= range.end
  {
    reviewId + ":" + fileId + ":" + ToDecimal(range.start) + "-" + ToDecimal(range.end)
  }

  function MakeChunk(
    reviewId: string, source: Source, range: Range, index: nat, parent: Option<ChunkId>, splitDepth: nat
  ): Chunk
    requires 1 <= range.start <= range.end <= |Lines(source.content)|
  {
    Chunk(Root(Prefix(reviewId, source.fileId, range), index), reviewId, source.fileId, range.start, range.end,
          TrimRight(Join(Lines(source.content)[range.start - 1..range.end])), [], parent, splitDepth, 0, Pending, None)
  }

  /** The ranges of the single definitions and of the maximal runs of other statements. */
  method Ranges(statements: seq<Statement>) returns (ranges: seq<Range>)
    ensures ranges == RangesOf(Groups(statements))
  {
    ranges := [];
    ghost var closed: seq<seq<Statement>> := [];
    var pending: seq<Statement> := [];
    for k := 0 to |statements|
      invariant Growing(closed, pending, statements[..k]) && ranges == RangesOf(closed)
    {
      var statement := statements[k];
      assert statements[..k + 1] == statements[..k] + [statement];
      if statement.definition {
        AddDefinition(closed, pending, statements[..k], statement);
        ranges := ranges + PendingRange(pending);
        pending := [];
        ranges := ranges + [StatementRange(statement)];
        closed := Groups(statements[..k + 1]);
      } else {
        AddOther(closed, pending, statements[..k], statement);
        pending := pending + [statement];
      }
    }
    assert statements[..|statements|] == statements;
    CloseRun(closed, pending, statements);
    ranges := ranges + PendingRange(pending);
  }

  function MakeChunks(
    reviewId: string, source: Source, ranges: seq<Range>, parent: Option<ChunkId>, splitDepth: nat
  ): seq<Chunk>
    requires forall i :: 0 <= i < |ranges| ==> 1 <= ranges[i].start <= ranges[i].end <= |Lines(source.content)|
  {
    seq(|ranges|, i requires 0 <= i < |ranges| => MakeChunk(reviewId, source, ranges[i], i, parent, splitDepth))
  }

  /** Chunk number `i` of a file: waiting, its text that of its lines, and named after both. */
  predicate IsChunkOf(c: Chunk, i: nat, reviewId: string, source: Source, parent: Option<ChunkId>, splitDepth: nat) {
    && Aligned(c, source.content) && c.fileId == source.fileId && c.reviewId == reviewId
    && c.id == Root(Prefix(reviewId, source.fileId, RangeOf(c)), i)
    && c.status == Pending && c.splitDepth == splitDepth && c.parent == parent
  }

  lemma {:induction false} MakeChunkIs(
    reviewId: string, source: Source, range: Range, i: nat, parent: Option<ChunkId>, splitDepth: nat
  )
    requires 1 <= range.start <= range.end <= |Lines(source.content)|
    ensures IsChunkOf(MakeChunk(reviewId, source, range, i, parent, splitDepth), i, reviewId, source, parent,
                      splitDepth)
    ensures RangeOf(MakeChunk(reviewId, source, range, i, parent, splitDepth)) == range
  {
  }

  /** Statements as the parser reports them for this text. */
  predicate ParsedFrom(statements: seq<Statement>, source: Source) {
    && Sequential(statements)
    && forall k :: 0 <= k < |statements| ==> StatementRange(statements[k]).end <= |Lines(source.content)|
  }

  function RangeOf(chunk: Chunk): Range {
    Range(chunk.startLine, chunk.endLine)
  }

  function ChunkRanges(chunks: seq<Chunk>): seq<Range> {
    seq(|chunks|, i requires 0 <= i < |chunks| => RangeOf(chunks[i]))
  }

  /** One chunk a range: its text is that of its lines, and every statement is in exactly one chunk. */
  method Split(
    reviewId: string, source: Source, parsed: Result<seq<Statement>, int>, parent: Option<ChunkId>, splitDepth: nat
  )
    returns (r: Result<seq<Chunk>, int>)
    requires parsed.Ok? ==> ParsedFrom(parsed.value, source)
    ensures r.Err? <==> parsed.Err?
    ensures r.Err? ==> r.error == if parsed.error != 0 then parsed.error else 1
    ensures r.Ok? ==> forall i :: 0 <= i < |r.value| ==> IsChunkOf(r.value[i], i, reviewId, source, parent, splitDepth)
    ensures r.Ok? ==> Right(ChunkRanges(r.value), parsed.value, |Lines(source.content)|)
  {
    if parsed.Err? {
      return Err(if parsed.error != 0 then parsed.error else 1);
    }
    var statements := parsed.value;
    var ranges := Ranges(statements);
    RangesAreRight(statements, |Lines(source.content)|);
    var chunks := MakeChunks(reviewId, source, ranges, parent, splitDepth);
    forall i | 0 <= i < |chunks|
      ensures IsChunkOf(chunks[i], i, reviewId, source, parent, splitDepth) && RangeOf(chunks[i]) == ranges[i]
    {
      MakeChunkIs(reviewId, source, ranges[i], i, parent, splitDepth);
    }
    assert ChunkRanges(chunks) == ranges;
    return Ok(chunks);
  }
}
