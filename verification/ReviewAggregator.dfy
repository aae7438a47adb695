/** Planning a review and the completion gate at its end (review_planner.py `plan`, review_aggregator.py). */
module ReviewAggregator {
  import opened Wrappers
  import opened ReviewChunks
  import opened ReviewForest
  import opened ReviewStore

  /** The significant lines of one file. */
  datatype FileLines = FileLines(fileId: string, lines: set<int>)

  // ---------------------------------------------------------------------------------------------
  // Planning

  /** A source file together with what its language's chunker yields for it: chunks, or a refusal and its lines. */
  datatype PlannedFile = PlannedFile(
    fileId: string, supported: bool, significant: set<int>, chunked: Result<seq<Chunk>, seq<int>>)

  datatype PlanError =
    | Unsupported(fileId: string)
    | NotParsed(fileId: string, at: seq<int>)
    | Uncovered(fileId: string, lines: set<int>)

  datatype Plan = Plan(chunks: seq<Chunk>, significant: seq<FileLines>, zeroTarget: set<string>)

  function LinesOf(c: Chunk): set<int> {
    set line | c.startLine <= line <= c.endLine && InChunk(c, line)
  }

  function CoveredLines(chunks: seq<Chunk>, fileId: string): set<int> {
    if chunks == [] then {}
    else
      var last := chunks[|chunks| - 1];
      CoveredLines(chunks[..|chunks| - 1], fileId) + (if last.fileId == fileId then LinesOf(last) else {})
  }

  lemma {:induction false} InCovered(chunks: seq<Chunk>, fileId: string, line: int)
    ensures line in CoveredLines(chunks, fileId)
       <==> exists c :: c in chunks && c.fileId == fileId && InChunk(c, line)
    decreases |chunks|
  {
    if chunks != [] {
      var last := |chunks| - 1;
      InCovered(chunks[..last], fileId, line);
      assert chunks == chunks[..last] + [chunks[last]];
    }
  }

  function ZeroTargets(files: seq<PlannedFile>): set<string> {
    if files == [] then {}
    else
      var last := files[|files| - 1];
      ZeroTargets(files[..|files| - 1]) + (if last.chunked == Ok([]) then {last.fileId} else {})
  }

  function AllChunks(files: seq<PlannedFile>): seq<Chunk> {
    if files == [] then []
    else
      var last := files[|files| - 1];
      AllChunks(files[..|files| - 1]) + (if last.chunked.Ok? then last.chunked.value else [])
  }

  function AllLines(files: seq<PlannedFile>): seq<FileLines> {
    seq(|files|, i requires 0 <= i < |files| => FileLines(files[i].fileId, files[i].significant))
  }

  predicate CoversAll(chunks: seq<Chunk>, significant: seq<FileLines>) {
    forall i :: 0 <= i < |significant| ==> significant[i].lines <= CoveredLines(chunks, significant[i].fileId)
  }

  lemma NothingMissing(lines: set<int>, covered: set<int>)
    requires lines - covered == {}
    ensures lines <= covered && lines * covered == lines
  {
    forall line | line in lines ensures line in covered {
      assert line in covered || line in lines - covered;
    }
  }

  /** The reported lines are what some file really lacks. */
  predicate Misses(leaves: seq<Chunk>, significant: seq<FileLines>, fileId: string, lines: set<int>) {
    && lines != {}
    && exists i ::
         && 0 <= i < |significant|
         && significant[i].fileId == fileId
         && lines == significant[i].lines - CoveredLines(leaves, fileId)
  }

  predicate Plannable(file: PlannedFile) {
    file.supported && file.chunked.Ok? && (file.chunked.value == [] ==> file.significant == {})
  }

  /** What a file by itself is refused for. */
  predicate Refuses(file: PlannedFile, error: PlanError) {
    && error.fileId == file.fileId
    && match error
       case Unsupported(_) => !file.supported
       case NotParsed(_, at) => file.supported && file.chunked == Err(at)
       case Uncovered(_, lines) => file.supported && file.chunked == Ok([]) && lines == file.significant != {}
  }

  method Refusal(source: PlannedFile) returns (error: Option<PlanError>)
    ensures error.None? <==> Plannable(source)
    ensures error.Some? ==> Refuses(source, error.value)
  {
    if !source.supported {
      return Some(Unsupported(source.fileId));
    }
    if source.chunked.Err? {
      return Some(NotParsed(source.fileId, source.chunked.error));
    }
    if source.chunked.value == [] && source.significant != {} {
      return Some(Uncovered(source.fileId, source.significant));
    }
    return None;
  }

  /** A plan is handed out exactly when every file can be planned and the chunks cover every significant line. */
  method MakePlan(files: seq<PlannedFile>) returns (r: Result<Plan, PlanError>)
    ensures r.Ok? <==>
              (forall i :: 0 <= i < |files| ==> Plannable(files[i])) && CoversAll(AllChunks(files), AllLines(files))
    ensures r.Ok? ==> r.value == Plan(AllChunks(files), AllLines(files), ZeroTargets(files))
    ensures r.Err? ==>
              || (exists i :: 0 <= i < |files| && Refuses(files[i], r.error))
              || (r.error.Uncovered? && Misses(AllChunks(files), AllLines(files), r.error.fileId, r.error.lines))
  {
    var chunks: seq<Chunk> := [];
    var significant: seq<FileLines> := [];
    var zeroTarget: set<string> := {};
    for i := 0 to |files|
      invariant forall k :: 0 <= k < i ==> Plannable(files[k])
      invariant chunks == AllChunks(files[..i]) && significant == AllLines(files[..i])
      invariant zeroTarget == ZeroTargets(files[..i])
    {
      var source := files[i];
      assert files[..i + 1][..i] == files[..i];
      significant := significant + [FileLines(source.fileId, source.significant)];
      var refused := Refusal(source);
      if refused.Some? {
        return Err(refused.value);
      }
      if source.chunked.value == [] {
        zeroTarget := zeroTarget + {source.fileId};
      }
      chunks := chunks + source.chunked.value;
    }
    assert files[..|files|] == files;
    var missed := FirstMissing(chunks, significant);
    if missed.Some? {
      return Err(Uncovered(missed.value.fileId, missed.value.lines));
    }
    return Ok(Plan(chunks, significant, zeroTarget));
  }

  /** The second loop over the files: the first one that the chunks do not cover, and the lines it lacks. */
  method FirstMissing(chunks: seq<Chunk>, significant: seq<FileLines>) returns (missed: Option<FileLines>)
    ensures missed.None? <==> CoversAll(chunks, significant)
    ensures missed.Some? ==> Misses(chunks, significant, missed.value.fileId, missed.value.lines)
  {
    for i := 0 to |significant|
      invariant forall k :: 0 <= k < i ==> significant[k].lines <= CoveredLines(chunks, significant[k].fileId)
    {
      var covered := CoveredLines(chunks, significant[i].fileId);
      var missing := significant[i].lines - covered;
      if missing != {} {
        return Some(FileLines(significant[i].fileId, missing));
      }
      NothingMissing(significant[i].lines, covered);
    }
    return None;
  }

  // ---------------------------------------------------------------------------------------------
  // The gate

  datatype AggregateError =
    | Unresolved(ids: seq<ChunkId>)
    | MissingLines(fileId: string, lines: set<int>)
    | BelowFullCoverage

  function Leaves(chunks: seq<Chunk>): seq<Chunk> {
    if chunks == [] then []
    else
      var last := |chunks| - 1;
      Leaves(chunks[..last]) + (if chunks[last].status != Superseded then [chunks[last]] else [])
  }

  function UnresolvedIds(leaves: seq<Chunk>): seq<ChunkId> {
    if leaves == [] then []
    else
      var last := |leaves| - 1;
      UnresolvedIds(leaves[..last]) + (if leaves[last].status != Completed then [leaves[last].id] else [])
  }

  function CountLines(significant: seq<FileLines>): nat {
    if significant == [] then 0
    else CountLines(significant[..|significant| - 1]) + |significant[|significant| - 1].lines|
  }

  lemma FullRatio(n: real)
    requires n > 0.0
    ensures n * 100.0 / n == 100.0
  {
    var q := n * 100.0 / n;
    assert q * n == n * 100.0;
    assert (q - 100.0) * n == 0.0;
  }

  /** The loop over the files: how many significant lines are covered, or the first file that misses some. */
  method CountCovered(leaves: seq<Chunk>, significant: seq<FileLines>) returns (r: Result<nat, AggregateError>)
    ensures r.Ok? <==> CoversAll(leaves, significant)
    ensures r.Ok? ==> r.value == CountLines(significant)
    ensures r.Err? ==> r.error.MissingLines? && Misses(leaves, significant, r.error.fileId, r.error.lines)
  {
    var coveredCount := 0;
    for i := 0 to |significant|
      invariant coveredCount == CountLines(significant[..i])
      invariant forall k :: 0 <= k < i ==> significant[k].lines <= CoveredLines(leaves, significant[k].fileId)
    {
      var covered := CoveredLines(leaves, significant[i].fileId);
      var missing := significant[i].lines - covered;
      assert significant[..i + 1][..i] == significant[..i];
      if missing != {} {
        return Err(MissingLines(significant[i].fileId, missing));
      }
      NothingMissing(significant[i].lines, covered);
      coveredCount := coveredCount + |significant[i].lines * covered|;
    }
    assert significant[..|significant|] == significant;
    return Ok(coveredCount);
  }

  /**
  The review passes exactly when no live chunk is unresolved and the live chunks cover every
  significant line, and then with 100 percent. The below-full branch cannot be taken at all.
  */
  method Aggregate(chunks: seq<Chunk>, significant: seq<FileLines>) returns (r: Result<real, AggregateError>)
    ensures r.Ok? <==> UnresolvedIds(Leaves(chunks)) == [] && CoversAll(Leaves(chunks), significant)
    ensures r.Ok? ==> r.value == 100.0
    ensures UnresolvedIds(Leaves(chunks)) != [] ==> r == Err(Unresolved(UnresolvedIds(Leaves(chunks))))
    ensures UnresolvedIds(Leaves(chunks)) == [] && r.Err? ==>
              r.error.MissingLines? && Misses(Leaves(chunks), significant, r.error.fileId, r.error.lines)
  {
    var leaves := Leaves(chunks);
    var unresolved := UnresolvedIds(leaves);
    if unresolved != [] {
      return Err(Unresolved(unresolved));
    }
    var required := CountLines(significant);
    var counted := CountCovered(leaves, significant);
    if counted.Err? {
      return Err(counted.error);
    }
    if required != 0 {
      FullRatio(required as real);
    }
    var coverage := if required == 0 then 100.0 else counted.value as real * 100.0 / required as real;
    if coverage != 100.0 {
      return Err(BelowFullCoverage);
    }
    return Ok(coverage);
  }

  // ---------------------------------------------------------------------------------------------
  // The gate over whole runs

  lemma {:induction false} InLeaves(chunks: seq<Chunk>, c: Chunk)
    ensures c in Leaves(chunks) <==> c in chunks && c.status != Superseded
    decreases |chunks|
  {
    if chunks != [] {
      var last := |chunks| - 1;
      InLeaves(chunks[..last], c);
      assert chunks == chunks[..last] + [chunks[last]];
    }
  }

  lemma {:induction false} NoneUnresolved(leaves: seq<Chunk>)
    ensures UnresolvedIds(leaves) == [] <==> forall c :: c in leaves ==> c.status == Completed
    decreases |leaves|
  {
    if leaves != [] {
      var last := |leaves| - 1;
      NoneUnresolved(leaves[..last]);
      assert leaves == leaves[..last] + [leaves[last]];
    }
  }

  lemma {:induction false} ReadingInTotal(m: Table, id: ChunkId, fileId: string, line: int, scope: Scope)
    requires id in m && Reading(Cover(fileId, line), scope, m[id]) == 1
    ensures Total(m, Cover(fileId, line), scope) >= 1
  {
    TotalRemove(m, id, Cover(fileId, line), scope);
    TotalNonNegative(m - {id}, Cover(fileId, line), scope);
  }

  lemma {:induction false} SomeReading(m: Table, fileId: string, line: int, scope: Scope) returns (id: ChunkId)
    requires Total(m, Cover(fileId, line), scope) >= 1
    ensures id in m && Reading(Cover(fileId, line), scope, m[id]) == 1
    decreases |m|
  {
    assert m != map[];
    id :| id in m;
    TotalRemove(m, id, Cover(fileId, line), scope);
    if Reading(Cover(fileId, line), scope, m[id]) != 1 {
      id := SomeReading(m - {id}, fileId, line, scope);
    }
  }

  /** Every significant line has a live chunk of the review in the table. */
  ghost predicate TableCovers(m: Table, reviewId: string, significant: seq<FileLines>) {
    forall i, line :: 0 <= i < |significant| && line in significant[i].lines ==>
      Total(m, Cover(significant[i].fileId, line), OfReview(reviewId)) >= 1
  }

  lemma LineByTable(m: Table, chunks: seq<Chunk>, reviewId: string, fileId: string, line: int)
    requires Lists(chunks, m, reviewId) && forall id :: id in m ==> m[id].id == id
    ensures line in CoveredLines(Leaves(chunks), fileId) <==> Total(m, Cover(fileId, line), OfReview(reviewId)) >= 1
  {
    var scope := OfReview(reviewId);
    InCovered(Leaves(chunks), fileId, line);
    if line in CoveredLines(Leaves(chunks), fileId) {
      var c :| c in Leaves(chunks) && c.fileId == fileId && InChunk(c, line);
      InLeaves(chunks, c);
      ReadingInTotal(m, c.id, fileId, line, scope);
    }
    if Total(m, Cover(fileId, line), scope) >= 1 {
      var id := SomeReading(m, fileId, line, scope);
      InLeaves(chunks, m[id]);
    }
  }

  lemma CoversByTable(m: Table, chunks: seq<Chunk>, reviewId: string, significant: seq<FileLines>)
    requires Lists(chunks, m, reviewId) && forall id :: id in m ==> m[id].id == id
    ensures CoversAll(Leaves(chunks), significant) <==> TableCovers(m, reviewId, significant)
  {
    forall i, line | 0 <= i < |significant|
      ensures line in CoveredLines(Leaves(chunks), significant[i].fileId)
         <==> Total(m, Cover(significant[i].fileId, line), OfReview(reviewId)) >= 1
    {
      LineByTable(m, chunks, reviewId, significant[i].fileId, line);
    }
    if TableCovers(m, reviewId, significant) {
      forall i | 0 <= i < |significant|
        ensures significant[i].lines <= CoveredLines(Leaves(chunks), significant[i].fileId)
      {
        forall line | line in significant[i].lines ensures line in CoveredLines(Leaves(chunks), significant[i].fileId) {
          assert Total(m, Cover(significant[i].fileId, line), OfReview(reviewId)) >= 1;
        }
      }
    }
  }

  /** Coverage of a table at some moment carries over to every later one. */
  lemma {:induction false} CoverageSurvives(
    m: Table, steps: seq<Step>, D: nat, reviewId: string, significant: seq<FileLines>
  )
    requires WellFormed(m, D) && IsForest(m) && Legal(m, steps, D)
    ensures TableCovers(Replay(m, steps), reviewId, significant) <==> TableCovers(m, reviewId, significant)
  {
    forall i, line | 0 <= i < |significant|
      ensures Total(Replay(m, steps), Cover(significant[i].fileId, line), OfReview(reviewId))
           == Total(m, Cover(significant[i].fileId, line), OfReview(reviewId))
    {
      RunConserves(m, steps, D, Cover(significant[i].fileId, line), OfReview(reviewId));
    }
  }

  /**
  The completion gate is exact: after any run from a covering table, the aggregator passes exactly
  when every live chunk is completed; the branch for missing lines is then unreachable.
  */
  lemma GateExactly(
    m: Table, steps: seq<Step>, D: nat, reviewId: string, chunks: seq<Chunk>, significant: seq<FileLines>
  )
    requires WellFormed(m, D) && IsForest(m) && TableCovers(m, reviewId, significant)
    requires Legal(m, steps, D) && Lists(chunks, Replay(m, steps), reviewId)
    ensures CoversAll(Leaves(chunks), significant)
    ensures UnresolvedIds(Leaves(chunks)) == []
       <==> forall id :: id in Replay(m, steps) && Replay(m, steps)[id].reviewId == reviewId ==>
              Replay(m, steps)[id].status in {Superseded, Completed}
  {
    RunKeepsForest(m, steps, D);
    CoverageSurvives(m, steps, D, reviewId, significant);
    CoversByTable(Replay(m, steps), chunks, reviewId, significant);
    NoneUnresolved(Leaves(chunks));
    forall c ensures c in Leaves(chunks) <==> c in chunks && c.status != Superseded {
      InLeaves(chunks, c);
    }
    forall id | id in Replay(m, steps) && Replay(m, steps)[id].reviewId == reviewId
      ensures Replay(m, steps)[id] in chunks
    {
      assert Replay(m, steps)[id].id == id;
    }
  }

  lemma {:induction false} AllAreLeaves(chunks: seq<Chunk>)
    requires forall c :: c in chunks ==> c.status != Superseded
    ensures Leaves(chunks) == chunks
    decreases |chunks|
  {
    if chunks != [] {
      var last := |chunks| - 1;
      assert chunks == chunks[..last] + [chunks[last]];
      forall c | c in chunks[..last] ensures c in chunks {
      }
      AllAreLeaves(chunks[..last]);
      assert Leaves(chunks) == Leaves(chunks[..last]) + [chunks[last]];
    }
  }
}
