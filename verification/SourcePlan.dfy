/**
The chunks of a planned review as a table of chunks needs them (review_planner.py `plan`, and the ids that
python_chunker.py and cpp_chunker.py give): no id twice, none in the store already, every text fitting its range.
*/
module SourcePlan {
  import opened Wrappers
  import opened Decimal
  import opened ReviewChunks
  import opened ChunkIds
  import opened ReviewForest
  import opened ReviewStore
  import opened ChunkExecution
  import opened ReviewAggregator
  import PythonChunker

  // ---------------------------------------------------------------------------------------------
  // Names

  /** Chunk number `i` of a file as its chunker yields it. */
  predicate IsFileChunk(c: Chunk, i: nat, reviewId: string, fileId: string) {
    && Fits(c) && c.fileId == fileId && c.reviewId == reviewId && c.splitDepth == 0 && c.status == Pending
    && c.id == Root(PythonChunker.Prefix(reviewId, fileId, PythonChunker.RangeOf(c)), i)
  }

  predicate ChunksOfFile(chunks: seq<Chunk>, reviewId: string, fileId: string) {
    forall i :: 0 <= i < |chunks| ==> IsFileChunk(chunks[i], i, reviewId, fileId)
  }

  predicate DistinctFiles(files: seq<PlannedFile>) {
    forall i, j :: 0 <= i < j < |files| ==> files[i].fileId != files[j].fileId
  }

  /** Different files, each with chunks of its own; a review id has no colon. */
  predicate Named(files: seq<PlannedFile>, reviewId: string) {
    && ':' !in reviewId && DistinctFiles(files)
    && forall i :: 0 <= i < |files| && files[i].chunked.Ok? ==>
         ChunksOfFile(files[i].chunked.value, reviewId, files[i].fileId)
  }

  function PrefixOf(id: ChunkId): string {
    match id
    case Root(prefix, _) => prefix
    case Child(parent, _) => PrefixOf(parent)
  }

  /** Ids begin with the id of their review. */
  predicate BelongsTo(id: ChunkId, reviewId: string) {
    var prefix := PrefixOf(id);
    ':' !in reviewId && |reviewId| < |prefix| && prefix[..|reviewId|] == reviewId && prefix[|reviewId|] == ':'
  }

  predicate AllBelong(m: Table) {
    forall id :: id in m ==> BelongsTo(id, m[id].reviewId)
  }

  lemma {:induction false} OneReview(id: ChunkId, a: string, b: string)
    requires BelongsTo(id, a) && BelongsTo(id, b)
    ensures a == b
  {
    var prefix := PrefixOf(id);
    forall k | 0 <= k < |a| ensures prefix[k] != ':' {
      assert a[k] == prefix[k];
    }
    forall k | 0 <= k < |b| ensures prefix[k] != ':' {
      assert b[k] == prefix[k];
    }
  }

  lemma {:induction false} PrefixBelongs(reviewId: string, fileId: string, range: PythonChunker.Range, i: nat)
    requires 1 <= range.start <= range.end && ':' !in reviewId
    ensures BelongsTo(Root(PythonChunker.Prefix(reviewId, fileId, range), i), reviewId)
  {
    var rest := ":" + fileId + ":" + ToDecimal(range.start) + "-" + ToDecimal(range.end);
    assert PythonChunker.Prefix(reviewId, fileId, range) == reviewId + rest;
  }

  /** The prefix tells the file. */
  lemma {:induction false} PrefixFile(
    reviewId: string, a: string, x: PythonChunker.Range, b: string, y: PythonChunker.Range
  )
    requires 1 <= x.start <= x.end && 1 <= y.start <= y.end
    requires PythonChunker.Prefix(reviewId, a, x) == PythonChunker.Prefix(reviewId, b, y)
    ensures a == b
  {
    var p, q := reviewId + ":" + a, reviewId + ":" + b;
    DecimalRoundTrip(x.start);
    DecimalRoundTrip(x.end);
    DecimalRoundTrip(y.start);
    DecimalRoundTrip(y.end);
    CutUniquely(p + ":" + ToDecimal(x.start), '-', ToDecimal(x.end),
                q + ":" + ToDecimal(y.start), '-', ToDecimal(y.end));
    CutUniquely(p, ':', ToDecimal(x.start), q, ':', ToDecimal(y.start));
    assert a == p[|reviewId| + 1..] && b == q[|reviewId| + 1..];
  }

  // ---------------------------------------------------------------------------------------------
  // A plan is fresh

  /** The chunks of all files, each with its number in its own file. */
  predicate FromFiles(chunks: seq<Chunk>, files: seq<PlannedFile>, reviewId: string) {
    forall c :: c in chunks ==> exists k :: 0 <= k < |files| && IsNumbered(c, reviewId, files[k].fileId)
  }

  predicate IsNumbered(c: Chunk, reviewId: string, fileId: string) {
    c.id.Root? && IsFileChunk(c, c.id.index, reviewId, fileId)
  }

  lemma {:induction false} OwnChunksDiffer(chunks: seq<Chunk>, reviewId: string, fileId: string)
    requires ChunksOfFile(chunks, reviewId, fileId)
    ensures DistinctIds(chunks) && forall c :: c in chunks ==> IsNumbered(c, reviewId, fileId)
  {
    forall i, j | 0 <= i < j < |chunks| ensures chunks[i].id != chunks[j].id {
      assert IsFileChunk(chunks[i], i, reviewId, fileId) && IsFileChunk(chunks[j], j, reviewId, fileId);
    }
    forall c | c in chunks ensures IsNumbered(c, reviewId, fileId) {
      var i :| 0 <= i < |chunks| && chunks[i] == c;
      assert IsFileChunk(chunks[i], i, reviewId, fileId);
    }
  }

  lemma {:induction false} OtherFilesDiffer(c: Chunk, d: Chunk, reviewId: string, a: string, b: string)
    requires IsNumbered(c, reviewId, a) && IsNumbered(d, reviewId, b) && a != b
    ensures c.id != d.id
  {
    if c.id == d.id {
      PrefixFile(reviewId, a, PythonChunker.RangeOf(c), b, PythonChunker.RangeOf(d));
    }
  }

  lemma {:induction false} OneMoreFile(
    front: seq<Chunk>, chunks: seq<Chunk>, files: seq<PlannedFile>, file: PlannedFile, reviewId: string
  )
    requires DistinctIds(front) && FromFiles(front, files, reviewId) && ChunksOfFile(chunks, reviewId, file.fileId)
    requires forall k :: 0 <= k < |files| ==> files[k].fileId != file.fileId
    ensures DistinctIds(front + chunks) && FromFiles(front + chunks, files + [file], reviewId)
  {
    OwnChunksDiffer(chunks, reviewId, file.fileId);
    forall c, d | c in front && d in chunks ensures c.id != d.id {
      var k :| 0 <= k < |files| && IsNumbered(c, reviewId, files[k].fileId);
      OtherFilesDiffer(c, d, reviewId, files[k].fileId, file.fileId);
    }
    forall c | c in front + chunks
      ensures exists k :: 0 <= k < |files + [file]| && IsNumbered(c, reviewId, (files + [file])[k].fileId)
    {
      if c in front {
        var k :| 0 <= k < |files| && IsNumbered(c, reviewId, files[k].fileId);
        assert (files + [file])[k] == files[k];
      } else {
        assert (files + [file])[|files|] == file;
      }
    }
  }

  lemma {:induction false} AllChunksDiffer(files: seq<PlannedFile>, reviewId: string)
    requires Named(files, reviewId)
    ensures DistinctIds(AllChunks(files)) && FromFiles(AllChunks(files), files, reviewId)
    decreases |files|
  {
    if files != [] {
      var n := |files| - 1;
      var chunks := if files[n].chunked.Ok? then files[n].chunked.value else [];
      AllChunksDiffer(files[..n], reviewId);
      OneMoreFile(AllChunks(files[..n]), chunks, files[..n], files[n], reviewId);
      assert files[..n] + [files[n]] == files;
    }
  }

  /** The chunks of a review that has none stored are fresh, whatever other reviews have stored. */
  lemma {:induction false} PlanIsFresh(files: seq<PlannedFile>, m: Table, reviewId: string)
    requires Named(files, reviewId) && AllBelong(m) && forall id :: id in m ==> m[id].reviewId != reviewId
    ensures FreshChunks(AllChunks(files), m, reviewId)
    ensures forall c :: c in AllChunks(files) ==> BelongsTo(c.id, reviewId)
  {
    AllChunksDiffer(files, reviewId);
    forall c | c in AllChunks(files)
      ensures IsNumbered(c, reviewId, c.fileId) && BelongsTo(c.id, reviewId) && c.id !in m
    {
      var k :| 0 <= k < |files| && IsNumbered(c, reviewId, files[k].fileId);
      PrefixBelongs(reviewId, c.fileId, PythonChunker.RangeOf(c), c.id.index);
      if c.id in m {
        OneReview(c.id, reviewId, m[c.id].reviewId);
      }
    }
  }

  lemma {:induction false} SavedBelong(m: Table, chunks: seq<Chunk>, reviewId: string)
    requires AllBelong(m) && FreshChunks(chunks, m, reviewId)
    requires forall c :: c in chunks ==> BelongsTo(c.id, reviewId)
    ensures AllBelong(WriteAll(m, chunks))
  {
    WriteAllEntries(m, chunks);
    forall id | id in WriteAll(m, chunks) ensures BelongsTo(id, WriteAll(m, chunks)[id].reviewId) {
      if c :| c in chunks && c.id == id {
        assert WriteAll(m, chunks)[id] == c;
      }
    }
  }

  // ---------------------------------------------------------------------------------------------
  // Runs keep the names

  lemma {:induction false} StepKeepsNames(m: Table, step: Step, D: nat)
    requires WellFormed(m, D) && IsForest(m) && AllBelong(m) && Enabled(m, step, D)
    ensures AllBelong(Apply(m, step))
  {
    if step.Supersede? {
      SplitPartitions(step.chunk);
      SupersedeEntries(m, step.chunk, D);
    }
  }

  lemma {:induction false} RunKeepsNames(m: Table, steps: seq<Step>, D: nat)
    requires WellFormed(m, D) && IsForest(m) && AllBelong(m) && Legal(m, steps, D)
    ensures AllBelong(Replay(m, steps))
    decreases |steps|
  {
    if steps != [] {
      StepKeepsForest(m, steps[0], D);
      StepKeepsNames(m, steps[0], D);
      RunKeepsNames(Apply(m, steps[0]), steps[1..], D);
    }
  }

  // ---------------------------------------------------------------------------------------------
  // Python files

  /** A Python file as planning meets it. */
  datatype PythonFile = PythonFile(
    source: PythonChunker.Source, parsed: Result<seq<PythonChunker.Statement>, int>, significant: set<int>)

  predicate Sources(sources: seq<PythonFile>) {
    && (forall i :: 0 <= i < |sources| && sources[i].parsed.Ok? ==>
          PythonChunker.ParsedFrom(sources[i].parsed.value, sources[i].source))
    && forall i, j :: 0 <= i < j < |sources| ==> sources[i].source.fileId != sources[j].source.fileId
  }

  /** Chunking every file gives what planning needs. */
  method ChunkFiles(reviewId: string, sources: seq<PythonFile>) returns (files: seq<PlannedFile>)
    requires ':' !in reviewId && Sources(sources)
    ensures Named(files, reviewId) && |files| == |sources|
    ensures forall i :: 0 <= i < |files| ==>
              && files[i].supported && files[i].fileId == sources[i].source.fileId
              && files[i].significant == sources[i].significant
              && (files[i].chunked.Ok? <==> sources[i].parsed.Ok?)
  {
    files := [];
    for i := 0 to |sources|
      invariant |files| == i
      invariant forall k :: 0 <= k < i ==>
                  && files[k].supported && files[k].fileId == sources[k].source.fileId
                  && files[k].significant == sources[k].significant
                  && (files[k].chunked.Ok? <==> sources[k].parsed.Ok?)
                  && (files[k].chunked.Ok? ==> ChunksOfFile(files[k].chunked.value, reviewId, files[k].fileId))
    {
      var source := sources[i].source;
      var split := PythonChunker.Split(reviewId, source, sources[i].parsed, None, 0);
      var chunked: Result<seq<Chunk>, seq<int>>;
      if split.Ok? {
        ChunksAreNamed(split.value, reviewId, source);
        chunked := Ok(split.value);
      } else {
        chunked := Err([split.error]);
      }
      files := files + [PlannedFile(source.fileId, true, sources[i].significant, chunked)];
    }
  }

  lemma {:induction false} ChunksAreNamed(chunks: seq<Chunk>, reviewId: string, source: PythonChunker.Source)
    requires forall i :: 0 <= i < |chunks| ==> PythonChunker.IsChunkOf(chunks[i], i, reviewId, source, None, 0)
    ensures ChunksOfFile(chunks, reviewId, source.fileId)
  {
    forall i | 0 <= i < |chunks| ensures IsFileChunk(chunks[i], i, reviewId, source.fileId) {
      AlignedFits(chunks[i], source.content);
    }
  }
}
