/**
The chunk table of a review as it evolves under every interleaving of chunk executions
(chunk_review_service.py `execute`), splits (review_store.py `replace_chunk`) and resumes
(hybrid_review_service.py `resume`). A step is one write to the store.
*/
module ReviewForest {
  import opened Wrappers
  import opened ReviewChunks

  type Table = map<ChunkId, Chunk>

  /** Steps carry the executor's own copy of the chunk, which the store overwrites. */
  datatype Step =
    | Begin(chunk: Chunk, attempt: nat)
    | Validate(chunk: Chunk, attempt: nat)
    | Complete(chunk: Chunk, attempt: nat)
    | Supersede(chunk: Chunk)
    | Fail(chunk: Chunk, code: ErrorCode)
    | Resume(reviewId: string)

  /** The chunk as attempt `attempt` works on it; the second attempt drops the context. */
  function Working(chunk: Chunk, attempt: nat, status: ChunkStatus): Chunk {
    chunk.(references := if attempt == 1 then chunk.references else [],
           status := status, attemptCount := attempt, errorCode := None)
  }

  function Failure(chunk: Chunk, code: ErrorCode): Chunk {
    chunk.(status := Failed, attemptCount := 2, errorCode := Some(code))
  }

  function ResetChunk(chunk: Chunk, reviewId: string): Chunk {
    if chunk.reviewId == reviewId && chunk.status in {Failed, Running, Validating, Queued}
    then chunk.(status := Pending, errorCode := None)
    else chunk
  }

  function Write(m: Table, chunk: Chunk): Table {
    m[chunk.id := chunk]
  }

  function Apply(m: Table, step: Step): Table {
    match step
    case Begin(chunk, attempt) => Write(m, Working(chunk, attempt, Running))
    case Validate(chunk, attempt) => Write(m, Working(chunk, attempt, Validating))
    case Complete(chunk, attempt) => Write(m, Working(chunk, attempt, Completed))
    case Supersede(chunk) =>
      var halves := Split(chunk);
      if |halves| != 2 then m
      else Write(Write(Write(m, chunk.(status := Superseded)), halves[0]), halves[1])
    case Fail(chunk, code) => Write(m, Failure(chunk, code))
    case Resume(reviewId) => map id | id in m :: ResetChunk(m[id], reviewId)
  }

  /** Two copies of one chunk: they agree on everything an execution never changes. */
  predicate SameTarget(a: Chunk, b: Chunk) {
    && a.id == b.id && a.reviewId == b.reviewId && a.fileId == b.fileId
    && a.startLine == b.startLine && a.endLine == b.endLine && a.code == b.code
    && a.parent == b.parent && a.splitDepth == b.splitDepth
  }

  predicate Active(c: Chunk, attempt: nat) {
    c.status in {Running, Validating} && c.attemptCount == attempt
  }

  /** When an executor performs a step, given what is stored. `D` is the maximum split depth. */
  predicate Enabled(m: Table, step: Step, D: nat) {
    step.Resume? ||
    (&& step.chunk.id in m
     && var stored := m[step.chunk.id];
     && SameTarget(stored, step.chunk)
     && match step
        case Begin(_, attempt) => if attempt == 1 then stored.status == Pending else attempt == 2 && Active(stored, 1)
        case Validate(_, attempt) => attempt in {1, 2} && Active(stored, attempt) && stored.status == Running
        case Complete(_, attempt) => attempt in {1, 2} && Active(stored, attempt) && stored.status == Validating
        case Supersede(chunk) => Active(stored, 2) && chunk.splitDepth < D && Split(chunk) != []
        case Fail(_, _) => Active(stored, 2)
        case Resume(_) => true)
  }

  function Replay(m: Table, steps: seq<Step>): Table
    decreases |steps|
  {
    if steps == [] then m else Replay(Apply(m, steps[0]), steps[1..])
  }

  predicate Legal(m: Table, steps: seq<Step>, D: nat)
    decreases |steps|
  {
    steps != [] ==> Enabled(m, steps[0], D) && Legal(Apply(m, steps[0]), steps[1..], D)
  }

  lemma {:induction false} ReplayAppend(m: Table, a: seq<Step>, b: seq<Step>, D: nat)
    ensures Replay(m, a + b) == Replay(Replay(m, a), b)
    ensures Legal(m, a + b, D) <==> Legal(m, a, D) && Legal(Replay(m, a), b, D)
    decreases |a|
  {
    if a == [] {
      assert a + b == b;
    } else {
      assert (a + b)[1..] == a[1..] + b;
      ReplayAppend(Apply(m, a[0]), a[1..], b, D);
    }
  }

  // ---------------------------------------------------------------------------------------------
  // The split forest

  predicate WellFormed(m: Table, D: nat) {
    forall id :: id in m ==>
      m[id].id == id && Fits(m[id]) && m[id].splitDepth == Depth(id) <= D
  }

  /** Superseded chunks are exactly the nodes with children, and every child hangs off one. */
  predicate IsForest(m: Table) {
    && (forall id :: id in m ==> (m[id].status == Superseded <==> Child(id, 1) in m))
    && (forall id :: id in m ==> (m[id].status == Superseded <==> Child(id, 2) in m))
    && (forall id :: id in m && id.Child? ==> id.parent in m && id.number in {1, 2})
  }

  lemma WriteKeepsForest(m: Table, c: Chunk, D: nat)
    requires WellFormed(m, D) && IsForest(m)
    requires c.id in m && SameTarget(m[c.id], c)
    requires c.status != Superseded && m[c.id].status != Superseded
    ensures WellFormed(Write(m, c), D) && IsForest(Write(m, c))
  {
    var m' := Write(m, c);
    assert m'.Keys == m.Keys;
    forall id | id in m' ensures m'[id].status == Superseded <==> m[id].status == Superseded {
    }
  }

  lemma ResumeKeepsForest(m: Table, reviewId: string, D: nat)
    requires WellFormed(m, D) && IsForest(m)
    ensures WellFormed(Apply(m, Resume(reviewId)), D) && IsForest(Apply(m, Resume(reviewId)))
  {
    var m' := Apply(m, Resume(reviewId));
    assert m'.Keys == m.Keys;
    forall id | id in m'
      ensures SameTarget(m'[id], m[id]) && (m'[id].status == Superseded <==> m[id].status == Superseded)
    {
    }
  }

  lemma ThreeWrites(m: Table, a: Chunk, b: Chunk, c: Chunk)
    requires a.id != b.id && a.id != c.id && b.id != c.id
    ensures var m' := Write(Write(Write(m, a), b), c);
            && m'.Keys == m.Keys + {a.id, b.id, c.id}
            && m'[a.id] == a && m'[b.id] == b && m'[c.id] == c
            && forall id :: id in m && id !in {a.id, b.id, c.id} ==> m'[id] == m[id]
  {
  }

  /** What a split leaves in the table. */
  lemma {:induction false} SupersedeEntries(m: Table, chunk: Chunk, D: nat)
    requires WellFormed(m, D) && IsForest(m) && Enabled(m, Supersede(chunk), D)
    ensures var m', first, second := Apply(m, Supersede(chunk)), Child(chunk.id, 1), Child(chunk.id, 2);
            && first !in m && second !in m
            && m'.Keys == m.Keys + {first, second}
            && |Split(chunk)| == 2
            && m'[chunk.id] == chunk.(status := Superseded)
            && m'[first] == Split(chunk)[0] && m'[second] == Split(chunk)[1]
            && forall id :: id in m && id != chunk.id ==> m'[id] == m[id]
  {
    SplitPartitions(chunk);
    assert m[chunk.id].status != Superseded;
    ThreeWrites(m, chunk.(status := Superseded), Split(chunk)[0], Split(chunk)[1]);
  }

  /** Where a node has been added together with its two children, the table is still a forest. */
  lemma {:induction false} ForestGrows(m: Table, m': Table, id: ChunkId)
    requires IsForest(m) && id in m && m[id].status != Superseded
    requires m'.Keys == m.Keys + {Child(id, 1), Child(id, 2)}
    requires m'[id].status == Superseded && m'[Child(id, 1)].status != Superseded
    requires m'[Child(id, 2)].status != Superseded
    requires forall other :: other in m && other != id ==> m'[other].status == m[other].status
    ensures IsForest(m')
  {
    var first, second := Child(id, 1), Child(id, 2);
    NoOrphans(m, first);
    NoOrphans(m, second);
    forall x | x in m'
      ensures m'[x].status == Superseded <==> Child(x, 1) in m'
      ensures m'[x].status == Superseded <==> Child(x, 2) in m'
      ensures x.Child? ==> x.parent in m' && x.number in {1, 2}
    {
      assert Child(x, 1) in {first, second} ==> x == id;
      assert Child(x, 2) in {first, second} ==> x == id;
    }
  }

  lemma {:induction false} SupersedeKeepsForest(m: Table, chunk: Chunk, D: nat)
    requires WellFormed(m, D) && IsForest(m) && Enabled(m, Supersede(chunk), D)
    ensures WellFormed(Apply(m, Supersede(chunk)), D) && IsForest(Apply(m, Supersede(chunk)))
  {
    SupersedeEntries(m, chunk, D);
    SupersedeKeepsShape(m, chunk, Apply(m, Supersede(chunk)), D);
    ForestGrows(m, Apply(m, Supersede(chunk)), chunk.id);
  }

  lemma {:induction false} SupersedeKeepsShape(m: Table, chunk: Chunk, m': Table, D: nat)
    requires WellFormed(m, D) && Enabled(m, Supersede(chunk), D) && |Split(chunk)| == 2
    requires m'.Keys == m.Keys + {Child(chunk.id, 1), Child(chunk.id, 2)}
    requires m'[chunk.id] == chunk.(status := Superseded)
    requires m'[Child(chunk.id, 1)] == Split(chunk)[0] && m'[Child(chunk.id, 2)] == Split(chunk)[1]
    requires forall id :: id in m && id != chunk.id ==> m'[id] == m[id]
    ensures WellFormed(m', D)
  {
    SplitPartitions(chunk);
  }

  lemma NoOrphans(m: Table, id: ChunkId)
    requires IsForest(m) && id !in m
    ensures Child(id, 1) !in m && Child(id, 2) !in m
  {
    assert Child(id, 1).parent == id && Child(id, 2).parent == id;
  }

  lemma {:induction false} StepKeepsForest(m: Table, step: Step, D: nat)
    requires WellFormed(m, D) && IsForest(m) && Enabled(m, step, D)
    ensures WellFormed(Apply(m, step), D) && IsForest(Apply(m, step))
  {
    match step
    case Begin(c, attempt) => WriteKeepsForest(m, Working(c, attempt, Running), D);
    case Validate(c, attempt) => WriteKeepsForest(m, Working(c, attempt, Validating), D);
    case Complete(c, attempt) => WriteKeepsForest(m, Working(c, attempt, Completed), D);
    case Fail(c, code) => WriteKeepsForest(m, Failure(c, code), D);
    case Supersede(c) => SupersedeKeepsForest(m, c, D);
    case Resume(reviewId) => ResumeKeepsForest(m, reviewId, D);
  }

  // ---------------------------------------------------------------------------------------------
  // Gauges: quantities summed over a set of chunks

  /** The chunks a sum ranges over: those of a review, or those split off one planned chunk. */
  datatype Scope = OfReview(reviewId: string) | OfTree(root: ChunkId)

  function RootOf(id: ChunkId): ChunkId {
    match id
    case Root(_, _) => id
    case Child(parent, _) => RootOf(parent)
  }

  predicate InScope(scope: Scope, c: Chunk) {
    match scope
    case OfReview(reviewId) => c.reviewId == reviewId
    case OfTree(root) => RootOf(c.id) == root
  }

  datatype Gauge =
    | Cover(fileId: string, line: int)
    | Calls(D: nat)
    | Executions(D: nat)
    | Potential(D: nat)

  /** What a chunk at this depth can cost at most: itself and everything it can split into. */
  function Weight(D: nat, depth: nat): (w: nat)
    ensures w >= 1
    decreases if depth < D then D - depth else 0
  {
    if depth >= D then 1 else 1 + 2 * Weight(D, depth + 1)
  }

  function Pow2(n: nat): nat {
    if n == 0 then 1 else 2 * Pow2(n - 1)
  }

  lemma {:induction false} WeightClosed(D: nat, depth: nat)
    requires depth <= D
    ensures Weight(D, depth) == Pow2(D - depth + 1) - 1
    decreases D - depth
  {
    if depth < D {
      WeightClosed(D, depth + 1);
    } else {
      assert Pow2(1) == 2 * Pow2(0);
    }
  }

  function Reading(g: Gauge, scope: Scope, c: Chunk): int {
    if !InScope(scope, c) then 0
    else
      match g
      case Cover(fileId, line) =>
        if c.fileId == fileId && c.status != Superseded && InChunk(c, line) then 1 else 0
      case Calls(D) =>
        var w := Weight(D, c.splitDepth);
        if c.status == Pending then 2 * w
        else if c.status in {Running, Validating} then (if c.attemptCount == 1 then 2 * w - 1 else 2 * w - 2)
        else 0
      case Executions(D) =>
        var w := Weight(D, c.splitDepth);
        if c.status == Pending then w
        else if c.status in {Running, Validating} then w - 1
        else 0
      case Potential(D) =>
        if c.status == Superseded then 1 else Weight(D, c.splitDepth)
  }

  ghost function Total(m: Table, g: Gauge, scope: Scope): int
    decreases |m|
  {
    if m == map[] then 0
    else
      var id :| id in m;
      Reading(g, scope, m[id]) + Total(m - {id}, g, scope)
  }

  lemma {:induction false} TotalRemove(m: Table, id: ChunkId, g: Gauge, scope: Scope)
    requires id in m
    ensures Total(m, g, scope) == Reading(g, scope, m[id]) + Total(m - {id}, g, scope)
    decreases |m|
  {
    var picked :| picked in m && Total(m, g, scope) == Reading(g, scope, m[picked]) + Total(m - {picked}, g, scope);
    if picked != id {
      TotalRemove(m - {picked}, id, g, scope);
      TotalRemove(m - {id}, picked, g, scope);
      assert m - {picked} - {id} == m - {id} - {picked};
    }
  }

  lemma TotalWrite(m: Table, c: Chunk, g: Gauge, scope: Scope)
    ensures Total(Write(m, c), g, scope)
         == Total(m, g, scope) + Reading(g, scope, c) - (if c.id in m then Reading(g, scope, m[c.id]) else 0)
  {
    var m' := Write(m, c);
    TotalRemove(m', c.id, g, scope);
    assert m' - {c.id} == m - {c.id};
    if c.id in m {
      TotalRemove(m, c.id, g, scope);
    } else {
      assert m - {c.id} == m;
    }
  }

  function Times(twice: bool, n: int): int {
    if twice then n + n else n
  }

  /** Chunk by chunk, the second reading is at most the first, or twice the first. */
  ghost predicate Dominated(m: Table, m': Table, g: Gauge, g': Gauge, twice: bool, scope: Scope) {
    m'.Keys == m.Keys && forall id :: id in m ==> Reading(g', scope, m'[id]) <= Times(twice, Reading(g, scope, m[id]))
  }

  lemma {:induction false} DominatedWithout(
    m: Table, m': Table, g: Gauge, g': Gauge, twice: bool, scope: Scope, id: ChunkId
  )
    requires Dominated(m, m', g, g', twice, scope) && id in m
    ensures Dominated(m - {id}, m' - {id}, g, g', twice, scope)
    ensures Reading(g', scope, m'[id]) <= Times(twice, Reading(g, scope, m[id]))
  {
    forall other | other in m - {id}
      ensures Reading(g', scope, (m' - {id})[other]) <= Times(twice, Reading(g, scope, (m - {id})[other]))
    {
      assert (m' - {id})[other] == m'[other] && (m - {id})[other] == m[other];
    }
  }

  lemma {:induction false} TotalCompare(m: Table, m': Table, g: Gauge, g': Gauge, twice: bool, scope: Scope)
    requires Dominated(m, m', g, g', twice, scope)
    ensures Total(m', g', scope) <= Times(twice, Total(m, g, scope))
    decreases |m|
  {
    if m == map[] {
      assert m' == map[];
    } else {
      var id :| id in m;
      DominatedWithout(m, m', g, g', twice, scope, id);
      TotalRemove(m, id, g, scope);
      TotalRemove(m', id, g', scope);
      TotalCompare(m - {id}, m' - {id}, g, g', twice, scope);
    }
  }

  lemma {:induction false} TotalNonNegative(m: Table, g: Gauge, scope: Scope)
    ensures Total(m, g, scope) >= 0
    decreases |m|
  {
    if m != map[] {
      var id :| id in m;
      TotalRemove(m, id, g, scope);
      TotalNonNegative(m - {id}, g, scope);
    }
  }

  /** A split replaces the parent's reading by the node's own and those of its halves. */
  lemma TotalSupersede(m: Table, chunk: Chunk, D: nat, g: Gauge, scope: Scope)
    requires WellFormed(m, D) && IsForest(m) && Enabled(m, Supersede(chunk), D)
    ensures |Split(chunk)| == 2
    ensures Total(Apply(m, Supersede(chunk)), g, scope)
         == Total(m, g, scope) - Reading(g, scope, m[chunk.id])
          + Reading(g, scope, chunk.(status := Superseded))
          + Reading(g, scope, Split(chunk)[0]) + Reading(g, scope, Split(chunk)[1])
  {
    SplitPartitions(chunk);
    SupersedeEntries(m, chunk, D);
    var m1 := Write(m, chunk.(status := Superseded));
    var m2 := Write(m1, Split(chunk)[0]);
    TotalWrite(m, chunk.(status := Superseded), g, scope);
    TotalWrite(m1, Split(chunk)[0], g, scope);
    TotalWrite(m2, Split(chunk)[1], g, scope);
  }

  /** The halves of a chunk after two attempts read exactly what it read before. */
  lemma SplitReadings(stored: Chunk, chunk: Chunk, D: nat, g: Gauge, scope: Scope)
    requires Fits(chunk) && Split(chunk) != [] && SameTarget(stored, chunk)
    requires Active(stored, 2) && chunk.splitDepth < D && (!g.Cover? ==> g.D == D)
    ensures |Split(chunk)| == 2
    ensures var after := Reading(g, scope, chunk.(status := Superseded))
                       + Reading(g, scope, Split(chunk)[0]) + Reading(g, scope, Split(chunk)[1]);
            after == Reading(g, scope, stored)
  {
    SplitPartitions(chunk);
  }

  function Costs(step: Step, g: Gauge, scope: Scope): int {
    if step.Begin? && InScope(scope, step.chunk)
       && (g.Calls? || (g.Executions? && step.attempt == 1))
    then 1 else 0
  }

  /** The chunk a non-splitting execution step writes. */
  function Written(step: Step): Chunk
    requires !step.Supersede? && !step.Resume?
  {
    match step
    case Begin(c, attempt) => Working(c, attempt, Running)
    case Validate(c, attempt) => Working(c, attempt, Validating)
    case Complete(c, attempt) => Working(c, attempt, Completed)
    case Fail(c, code) => Failure(c, code)
  }

  lemma WriteReadings(stored: Chunk, step: Step, D: nat, g: Gauge, scope: Scope)
    requires !step.Supersede? && !step.Resume?
    requires Enabled(map[step.chunk.id := stored], step, D) && (!g.Cover? ==> g.D == D)
    ensures g.Cover? || g.Potential? ==> Reading(g, scope, Written(step)) == Reading(g, scope, stored)
    ensures Reading(g, scope, Written(step)) <= Reading(g, scope, stored) - Costs(step, g, scope)
  {
  }

  /** Coverage and potential are conserved; each model call and each execution uses up its gauge. */
  lemma StepGauges(m: Table, step: Step, D: nat, g: Gauge, scope: Scope)
    requires WellFormed(m, D) && IsForest(m) && Enabled(m, step, D)
    requires !g.Cover? ==> g.D == D
    ensures g.Cover? || g.Potential? ==> Total(Apply(m, step), g, scope) == Total(m, g, scope)
    ensures !step.Resume? ==> Total(Apply(m, step), g, scope) <= Total(m, g, scope) - Costs(step, g, scope)
  {
    if step.Resume? {
      if g.Cover? || g.Potential? {
        ResumeReadings(m, step.reviewId, g, scope);
      }
    } else if step.Supersede? {
      TotalSupersede(m, step.chunk, D, g, scope);
      SplitReadings(m[step.chunk.id], step.chunk, D, g, scope);
    } else {
      WriteReadings(m[step.chunk.id], step, D, g, scope);
      TotalWrite(m, Written(step), g, scope);
    }
  }

  lemma {:induction false} ResumeReadings(m: Table, resumed: string, g: Gauge, scope: Scope)
    requires g.Cover? || g.Potential?
    ensures Total(Apply(m, Resume(resumed)), g, scope) == Total(m, g, scope)
  {
    var m' := Apply(m, Resume(resumed));
    forall id | id in m ensures Reading(g, scope, m'[id]) == Reading(g, scope, m[id]) {
    }
    SameReadings(m, m', g, scope);
  }

  lemma {:induction false} SameReadings(m: Table, m': Table, g: Gauge, scope: Scope)
    requires m'.Keys == m.Keys && forall id :: id in m ==> Reading(g, scope, m'[id]) == Reading(g, scope, m[id])
    ensures Total(m', g, scope) == Total(m, g, scope)
  {
    TotalCompare(m, m', g, g, false, scope);
    TotalCompare(m', m, g, g, false, scope);
  }

  // ---------------------------------------------------------------------------------------------
  // Main results over whole runs

  /** How many of the steps a gauge charges. */
  function Cost(steps: seq<Step>, g: Gauge, scope: Scope): int {
    if steps == [] then 0 else Costs(steps[0], g, scope) + Cost(steps[1..], g, scope)
  }

  function Resumes(steps: seq<Step>): nat {
    if steps == [] then 0 else (if steps[0].Resume? then 1 else 0) + Resumes(steps[1..])
  }

  /** In every run the superseded chunks stay exactly the inner nodes of the split forest. */
  lemma {:induction false} RunKeepsForest(m: Table, steps: seq<Step>, D: nat)
    requires WellFormed(m, D) && IsForest(m) && Legal(m, steps, D)
    ensures WellFormed(Replay(m, steps), D) && IsForest(Replay(m, steps))
    decreases |steps|
  {
    if steps != [] {
      StepKeepsForest(m, steps[0], D);
      RunKeepsForest(Apply(m, steps[0]), steps[1..], D);
    }
  }

  /**
  In every run, over any order and outcome of executions, splits and resumes, each line of each
  file is covered by as many live chunks as at the start, and the potential is unchanged.
  */
  lemma {:induction false} RunConserves(m: Table, steps: seq<Step>, D: nat, g: Gauge, scope: Scope)
    requires WellFormed(m, D) && IsForest(m) && Legal(m, steps, D)
    requires g.Cover? || g == Potential(D)
    ensures Total(Replay(m, steps), g, scope) == Total(m, g, scope)
    decreases |steps|
  {
    if steps != [] {
      StepKeepsForest(m, steps[0], D);
      StepGauges(m, steps[0], D, g, scope);
      RunConserves(Apply(m, steps[0]), steps[1..], D, g, scope);
    }
  }

  /** Between two resumes, model calls and executions are paid for by the pending chunks. */
  lemma {:induction false} RunPays(m: Table, steps: seq<Step>, D: nat, g: Gauge, scope: Scope)
    requires WellFormed(m, D) && IsForest(m) && Legal(m, steps, D)
    requires g == Calls(D) || g == Executions(D)
    requires Resumes(steps) == 0
    ensures Total(Replay(m, steps), g, scope) + Cost(steps, g, scope) <= Total(m, g, scope)
    ensures Cost(steps, g, scope) <= Total(m, g, scope)
    decreases |steps|
  {
    if steps == [] {
      TotalNonNegative(m, g, scope);
    } else {
      StepKeepsForest(m, steps[0], D);
      StepGauges(m, steps[0], D, g, scope);
      RunPays(Apply(m, steps[0]), steps[1..], D, g, scope);
    }
  }

  /** The most a run can have to pay: the conserved potential, twice it for model calls. */
  ghost function Ceiling(m: Table, g: Gauge, D: nat, scope: Scope): int {
    if g.Calls? then 2 * Total(m, Potential(D), scope) else Total(m, Potential(D), scope)
  }

  lemma PayableWithinCeiling(m: Table, D: nat, g: Gauge, scope: Scope)
    requires g == Calls(D) || g == Executions(D)
    ensures Total(m, g, scope) <= Ceiling(m, g, D, scope)
  {
    TotalCompare(m, m, Potential(D), g, g.Calls?, scope);
  }

  /** Over a whole life with any number of resumes, the bound is paid once per resume. */
  lemma {:induction false} LifetimeBound(m: Table, steps: seq<Step>, D: nat, g: Gauge, scope: Scope)
    requires WellFormed(m, D) && IsForest(m) && Legal(m, steps, D)
    requires g == Calls(D) || g == Executions(D)
    ensures Cost(steps, g, scope) <= Total(m, g, scope) + Shares(Resumes(steps), Ceiling(m, g, D, scope))
    decreases |steps|
  {
    TotalNonNegative(m, g, scope);
    if steps != [] {
      var m', c := Apply(m, steps[0]), Ceiling(m, g, D, scope);
      StepKeepsForest(m, steps[0], D);
      StepGauges(m, steps[0], D, g, scope);
      CeilingStays(m, steps[0], D, g, scope);
      LifetimeBound(m', steps[1..], D, g, scope);
      PayableWithinCeiling(m', D, g, scope);
      OneStepPaid(steps[0].Resume?, Costs(steps[0], g, scope), Cost(steps[1..], g, scope),
                  Total(m, g, scope), Total(m', g, scope), Resumes(steps[1..]), c);
    }
  }

  lemma {:induction false} CeilingStays(m: Table, step: Step, D: nat, g: Gauge, scope: Scope)
    requires WellFormed(m, D) && IsForest(m) && Enabled(m, step, D)
    ensures Ceiling(Apply(m, step), g, D, scope) == Ceiling(m, g, D, scope)
  {
    StepGauges(m, step, D, Potential(D), scope);
  }

  /** `n` times `share`, added up. */
  function Shares(n: nat, share: int): int {
    if n == 0 then 0 else Shares(n - 1, share) + share
  }

  lemma {:induction false} SharesProduct(n: nat, share: int)
    ensures Shares(n, share) == n * share
  {
    if n > 0 {
      SharesProduct(n - 1, share);
    }
  }

  /** A resume may fill the pending chunks up to the ceiling again; any other step pays what it costs. */
  lemma {:induction false} OneStepPaid(
    resume: bool, cost: int, rest: int, total: int, total': int, resumes: nat, ceiling: int
  )
    requires rest <= total' + Shares(resumes, ceiling) && total >= 0
    requires if resume then cost == 0 && total' <= ceiling else total' <= total - cost
    ensures cost + rest <= total + Shares(resumes + (if resume then 1 else 0), ceiling)
  {
  }

  /** A fresh plan: distinct pending chunks at depth 0. */
  predicate FreshPlan(m: Table) {
    forall id :: id in m ==>
      m[id].id == id && id.Root? && Fits(m[id]) && m[id].splitDepth == 0 && m[id].status == Pending
  }

  ghost function PlannedFor(m: Table, scope: Scope): set<ChunkId> {
    set id | id in m && InScope(scope, m[id])
  }

  lemma FreshPlanIsForest(m: Table, D: nat)
    requires FreshPlan(m)
    ensures WellFormed(m, D) && IsForest(m)
  {
  }

  lemma PlannedRemove(m: Table, id: ChunkId, scope: Scope)
    requires id in m
    ensures |PlannedFor(m, scope)| == |PlannedFor(m - {id}, scope)| + (if InScope(scope, m[id]) then 1 else 0)
  {
    assert PlannedFor(m - {id}, scope) == PlannedFor(m, scope) - {id};
  }

  lemma CountOne(before: nat, w: int, inScope: bool, count: nat, reading: int, rest: int)
    requires rest == before * w && reading == (if inScope then w else 0) && count == before + (if inScope then 1 else 0)
    ensures reading + rest == count * w
  {
  }

  lemma {:induction false} FreshReading(m: Table, D: nat, scope: Scope, id: ChunkId)
    requires FreshPlan(m) && id in m
    ensures FreshPlan(m - {id})
    ensures Reading(Potential(D), scope, m[id]) == if InScope(scope, m[id]) then Weight(D, 0) else 0
  {
  }

  /** A fresh plan's potential, the bound on executions: every planned chunk at full weight. */
  lemma {:induction false} FreshPlanPotential(m: Table, D: nat, scope: Scope)
    requires FreshPlan(m)
    ensures Total(m, Potential(D), scope) == |PlannedFor(m, scope)| * Weight(D, 0)
    decreases |m|
  {
    if m == map[] {
      assert PlannedFor(m, scope) == {};
    } else {
      var id :| id in m;
      FreshPlanGrows(m, D, scope, id);
    }
  }

  lemma {:induction false} FreshPlanGrows(m: Table, D: nat, scope: Scope, id: ChunkId)
    requires FreshPlan(m) && id in m
    ensures Total(m, Potential(D), scope) == |PlannedFor(m, scope)| * Weight(D, 0)
    decreases |m|, 0
  {
    FreshReading(m, D, scope, id);
    FreshPlanPotential(m - {id}, D, scope);
    TotalRemove(m, id, Potential(D), scope);
    PlannedRemove(m, id, scope);
    CountOne(|PlannedFor(m - {id}, scope)|, Weight(D, 0), InScope(scope, m[id]), |PlannedFor(m, scope)|,
             Reading(Potential(D), scope, m[id]), Total(m - {id}, Potential(D), scope));
  }

  /**
  The bound for a review planned into `n` chunks: at most `n * (2^(D+1) - 1)` executions and twice
  as many model calls, once for the first run and once for every resume.
  */
  lemma {:induction false} ReviewBound(m: Table, steps: seq<Step>, D: nat, scope: Scope)
    requires FreshPlan(m) && Legal(m, steps, D)
    ensures var bound := |PlannedFor(m, scope)| * (Pow2(D + 1) - 1);
            && Cost(steps, Executions(D), scope) <= (Resumes(steps) + 1) * bound
            && Cost(steps, Calls(D), scope) <= (Resumes(steps) + 1) * (2 * bound)
  {
    FreshPlanIsForest(m, D);
    PlanCeilings(m, D, scope);
    SharedBound(m, steps, D, Executions(D), scope);
    SharedBound(m, steps, D, Calls(D), scope);
  }

  lemma {:induction false} PlanCeilings(m: Table, D: nat, scope: Scope)
    requires FreshPlan(m)
    ensures Ceiling(m, Executions(D), D, scope) == |PlannedFor(m, scope)| * (Pow2(D + 1) - 1)
    ensures Ceiling(m, Calls(D), D, scope) == 2 * (|PlannedFor(m, scope)| * (Pow2(D + 1) - 1))
  {
    FreshPlanPotential(m, D, scope);
    WeightClosed(D, 0);
  }

  /** One share for the run and one for every resume. */
  lemma {:induction false} SharedBound(m: Table, steps: seq<Step>, D: nat, g: Gauge, scope: Scope)
    requires WellFormed(m, D) && IsForest(m) && Legal(m, steps, D)
    requires g == Calls(D) || g == Executions(D)
    ensures Cost(steps, g, scope) <= (Resumes(steps) + 1) * Ceiling(m, g, D, scope)
  {
    LifetimeBound(m, steps, D, g, scope);
    PayableWithinCeiling(m, D, g, scope);
    SharesProduct(Resumes(steps) + 1, Ceiling(m, g, D, scope));
  }

  /** The same bound for a single planned chunk and everything split off it. */
  lemma {:induction false} TreeBound(m: Table, steps: seq<Step>, D: nat, root: ChunkId)
    requires FreshPlan(m) && Legal(m, steps, D) && root in m
    ensures Cost(steps, Executions(D), OfTree(root)) <= (Resumes(steps) + 1) * (Pow2(D + 1) - 1)
    ensures Cost(steps, Calls(D), OfTree(root)) <= (Resumes(steps) + 1) * (2 * (Pow2(D + 1) - 1))
  {
    ReviewBound(m, steps, D, OfTree(root));
    OnlyRoot(m, root);
  }

  lemma OnlyRoot(m: Table, root: ChunkId)
    requires FreshPlan(m) && root in m
    ensures |PlannedFor(m, OfTree(root))| == 1
  {
    forall id | id in PlannedFor(m, OfTree(root)) ensures id == root {
      assert id.Root?;
    }
    assert PlannedFor(m, OfTree(root)) == {root};
  }

  /** There are never more chunks than the potential, of which each holds at least one share. */
  lemma {:induction false} StoredWithinPotential(m: Table, D: nat, scope: Scope)
    ensures |PlannedFor(m, scope)| <= Total(m, Potential(D), scope)
    decreases |m|
  {
    if m != map[] {
      var id :| id in m;
      TotalRemove(m, id, Potential(D), scope);
      StoredWithinPotential(m - {id}, D, scope);
      PlannedRemove(m, id, scope);
    } else {
      assert PlannedFor(m, scope) == {};
    }
  }

  /** However often it is resumed, a plan of `n` chunks never has more than `n * (2^(D+1) - 1)` chunks stored. */
  lemma {:induction false} StoredBound(m: Table, steps: seq<Step>, D: nat, scope: Scope)
    requires FreshPlan(m) && Legal(m, steps, D)
    ensures |PlannedFor(Replay(m, steps), scope)| <= |PlannedFor(m, scope)| * (Pow2(D + 1) - 1)
  {
    FreshPlanIsForest(m, D);
    RunConserves(m, steps, D, Potential(D), scope);
    FreshPlanPotential(m, D, scope);
    WeightClosed(D, 0);
    StoredWithinPotential(Replay(m, steps), D, scope);
    assert Total(m, Potential(D), scope) == |PlannedFor(m, scope)| * (Pow2(D + 1) - 1);
  }

  // ---------------------------------------------------------------------------------------------
  // Texts stay aligned

  predicate AllAligned(m: Table, sources: map<string, string>) {
    forall id :: id in m && m[id].fileId in sources ==> Aligned(m[id], sources[m[id].fileId])
  }

  /** In every run each stored chunk of the given files is its source lines, newlines trimmed. */
  lemma {:induction false} RunKeepsAligned(m: Table, steps: seq<Step>, D: nat, sources: map<string, string>)
    requires WellFormed(m, D) && Legal(m, steps, D) && IsForest(m) && AllAligned(m, sources)
    ensures AllAligned(Replay(m, steps), sources)
    decreases |steps|
  {
    if steps != [] {
      StepKeepsForest(m, steps[0], D);
      StepKeepsAligned(m, steps[0], D, sources);
      RunKeepsAligned(Apply(m, steps[0]), steps[1..], D, sources);
    }
  }

  lemma StepKeepsAligned(m: Table, step: Step, D: nat, sources: map<string, string>)
    requires Enabled(m, step, D) && AllAligned(m, sources)
    ensures AllAligned(Apply(m, step), sources)
  {
    if step.Supersede? && step.chunk.fileId in sources && |Split(step.chunk)| == 2 {
      assert Aligned(m[step.chunk.id], sources[step.chunk.fileId]);
      SplitAligned(step.chunk, sources[step.chunk.fileId]);
    }
  }
}
