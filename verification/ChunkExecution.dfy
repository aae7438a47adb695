/**
One execution of a chunk as store writes (chunk_review_service.py `execute`), what it costs and what it
settles, and the lists of pending chunks that the work loop keeps. What the model answers, what the
analysers say and when a task is interrupted are arbitrary inputs.
*/
module ChunkExecution {
  import opened Wrappers
  import ReviewModels
  import opened ReviewChunks
  import opened ReviewForest
  import opened ReviewStore

  /** How far an attempt got before it ended. */
  datatype Stage = Starting | Building | Asking | Checking

  datatype AttemptOutcome =
    | Accepted(found: seq<ReviewModels.Finding>)
    | Rejected(code: ErrorCode, stage: Stage)
    | Interrupted(stage: Stage)

  datatype Execution = Finished(children: seq<Chunk>) | Stopped

  predicate Begins(o: AttemptOutcome) {
    !(o.Interrupted? && o.stage == Starting)
  }

  predicate AsksModel(o: AttemptOutcome) {
    o.Accepted? || o.stage in {Asking, Checking}
  }

  predicate Validates(o: AttemptOutcome) {
    o.Accepted? || o.stage == Checking
  }

  /** The store writes of one attempt. */
  function AttemptSteps(chunk: Chunk, attempt: nat, o: AttemptOutcome): seq<Step> {
    (if Begins(o) then [Begin(chunk, attempt)] else [])
    + (if Validates(o) then [Validate(chunk, attempt)] else [])
    + (if o.Accepted? then [Complete(chunk, attempt)] else [])
  }

  /** What becomes of a chunk whose two attempts were rejected. */
  function LastStep(chunk: Chunk, code: ErrorCode, D: nat): Step {
    if chunk.splitDepth < D && Split(chunk) != [] then Supersede(chunk) else Fail(chunk, code)
  }

  /** All writes of an execution; `abandoned` is an interruption after the second rejection. */
  function ExecutionSteps(
    chunk: Chunk, first: AttemptOutcome, second: AttemptOutcome, abandoned: bool, D: nat
  ): seq<Step> {
    AttemptSteps(chunk, 1, first)
    + (if !first.Rejected? then []
       else AttemptSteps(chunk, 2, second)
            + (if second.Rejected? && !abandoned then [LastStep(chunk, second.code, D)] else []))
  }

  function ExecutionResult(
    chunk: Chunk, first: AttemptOutcome, second: AttemptOutcome, abandoned: bool, D: nat
  ): Execution {
    if first.Accepted? then Finished([])
    else if first.Interrupted? then Stopped
    else if second.Accepted? then Finished([])
    else if second.Interrupted? || abandoned then Stopped
    else if LastStep(chunk, second.code, D).Supersede? then Finished(Split(chunk))
    else Finished([])
  }

  function CallsMade(first: AttemptOutcome, second: AttemptOutcome): nat {
    (if AsksModel(first) then 1 else 0) + (if first.Rejected? && AsksModel(second) then 1 else 0)
  }

  /** A chunk waiting in the store in exactly the form the executor holds. */
  predicate Waiting(m: Table, c: Chunk) {
    c.id in m && m[c.id] == c && c.status == Pending
  }

  // ---------------------------------------------------------------------------------------------
  // An execution is a legal run of the chunk table

  lemma ThenStep(m: Table, steps: seq<Step>, step: Step, D: nat)
    requires Legal(m, steps, D) && Enabled(Replay(m, steps), step, D)
    ensures Legal(m, steps + [step], D)
    ensures Replay(m, steps + [step]) == Apply(Replay(m, steps), step)
  {
    ReplayAppend(m, steps, [step], D);
  }

  /** Where an attempt leaves the table, given that it may begin. */
  lemma AttemptLegal(m: Table, chunk: Chunk, attempt: nat, o: AttemptOutcome, D: nat)
    requires Enabled(m, Begin(chunk, attempt), D)
    ensures Legal(m, AttemptSteps(chunk, attempt, o), D)
    ensures Replay(m, AttemptSteps(chunk, attempt, o)) == Attempted(m, chunk, attempt, o)
  {
    if Begins(o) {
      assert AttemptSteps(chunk, attempt, o)
          == if o.Accepted? then [Begin(chunk, attempt), Validate(chunk, attempt)] + [Complete(chunk, attempt)]
             else if Validates(o) then [Begin(chunk, attempt)] + [Validate(chunk, attempt)]
             else [Begin(chunk, attempt)];
      if Validates(o) {
        ThenStep(m, [Begin(chunk, attempt)], Validate(chunk, attempt), D);
        if o.Accepted? {
          ThenStep(m, [Begin(chunk, attempt), Validate(chunk, attempt)], Complete(chunk, attempt), D);
        }
      }
    }
  }

  /** The table after one attempt. */
  function Attempted(m: Table, chunk: Chunk, attempt: nat, o: AttemptOutcome): Table {
    if !Begins(o) then m
    else
      Write(m, Working(chunk, attempt, if o.Accepted? then Completed else if Validates(o) then Validating else Running))
  }

  /** The chunk an execution leaves in the table, besides the halves of a split. */
  function Outcome(chunk: Chunk, first: AttemptOutcome, second: AttemptOutcome, abandoned: bool, D: nat): Chunk {
    if !Begins(first) then chunk
    else if first.Accepted? then Working(chunk, 1, Completed)
    else if first.Interrupted? || !Begins(second) then
      Working(chunk, 1, if Validates(first) then Validating else Running)
    else if second.Accepted? then Working(chunk, 2, Completed)
    else if second.Interrupted? || abandoned then Working(chunk, 2, if Validates(second) then Validating else Running)
    else if LastStep(chunk, second.code, D).Supersede? then chunk.(status := Superseded)
    else Failure(chunk, second.code)
  }

  function Executed(
    m: Table, chunk: Chunk, first: AttemptOutcome, second: AttemptOutcome, abandoned: bool, D: nat
  ): Table {
    var m' := Write(m, Outcome(chunk, first, second, abandoned, D));
    match ExecutionResult(chunk, first, second, abandoned, D)
    case Stopped => m'
    case Finished(children) => WriteAll(m', children)
  }

  /** An execution is a legal run of the table, and this is where it leads. */
  lemma ExecutionLegal(m: Table, chunk: Chunk, first: AttemptOutcome, second: AttemptOutcome, abandoned: bool, D: nat)
    requires Waiting(m, chunk) && Fits(chunk)
    ensures Legal(m, ExecutionSteps(chunk, first, second, abandoned, D), D)
    ensures Replay(m, ExecutionSteps(chunk, first, second, abandoned, D))
         == Executed(m, chunk, first, second, abandoned, D)
  {
    AttemptLegal(m, chunk, 1, first, D);
    var m1 := Replay(m, AttemptSteps(chunk, 1, first));
    assert m == Write(m, chunk);
    if first.Rejected? {
      SecondAttemptLegal(m1, chunk, second, abandoned, D);
      ReplayAppend(m, AttemptSteps(chunk, 1, first), LateSteps(chunk, second, abandoned, D), D);
      Overwrite(m, Working(chunk, 1, if Validates(first) then Validating else Running),
                Late(chunk, second, abandoned, D));
    } else {
      assert AttemptSteps(chunk, 1, first) + [] == AttemptSteps(chunk, 1, first);
    }
  }

  function LateSteps(chunk: Chunk, second: AttemptOutcome, abandoned: bool, D: nat): seq<Step> {
    AttemptSteps(chunk, 2, second)
    + (if second.Rejected? && !abandoned then [LastStep(chunk, second.code, D)] else [])
  }

  /** The chunk after a second attempt that began. */
  function Late(chunk: Chunk, second: AttemptOutcome, abandoned: bool, D: nat): Chunk {
    if second.Accepted? then Working(chunk, 2, Completed)
    else if second.Interrupted? || abandoned then Working(chunk, 2, if Validates(second) then Validating else Running)
    else if LastStep(chunk, second.code, D).Supersede? then chunk.(status := Superseded)
    else Failure(chunk, second.code)
  }

  lemma Overwrite(m: Table, a: Chunk, b: Chunk)
    requires a.id == b.id
    ensures Write(Write(m, a), b) == Write(m, b)
  {
  }

  /** The second attempt overwrites what the first one stored. */
  lemma TwoAttempts(m: Table, chunk: Chunk, first: AttemptOutcome, second: AttemptOutcome)
    requires chunk.id in m
    ensures first.Rejected? && Begins(second) ==>
              Attempted(Attempted(m, chunk, 1, first), chunk, 2, second) == Attempted(m, chunk, 2, second)
  {
    if first.Rejected? && Begins(second) {
      Overwrite(m, Working(chunk, 1, if Validates(first) then Validating else Running),
                Working(chunk, 2, if second.Accepted? then Completed
                                  else if Validates(second) then Validating else Running));
    }
  }

  lemma SecondAttemptLegal(m: Table, chunk: Chunk, second: AttemptOutcome, abandoned: bool, D: nat)
    requires Enabled(m, Begin(chunk, 2), D) && Fits(chunk)
    ensures Legal(m, LateSteps(chunk, second, abandoned, D), D)
    ensures Replay(m, LateSteps(chunk, second, abandoned, D))
         == if !Begins(second) then m
            else
              var m' := Write(m, Late(chunk, second, abandoned, D));
              if second.Rejected? && !abandoned && LastStep(chunk, second.code, D).Supersede?
              then WriteAll(m', Split(chunk)) else m'
  {
    AttemptLegal(m, chunk, 2, second, D);
    var steps := AttemptSteps(chunk, 2, second);
    if second.Rejected? && !abandoned {
      var last := LastStep(chunk, second.code, D);
      ThenStep(m, steps, last, D);
      var worked := Working(chunk, 2, if Validates(second) then Validating else Running);
      Overwrite(m, worked, Late(chunk, second, abandoned, D));
      if last.Supersede? {
        SplitPartitions(chunk);
        WriteTwo(Write(m, chunk.(status := Superseded)), Split(chunk));
      }
    } else {
      assert steps + [] == steps;
    }
  }

  lemma WriteTwo(m: Table, halves: seq<Chunk>)
    requires |halves| == 2
    ensures WriteAll(m, halves) == Write(Write(m, halves[0]), halves[1])
  {
    assert halves[..1] == [halves[0]] && [halves[0]][..0] == [];
    assert WriteAll(m, [halves[0]]) == Write(WriteAll(m, []), halves[0]);
  }

  // ---------------------------------------------------------------------------------------------
  // What an execution costs and what it leaves alone

  lemma {:induction false} CostAppend(a: seq<Step>, b: seq<Step>, g: Gauge, scope: Scope)
    ensures Cost(a + b, g, scope) == Cost(a, g, scope) + Cost(b, g, scope)
    ensures Resumes(a + b) == Resumes(a) + Resumes(b)
    decreases |a|
  {
    if a == [] {
      assert a + b == b;
    } else {
      assert (a + b)[1..] == a[1..] + b;
      CostAppend(a[1..], b, g, scope);
    }
  }

  lemma AttemptCost(chunk: Chunk, attempt: nat, o: AttemptOutcome, g: Gauge, scope: Scope)
    ensures Cost(AttemptSteps(chunk, attempt, o), g, scope)
         == if Begins(o) then Costs(Begin(chunk, attempt), g, scope) else 0
    ensures Resumes(AttemptSteps(chunk, attempt, o)) == 0
  {
    var begin := if Begins(o) then [Begin(chunk, attempt)] else [];
    var validate := if Validates(o) then [Validate(chunk, attempt)] else [];
    var complete := if o.Accepted? then [Complete(chunk, attempt)] else [];
    CostAppend(begin + validate, complete, g, scope);
    CostAppend(begin, validate, g, scope);
  }

  lemma CostOfExecution(
    chunk: Chunk, first: AttemptOutcome, second: AttemptOutcome, abandoned: bool, D: nat, g: Gauge, scope: Scope
  )
    ensures var steps := ExecutionSteps(chunk, first, second, abandoned, D);
            && Resumes(steps) == 0
            && Cost(steps, g, scope)
            == (if Begins(first) then Costs(Begin(chunk, 1), g, scope) else 0)
             + (if first.Rejected? && Begins(second) then Costs(Begin(chunk, 2), g, scope) else 0)
  {
    var late := if !first.Rejected? then [] else LateSteps(chunk, second, abandoned, D);
    CostAppend(AttemptSteps(chunk, 1, first), late, g, scope);
    AttemptCost(chunk, 1, first, g, scope);
    AttemptCost(chunk, 2, second, g, scope);
    if second.Rejected? && !abandoned {
      CostAppend(AttemptSteps(chunk, 2, second), [LastStep(chunk, second.code, D)], g, scope);
    } else {
      assert LateSteps(chunk, second, abandoned, D) == AttemptSteps(chunk, 2, second);
    }
  }

  /** An execution that is not stopped is charged once, and every question it asks is charged. */
  lemma ExecutionCost(
    chunk: Chunk, first: AttemptOutcome, second: AttemptOutcome, abandoned: bool, D: nat, scope: Scope
  )
    requires InScope(scope, chunk)
    ensures var steps := ExecutionSteps(chunk, first, second, abandoned, D);
            && Resumes(steps) == 0
            && Cost(steps, Executions(D), scope)
               >= (if ExecutionResult(chunk, first, second, abandoned, D).Finished? then 1 else 0)
            && CallsMade(first, second) <= Cost(steps, Calls(D), scope)
  {
    CostOfExecution(chunk, first, second, abandoned, D, Executions(D), scope);
    CostOfExecution(chunk, first, second, abandoned, D, Calls(D), scope);
  }

  /** Table `m` follows from `m0` by steps of executions alone. */
  predicate Ran(m0: Table, steps: seq<Step>, m: Table, D: nat) {
    Legal(m0, steps, D) && Resumes(steps) == 0 && m == Replay(m0, steps)
  }

  lemma RanOn(m0: Table, steps: seq<Step>, m: Table, taken: seq<Step>, m': Table, D: nat, scope: Scope)
    requires Ran(m0, steps, m, D) && Ran(m, taken, m', D)
    ensures Ran(m0, steps + taken, m', D)
    ensures Cost(steps + taken, Calls(D), scope) == Cost(steps, Calls(D), scope) + Cost(taken, Calls(D), scope)
    ensures Cost(steps + taken, Executions(D), scope)
            == Cost(steps, Executions(D), scope) + Cost(taken, Executions(D), scope)
  {
    ReplayAppend(m0, steps, taken, D);
    CostAppend(steps, taken, Calls(D), scope);
    CostAppend(steps, taken, Executions(D), scope);
  }

  lemma RanKeepsForest(m0: Table, steps: seq<Step>, m: Table, D: nat)
    requires WellFormed(m0, D) && IsForest(m0) && Ran(m0, steps, m, D)
    ensures WellFormed(m, D) && IsForest(m)
  {
    RunKeepsForest(m0, steps, D);
  }

  /** Distinct chunks of a review, each waiting in the store exactly as listed. */
  predicate Queue(q: seq<Chunk>, m: Table, reviewId: string) {
    && DistinctIds(q)
    && (forall c :: c in q ==> Waiting(m, c) && c.reviewId == reviewId)
  }

  /** The table behind the attempts of an execution. */
  function Tried(m: Table, chunk: Chunk, first: AttemptOutcome, second: AttemptOutcome): Table {
    if first.Rejected? then Attempted(Attempted(m, chunk, 1, first), chunk, 2, second)
    else Attempted(m, chunk, 1, first)
  }

  /** Attempts write nothing but the chunk. */
  lemma {:induction false} TriedKeys(m: Table, chunk: Chunk, first: AttemptOutcome, second: AttemptOutcome)
    requires chunk.id in m
    ensures Tried(m, chunk, first, second).Keys == m.Keys
  {
  }

  function Concluded(tried: Table, chunk: Chunk, last: AttemptOutcome, abandoned: bool, D: nat): Table {
    if !last.Rejected? || abandoned then tried
    else if LastStep(chunk, last.code, D).Supersede?
    then WriteAll(Write(tried, chunk.(status := Superseded)), Split(chunk))
    else Write(tried, Failure(chunk, last.code))
  }

  function ResultBehind(chunk: Chunk, last: AttemptOutcome, abandoned: bool, D: nat): Execution {
    if last.Accepted? then Finished([])
    else if last.Interrupted? || abandoned then Stopped
    else if LastStep(chunk, last.code, D).Supersede? then Finished(Split(chunk))
    else Finished([])
  }

  /**
  Two rejections are followed by one more write, or two more for a split; anything else leaves the table as tried.
  */
  lemma {:induction false} ExecutedFrom(
    m: Table, chunk: Chunk, first: AttemptOutcome, second: AttemptOutcome, abandoned: bool, D: nat
  )
    requires Waiting(m, chunk)
    ensures Executed(m, chunk, first, second, abandoned, D)
         == Concluded(Tried(m, chunk, first, second), chunk, if first.Rejected? then second else first, abandoned, D)
    ensures ExecutionResult(chunk, first, second, abandoned, D)
         == ResultBehind(chunk, if first.Rejected? then second else first, abandoned, D)
  {
    TwoAttempts(m, chunk, first, second);
    assert Write(m, chunk) == m;
    if first.Rejected? && second.Rejected? && !abandoned {
      Overwrite(m, Working(chunk, 2, if Validates(second) then Validating else Running),
                Late(chunk, second, abandoned, D));
    }
  }

  /** What a finished execution did to the table: its chunk is settled, its halves wait, the rest is as before. */
  predicate Settled(m: Table, m': Table, chunk: Chunk, children: seq<Chunk>) {
    && (forall id :: id in m && id != chunk.id ==> id in m' && m'[id] == m[id])
    && (forall c :: c in children ==> c.id !in m)
    && Queue(children, m', chunk.reviewId)
  }

  lemma HalvesAreNew(m: Table, chunk: Chunk, D: nat)
    requires WellFormed(m, D) && IsForest(m) && Waiting(m, chunk)
    ensures forall h :: h in Split(chunk) ==> h.id !in m
  {
    if Split(chunk) != [] {
      SplitPartitions(chunk);
    }
  }

  lemma {:induction false} WriteSettles(m: Table, chunk: Chunk, written: Chunk)
    requires written.id == chunk.id
    ensures Settled(m, Write(m, written), chunk, [])
  {
  }

  lemma {:induction false} SplitSettles(m: Table, chunk: Chunk, written: Chunk, halves: seq<Chunk>)
    requires written.id == chunk.id && |halves| == 2 && halves[0].id != halves[1].id
    requires forall h :: h in halves ==>
               h.id !in m && h.id != chunk.id && h.status == Pending && h.reviewId == chunk.reviewId
    ensures Settled(m, WriteAll(Write(m, written), halves), chunk, halves)
  {
    WriteTwo(Write(m, written), halves);
  }

  lemma {:induction false} ExecutionSettles(
    m: Table, chunk: Chunk, first: AttemptOutcome, second: AttemptOutcome, abandoned: bool, D: nat
  )
    requires WellFormed(m, D) && IsForest(m) && Waiting(m, chunk)
    requires ExecutionResult(chunk, first, second, abandoned, D).Finished?
    ensures Settled(m, Executed(m, chunk, first, second, abandoned, D), chunk,
                    ExecutionResult(chunk, first, second, abandoned, D).children)
  {
    var outcome := Outcome(chunk, first, second, abandoned, D);
    var children := ExecutionResult(chunk, first, second, abandoned, D).children;
    if children == [] {
      WriteSettles(m, chunk, outcome);
    } else {
      HalvesAreNew(m, chunk, D);
      SplitPartitions(chunk);
      SplitSettles(m, chunk, outcome, children);
    }
  }

  // ---------------------------------------------------------------------------------------------
  // Pending chunks

  /** The pending chunks of a listing, leaving out some ids. */
  function PendingExcept(chunks: seq<Chunk>, ids: set<ChunkId>): seq<Chunk> {
    if chunks == [] then []
    else
      var last := |chunks| - 1;
      PendingExcept(chunks[..last], ids)
      + (if chunks[last].status == Pending && chunks[last].id !in ids then [chunks[last]] else [])
  }

  lemma {:induction false} InPendingExcept(chunks: seq<Chunk>, ids: set<ChunkId>, c: Chunk)
    ensures c in PendingExcept(chunks, ids) <==> c in chunks && c.status == Pending && c.id !in ids
    decreases |chunks|
  {
    if chunks != [] {
      var last := |chunks| - 1;
      InPendingExcept(chunks[..last], ids, c);
      assert chunks == chunks[..last] + [chunks[last]];
    }
  }

  lemma {:induction false} PendingDistinct(chunks: seq<Chunk>, ids: set<ChunkId>)
    requires DistinctIds(chunks)
    ensures DistinctIds(PendingExcept(chunks, ids))
    decreases |chunks|
  {
    if chunks != [] {
      var last := |chunks| - 1;
      PendingDistinct(chunks[..last], ids);
      forall c | c in PendingExcept(chunks[..last], ids) ensures c.id != chunks[last].id {
        InPendingExcept(chunks[..last], ids, c);
        var i :| 0 <= i < last && chunks[..last][i] == c;
        assert chunks[i].id != chunks[last].id;
      }
    }
  }

  /** The queue is a duplicate-free listing of all stored pending chunks of the review. */
  predicate ListsPending(q: seq<Chunk>, m: Table, reviewId: string) {
    && Queue(q, m, reviewId)
    && forall id :: id in m && m[id].reviewId == reviewId && m[id].status == Pending ==> m[id] in q
  }

  /** New children first, then whatever else the store has pending: again a full listing. */
  lemma NextPending(m: Table, chunks: seq<Chunk>, children: seq<Chunk>, reviewId: string)
    requires Lists(chunks, m, reviewId) && Queue(children, m, reviewId) && forall id :: id in m ==> m[id].id == id
    ensures ListsPending(children + PendingExcept(chunks, set c | c in children :: c.id), m, reviewId)
  {
    var ids := set c | c in children :: c.id;
    var rest := PendingExcept(chunks, ids);
    PendingDistinct(chunks, ids);
    forall c ensures c in rest <==> c in chunks && c.status == Pending && c.id !in ids {
      InPendingExcept(chunks, ids, c);
    }
    forall id | id in m && m[id].reviewId == reviewId && m[id].status == Pending
      ensures m[id] in children + rest
    {
      if id in ids {
        var c :| c in children && c.id == id;
        assert c == m[id];
      }
    }
  }

  // ---------------------------------------------------------------------------------------------
  // Saving a list of chunks

  lemma {:induction false} WriteAllEntries(m: Table, chunks: seq<Chunk>)
    requires DistinctIds(chunks)
    ensures forall id :: id in WriteAll(m, chunks) <==> id in m || exists c :: c in chunks && c.id == id
    ensures forall c :: c in chunks ==> c.id in WriteAll(m, chunks) && WriteAll(m, chunks)[c.id] == c
    ensures forall id :: id in m && (forall c :: c in chunks ==> c.id != id) ==> WriteAll(m, chunks)[id] == m[id]
    decreases |chunks|
  {
    if chunks != [] {
      var last := |chunks| - 1;
      WriteAllEntries(m, chunks[..last]);
      assert chunks == chunks[..last] + [chunks[last]];
      forall c | c in chunks[..last] ensures c.id != chunks[last].id {
        var i :| 0 <= i < last && chunks[..last][i] == c;
        assert chunks[i].id != chunks[last].id;
      }
    }
  }

  /** The chunks of a new plan: distinct roots of this review, waiting, and unknown to the store. */
  predicate FreshChunks(chunks: seq<Chunk>, m: Table, reviewId: string) {
    && DistinctIds(chunks)
    && (forall c :: c in chunks ==>
          c.id.Root? && c.id !in m && c.reviewId == reviewId && Fits(c) && c.splitDepth == 0 && c.status == Pending)
  }

  lemma PlanSaved(m: Table, chunks: seq<Chunk>, reviewId: string, D: nat)
    requires WellFormed(m, D) && IsForest(m) && FreshChunks(chunks, m, reviewId)
    requires forall id :: id in m ==> m[id].reviewId != reviewId
    ensures WellFormed(WriteAll(m, chunks), D) && IsForest(WriteAll(m, chunks))
    ensures Lists(chunks, WriteAll(m, chunks), reviewId)
  {
    WriteAllEntries(m, chunks);
    var m' := WriteAll(m, chunks);
    forall id | id in m' ensures if id in m then m'[id] == m[id] else id.Root? && m'[id] in chunks && m'[id].id == id {
      if id !in m {
        var c :| c in chunks && c.id == id;
        assert m'[id] == c;
      }
    }
    forall id | id in m' && id !in m
      ensures Child(id, 1) !in m' && Child(id, 2) !in m'
    {
      NoOrphans(m, id);
    }
  }

  /** `resume`'s list of reset chunks. */
  function ResetAll(chunks: seq<Chunk>, reviewId: string): seq<Chunk> {
    seq(|chunks|, i requires 0 <= i < |chunks| => ResetChunk(chunks[i], reviewId))
  }

  lemma ResetListed(m: Table, chunks: seq<Chunk>, reviewId: string)
    requires Lists(chunks, m, reviewId) && forall id :: id in m ==> m[id].id == id
    ensures DistinctIds(ResetAll(chunks, reviewId))
    ensures forall c :: c in ResetAll(chunks, reviewId) ==>
              c.id in m && m[c.id].reviewId == reviewId && c == ResetChunk(m[c.id], reviewId)
    ensures forall id :: id in m && m[id].reviewId == reviewId ==>
              ResetChunk(m[id], reviewId) in ResetAll(chunks, reviewId)
  {
    var reset := ResetAll(chunks, reviewId);
    forall c | c in reset ensures c.id in m && m[c.id].reviewId == reviewId && c == ResetChunk(m[c.id], reviewId) {
      var i :| 0 <= i < |chunks| && reset[i] == c;
      assert chunks[i] in chunks;
    }
    forall id | id in m && m[id].reviewId == reviewId ensures ResetChunk(m[id], reviewId) in reset {
      assert m[id].id == id && m[id] in chunks;
      var i :| 0 <= i < |chunks| && chunks[i] == m[id];
      assert reset[i] in reset;
    }
  }

  /** Saving the reset list is the resume step of the table. */
  lemma ResetSaved(m: Table, chunks: seq<Chunk>, reviewId: string)
    requires Lists(chunks, m, reviewId) && forall id :: id in m ==> m[id].id == id
    ensures WriteAll(m, ResetAll(chunks, reviewId)) == Apply(m, Resume(reviewId))
  {
    var reset := ResetAll(chunks, reviewId);
    ResetListed(m, chunks, reviewId);
    WriteAllEntries(m, reset);
    var m' := WriteAll(m, reset);
    forall id | id in m ensures id in m' && m'[id] == ResetChunk(m[id], reviewId) {
      if m[id].reviewId == reviewId {
        var c := ResetChunk(m[id], reviewId);
        assert c in reset && c.id == id;
      }
    }
  }

  lemma FirstPending(m: Table, chunks: seq<Chunk>, reviewId: string)
    requires Lists(chunks, m, reviewId) && forall id :: id in m ==> m[id].id == id
    ensures ListsPending(PendingExcept(chunks, {}), m, reviewId)
  {
    var none: seq<Chunk> := [];
    NextPending(m, chunks, none, reviewId);
    assert (set c | c in none :: c.id) == {} && none + PendingExcept(chunks, {}) == PendingExcept(chunks, {});
  }

  lemma WriteThree(m: Table, parent: Chunk, halves: seq<Chunk>)
    requires |halves| == 2
    ensures WriteAll(m, [parent] + halves) == Write(Write(Write(m, parent), halves[0]), halves[1])
  {
    var all := [parent] + halves;
    assert all[..2] == [parent, halves[0]] && [parent, halves[0]][..1] == [parent] && [parent][..0] == [];
    assert WriteAll(m, [parent]) == Write(WriteAll(m, []), parent);
    assert WriteAll(m, [parent, halves[0]]) == Write(WriteAll(m, [parent]), halves[0]);
  }
}
