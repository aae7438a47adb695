/**
A batch of executions running at once (hybrid_review_service.py `run`, the gathered executions). Their
writes reach the store in any merge of their orders; every merge is a legal run and leads to one table.
*/
module BatchMerge {
  import opened Wrappers
  import opened ReviewChunks
  import opened ReviewForest
  import opened ReviewStore
  import opened ChunkExecution

  // ---------------------------------------------------------------------------------------------
  // Merges

  /** The lists with the head of list `p` taken off. */
  function Rest(lists: seq<seq<Step>>, p: nat): seq<seq<Step>>
    requires p < |lists| && lists[p] != []
  {
    lists[p := lists[p][1..]]
  }

  /** Every pick names a list that has a step left. */
  predicate Schedule(lists: seq<seq<Step>>, picks: seq<nat>)
    decreases |picks|, 0
  {
    picks == [] ||
    (var n := |picks| - 1;
     Schedule(lists, picks[..n]) && picks[n] < |lists| && Left(lists, picks[..n])[picks[n]] != [])
  }

  /** What the lists still hold after the picks. */
  function Left(lists: seq<seq<Step>>, picks: seq<nat>): (left: seq<seq<Step>>)
    requires Schedule(lists, picks)
    ensures |left| == |lists|
    decreases |picks|, 1
  {
    if picks == [] then lists else Rest(Left(lists, picks[..|picks| - 1]), picks[|picks| - 1])
  }

  /** The steps in the order of the picks. */
  function Merged(lists: seq<seq<Step>>, picks: seq<nat>): seq<Step>
    requires Schedule(lists, picks)
    decreases |picks|
  {
    if picks == [] then []
    else
      var n := |picks| - 1;
      Merged(lists, picks[..n]) + [Left(lists, picks[..n])[picks[n]][0]]
  }

  predicate Exhausted(lists: seq<seq<Step>>) {
    forall i :: 0 <= i < |lists| ==> lists[i] == []
  }

  lemma {:induction false} PickOne(lists: seq<seq<Step>>, picks: seq<nat>, p: nat)
    requires Schedule(lists, picks) && p < |lists| && Left(lists, picks)[p] != []
    ensures Schedule(lists, picks + [p])
    ensures Left(lists, picks + [p]) == Rest(Left(lists, picks), p)
    ensures Merged(lists, picks + [p]) == Merged(lists, picks) + [Left(lists, picks)[p][0]]
  {
    assert (picks + [p])[..|picks|] == picks;
  }

  // ---------------------------------------------------------------------------------------------
  // Each execution keeps to its own entries

  /** The entries an execution of the chunk reads or writes. */
  function Footprint(c: Chunk): set<ChunkId> {
    {c.id, Child(c.id, 1), Child(c.id, 2)}
  }

  predicate OnChunk(steps: seq<Step>, c: Chunk) {
    forall i :: 0 <= i < |steps| ==> !steps[i].Resume? && steps[i].chunk == c
  }

  ghost predicate Agree(m: Table, m': Table, ids: set<ChunkId>) {
    forall id :: id in ids ==> (id in m <==> id in m') && (id in m ==> m'[id] == m[id])
  }

  lemma {:induction false} ApplyFrame(m: Table, m': Table, step: Step, D: nat)
    requires !step.Resume? && Agree(m, m', Footprint(step.chunk))
    ensures Enabled(m, step, D) == Enabled(m', step, D)
    ensures Agree(Apply(m, step), Apply(m', step), Footprint(step.chunk))
  {
    assert step.chunk.id in Footprint(step.chunk);
  }

  lemma {:induction false} ApplyOutside(m: Table, step: Step, ids: set<ChunkId>)
    requires !step.Resume? && ids !! Footprint(step.chunk)
    ensures Agree(m, Apply(m, step), ids)
  {
    assert forall id :: id in ids ==> id !in Footprint(step.chunk);
  }

  /** A run of an execution sees and changes nothing but its footprint. */
  lemma {:induction false} LegalFrame(m: Table, m': Table, steps: seq<Step>, c: Chunk, D: nat)
    requires OnChunk(steps, c) && Agree(m, m', Footprint(c))
    ensures Legal(m, steps, D) == Legal(m', steps, D)
    ensures Agree(Replay(m, steps), Replay(m', steps), Footprint(c))
    decreases |steps|
  {
    if steps != [] {
      ApplyFrame(m, m', steps[0], D);
      LegalFrame(Apply(m, steps[0]), Apply(m', steps[0]), steps[1..], c, D);
    }
  }

  predicate Apart(chunks: seq<Chunk>) {
    forall i, j :: 0 <= i < |chunks| && 0 <= j < |chunks| && i != j ==> Footprint(chunks[i]) !! Footprint(chunks[j])
  }

  // ---------------------------------------------------------------------------------------------
  // Every merge is legal and leads to one table

  /** What list `i` still holds is legal now and leads its footprint where the whole list leads it from the start. */
  ghost predicate OnTrack(
    m0: Table, lists: seq<seq<Step>>, m: Table, left: seq<seq<Step>>, chunks: seq<Chunk>, D: nat, i: nat
  )
    requires i < |chunks| == |lists| == |left|
  {
    && OnChunk(left[i], chunks[i]) && Legal(m, left[i], D)
    && Agree(Replay(m, left[i]), Replay(m0, lists[i]), Footprint(chunks[i]))
  }

  ghost predicate AllOnTrack(
    m0: Table, lists: seq<seq<Step>>, m: Table, left: seq<seq<Step>>, chunks: seq<Chunk>, D: nat
  )
    requires |chunks| == |lists| == |left|
  {
    forall i :: 0 <= i < |chunks| ==> OnTrack(m0, lists, m, left, chunks, D, i)
  }

  ghost predicate Untouched(m0: Table, m: Table, chunks: seq<Chunk>) {
    forall id :: (forall i :: 0 <= i < |chunks| ==> id !in Footprint(chunks[i])) ==> Agree(m0, m, {id})
  }

  ghost predicate Startable(m: Table, lists: seq<seq<Step>>, chunks: seq<Chunk>, D: nat) {
    && |chunks| == |lists| && Apart(chunks)
    && forall i :: 0 <= i < |chunks| ==> OnChunk(lists[i], chunks[i]) && Legal(m, lists[i], D)
  }

  /** One step of any list keeps all of them on track. */
  lemma {:induction false} StepKeepsTrack(
    m0: Table, lists: seq<seq<Step>>, m: Table, left: seq<seq<Step>>, chunks: seq<Chunk>, D: nat, p: nat
  )
    requires |chunks| == |lists| == |left| && p < |left| && left[p] != [] && Apart(chunks)
    requires AllOnTrack(m0, lists, m, left, chunks, D) && Untouched(m0, m, chunks)
    ensures !left[p][0].Resume? && left[p][0].chunk == chunks[p] && Enabled(m, left[p][0], D)
    ensures AllOnTrack(m0, lists, Apply(m, left[p][0]), Rest(left, p), chunks, D)
    ensures Untouched(m0, Apply(m, left[p][0]), chunks)
  {
    var step, m' := left[p][0], Apply(m, left[p][0]);
    assert OnTrack(m0, lists, m, left, chunks, D, p);
    forall i | 0 <= i < |chunks| ensures OnTrack(m0, lists, m', Rest(left, p), chunks, D, i) {
      assert OnTrack(m0, lists, m, left, chunks, D, i);
      if i != p {
        ApplyOutside(m, step, Footprint(chunks[i]));
        LegalFrame(m, m', left[i], chunks[i], D);
      }
    }
    forall id | forall i :: 0 <= i < |chunks| ==> id !in Footprint(chunks[i]) ensures Agree(m0, m', {id}) {
      ApplyOutside(m, step, {id});
      assert Agree(m0, m, {id});
    }
  }

  /** Any schedule of executions that may start is a legal run and keeps all of them on track. */
  lemma {:induction false} MergeLegal(m: Table, lists: seq<seq<Step>>, chunks: seq<Chunk>, picks: seq<nat>, D: nat)
    requires Startable(m, lists, chunks, D) && Schedule(lists, picks)
    ensures Legal(m, Merged(lists, picks), D)
    ensures AllOnTrack(m, lists, Replay(m, Merged(lists, picks)), Left(lists, picks), chunks, D)
    ensures Untouched(m, Replay(m, Merged(lists, picks)), chunks)
    decreases |picks|
  {
    if picks != [] {
      var n := |picks| - 1;
      var before := Merged(lists, picks[..n]);
      MergeLegal(m, lists, chunks, picks[..n], D);
      StepKeepsTrack(m, lists, Replay(m, before), Left(lists, picks[..n]), chunks, D, picks[n]);
      ThenStep(m, before, Left(lists, picks[..n])[picks[n]][0], D);
    }
  }

  /** Two tables that agree on every footprint with one set of outcomes, and elsewhere with one start, are one. */
  lemma {:induction false} OneTable(m0: Table, a: Table, b: Table, lists: seq<seq<Step>>, chunks: seq<Chunk>)
    requires |lists| == |chunks| && Untouched(m0, a, chunks) && Untouched(m0, b, chunks)
    requires forall i :: 0 <= i < |chunks| ==> Agree(a, Replay(m0, lists[i]), Footprint(chunks[i]))
    requires forall i :: 0 <= i < |chunks| ==> Agree(b, Replay(m0, lists[i]), Footprint(chunks[i]))
    ensures a == b
  {
    forall id ensures (id in a <==> id in b) && (id in a ==> a[id] == b[id]) {
      if i :| 0 <= i < |chunks| && id in Footprint(chunks[i]) {
        assert Agree(a, Replay(m0, lists[i]), Footprint(chunks[i]));
      } else {
        assert Agree(m0, a, {id}) && Agree(m0, b, {id});
      }
    }
  }

  /** All complete merges of a batch lead to the same table. */
  lemma {:induction false} MergesAgree(
    m: Table, lists: seq<seq<Step>>, chunks: seq<Chunk>, one: seq<nat>, other: seq<nat>, D: nat
  )
    requires Startable(m, lists, chunks, D)
    requires Schedule(lists, one) && Exhausted(Left(lists, one))
    requires Schedule(lists, other) && Exhausted(Left(lists, other))
    ensures Replay(m, Merged(lists, one)) == Replay(m, Merged(lists, other))
  {
    MergeLegal(m, lists, chunks, one, D);
    MergeLegal(m, lists, chunks, other, D);
    var a, b := Replay(m, Merged(lists, one)), Replay(m, Merged(lists, other));
    forall i | 0 <= i < |chunks|
      ensures Agree(a, Replay(m, lists[i]), Footprint(chunks[i])) && Agree(b, Replay(m, lists[i]), Footprint(chunks[i]))
    {
      assert OnTrack(m, lists, a, Left(lists, one), chunks, D, i);
      assert OnTrack(m, lists, b, Left(lists, other), chunks, D, i);
    }
    OneTable(m, a, b, lists, chunks);
  }

  // ---------------------------------------------------------------------------------------------
  // One after the other is one of the merges

  function InSequence(lists: seq<seq<Step>>, k: nat): seq<Step>
    requires k <= |lists|
    decreases |lists| - k
  {
    if k == |lists| then [] else lists[k] + InSequence(lists, k + 1)
  }

  /** The picks that run the first `k` lists one after the other, and `n` steps of the next. */
  function InOrder(lists: seq<seq<Step>>, k: nat, n: nat): seq<nat>
    requires k <= |lists| && if k == |lists| then n == 0 else n <= |lists[k]|
    decreases k, n
  {
    if n > 0 then InOrder(lists, k, n - 1) + [k]
    else if k > 0 then InOrder(lists, k - 1, |lists[k - 1]|)
    else []
  }

  function Started(lists: seq<seq<Step>>, k: nat, n: nat): seq<seq<Step>>
    requires k <= |lists| && if k == |lists| then n == 0 else n <= |lists[k]|
  {
    seq(|lists|, i requires 0 <= i < |lists| => if i < k then [] else if i == k then lists[i][n..] else lists[i])
  }

  function Done(lists: seq<seq<Step>>, k: nat, n: nat): seq<Step>
    requires k <= |lists| && if k == |lists| then n == 0 else n <= |lists[k]|
    decreases k, n
  {
    if n > 0 then Done(lists, k, n - 1) + [lists[k][n - 1]]
    else if k > 0 then Done(lists, k - 1, |lists[k - 1]|)
    else []
  }

  lemma {:induction false} OneMoreStarted(lists: seq<seq<Step>>, k: nat, n: nat)
    requires k < |lists| && 0 < n <= |lists[k]|
    ensures Started(lists, k, n - 1)[k] != [] && Started(lists, k, n - 1)[k][0] == lists[k][n - 1]
    ensures Rest(Started(lists, k, n - 1), k) == Started(lists, k, n)
  {
    assert Started(lists, k, n - 1)[k] == lists[k][n - 1..];
    assert lists[k][n - 1..][1..] == lists[k][n..];
  }

  lemma {:induction false} NextStarted(lists: seq<seq<Step>>, k: nat)
    requires k <= |lists|
    ensures k == 0 ==> Started(lists, k, 0) == lists
    ensures k > 0 ==> Started(lists, k - 1, |lists[k - 1]|) == Started(lists, k, 0)
  {
    var next := Started(lists, k, 0);
    if k == 0 {
      forall i | 0 <= i < |lists| ensures next[i] == lists[i] {
      }
      assert next == lists;
    } else {
      var done := Started(lists, k - 1, |lists[k - 1]|);
      forall i | 0 <= i < |lists| ensures done[i] == next[i] {
      }
      assert done == next;
    }
  }

  lemma {:induction false} InOrderIsSchedule(lists: seq<seq<Step>>, k: nat, n: nat)
    requires k <= |lists| && if k == |lists| then n == 0 else n <= |lists[k]|
    ensures Schedule(lists, InOrder(lists, k, n))
    ensures Left(lists, InOrder(lists, k, n)) == Started(lists, k, n)
    ensures Merged(lists, InOrder(lists, k, n)) == Done(lists, k, n)
    decreases k, n
  {
    if n > 0 {
      InOrderIsSchedule(lists, k, n - 1);
      OneMoreStarted(lists, k, n);
      PickOne(lists, InOrder(lists, k, n - 1), k);
    } else {
      NextStarted(lists, k);
      if k > 0 {
        InOrderIsSchedule(lists, k - 1, |lists[k - 1]|);
      }
    }
  }

  lemma {:induction false} DoneIsSequence(lists: seq<seq<Step>>, k: nat, n: nat)
    requires k <= |lists| && if k == |lists| then n == 0 else n <= |lists[k]|
    ensures InSequence(lists, 0)
         == Done(lists, k, n) + (if k == |lists| then [] else lists[k][n..] + InSequence(lists, k + 1))
    decreases k, n
  {
    if n > 0 {
      DoneIsSequence(lists, k, n - 1);
      assert lists[k][n - 1..] == [lists[k][n - 1]] + lists[k][n..];
      assert Done(lists, k, n - 1) + (([lists[k][n - 1]] + lists[k][n..]) + InSequence(lists, k + 1))
          == (Done(lists, k, n - 1) + [lists[k][n - 1]]) + (lists[k][n..] + InSequence(lists, k + 1));
    } else if k > 0 {
      DoneIsSequence(lists, k - 1, |lists[k - 1]|);
      assert lists[k - 1][|lists[k - 1]|..] == [];
      assert [] + InSequence(lists, k) == InSequence(lists, k);
      if k < |lists| {
        assert lists[k][0..] == lists[k];
      }
    } else {
      assert [] + InSequence(lists, 0) == InSequence(lists, 0);
      if |lists| > 0 {
        assert lists[0][0..] == lists[0];
      }
    }
  }

  /** A gathered batch leads to the table that its executions lead to one after the other. */
  lemma {:induction false} GatherIsSequence(
    m: Table, lists: seq<seq<Step>>, chunks: seq<Chunk>, picks: seq<nat>, D: nat
  )
    requires Startable(m, lists, chunks, D)
    requires Schedule(lists, picks) && Exhausted(Left(lists, picks))
    ensures Legal(m, Merged(lists, picks), D) && Legal(m, InSequence(lists, 0), D)
    ensures Replay(m, Merged(lists, picks)) == Replay(m, InSequence(lists, 0))
  {
    var order := InOrder(lists, |lists|, 0);
    InOrderIsSchedule(lists, |lists|, 0);
    DoneIsSequence(lists, |lists|, 0);
    assert Done(lists, |lists|, 0) + [] == Done(lists, |lists|, 0);
    MergeLegal(m, lists, chunks, picks, D);
    MergeLegal(m, lists, chunks, order, D);
    MergesAgree(m, lists, chunks, picks, order, D);
  }

  // ---------------------------------------------------------------------------------------------
  // The executions of a batch

  /** A chunk of the batch and the outcomes its execution meets. */
  datatype Job = Job(chunk: Chunk, first: AttemptOutcome, second: AttemptOutcome, abandoned: bool)

  function StepsOf(p: Job, D: nat): seq<Step> {
    ExecutionSteps(p.chunk, p.first, p.second, p.abandoned, D)
  }

  function ResultOf(p: Job, D: nat): Execution {
    ExecutionResult(p.chunk, p.first, p.second, p.abandoned, D)
  }

  function StepLists(jobs: seq<Job>, D: nat): seq<seq<Step>> {
    seq(|jobs|, i requires 0 <= i < |jobs| => StepsOf(jobs[i], D))
  }

  function ChunksOf(jobs: seq<Job>): seq<Chunk> {
    seq(|jobs|, i requires 0 <= i < |jobs| => jobs[i].chunk)
  }

  predicate NoneStopped(jobs: seq<Job>, D: nat) {
    forall i :: 0 <= i < |jobs| ==> ResultOf(jobs[i], D).Finished?
  }

  /** The children of all executions, in the order of the batch. */
  function ChildrenOf(jobs: seq<Job>, D: nat): seq<Chunk>
    requires NoneStopped(jobs, D)
  {
    if jobs == [] then []
    else ChildrenOf(jobs[..|jobs| - 1], D) + ResultOf(jobs[|jobs| - 1], D).children
  }

  lemma {:induction false} FootprintsApart(m: Table, a: Chunk, b: Chunk)
    requires IsForest(m) && Waiting(m, a) && Waiting(m, b) && a.id != b.id
    ensures Footprint(a) !! Footprint(b)
  {
    assert Child(a.id, 1) !in m && Child(a.id, 2) !in m && Child(b.id, 1) !in m && Child(b.id, 2) !in m;
  }

  lemma OnChunkBoth(a: seq<Step>, b: seq<Step>, c: Chunk)
    requires OnChunk(a, c) && OnChunk(b, c)
    ensures OnChunk(a + b, c)
  {
  }

  lemma {:induction false} AttemptOnChunk(c: Chunk, attempt: nat, o: AttemptOutcome)
    ensures OnChunk(AttemptSteps(c, attempt, o), c)
  {
  }

  lemma {:induction false} JobOnChunk(p: Job, D: nat)
    ensures OnChunk(StepsOf(p, D), p.chunk)
  {
    AttemptOnChunk(p.chunk, 1, p.first);
    if p.first.Rejected? {
      AttemptOnChunk(p.chunk, 2, p.second);
      var last := if p.second.Rejected? && !p.abandoned then [LastStep(p.chunk, p.second.code, D)] else [];
      OnChunkBoth(AttemptSteps(p.chunk, 2, p.second), last, p.chunk);
      OnChunkBoth(AttemptSteps(p.chunk, 1, p.first), AttemptSteps(p.chunk, 2, p.second) + last, p.chunk);
    } else {
      OnChunkBoth(AttemptSteps(p.chunk, 1, p.first), [], p.chunk);
    }
  }

  /** The executions of distinct waiting chunks may start together. */
  lemma {:induction false} BatchMayStart(m: Table, jobs: seq<Job>, D: nat, reviewId: string)
    requires WellFormed(m, D) && IsForest(m) && Queue(ChunksOf(jobs), m, reviewId)
    ensures Startable(m, StepLists(jobs, D), ChunksOf(jobs), D)
  {
    var chunks, lists := ChunksOf(jobs), StepLists(jobs, D);
    forall i | 0 <= i < |jobs| ensures Waiting(m, chunks[i]) && OnChunk(lists[i], chunks[i]) && Legal(m, lists[i], D) {
      assert chunks[i] in chunks;
      var p := jobs[i];
      JobOnChunk(p, D);
      ExecutionLegal(m, p.chunk, p.first, p.second, p.abandoned, D);
    }
    forall i, j | 0 <= i < |chunks| && 0 <= j < |chunks| && i != j
      ensures Footprint(chunks[i]) !! Footprint(chunks[j])
    {
      assert chunks[i].id != chunks[j].id;
      FootprintsApart(m, chunks[i], chunks[j]);
    }
  }

  function SumCost(lists: seq<seq<Step>>, g: Gauge, scope: Scope): int
    decreases |lists|
  {
    if lists == [] then 0 else SumCost(lists[..|lists| - 1], g, scope) + Cost(lists[|lists| - 1], g, scope)
  }

  lemma {:induction false} SumCostRest(lists: seq<seq<Step>>, p: nat, g: Gauge, scope: Scope)
    requires p < |lists| && lists[p] != []
    ensures SumCost(lists, g, scope) == Costs(lists[p][0], g, scope) + SumCost(Rest(lists, p), g, scope)
    decreases |lists|
  {
    var n := |lists| - 1;
    if p < n {
      SumCostRest(lists[..n], p, g, scope);
      assert Rest(lists, p)[..n] == Rest(lists[..n], p);
    } else {
      assert Rest(lists, p)[..n] == lists[..n];
    }
  }

  /** A merge costs what the parts of the lists cost that it has taken. */
  lemma {:induction false} MergedCost(lists: seq<seq<Step>>, picks: seq<nat>, g: Gauge, scope: Scope)
    requires Schedule(lists, picks)
    ensures Cost(Merged(lists, picks), g, scope) + SumCost(Left(lists, picks), g, scope) == SumCost(lists, g, scope)
    decreases |picks|
  {
    if picks != [] {
      var n := |picks| - 1;
      var left := Left(lists, picks[..n]);
      MergedCost(lists, picks[..n], g, scope);
      SumCostRest(left, picks[n], g, scope);
      CostAppend(Merged(lists, picks[..n]), [left[picks[n]][0]], g, scope);
      OneStepCost(left[picks[n]][0], g, scope);
    }
  }

  lemma OneStepCost(step: Step, g: Gauge, scope: Scope)
    ensures Cost([step], g, scope) == Costs(step, g, scope)
  {
    assert [step][1..] == [];
  }

  lemma {:induction false} ExhaustedCost(lists: seq<seq<Step>>, g: Gauge, scope: Scope)
    requires Exhausted(lists)
    ensures SumCost(lists, g, scope) == 0
    decreases |lists|
  {
    if lists != [] {
      ExhaustedCost(lists[..|lists| - 1], g, scope);
    }
  }

  /** Every finished execution of the batch is charged. */
  lemma {:induction false} BatchCost(jobs: seq<Job>, D: nat, reviewId: string)
    requires NoneStopped(jobs, D) && forall i :: 0 <= i < |jobs| ==> jobs[i].chunk.reviewId == reviewId
    ensures SumCost(StepLists(jobs, D), Executions(D), OfReview(reviewId)) >= |jobs|
    decreases |jobs|
  {
    if jobs != [] {
      var n := |jobs| - 1;
      BatchCost(jobs[..n], D, reviewId);
      assert StepLists(jobs, D)[..n] == StepLists(jobs[..n], D);
      var p := jobs[n];
      ExecutionCost(p.chunk, p.first, p.second, p.abandoned, D, OfReview(reviewId));
    }
  }

  /** The children of one execution wait in any table that agrees with it. */
  lemma {:induction false} ChildrenWait(m0: Table, m: Table, p: Job, D: nat)
    requires WellFormed(m0, D) && IsForest(m0) && Waiting(m0, p.chunk) && ResultOf(p, D).Finished?
    requires Agree(m, Replay(m0, StepsOf(p, D)), Footprint(p.chunk))
    ensures Queue(ResultOf(p, D).children, m, p.chunk.reviewId)
    ensures forall c :: c in ResultOf(p, D).children ==> c.id in Footprint(p.chunk)
  {
    ExecutionLegal(m0, p.chunk, p.first, p.second, p.abandoned, D);
    ExecutionSettles(m0, p.chunk, p.first, p.second, p.abandoned, D);
    var children := ResultOf(p, D).children;
    forall c | c in children ensures c.id in Footprint(p.chunk) {
      SplitPartitions(p.chunk);
    }
  }

  ghost predicate AgreesWith(m: Table, m0: Table, jobs: seq<Job>, D: nat) {
    forall i :: 0 <= i < |jobs| ==> Agree(m, Replay(m0, StepsOf(jobs[i], D)), Footprint(jobs[i].chunk))
  }

  /** So do the children of the whole batch, without a duplicate. */
  lemma {:induction false} BatchSettles(m0: Table, m: Table, jobs: seq<Job>, D: nat, reviewId: string)
    requires WellFormed(m0, D) && IsForest(m0) && NoneStopped(jobs, D) && AgreesWith(m, m0, jobs, D)
    requires Queue(ChunksOf(jobs), m0, reviewId) && Apart(ChunksOf(jobs))
    ensures Queue(ChildrenOf(jobs, D), m, reviewId)
    ensures ComeFrom(ChildrenOf(jobs, D), jobs)
    decreases |jobs|
  {
    if jobs != [] {
      var n := |jobs| - 1;
      var front, p := jobs[..n], jobs[n];
      assert ChunksOf(front) == ChunksOf(jobs)[..n];
      assert ChunksOf(jobs)[n] in ChunksOf(jobs);
      BatchSettles(m0, m, front, D, reviewId);
      ChildrenWait(m0, m, p, D);
      var a, b := ChildrenOf(front, D), ResultOf(p, D).children;
      BothQueue(a, b, jobs, m, reviewId);
      ComeFromMore(a, b, jobs);
    }
  }

  /** Every chunk of the list is one that some job may write. */
  ghost predicate ComeFrom(list: seq<Chunk>, jobs: seq<Job>) {
    forall c :: c in list ==> exists i :: 0 <= i < |jobs| && c.id in Footprint(jobs[i].chunk)
  }

  lemma {:induction false} BothQueue(a: seq<Chunk>, b: seq<Chunk>, jobs: seq<Job>, m: Table, reviewId: string)
    requires jobs != [] && ComeFrom(a, jobs[..|jobs| - 1]) && Apart(ChunksOf(jobs))
    requires forall c :: c in b ==> c.id in Footprint(jobs[|jobs| - 1].chunk)
    requires Queue(a, m, reviewId) && Queue(b, m, reviewId)
    ensures Queue(a + b, m, reviewId)
  {
    var n := |jobs| - 1;
    forall x, y | x in a && y in b ensures x.id != y.id {
      var i :| 0 <= i < n && x.id in Footprint(jobs[..n][i].chunk);
      assert Footprint(ChunksOf(jobs)[i]) !! Footprint(ChunksOf(jobs)[n]);
    }
  }

  lemma {:induction false} ComeFromMore(a: seq<Chunk>, b: seq<Chunk>, jobs: seq<Job>)
    requires jobs != [] && ComeFrom(a, jobs[..|jobs| - 1])
    requires forall c :: c in b ==> c.id in Footprint(jobs[|jobs| - 1].chunk)
    ensures ComeFrom(a + b, jobs)
  {
    var front := jobs[..|jobs| - 1];
    forall c | c in a ensures exists i :: 0 <= i < |jobs| && c.id in Footprint(jobs[i].chunk) {
      var i :| 0 <= i < |front| && c.id in Footprint(front[i].chunk);
      assert jobs[i] == front[i];
    }
  }
}
