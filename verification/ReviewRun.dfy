/** Executing chunks on the store and draining the pending ones (hybrid_review_service.py `run`). */
module ReviewRun {
  import opened Wrappers
  import ReviewModels
  import opened ReviewChunks
  import opened ReviewForest
  import opened ReviewStore
  import opened ReviewAggregator
  import opened ChunkExecution
  import opened BatchMerge
  import opened SourcePlan

  /** What `run` ends with. */
  datatype RunResult =
    | Passed(coverage: real)
    | PlanFailed(reason: PlanError)
    | Incomplete(gate: AggregateError)
    | Broken

  // ---------------------------------------------------------------------------------------------
  // The services

  class ReviewService {
    const store: Store
    const maxSplitDepth: nat
    const queueLimit: nat
    /** The "model_review_calls" metric. */
    var modelReviewCalls: nat

    constructor (store: Store, maxSplitDepth: nat, queueLimit: nat)
      requires queueLimit >= 1
      ensures this.store == store && this.maxSplitDepth == maxSplitDepth && this.queueLimit == queueLimit
      ensures modelReviewCalls == 0
    {
      this.store, this.maxSplitDepth, this.queueLimit := store, maxSplitDepth, queueLimit;
      modelReviewCalls := 0;
    }

    /** A status change of a chunk the store has, with its event. */
    method Progress(chunk: Chunk, ownerId: string, note: string)
      requires store.Valid() && Storable(chunk, ownerId)
      modifies store
      ensures store.Valid() && Storable(chunk, ownerId)
      ensures store.chunks == Write(old(store.chunks), chunk)
      ensures store.sessions == old(store.sessions) && store.findings == old(store.findings)
      ensures store.attempts == old(store.attempts)
    {
      var event := store.TransitionChunk(chunk, ownerId, "chunk", note);
    }

    predicate Storable(chunk: Chunk, ownerId: string)
      reads store
    {
      && store.Owned(chunk.reviewId, ownerId)
      && chunk.id in store.chunks && store.chunks[chunk.id].reviewId == chunk.reviewId
    }

    predicate FreshIds(ids: (string, string))
      reads store
    {
      ids.0 != ids.1 && ids.0 !in store.attempts && ids.1 !in store.attempts
    }

    /** One strategy of an execution under a fresh attempt id: run, record, ask, check, save. */
    method Attempt(chunk: Chunk, ownerId: string, attemptId: string, number: nat, o: AttemptOutcome)
      requires store.Valid() && Storable(chunk, ownerId) && attemptId !in store.attempts
      modifies this`modelReviewCalls, store
      ensures store.Valid() && Storable(chunk, ownerId) && store.sessions == old(store.sessions)
      ensures store.chunks == Attempted(old(store.chunks), chunk, number, o)
      ensures store.findings == if o.Accepted? then old(store.findings)[chunk.id := o.found] else old(store.findings)
      ensures store.attempts == Recorded(old(store.attempts), chunk, attemptId, number, o)
      ensures modelReviewCalls == old(modelReviewCalls) + if AsksModel(o) then 1 else 0
    {
      if !Begins(o) {
        return;
      }
      ghost var before := store.chunks;
      var running := Working(chunk, number, Running);
      Progress(running, ownerId, "running");
      var recorded := store.RecordAttempt(ChunkAttempt(attemptId, chunk.reviewId, chunk.id, number), ownerId);
      if AsksModel(o) {
        modelReviewCalls := modelReviewCalls + 1;
      }
      if !Validates(o) {
        return;
      }
      var validating := running.(status := Validating);
      Progress(validating, ownerId, "validating");
      Overwrite(before, running, validating);
      if !o.Accepted? {
        return;
      }
      var saved := store.SaveChunkFindings(chunk.id, ownerId, o.found);
      var completed := running.(status := Completed);
      Progress(completed, ownerId, "completed");
      Overwrite(before, validating, completed);
    }

    /** Store the halves of a chunk and mark it superseded, all or nothing. */
    method Bisect(chunk: Chunk, ownerId: string)
      requires store.Valid() && Storable(chunk, ownerId) && Fits(chunk) && Split(chunk) != []
      requires forall h :: h in Split(chunk) ==> h.id !in store.chunks
      modifies store
      ensures store.Valid() && store.sessions == old(store.sessions)
      ensures store.chunks == WriteAll(Write(old(store.chunks), chunk.(status := Superseded)), Split(chunk))
    {
      SplitPartitions(chunk);
      var superseded, halves := chunk.(status := Superseded), Split(chunk);
      WriteTwo(Write(store.chunks, superseded), halves);
      WriteThree(store.chunks, superseded, halves);
      assert |halves| == 2 && halves[0].reviewId == halves[1].reviewId == chunk.reviewId;
      forall k | 0 <= k < 3 ensures store.WritableOne(([superseded] + halves)[k], ownerId) {
        assert k > 0 ==> ([superseded] + halves)[k] in halves;
      }
      assert store.Writable([superseded] + halves, ownerId);
      var error := store.ReplaceChunk(chunk, halves, ownerId);
      assert error.None?;
      var published := store.Publish(chunk.reviewId, ownerId, "chunk", "superseded");
    }

    /** Two rejections: bisect the chunk if its depth and text allow it, else it has failed. */
    method Conclude(chunk: Chunk, ownerId: string, code: ErrorCode) returns (children: seq<Chunk>)
      requires store.Valid() && Storable(chunk, ownerId) && Fits(chunk)
      requires forall h :: h in Split(chunk) ==> h.id !in store.chunks
      modifies store
      ensures store.Valid() && store.sessions == old(store.sessions)
      ensures children == if LastStep(chunk, code, maxSplitDepth).Supersede? then Split(chunk) else []
      ensures store.chunks == if LastStep(chunk, code, maxSplitDepth).Supersede?
                then WriteAll(Write(old(store.chunks), chunk.(status := Superseded)), Split(chunk))
                else Write(old(store.chunks), Failure(chunk, code))
    {
      if chunk.splitDepth < maxSplitDepth {
        children := Split(chunk);
        if children != [] {
          Bisect(chunk, ownerId);
          return;
        }
      }
      children := [];
      Progress(Failure(chunk, code), ownerId, "failed");
    }

    /** The loop over the two strategies; it stops at the first attempt that is not rejected. */
    method TryStrategies(
      chunk: Chunk, ownerId: string, ids: (string, string), first: AttemptOutcome, second: AttemptOutcome
    )
      returns (last: AttemptOutcome)
      requires store.Valid() && Storable(chunk, ownerId) && FreshIds(ids)
      modifies this`modelReviewCalls, store
      ensures store.Valid() && Storable(chunk, ownerId) && store.sessions == old(store.sessions)
      ensures last == if first.Rejected? then second else first
      ensures store.chunks == Tried(old(store.chunks), chunk, first, second)
      ensures store.attempts == BothRecorded(old(store.attempts), chunk, ids, first, second)
      ensures modelReviewCalls == old(modelReviewCalls) + CallsMade(first, second)
    {
      var number := 1;
      last := first;
      while number <= 2
        invariant number in {1, 2, 3} && last == if number == 1 then first else second
        invariant store.Valid() && Storable(chunk, ownerId) && store.sessions == old(store.sessions)
        invariant number >= 2 ==> first.Rejected?
        invariant number == 3 ==> second.Rejected?
        invariant modelReviewCalls == old(modelReviewCalls)
                    + (if number >= 2 && AsksModel(first) then 1 else 0)
                    + (if number == 3 && AsksModel(second) then 1 else 0)
        invariant store.attempts ==
                    if number == 1 then old(store.attempts)
                    else if number == 2 then Recorded(old(store.attempts), chunk, ids.0, 1, first)
                    else BothRecorded(old(store.attempts), chunk, ids, first, second)
        invariant store.chunks ==
                    if number == 1 then old(store.chunks)
                    else if number == 2 then Attempted(old(store.chunks), chunk, 1, first)
                    else Attempted(Attempted(old(store.chunks), chunk, 1, first), chunk, 2, second)
      {
        Attempt(chunk, ownerId, if number == 1 then ids.0 else ids.1, number, last);
        if !last.Rejected? {
          return;
        }
        last := second;
        number := number + 1;
      }
    }

    /**
    Two strategies, then a split, then failure. The new state of the store is exactly the outcome of
    the execution, and the model is asked once per attempt that gets that far.
    */
    method Execute(
      chunk: Chunk, ownerId: string, ids: (string, string), first: AttemptOutcome, second: AttemptOutcome,
      abandoned: bool
    )
      returns (r: Execution)
      requires store.Valid() && store.Owned(chunk.reviewId, ownerId) && FreshIds(ids)
      requires Waiting(store.chunks, chunk) && Fits(chunk)
      requires forall h :: h in Split(chunk) ==> h.id !in store.chunks
      modifies this`modelReviewCalls, store
      ensures store.Valid() && store.sessions == old(store.sessions)
      ensures store.chunks == Executed(old(store.chunks), chunk, first, second, abandoned, maxSplitDepth)
      ensures r == ExecutionResult(chunk, first, second, abandoned, maxSplitDepth)
      ensures modelReviewCalls == old(modelReviewCalls) + CallsMade(first, second)
    {
      ExecutedFrom(store.chunks, chunk, first, second, abandoned, maxSplitDepth);
      TriedKeys(store.chunks, chunk, first, second);
      var last := TryStrategies(chunk, ownerId, ids, first, second);
      r := Settle(chunk, ownerId, last, abandoned);
    }

    /** What follows the last attempt made. */
    method Settle(chunk: Chunk, ownerId: string, last: AttemptOutcome, abandoned: bool) returns (r: Execution)
      requires store.Valid() && Storable(chunk, ownerId) && Fits(chunk)
      requires forall h :: h in Split(chunk) ==> h.id !in store.chunks
      modifies store
      ensures store.Valid() && store.sessions == old(store.sessions)
      ensures store.chunks == Concluded(old(store.chunks), chunk, last, abandoned, maxSplitDepth)
      ensures r == ResultBehind(chunk, last, abandoned, maxSplitDepth)
    {
      if last.Accepted? {
        return Finished([]);
      }
      if last.Interrupted? || abandoned {
        return Stopped;
      }
      var children := Conclude(chunk, ownerId, last.code);
      return Finished(children);
    }

    /** One write of an execution to the store, as the event loop may interleave it with others. */
    method Perform(step: Step, ownerId: string)
      requires store.Valid() && !step.Resume? && store.Owned(step.chunk.reviewId, ownerId)
      requires WellFormed(store.chunks, maxSplitDepth) && IsForest(store.chunks)
      requires Enabled(store.chunks, step, maxSplitDepth)
      modifies this`modelReviewCalls, store
      ensures store.Valid() && store.sessions == old(store.sessions)
      ensures store.chunks == Apply(old(store.chunks), step)
      ensures modelReviewCalls <= old(modelReviewCalls)
                + Costs(step, Calls(maxSplitDepth), OfReview(step.chunk.reviewId))
    {
      CallPaidFor(step, maxSplitDepth);
      if step.Supersede? {
        PerformSplit(step.chunk, ownerId);
        return;
      }
      WriteApplies(store.chunks, step, maxSplitDepth);
      if step.Complete? {
        var found: seq<ReviewModels.Finding> := *;
        var saved := store.SaveChunkFindings(step.chunk.id, ownerId, found);
      }
      Progress(Written(step), ownerId, "progress");
      var asks: bool := *;
      if step.Begin? && asks {
        modelReviewCalls := modelReviewCalls + 1;
      }
    }

    method PerformSplit(chunk: Chunk, ownerId: string)
      requires store.Valid() && store.Owned(chunk.reviewId, ownerId)
      requires WellFormed(store.chunks, maxSplitDepth) && IsForest(store.chunks)
      requires Enabled(store.chunks, Supersede(chunk), maxSplitDepth)
      modifies store
      ensures store.Valid() && store.sessions == old(store.sessions)
      ensures store.chunks == Apply(old(store.chunks), Supersede(chunk))
    {
      SupersedeWrites(store.chunks, chunk, maxSplitDepth);
      Bisect(chunk, ownerId);
    }

    /**
    One batch of the work loop. The executions run at once: their writes reach the store in any merge
    of their orders, with any outcomes and interruptions. When one of them is stopped the batch breaks
    off, at any point of the others.
    */
    method RunBatch(batch: seq<Chunk>, reviewId: string, ownerId: string)
      returns (stopped: bool, children: seq<Chunk>, ghost steps: seq<Step>)
      requires store.Valid() && store.Owned(reviewId, ownerId)
      requires WellFormed(store.chunks, maxSplitDepth) && IsForest(store.chunks)
      requires Queue(batch, store.chunks, reviewId)
      modifies this`modelReviewCalls, store
      ensures store.Valid() && store.sessions == old(store.sessions)
      ensures Ran(old(store.chunks), steps, store.chunks, maxSplitDepth)
      ensures modelReviewCalls <= old(modelReviewCalls) + Cost(steps, Calls(maxSplitDepth), OfReview(reviewId))
      ensures !stopped ==>
                && |batch| <= Cost(steps, Executions(maxSplitDepth), OfReview(reviewId))
                && Queue(children, store.chunks, reviewId)
    {
      var jobs := Outcomes(batch);
      ghost var picks;
      stopped, picks := Gather(jobs, reviewId, ownerId);
      ghost var D, lists := maxSplitDepth, StepLists(jobs, maxSplitDepth);
      steps := Merged(lists, picks);
      children := [];
      if !stopped {
        BatchDone(old(store.chunks), store.chunks, jobs, picks, D, reviewId);
        children := ChildrenOf(jobs, maxSplitDepth);
      }
    }

    /** What the executions of the batch will meet: anything. */
    method Outcomes(batch: seq<Chunk>) returns (jobs: seq<Job>)
      ensures ChunksOf(jobs) == batch
    {
      jobs := [];
      for i := 0 to |batch|
        invariant ChunksOf(jobs) == batch[..i]
      {
        var first: AttemptOutcome := *;
        var second: AttemptOutcome := *;
        var abandoned: bool := *;
        jobs := jobs + [Job(batch[i], first, second, abandoned)];
        assert batch[..i + 1] == batch[..i] + [batch[i]];
      }
      assert batch[..|batch|] == batch;
    }

    /** A batch has come as far as the picks say, from `m` and a count of `calls`. */
    ghost predicate Merging(m: Table, calls: nat, lists: seq<seq<Step>>, picks: seq<nat>, reviewId: string)
      reads this, store
    {
      && Schedule(lists, picks)
      && Ran(m, Merged(lists, picks), store.chunks, maxSplitDepth)
      && modelReviewCalls <= calls + Cost(Merged(lists, picks), Calls(maxSplitDepth), OfReview(reviewId))
    }

    /** The next write of execution `p` of a batch that has come this far. */
    method PerformNext(ghost m: Table, ghost calls: nat, ghost lists: seq<seq<Step>>, ghost chunks: seq<Chunk>,
                       ghost picks: seq<nat>, ghost p: nat, step: Step, reviewId: string, ownerId: string)
      requires store.Valid() && store.Owned(reviewId, ownerId)
      requires WellFormed(m, maxSplitDepth) && IsForest(m) && Queue(chunks, m, reviewId)
      requires Startable(m, lists, chunks, maxSplitDepth) && Merging(m, calls, lists, picks, reviewId)
      requires p < |lists| && Left(lists, picks)[p] != [] && step == Left(lists, picks)[p][0]
      modifies this`modelReviewCalls, store
      ensures store.Valid() && store.sessions == old(store.sessions)
      ensures Merging(m, calls, lists, picks + [p], reviewId)
      ensures Left(lists, picks + [p]) == Rest(Left(lists, picks), p)
    {
      NextWrite(m, lists, chunks, picks, p, maxSplitDepth, reviewId);
      Perform(step, ownerId);
    }

    /** The event loop: the next write is that of any execution that has one left. */
    method Gather(jobs: seq<Job>, reviewId: string, ownerId: string) returns (stopped: bool, ghost picks: seq<nat>)
      requires store.Valid() && store.Owned(reviewId, ownerId)
      requires WellFormed(store.chunks, maxSplitDepth) && IsForest(store.chunks)
      requires Queue(ChunksOf(jobs), store.chunks, reviewId)
      modifies this`modelReviewCalls, store
      ensures store.Valid() && store.sessions == old(store.sessions)
      ensures Merging(old(store.chunks), old(modelReviewCalls), StepLists(jobs, maxSplitDepth), picks, reviewId)
      ensures !stopped ==> NoneStopped(jobs, maxSplitDepth) && Exhausted(Left(StepLists(jobs, maxSplitDepth), picks))
    {
      ghost var before, chunks := store.chunks, ChunksOf(jobs);
      var D := maxSplitDepth;
      var lists := StepLists(jobs, D);
      var left := lists;
      picks := [];
      BatchMayStart(before, jobs, D, reviewId);
      while exists p: nat :: p < |left| && left[p] != []
        invariant store.Valid() && store.sessions == old(store.sessions)
        invariant Merging(before, old(modelReviewCalls), lists, picks, reviewId) && left == Left(lists, picks)
        decreases Remaining(left)
      {
        var breaksOff: bool := *;
        if breaksOff && !NoneStopped(jobs, D) {
          return true, picks;
        }
        var p: nat :| p < |left| && left[p] != [];
        PerformNext(before, old(modelReviewCalls), lists, chunks, picks, p, left[p][0], reviewId, ownerId);
        RemainingShrinks(left, p);
        picks := picks + [p];
        left := Rest(left, p);
      }
      stopped := !NoneStopped(jobs, D);
    }

    /**
    The work loop: batches of pending chunks until none is left. It terminates because every batch
    uses up executions, and the model is asked at most as often as the pending chunks allow.
    */
    method Drain(chunks: seq<Chunk>, reviewId: string, ownerId: string) returns (stopped: bool, ghost steps: seq<Step>)
      requires queueLimit >= 1
      requires store.Valid() && store.Owned(reviewId, ownerId)
      requires WellFormed(store.chunks, maxSplitDepth) && IsForest(store.chunks)
      requires Lists(chunks, store.chunks, reviewId)
      modifies this`modelReviewCalls, store
      ensures store.Valid() && store.sessions == old(store.sessions)
      ensures Ran(old(store.chunks), steps, store.chunks, maxSplitDepth)
      ensures modelReviewCalls <= old(modelReviewCalls)
              + old(Total(store.chunks, Calls(maxSplitDepth), OfReview(reviewId)))
      ensures !stopped ==> forall id :: id in store.chunks && store.chunks[id].reviewId == reviewId ==>
                             store.chunks[id].status != Pending
    {
      ghost var D, scope := maxSplitDepth, OfReview(reviewId);
      ghost var before := store.chunks;
      steps := [];
      var pending := PendingExcept(chunks, {});
      FirstPending(before, chunks, reviewId);
      while pending != []
        invariant store.Valid() && store.sessions == old(store.sessions)
        invariant Ran(before, steps, store.chunks, D)
        invariant modelReviewCalls <= old(modelReviewCalls) + Cost(steps, Calls(D), scope)
        invariant ListsPending(pending, store.chunks, reviewId)
        decreases Total(store.chunks, Executions(D), scope)
      {
        ghost var m := store.chunks;
        RanKeepsForest(before, steps, m, D);
        ghost var taken;
        stopped, pending, taken := NextBatch(pending, reviewId, ownerId);
        RanOn(before, steps, m, taken, store.chunks, D, scope);
        steps := steps + taken;
        if stopped {
          Affordable(before, steps, store.chunks, D, scope);
          return;
        }
      }
      stopped := false;
      Affordable(before, steps, store.chunks, D, scope);
    }

    /** One pass of the work loop: the next batch, and the full listing of what is pending behind it. */
    method NextBatch(pending: seq<Chunk>, reviewId: string, ownerId: string)
      returns (stopped: bool, next: seq<Chunk>, ghost taken: seq<Step>)
      requires queueLimit >= 1 && pending != []
      requires store.Valid() && store.Owned(reviewId, ownerId)
      requires WellFormed(store.chunks, maxSplitDepth) && IsForest(store.chunks)
      requires ListsPending(pending, store.chunks, reviewId)
      modifies this`modelReviewCalls, store
      ensures store.Valid() && store.sessions == old(store.sessions)
      ensures Ran(old(store.chunks), taken, store.chunks, maxSplitDepth)
      ensures modelReviewCalls <= old(modelReviewCalls) + Cost(taken, Calls(maxSplitDepth), OfReview(reviewId))
      ensures !stopped ==> ListsPending(next, store.chunks, reviewId)
      ensures !stopped ==> 0 <= Total(store.chunks, Executions(maxSplitDepth), OfReview(reviewId))
                             < old(Total(store.chunks, Executions(maxSplitDepth), OfReview(reviewId)))
    {
      ghost var m := store.chunks;
      var batch := if |pending| <= queueLimit then pending else pending[..queueLimit];
      var children;
      stopped, children, taken := RunBatch(batch, reviewId, ownerId);
      next := [];
      if !stopped {
        RanKeepsForest(m, taken, store.chunks, maxSplitDepth);
        Progresses(m, taken, store.chunks, maxSplitDepth, OfReview(reviewId));
        var current := store.Chunks(reviewId, ownerId);
        NextPending(store.chunks, current.value, children, reviewId);
        next := children + PendingExcept(current.value, set c | c in children :: c.id);
      }
    }

    /** `resume` puts every unfinished chunk of the review back to pending and touches nothing else. */
    method ResumeChunks(reviewId: string, ownerId: string)
      requires store.Valid() && store.Owned(reviewId, ownerId)
      modifies store
      ensures store.Valid() && store.sessions == old(store.sessions)
      ensures store.chunks == Apply(old(store.chunks), Resume(reviewId))
    {
      var listed := store.Chunks(reviewId, ownerId);
      ResetSaved(store.chunks, listed.value, reviewId);
      var reset := ResetAll(listed.value, reviewId);
      forall k | 0 <= k < |reset| ensures store.WritableOne(reset[k], ownerId) {
        assert listed.value[k] in listed.value;
      }
      var error := store.SaveChunks(reset, ownerId);
    }

    /**
    Plan unless chunks are stored already, drain the pending chunks, and pass the gate. Unless it
    breaks off or cannot plan, the run passes exactly when every live chunk is completed. Chunks bear the
    name of their review and file, which is why those of a new plan are new to the store.
    */
    method RunReview(files: seq<PlannedFile>, reviewId: string, ownerId: string) returns (r: RunResult)
      requires queueLimit >= 1
      requires store.Valid() && store.Owned(reviewId, ownerId)
      requires WellFormed(store.chunks, maxSplitDepth) && IsForest(store.chunks) && AllBelong(store.chunks)
      requires if Planned(store.chunks, reviewId) then TableCovers(store.chunks, reviewId, AllLines(files))
               else Named(files, reviewId)
      modifies this`modelReviewCalls, store
      ensures store.Valid() && store.sessions == old(store.sessions)
      ensures WellFormed(store.chunks, maxSplitDepth) && IsForest(store.chunks) && AllBelong(store.chunks)
      ensures r.PlanFailed? ==> store.chunks == old(store.chunks)
      ensures !r.PlanFailed? ==> TableCovers(store.chunks, reviewId, AllLines(files))
      ensures r.Passed? || r.Incomplete? ==> (r.Passed? <==> AllDone(store.chunks, reviewId))
      ensures r.Passed? ==> r.coverage == 100.0
      ensures r.Incomplete? ==> r.gate.Unresolved?
    {
      var existing := store.Chunks(reviewId, ownerId);
      var chunks := existing.value;
      if chunks == [] {
        var plan := MakePlan(files);
        if plan.Err? {
          return PlanFailed(plan.error);
        }
        chunks := plan.value.chunks;
        PlanIsFresh(files, store.chunks, reviewId);
        SavedBelong(store.chunks, chunks, reviewId);
        SavePlan(chunks, reviewId, ownerId);
        AllAreLeaves(chunks);
        CoversByTable(store.chunks, chunks, reviewId, AllLines(files));
      } else {
        assert chunks[0] in chunks;
      }
      ghost var planned := store.chunks;
      var stopped;
      ghost var steps;
      stopped, steps := Drain(chunks, reviewId, ownerId);
      RanKeepsForest(planned, steps, store.chunks, maxSplitDepth);
      RunKeepsNames(planned, steps, maxSplitDepth);
      CoverageSurvives(planned, steps, maxSplitDepth, reviewId, AllLines(files));
      if stopped {
        return Broken;
      }
      var current := store.Chunks(reviewId, ownerId);
      GateExactly(planned, steps, maxSplitDepth, reviewId, current.value, AllLines(files));
      var gate := Aggregate(current.value, AllLines(files));
      if gate.Err? {
        return Incomplete(gate.error);
      }
      return Passed(gate.value);
    }

    method SavePlan(chunks: seq<Chunk>, reviewId: string, ownerId: string)
      requires store.Valid() && store.Owned(reviewId, ownerId)
      requires WellFormed(store.chunks, maxSplitDepth) && IsForest(store.chunks)
      requires !Planned(store.chunks, reviewId) && FreshChunks(chunks, store.chunks, reviewId)
      modifies store
      ensures store.Valid() && store.sessions == old(store.sessions)
      ensures store.chunks == WriteAll(old(store.chunks), chunks)
      ensures WellFormed(store.chunks, maxSplitDepth) && IsForest(store.chunks)
      ensures Lists(chunks, store.chunks, reviewId)
    {
      PlanSaved(store.chunks, chunks, reviewId, maxSplitDepth);
      forall k | 0 <= k < |chunks| ensures store.WritableOne(chunks[k], ownerId) {
        assert chunks[k] in chunks;
      }
      var error := store.SaveChunks(chunks, ownerId);
    }
  }

  /** The model is asked only where an attempt begins, and that is charged. */
  lemma {:induction false} CallPaidFor(step: Step, D: nat)
    requires !step.Resume?
    ensures Costs(step, Calls(D), OfReview(step.chunk.reviewId)) == if step.Begin? then 1 else 0
  {
  }

  lemma {:induction false} WriteApplies(m: Table, step: Step, D: nat)
    requires Enabled(m, step, D) && WellFormed(m, D) && !step.Supersede? && !step.Resume?
    ensures var c := Written(step);
            && Apply(m, step) == Write(m, c) && c.id == step.chunk.id && c.reviewId == step.chunk.reviewId
            && c.id in m && m[c.id].reviewId == c.reviewId
  {
  }

  predicate Planned(m: Table, reviewId: string) {
    exists id :: id in m && m[id].reviewId == reviewId
  }

  predicate AllDone(m: Table, reviewId: string) {
    forall id :: id in m && m[id].reviewId == reviewId ==> m[id].status in {Superseded, Completed}
  }

  /** A run that made an execution leaves fewer of them to make. */
  lemma {:induction false} Progresses(m: Table, steps: seq<Step>, m': Table, D: nat, scope: Scope)
    requires WellFormed(m, D) && IsForest(m) && Ran(m, steps, m', D) && Cost(steps, Executions(D), scope) >= 1
    ensures 0 <= Total(m', Executions(D), scope) < Total(m, Executions(D), scope)
  {
    RunPays(m, steps, D, Executions(D), scope);
    TotalNonNegative(m', Executions(D), scope);
  }

  lemma Affordable(before: Table, steps: seq<Step>, m: Table, D: nat, scope: Scope)
    requires WellFormed(before, D) && IsForest(before) && Ran(before, steps, m, D)
    ensures Cost(steps, Calls(D), scope) <= Total(before, Calls(D), scope)
  {
    RunPays(before, steps, D, Calls(D), scope);
  }

  lemma {:induction false} SupersedeWrites(m: Table, chunk: Chunk, D: nat)
    requires WellFormed(m, D) && IsForest(m) && Enabled(m, Supersede(chunk), D)
    ensures Fits(chunk) && chunk.id in m && m[chunk.id].reviewId == chunk.reviewId && Split(chunk) != []
    ensures forall h :: h in Split(chunk) ==> h.id !in m
    ensures Apply(m, Supersede(chunk)) == WriteAll(Write(m, chunk.(status := Superseded)), Split(chunk))
  {
    SupersedeEntries(m, chunk, D);
    SplitPartitions(chunk);
    WriteTwo(Write(m, chunk.(status := Superseded)), Split(chunk));
  }

  /** The attempts on record after one strategy, and after both. */
  function Recorded(attempts: map<string, ChunkAttempt>, chunk: Chunk, id: string, number: nat, o: AttemptOutcome)
    : map<string, ChunkAttempt>
  {
    if Begins(o) then attempts[id := ChunkAttempt(id, chunk.reviewId, chunk.id, number)] else attempts
  }

  function BothRecorded(attempts: map<string, ChunkAttempt>, chunk: Chunk, ids: (string, string), first: AttemptOutcome,
                        second: AttemptOutcome): map<string, ChunkAttempt>
  {
    var one := Recorded(attempts, chunk, ids.0, 1, first);
    if first.Rejected? then Recorded(one, chunk, ids.1, 2, second) else one
  }

  function Remaining(lists: seq<seq<Step>>): nat {
    if lists == [] then 0 else Remaining(lists[..|lists| - 1]) + |lists[|lists| - 1]|
  }

  lemma {:induction false} RemainingShrinks(lists: seq<seq<Step>>, p: nat)
    requires p < |lists| && lists[p] != []
    ensures Remaining(Rest(lists, p)) == Remaining(lists) - 1
    decreases |lists|
  {
    var n := |lists| - 1;
    if p < n {
      RemainingShrinks(lists[..n], p);
      assert Rest(lists, p)[..n] == Rest(lists[..n], p);
    } else {
      assert Rest(lists, p)[..n] == lists[..n];
    }
  }

  /** The next write of any execution of the batch is enabled and continues the run. */
  lemma {:induction false} NextWrite(
    m: Table, lists: seq<seq<Step>>, chunks: seq<Chunk>, picks: seq<nat>, p: nat, D: nat, reviewId: string
  )
    requires WellFormed(m, D) && IsForest(m) && Startable(m, lists, chunks, D) && Queue(chunks, m, reviewId)
    requires Schedule(lists, picks) && p < |lists| && Left(lists, picks)[p] != []
    requires Ran(m, Merged(lists, picks), Replay(m, Merged(lists, picks)), D)
    ensures var now, step := Replay(m, Merged(lists, picks)), Left(lists, picks)[p][0];
            && WellFormed(now, D) && IsForest(now)
            && !step.Resume? && step.chunk.reviewId == reviewId && Enabled(now, step, D)
            && Ran(m, Merged(lists, picks + [p]), Apply(now, step), D)
            && Cost(Merged(lists, picks + [p]), Calls(D), OfReview(reviewId))
            == Cost(Merged(lists, picks), Calls(D), OfReview(reviewId)) + Costs(step, Calls(D), OfReview(reviewId))
    ensures Schedule(lists, picks + [p]) && Left(lists, picks + [p]) == Rest(Left(lists, picks), p)
  {
    var taken := Merged(lists, picks);
    var now, step := Replay(m, taken), Left(lists, picks)[p][0];
    MergeLegal(m, lists, chunks, picks, D);
    StepKeepsTrack(m, lists, now, Left(lists, picks), chunks, D, p);
    RunKeepsForest(m, taken, D);
    PickOne(lists, picks, p);
    ThenStep(m, taken, step, D);
    CostAppend(taken, [step], Calls(D), OfReview(reviewId));
    OneStepCost(step, Calls(D), OfReview(reviewId));
    assert chunks[p] in chunks;
  }

  /** A batch none of whose executions stopped has been paid for, and its children wait. */
  lemma {:induction false} BatchDone(m0: Table, m: Table, jobs: seq<Job>, picks: seq<nat>, D: nat, reviewId: string)
    requires WellFormed(m0, D) && IsForest(m0) && Queue(ChunksOf(jobs), m0, reviewId) && NoneStopped(jobs, D)
    requires Schedule(StepLists(jobs, D), picks) && Exhausted(Left(StepLists(jobs, D), picks))
    requires m == Replay(m0, Merged(StepLists(jobs, D), picks))
    ensures |jobs| <= Cost(Merged(StepLists(jobs, D), picks), Executions(D), OfReview(reviewId))
    ensures Queue(ChildrenOf(jobs, D), m, reviewId)
  {
    var lists, chunks, scope := StepLists(jobs, D), ChunksOf(jobs), OfReview(reviewId);
    BatchMayStart(m0, jobs, D, reviewId);
    MergeLegal(m0, lists, chunks, picks, D);
    MergedCost(lists, picks, Executions(D), scope);
    ExhaustedCost(Left(lists, picks), Executions(D), scope);
    forall i | 0 <= i < |jobs|
      ensures jobs[i].chunk.reviewId == reviewId
      ensures Agree(m, Replay(m0, StepsOf(jobs[i], D)), Footprint(jobs[i].chunk))
    {
      assert chunks[i] in chunks;
      assert OnTrack(m0, lists, m, Left(lists, picks), chunks, D, i);
    }
    BatchCost(jobs, D, reviewId);
    BatchSettles(m0, m, jobs, D, reviewId);
  }
}
