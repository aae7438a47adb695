/** The in-memory review store (review_store.py, `EnhancedInMemoryReviewStore`). */
module ReviewStore {
  import opened Wrappers
  import opened ReviewModels
  import opened ReviewChunks
  import opened ReviewForest

  datatype StoreError = KeyError | ValueError

  datatype Event = Event(sequence: nat, event: string, data: string)

  datatype ChunkAttempt = ChunkAttempt(attemptId: string, reviewId: string, chunkId: ChunkId, number: nat)

  /** `_matches_running_recheck` */
  predicate MatchesRunningRecheck(s: Session, attempt: nat) {
    s.recheckAttempt == Some(attempt) && s.recheckStatus == Some(RecheckRunning) && !IsFinal(s.status)
  }

  /** Events are numbered from 1 without gaps. */
  predicate Numbered(log: seq<Event>) {
    forall i :: 0 <= i < |log| ==> log[i].sequence == i + 1
  }

  function Appended(log: seq<Event>, event: string, data: string): seq<Event> {
    log + [Event(|log| + 1, event, data)]
  }

  lemma AppendedNumbered(log: seq<Event>, event: string, data: string)
    requires Numbered(log)
    ensures Numbered(Appended(log, event, data)) && log <= Appended(log, event, data)
  {
  }

  function WriteAll(m: Table, chunks: seq<Chunk>): Table {
    if chunks == [] then m
    else Write(WriteAll(m, chunks[..|chunks| - 1]), chunks[|chunks| - 1])
  }

  lemma {:induction false} WriteOneMore(m: Table, list: seq<Chunk>, i: nat)
    requires i < |list|
    ensures WriteAll(m, list[..i + 1]) == Write(WriteAll(m, list[..i]), list[i])
  {
    assert list[..i + 1][..i] == list[..i];
  }

  predicate DistinctIds(chunks: seq<Chunk>) {
    forall i, j :: 0 <= i < j < |chunks| ==> chunks[i].id != chunks[j].id
  }

  /** A duplicate-free listing of the chunks a review has stored. */
  ghost predicate Lists(chunks: seq<Chunk>, m: Table, reviewId: string) {
    && DistinctIds(chunks)
    && (forall c :: c in chunks <==> c.id in m && m[c.id] == c && c.reviewId == reviewId)
  }

  class Store {
    var sessions: map<string, Session>
    var events: map<string, seq<Event>>
    var chunks: Table
    var findings: map<ChunkId, seq<Finding>>
    var attempts: map<string, ChunkAttempt>

    /** Everything stored belongs to a stored session, and every log is numbered. */
    ghost predicate Valid()
      reads this
    {
      && sessions.Keys == events.Keys
      && (forall id :: id in sessions ==> sessions[id].reviewId == id)
      && (forall id :: id in events ==> Numbered(events[id]))
      && (forall id :: id in chunks ==> chunks[id].id == id && chunks[id].reviewId in sessions)
      && (forall id :: id in findings ==> id in chunks)
      && (forall id :: id in attempts ==> attempts[id].attemptId == id && attempts[id].reviewId in sessions)
    }

    predicate Owned(reviewId: string, ownerId: string)
      reads this
    {
      reviewId in sessions && sessions[reviewId].ownerId == ownerId
    }

    constructor ()
      ensures Valid() && sessions == map[] && events == map[] && chunks == map[]
    {
      sessions, events, chunks, findings, attempts := map[], map[], map[], map[], map[];
    }

    method Create(session: Session) returns (error: Option<StoreError>)
      requires Valid()
      modifies this
      ensures Valid()
      ensures error == if session.reviewId in old(sessions) then Some(ValueError) else None
      ensures error.None? ==> sessions == old(sessions)[session.reviewId := session]
      ensures error.None? ==> events == old(events)[session.reviewId := []]
      ensures error.Some? ==> sessions == old(sessions) && events == old(events)
      ensures chunks == old(chunks) && findings == old(findings) && attempts == old(attempts)
    {
      if session.reviewId in sessions {
        return Some(ValueError);
      }
      sessions := sessions[session.reviewId := session];
      events := events[session.reviewId := []];
      return None;
    }

    /** Saving keeps the stored title. */
    method Save(session: Session) returns (error: Option<StoreError>)
      requires Valid()
      modifies this
      ensures Valid()
      ensures error == if old(Owned(session.reviewId, session.ownerId)) then None else Some(KeyError)
      ensures sessions == if error.Some? then old(sessions) else
                old(sessions)[session.reviewId := session.(title := old(sessions)[session.reviewId].title)]
      ensures events == old(events) && chunks == old(chunks) && findings == old(findings) && attempts == old(attempts)
    {
      if !Owned(session.reviewId, session.ownerId) {
        return Some(KeyError);
      }
      sessions := sessions[session.reviewId := session.(title := sessions[session.reviewId].title)];
      return None;
    }

    method Publish(
      reviewId: string, ownerId: string, event: string, data: string
    ) returns (r: Result<Event, StoreError>)
      requires Valid()
      modifies this
      ensures Valid()
      ensures r.Ok? <==> old(Owned(reviewId, ownerId))
      ensures r.Ok? ==> events == old(events)[reviewId := Appended(old(events)[reviewId], event, data)]
      ensures r.Ok? ==> r.value == events[reviewId][|events[reviewId]| - 1]
      ensures r.Err? ==> r.error == KeyError && events == old(events)
      ensures sessions == old(sessions) && chunks == old(chunks) && findings == old(findings)
      ensures attempts == old(attempts)
    {
      if !Owned(reviewId, ownerId) {
        return Err(KeyError);
      }
      var log := events[reviewId];
      var published := Event(|log| + 1, event, data);
      events := events[reviewId := log + [published]];
      return Ok(published);
    }

    /** The events numbered above `after` are the rest of the log from there on. */
    method EventsAfter(reviewId: string, ownerId: string, after: nat) returns (r: Result<seq<Event>, StoreError>)
      requires Valid()
      ensures r.Ok? <==> Owned(reviewId, ownerId)
      ensures r.Ok? ==> r.value == if after <= |events[reviewId]| then events[reviewId][after..] else []
    {
      if !Owned(reviewId, ownerId) {
        return Err(KeyError);
      }
      var log := events[reviewId];
      var selected: seq<Event> := [];
      for i := 0 to |log|
        invariant selected == if after <= i then log[after..i] else []
      {
        if log[i].sequence > after {
          selected := selected + [log[i]];
        }
      }
      return Ok(selected);
    }

    /** The compare-and-set save of a recheck attempt. */
    method SaveReviewIfRecheckAttempt(session: Session, attempt: nat) returns (r: Result<bool, StoreError>)
      requires Valid()
      modifies this
      ensures Valid()
      ensures r.Ok? <==> old(Owned(session.reviewId, session.ownerId))
      ensures r.Ok? ==> r.value == MatchesRunningRecheck(old(sessions)[session.reviewId], attempt)
      ensures sessions == if r.Ok? && r.value
                then old(sessions)[session.reviewId := session.(title := old(sessions)[session.reviewId].title)]
                else old(sessions)
      ensures events == old(events) && chunks == old(chunks) && findings == old(findings) && attempts == old(attempts)
    {
      if !Owned(session.reviewId, session.ownerId) {
        return Err(KeyError);
      }
      var current := sessions[session.reviewId];
      if !MatchesRunningRecheck(current, attempt) {
        return Ok(false);
      }
      sessions := sessions[session.reviewId := session.(title := current.title)];
      return Ok(true);
    }

    /** The compare-and-set transition: the event is appended exactly when the session is written. */
    method TransitionReviewIfRecheckAttempt(session: Session, attempt: nat, event: string, data: string)
      returns (r: Result<bool, StoreError>)
      requires Valid()
      modifies this
      ensures Valid()
      ensures r.Ok? <==> old(Owned(session.reviewId, session.ownerId))
      ensures r.Ok? ==> r.value == MatchesRunningRecheck(old(sessions)[session.reviewId], attempt)
      ensures sessions == if r.Ok? && r.value
                then old(sessions)[session.reviewId := session.(title := old(sessions)[session.reviewId].title)]
                else old(sessions)
      ensures events == if r.Ok? && r.value
                then old(events)[session.reviewId := Appended(old(events)[session.reviewId], event, data)]
                else old(events)
      ensures chunks == old(chunks) && findings == old(findings) && attempts == old(attempts)
    {
      r := SaveReviewIfRecheckAttempt(session, attempt);
      if r == Ok(true) {
        var log := events[session.reviewId];
        AppendedNumbered(log, event, data);
        events := events[session.reviewId := log + [Event(|log| + 1, event, data)]];
      }
    }

    /** All chunks are checked before any is written. */
    method SaveChunks(list: seq<Chunk>, ownerId: string) returns (error: Option<StoreError>)
      requires Valid()
      modifies this
      ensures Valid()
      ensures error == if old(Writable(list, ownerId)) then None else Some(KeyError)
      ensures chunks == if error.None? then WriteAll(old(chunks), list) else old(chunks)
      ensures sessions == old(sessions) && events == old(events) && findings == old(findings)
      ensures attempts == old(attempts)
    {
      for i := 0 to |list|
        invariant unchanged(this)
        invariant forall k :: 0 <= k < i ==> WritableOne(list[k], ownerId)
      {
        var chunk := list[i];
        if !Owned(chunk.reviewId, ownerId) {
          return Some(KeyError);
        }
        if chunk.id in chunks && chunks[chunk.id].reviewId != chunk.reviewId {
          return Some(KeyError);
        }
      }
      forall k | 0 <= k < |list| ensures list[k].reviewId in sessions {
        assert WritableOne(list[k], ownerId);
      }
      WriteChunks(list);
      return None;
    }

    method WriteChunks(list: seq<Chunk>)
      requires Valid() && forall k :: 0 <= k < |list| ==> list[k].reviewId in sessions
      modifies this`chunks
      ensures Valid() && chunks == WriteAll(old(chunks), list)
    {
      for i := 0 to |list|
        invariant Valid() && chunks == WriteAll(old(chunks), list[..i])
      {
        WriteOneMore(old(chunks), list, i);
        chunks := Write(chunks, list[i]);
      }
      assert list[..|list|] == list;
    }

    predicate WritableOne(chunk: Chunk, ownerId: string)
      reads this
    {
      && Owned(chunk.reviewId, ownerId)
      && (chunk.id in chunks ==> chunks[chunk.id].reviewId == chunk.reviewId)
    }

    predicate Writable(list: seq<Chunk>, ownerId: string)
      reads this
    {
      forall k :: 0 <= k < |list| ==> WritableOne(list[k], ownerId)
    }

    /** The chunks of a review (the source also sorts them by id). */
    method Chunks(reviewId: string, ownerId: string) returns (r: Result<seq<Chunk>, StoreError>)
      requires Valid()
      ensures r.Ok? <==> Owned(reviewId, ownerId)
      ensures r.Ok? ==> Lists(r.value, chunks, reviewId)
    {
      if !Owned(reviewId, ownerId) {
        return Err(KeyError);
      }
      var listed: seq<Chunk> := [];
      var remaining := chunks.Keys;
      while remaining != {}
        invariant remaining <= chunks.Keys
        invariant DistinctIds(listed)
        invariant forall c :: c in listed <==>
                    c.id in chunks && c.id !in remaining && chunks[c.id] == c && c.reviewId == reviewId
        decreases |remaining|
      {
        var id :| id in remaining;
        remaining := remaining - {id};
        if chunks[id].reviewId == reviewId {
          listed := listed + [chunks[id]];
        }
      }
      return Ok(listed);
    }

    method ReplaceChunk(parent: Chunk, children: seq<Chunk>, ownerId: string) returns (error: Option<StoreError>)
      requires Valid()
      modifies this
      ensures Valid()
      ensures error == if exists k :: 0 <= k < |children| && children[k].reviewId != parent.reviewId then
                         Some(ValueError)
                       else if old(Writable([parent.(status := Superseded)] + children, ownerId)) then None
                       else Some(KeyError)
      ensures chunks == if error.None? then WriteAll(old(chunks), [parent.(status := Superseded)] + children)
                        else old(chunks)
      ensures sessions == old(sessions) && events == old(events) && findings == old(findings)
      ensures attempts == old(attempts)
    {
      if exists k :: 0 <= k < |children| && children[k].reviewId != parent.reviewId {
        return Some(ValueError);
      }
      error := SaveChunks([parent.(status := Superseded)] + children, ownerId);
    }

    method TransitionChunk(
      chunk: Chunk, ownerId: string, event: string, data: string
    ) returns (r: Result<Event, StoreError>)
      requires Valid()
      modifies this
      ensures Valid()
      ensures r.Ok? <==> old(WritableOne(chunk, ownerId))
      ensures r.Ok? ==> chunks == Write(old(chunks), chunk)
      ensures r.Ok? ==> events == old(events)[chunk.reviewId := Appended(old(events)[chunk.reviewId], event, data)]
      ensures r.Err? ==> r.error == KeyError && chunks == old(chunks) && events == old(events)
      ensures sessions == old(sessions) && findings == old(findings) && attempts == old(attempts)
    {
      var error := SaveChunks([chunk], ownerId);
      assert WriteAll(old(chunks), [chunk]) == Write(WriteAll(old(chunks), []), chunk);
      if error.Some? {
        assert !old(WritableOne([chunk][0], ownerId));
        return Err(error.value);
      }
      assert old(WritableOne([chunk][0], ownerId));
      r := Publish(chunk.reviewId, ownerId, event, data);
    }

    method SaveChunkFindings(chunkId: ChunkId, ownerId: string, found: seq<Finding>) returns (error: Option<StoreError>)
      requires Valid()
      modifies this
      ensures Valid()
      ensures error == if chunkId in old(chunks) && old(Owned(chunks[chunkId].reviewId, ownerId)) then None
                       else Some(KeyError)
      ensures findings == if error.None? then old(findings)[chunkId := found] else old(findings)
      ensures sessions == old(sessions) && events == old(events) && chunks == old(chunks) && attempts == old(attempts)
    {
      if chunkId !in chunks || !Owned(chunks[chunkId].reviewId, ownerId) {
        return Some(KeyError);
      }
      findings := findings[chunkId := found];
      return None;
    }

    method RecordAttempt(attempt: ChunkAttempt, ownerId: string) returns (error: Option<StoreError>)
      requires Valid()
      modifies this
      ensures Valid()
      ensures error.None? <==>
                && old(Owned(attempt.reviewId, ownerId))
                && attempt.chunkId in old(chunks) && old(chunks)[attempt.chunkId].reviewId == attempt.reviewId
                && (attempt.attemptId in old(attempts) ==>
                    old(attempts)[attempt.attemptId].reviewId == attempt.reviewId)
      ensures attempts == if error.None? then old(attempts)[attempt.attemptId := attempt] else old(attempts)
      ensures sessions == old(sessions) && events == old(events) && chunks == old(chunks) && findings == old(findings)
    {
      if !Owned(attempt.reviewId, ownerId) {
        return Some(KeyError);
      }
      if attempt.chunkId !in chunks || chunks[attempt.chunkId].reviewId != attempt.reviewId {
        return Some(KeyError);
      }
      if attempt.attemptId in attempts && attempts[attempt.attemptId].reviewId != attempt.reviewId {
        return Some(KeyError);
      }
      attempts := attempts[attempt.attemptId := attempt];
      return None;
    }

    /** Restarting a review clears its chunks, findings and attempts and nobody else's. */
    method ResetReview(session: Session) returns (error: Option<StoreError>)
      requires Valid()
      modifies this
      ensures Valid()
      ensures error == if old(Owned(session.reviewId, session.ownerId)) then None else Some(KeyError)
      ensures error.Some? ==> unchanged(this)
      ensures error.None? ==>
                && sessions == old(sessions)[
                     session.reviewId := session.(title := old(sessions)[session.reviewId].title)]
                && events == old(events)
                && ClearedOf(session.reviewId, old(chunks), old(findings), old(attempts))
    {
      if !Owned(session.reviewId, session.ownerId) {
        return Some(KeyError);
      }
      sessions := sessions[session.reviewId := session.(title := sessions[session.reviewId].title)];
      Clear(session.reviewId);
      return None;
    }

    /** Deleting a review removes everything that belongs to it and nothing else. */
    method Delete(reviewId: string, ownerId: string) returns (deleted: bool)
      requires Valid()
      modifies this
      ensures Valid()
      ensures deleted == old(Owned(reviewId, ownerId))
      ensures !deleted ==> unchanged(this)
      ensures deleted ==>
                && sessions == old(sessions) - {reviewId} && events == old(events) - {reviewId}
                && ClearedOf(reviewId, old(chunks), old(findings), old(attempts))
    {
      if !Owned(reviewId, ownerId) {
        return false;
      }
      Clear(reviewId);
      sessions, events := sessions - {reviewId}, events - {reviewId};
      return true;
    }

    ghost predicate ClearedOf(
      reviewId: string, was: Table, found: map<ChunkId, seq<Finding>>, made: map<string, ChunkAttempt>
    )
      reads this
    {
      && chunks == (map id | id in was && was[id].reviewId != reviewId :: was[id])
      && findings == (map id | id in found && (id in was ==> was[id].reviewId != reviewId) :: found[id])
      && attempts == (map id | id in made && made[id].reviewId != reviewId :: made[id])
    }

    method Clear(reviewId: string)
      requires Valid()
      modifies this`chunks, this`findings, this`attempts
      ensures Valid() && ClearedOf(reviewId, old(chunks), old(findings), old(attempts))
    {
      var was := chunks;
      chunks := map id | id in was && was[id].reviewId != reviewId :: was[id];
      findings := map id | id in findings && (id in was ==> was[id].reviewId != reviewId) :: findings[id];
      attempts := map id | id in attempts && attempts[id].reviewId != reviewId :: attempts[id];
    }
  }
}
