/** The round-robin scheduler of review chunks (chunk_scheduler.py). */
module ChunkScheduler {
  import opened Wrappers
  import opened ReviewChunks

  /** The scheduler's fields as a value, for stating what its operations do. */
  datatype State = State(limit: nat, queues: map<string, seq<Chunk>>, rotation: seq<string>, size: nat)

  datatype Op = PutOp(chunk: Chunk) | GetOp | CancelOp(reviewId: string)

  function QueueOf(s: State, reviewId: string): seq<Chunk> {
    if reviewId in s.queues then s.queues[reviewId] else []
  }

  /** The lengths of the queues, summed along the rotation. */
  function Along(rotation: seq<string>, queues: map<string, seq<Chunk>>): nat
    requires forall r :: r in rotation ==> r in queues
  {
    if rotation == [] then 0 else |queues[rotation[0]]| + Along(rotation[1..], queues)
  }

  predicate Distinct(rotation: seq<string>) {
    forall i, j :: 0 <= i < j < |rotation| ==> rotation[i] != rotation[j]
  }

  /** A map of FIFO queues: the rotation names each non-empty one once and the size is their sum. */
  ghost predicate Valid(s: State) {
    && Distinct(s.rotation)
    && (forall r :: r in s.rotation <==> r in s.queues)
    && (forall r :: r in s.queues ==> s.queues[r] != [])
    && (forall r, c :: r in s.queues && c in s.queues[r] ==> c.reviewId == r)
    && s.size == Along(s.rotation, s.queues) <= s.limit
  }

  function Without(rotation: seq<string>, r: string): seq<string> {
    if rotation == [] then []
    else if rotation[0] == r then Without(rotation[1..], r)
    else [rotation[0]] + Without(rotation[1..], r)
  }

  // ---------------------------------------------------------------------------------------------
  // The operations

  function Put(s: State, chunk: Chunk): Option<State> {
    if s.size >= s.limit then None
    else if chunk.reviewId in s.queues then
      Some(s.(queues := s.queues[chunk.reviewId := s.queues[chunk.reviewId] + [chunk]], size := s.size + 1))
    else
      Some(s.(queues := s.queues[chunk.reviewId := [chunk]], rotation := s.rotation + [chunk.reviewId],
              size := s.size + 1))
  }

  /** The chunk handed out, if there is one; otherwise the caller waits. */
  function Head(s: State): Option<Chunk>
    requires Valid(s)
  {
    if s.rotation == [] then None else Some(s.queues[s.rotation[0]][0])
  }

  function Get(s: State): State
    requires Valid(s) && s.rotation != []
    ensures Get(s).limit == s.limit
  {
    AlongPositive(s.rotation, s.queues);
    var r, rest := s.rotation[0], s.rotation[1..];
    if |s.queues[r]| > 1 then
      s.(queues := s.queues[r := s.queues[r][1..]], rotation := rest + [r], size := s.size - 1)
    else
      s.(queues := s.queues - {r}, rotation := rest, size := s.size - 1)
  }

  function Cancel(s: State, reviewId: string): State
    requires Valid(s)
  {
    if reviewId !in s.queues then s
    else
      AlongMember(s.rotation, s.queues, reviewId);
      State(s.limit, s.queues - {reviewId}, Without(s.rotation, reviewId), s.size - |s.queues[reviewId]|)
  }

  // ---------------------------------------------------------------------------------------------
  // Sums along the rotation

  lemma {:induction false} AlongPositive(rotation: seq<string>, queues: map<string, seq<Chunk>>)
    requires forall r :: r in rotation ==> r in queues && queues[r] != []
    ensures Along(rotation, queues) >= |rotation|
  {
    if rotation != [] {
      assert rotation[0] in rotation;
      forall r | r in rotation[1..] ensures r in rotation { }
      AlongPositive(rotation[1..], queues);
    }
  }

  lemma {:induction false} AlongMember(rotation: seq<string>, queues: map<string, seq<Chunk>>, r: string)
    requires (forall x :: x in rotation ==> x in queues) && r in rotation
    ensures Along(rotation, queues) >= |queues[r]|
  {
    forall x | x in rotation[1..] ensures x in rotation { }
    if rotation[0] != r {
      AlongMember(rotation[1..], queues, r);
    }
  }

  lemma {:induction false} AlongAppend(rotation: seq<string>, queues: map<string, seq<Chunk>>, r: string)
    requires r in queues && forall x :: x in rotation ==> x in queues
    ensures Along(rotation + [r], queues) == Along(rotation, queues) + |queues[r]|
  {
    if rotation == [] {
      assert [r][1..] == [];
    } else {
      forall x | x in rotation[1..] ensures x in rotation { }
      assert (rotation + [r])[1..] == rotation[1..] + [r];
      AlongAppend(rotation[1..], queues, r);
    }
  }

  /** Only the queues named by the rotation matter to the sum. */
  lemma {:induction false} AlongFrame(
    rotation: seq<string>, queues: map<string, seq<Chunk>>, queues': map<string, seq<Chunk>>
  )
    requires forall x :: x in rotation ==> x in queues && x in queues' && queues'[x] == queues[x]
    ensures Along(rotation, queues') == Along(rotation, queues)
  {
    if rotation != [] {
      forall x | x in rotation[1..] ensures x in rotation { }
      AlongFrame(rotation[1..], queues, queues');
    }
  }

  lemma {:induction false} AlongUpdate(rotation: seq<string>, queues: map<string, seq<Chunk>>, r: string, q: seq<Chunk>)
    requires Distinct(rotation) && r in rotation && forall x :: x in rotation ==> x in queues
    ensures Along(rotation, queues[r := q]) == Along(rotation, queues) - |queues[r]| + |q|
  {
    forall x | x in rotation[1..] ensures x in rotation { }
    if rotation[0] == r {
      forall x | x in rotation[1..] ensures x != r { }
      AlongFrame(rotation[1..], queues, queues[r := q]);
    } else {
      AlongUpdate(rotation[1..], queues, r, q);
    }
  }

  lemma {:induction false} WithoutMembers(rotation: seq<string>, r: string)
    ensures forall x :: x in Without(rotation, r) <==> x in rotation && x != r
    ensures Distinct(rotation) ==> Distinct(Without(rotation, r))
  {
    if rotation != [] {
      WithoutMembers(rotation[1..], r);
      if Distinct(rotation) && rotation[0] != r {
        var rest := Without(rotation[1..], r);
        forall i | 0 <= i < |rest| ensures rest[i] != rotation[0] {
          assert rest[i] in rest;
        }
      }
    }
  }

  lemma {:induction false} AlongWithout(rotation: seq<string>, queues: map<string, seq<Chunk>>, r: string)
    requires Distinct(rotation) && forall x :: x in rotation ==> x in queues
    requires r in queues
    ensures forall x :: x in Without(rotation, r) ==> x in queues - {r}
    ensures Along(Without(rotation, r), queues - {r})
         == Along(rotation, queues) - (if r in rotation then |queues[r]| else 0)
  {
    WithoutMembers(rotation, r);
    if rotation != [] {
      forall x | x in rotation[1..] ensures x in rotation { }
      AlongWithout(rotation[1..], queues, r);
      if rotation[0] == r {
        assert r !in rotation[1..];
      } else {
        assert Without(rotation, r)[1..] == Without(rotation[1..], r);
      }
    }
  }

  // ---------------------------------------------------------------------------------------------
  // Every operation keeps the map of queues

  lemma PutKeeps(s: State, chunk: Chunk)
    requires Valid(s) && Put(s, chunk).Some?
    ensures Valid(Put(s, chunk).value)
  {
    var r := chunk.reviewId;
    var s' := Put(s, chunk).value;
    if r in s.queues {
      AlongUpdate(s.rotation, s.queues, r, s.queues[r] + [chunk]);
    } else {
      AlongAppend(s.rotation, s'.queues, r);
      AlongFrame(s.rotation, s.queues, s'.queues);
    }
  }

  /** The rotation behind its head. */
  lemma Behind(s: State)
    requires Valid(s) && s.rotation != []
    ensures var r, rest := s.rotation[0], s.rotation[1..];
            && Distinct(rest)
            && (forall x :: x in rest <==> x in s.queues && x != r)
            && Along(rest, s.queues) == s.size - |s.queues[r]|
  {
    var r, rest := s.rotation[0], s.rotation[1..];
    assert s.rotation == [r] + rest;
    forall x | x in rest ensures x in s.rotation && x != r { }
  }

  lemma GetKeeps(s: State)
    requires Valid(s) && s.rotation != []
    ensures Valid(Get(s))
  {
    Behind(s);
    if |s.queues[s.rotation[0]]| > 1 {
      GetKeepsRotating(s);
    } else {
      AlongFrame(s.rotation[1..], s.queues, Get(s).queues);
    }
  }

  lemma GetKeepsRotating(s: State)
    requires Valid(s) && s.rotation != [] && |s.queues[s.rotation[0]]| > 1
    ensures Valid(Get(s))
  {
    var r, rest, s' := s.rotation[0], s.rotation[1..], Get(s);
    Behind(s);
    AlongFrame(rest, s.queues, s'.queues);
    AlongAppend(rest, s'.queues, r);
    assert forall x :: x in s'.rotation <==> x in rest || x == r;
  }

  lemma CancelKeeps(s: State, reviewId: string)
    requires Valid(s)
    ensures Valid(Cancel(s, reviewId))
  {
    if reviewId in s.queues {
      WithoutMembers(s.rotation, reviewId);
      AlongWithout(s.rotation, s.queues, reviewId);
    }
  }

  function Apply(s: State, op: Op): (s': State)
    requires Valid(s)
    ensures Valid(s') && s'.limit == s.limit
  {
    match op
    case PutOp(chunk) =>
      var r := Put(s, chunk);
      if r.Some? then PutKeeps(s, chunk); r.value else s
    case GetOp => if s.rotation == [] then s else GetKeeps(s); Get(s)
    case CancelOp(reviewId) => CancelKeeps(s, reviewId); Cancel(s, reviewId)
  }

  function Run(s: State, ops: seq<Op>): (s': State)
    requires Valid(s)
    ensures Valid(s')
    decreases |ops|
  {
    if ops == [] then s else Run(Apply(s, ops[0]), ops[1..])
  }

  // ---------------------------------------------------------------------------------------------
  // Order and conservation

  /** What an operation adds to a review's queue. */
  function Arrives(s: State, op: Op, reviewId: string): seq<Chunk> {
    if op.PutOp? && op.chunk.reviewId == reviewId && s.size < s.limit then [op.chunk] else []
  }

  function Returns(s: State, op: Op, reviewId: string): seq<Chunk>
    requires Valid(s)
  {
    if op.GetOp? && s.rotation != [] && s.rotation[0] == reviewId then [s.queues[reviewId][0]] else []
  }

  /** What leaves a review's queue, handed out or cancelled. */
  function Leaves(s: State, op: Op, reviewId: string): seq<Chunk>
    requires Valid(s)
  {
    if op == CancelOp(reviewId) then QueueOf(s, reviewId) else Returns(s, op, reviewId)
  }

  function Arrivals(s: State, ops: seq<Op>, reviewId: string): seq<Chunk>
    requires Valid(s)
    decreases |ops|
  {
    if ops == [] then [] else Arrives(s, ops[0], reviewId) + Arrivals(Apply(s, ops[0]), ops[1..], reviewId)
  }

  function Returned(s: State, ops: seq<Op>, reviewId: string): seq<Chunk>
    requires Valid(s)
    decreases |ops|
  {
    if ops == [] then [] else Returns(s, ops[0], reviewId) + Returned(Apply(s, ops[0]), ops[1..], reviewId)
  }

  function Departures(s: State, ops: seq<Op>, reviewId: string): seq<Chunk>
    requires Valid(s)
    decreases |ops|
  {
    if ops == [] then [] else Leaves(s, ops[0], reviewId) + Departures(Apply(s, ops[0]), ops[1..], reviewId)
  }

  lemma {:induction false} PutIsFifo(s: State, chunk: Chunk, reviewId: string)
    requires Valid(s)
    ensures QueueOf(Apply(s, PutOp(chunk)), reviewId) == QueueOf(s, reviewId) + Arrives(s, PutOp(chunk), reviewId)
  {
  }

  lemma {:induction false} GetIsFifo(s: State, reviewId: string)
    requires Valid(s)
    ensures Returns(s, GetOp, reviewId) + QueueOf(Apply(s, GetOp), reviewId) == QueueOf(s, reviewId)
  {
    if s.rotation != [] && s.rotation[0] == reviewId {
      var q := s.queues[reviewId];
      assert q == [q[0]] + q[1..];
    }
  }

  lemma {:induction false} StepIsFifo(s: State, op: Op, reviewId: string)
    requires Valid(s)
    ensures Leaves(s, op, reviewId) + QueueOf(Apply(s, op), reviewId) == QueueOf(s, reviewId) + Arrives(s, op, reviewId)
  {
    match op
    case PutOp(chunk) => PutIsFifo(s, chunk, reviewId);
    case GetOp => GetIsFifo(s, reviewId);
    case CancelOp(_) =>
  }

  /**
  In any run the chunks of a review leave its queue, handed out or cancelled, exactly in the order
  in which they were there or accepted; nothing is lost, invented or handed out twice.
  */
  lemma {:induction false} RunIsFifo(s: State, ops: seq<Op>, reviewId: string)
    requires Valid(s)
    ensures Departures(s, ops, reviewId) + QueueOf(Run(s, ops), reviewId)
         == QueueOf(s, reviewId) + Arrivals(s, ops, reviewId)
    decreases |ops|
  {
    if ops != [] {
      var s' := Apply(s, ops[0]);
      StepIsFifo(s, ops[0], reviewId);
      RunIsFifo(s', ops[1..], reviewId);
      var l, d, q := Leaves(s, ops[0], reviewId), Departures(s', ops[1..], reviewId), QueueOf(Run(s, ops), reviewId);
      var a, b := Arrives(s, ops[0], reviewId), Arrivals(s', ops[1..], reviewId);
      Telescope(l, d, q, QueueOf(s', reviewId), QueueOf(s, reviewId), a, b);
    }
  }

  lemma Telescope(
    l: seq<Chunk>, d: seq<Chunk>, q: seq<Chunk>, mid: seq<Chunk>, from: seq<Chunk>, a: seq<Chunk>, b: seq<Chunk>
  )
    requires l + mid == from + a && d + q == mid + b
    ensures (l + d) + q == from + (a + b)
  {
    assert (l + d) + q == l + (d + q) == l + (mid + b) == (l + mid) + b == (from + a) + b == from + (a + b);
  }

  /** Without cancellations of the review, what departs is what is handed out. */
  lemma {:induction false} DeparturesAreReturned(s: State, ops: seq<Op>, reviewId: string)
    requires Valid(s) && CancelOp(reviewId) !in ops
    ensures Departures(s, ops, reviewId) == Returned(s, ops, reviewId)
    decreases |ops|
  {
    if ops != [] {
      forall op | op in ops[1..] ensures op in ops { }
      DeparturesAreReturned(Apply(s, ops[0]), ops[1..], reviewId);
    }
  }

  // ---------------------------------------------------------------------------------------------
  // Bounded waiting

  function IndexOf(rotation: seq<string>, r: string): (i: nat)
    requires r in rotation
    ensures i < |rotation| && rotation[i] == r
    ensures forall k :: 0 <= k < i ==> rotation[k] != r
  {
    if rotation[0] == r then 0 else 1 + IndexOf(rotation[1..], r)
  }

  function Gets(ops: seq<Op>): nat {
    if ops == [] then 0 else (if ops[0].GetOp? then 1 else 0) + Gets(ops[1..])
  }

  /** How many gets can come before the one that hands out position `q` of a review's queue. */
  function Rank(s: State, reviewId: string, q: nat): nat
    requires reviewId in s.rotation
  {
    IndexOf(s.rotation, reviewId) + q * s.limit
  }

  lemma {:induction false} IndexWithout(rotation: seq<string>, r: string, x: string)
    requires r in rotation && x != r
    ensures r in Without(rotation, x)
    ensures IndexOf(Without(rotation, x), r) <= IndexOf(rotation, r)
  {
    WithoutMembers(rotation, x);
    if rotation[0] != r {
      IndexWithout(rotation[1..], r, x);
      if rotation[0] != x {
        assert Without(rotation, x)[1..] == Without(rotation[1..], x);
      }
    }
  }

  lemma {:induction false} IndexAppend(rotation: seq<string>, r: string, x: string)
    requires r in rotation
    ensures r in rotation + [x] && IndexOf(rotation + [x], r) == IndexOf(rotation, r)
  {
    assert r in rotation + [x];
    if rotation[0] != r {
      assert (rotation + [x])[1..] == rotation[1..] + [x];
      IndexAppend(rotation[1..], r, x);
    }
  }

  /** A get that serves another review brings this one a place forward. */
  lemma GetServesOther(s: State, reviewId: string, q: nat)
    requires Valid(s) && reviewId in s.queues && q < |s.queues[reviewId]| && s.rotation[0] != reviewId
    ensures var s' := Get(s);
            && reviewId in s'.rotation && QueueOf(s', reviewId) == QueueOf(s, reviewId)
            && Rank(s', reviewId, q) == Rank(s, reviewId, q) - 1
  {
    var rest := s.rotation[1..];
    assert s.rotation == [s.rotation[0]] + rest;
    assert reviewId in rest;
    if |s.queues[s.rotation[0]]| > 1 {
      IndexAppend(rest, reviewId, s.rotation[0]);
    }
  }

  /** A get that serves this review sends it to the back, but its next chunk is one place nearer. */
  lemma GetServesThis(s: State, reviewId: string, q: nat)
    requires Valid(s) && reviewId in s.queues && 0 < q < |s.queues[reviewId]| && s.rotation[0] == reviewId
    ensures var s' := Get(s);
            && reviewId in s'.rotation && QueueOf(s', reviewId) == QueueOf(s, reviewId)[1..]
            && Rank(s', reviewId, q - 1) < Rank(s, reviewId, q)
  {
    var s' := Get(s);
    var last := |s.rotation| - 1;
    assert s'.rotation[last] == reviewId;
    GetKeeps(s);
    AlongPositive(s.rotation, s.queues);
    assert (q - 1) * s.limit + s.limit == q * s.limit;
  }

  lemma PutLeavesRank(s: State, chunk: Chunk, reviewId: string, q: nat)
    requires Valid(s) && reviewId in s.queues && q < |s.queues[reviewId]| && Put(s, chunk).Some?
    ensures var s' := Put(s, chunk).value;
            && reviewId in s'.rotation && QueueOf(s, reviewId) <= QueueOf(s', reviewId)
            && Rank(s', reviewId, q) == Rank(s, reviewId, q)
  {
    if chunk.reviewId !in s.queues {
      IndexAppend(s.rotation, reviewId, chunk.reviewId);
    }
  }

  /** As long as the review is not cancelled, its chunk is out once there were more gets than its rank. */
  lemma {:induction false} ServedWithinRank(s: State, ops: seq<Op>, reviewId: string, q: nat)
    requires Valid(s) && reviewId in s.queues && q < |s.queues[reviewId]|
    requires CancelOp(reviewId) !in ops
    requires Gets(ops) > Rank(s, reviewId, q)
    ensures |Returned(s, ops, reviewId)| > q
    decreases |ops|
  {
    forall op | op in ops[1..] ensures op in ops { }
    match ops[0]
    case PutOp(chunk) =>
      if Put(s, chunk).Some? {
        PutLeavesRank(s, chunk, reviewId, q);
      }
      ServedWithinRank(Apply(s, ops[0]), ops[1..], reviewId, q);
    case CancelOp(other) =>
      if other in s.queues {
        IndexWithout(s.rotation, reviewId, other);
      }
      ServedWithinRank(Apply(s, ops[0]), ops[1..], reviewId, q);
    case GetOp => ServedBehindGet(s, ops, reviewId, q);
  }

  lemma {:induction false} ServedBehindGet(s: State, ops: seq<Op>, reviewId: string, q: nat)
    requires Valid(s) && reviewId in s.queues && q < |s.queues[reviewId]|
    requires ops != [] && ops[0] == GetOp && CancelOp(reviewId) !in ops[1..]
    requires Gets(ops) > Rank(s, reviewId, q)
    ensures |Returned(s, ops, reviewId)| > q
    decreases |ops|, 0
  {
    if s.rotation[0] != reviewId {
      GetServesOther(s, reviewId, q);
      ServedWithinRank(Apply(s, ops[0]), ops[1..], reviewId, q);
    } else if q > 0 {
      GetServesThis(s, reviewId, q);
      ServedWithinRank(Apply(s, ops[0]), ops[1..], reviewId, q - 1);
    }
  }

  /**
  Bounded waiting: in any run without a cancellation of its review, the chunk at position `q` of a
  queue whose review is at rotation index `i` is the review's `q`-th returned chunk, and it is
  returned within `i + 1 + q * limit` gets.
  */
  lemma {:induction false} BoundedWaiting(s: State, ops: seq<Op>, reviewId: string, q: nat)
    requires Valid(s) && reviewId in s.queues && q < |s.queues[reviewId]|
    requires CancelOp(reviewId) !in ops
    requires Gets(ops) >= IndexOf(s.rotation, reviewId) + 1 + q * s.limit
    ensures q < |Returned(s, ops, reviewId)|
    ensures Returned(s, ops, reviewId)[q] == s.queues[reviewId][q]
  {
    ServedWithinRank(s, ops, reviewId, q);
    RunIsFifo(s, ops, reviewId);
    DeparturesAreReturned(s, ops, reviewId);
    var returned, left := Returned(s, ops, reviewId), QueueOf(Run(s, ops), reviewId);
    assert (returned + left)[q] == returned[q];
    assert (s.queues[reviewId] + Arrivals(s, ops, reviewId))[q] == s.queues[reviewId][q];
  }

  // ---------------------------------------------------------------------------------------------
  // The scheduler object

  class Scheduler {
    const queueLimit: nat
    var queues: map<string, seq<Chunk>>
    var rotation: seq<string>
    var size: nat

    function Fields(): State
      reads this
    {
      State(queueLimit, queues, rotation, size)
    }

    constructor (queueLimit: nat)
      ensures Valid(Fields()) && Fields() == State(queueLimit, map[], [], 0)
    {
      this.queueLimit := queueLimit;
      queues, rotation, size := map[], [], 0;
    }

    /** Accepts the chunk unless the scheduler is full. */
    method PutChunk(chunk: Chunk) returns (accepted: bool)
      requires Valid(Fields())
      modifies this
      ensures Valid(Fields())
      ensures accepted <==> old(size) < queueLimit
      ensures accepted ==> Put(old(Fields()), chunk) == Some(Fields())
      ensures !accepted ==> Fields() == old(Fields())
    {
      if size >= queueLimit {
        return false;
      }
      PutKeeps(Fields(), chunk);
      if chunk.reviewId !in queues {
        queues := queues[chunk.reviewId := []];
        rotation := rotation + [chunk.reviewId];
      }
      queues := queues[chunk.reviewId := queues[chunk.reviewId] + [chunk]];
      size := size + 1;
      assert chunk.reviewId !in old(queues) ==> queues[chunk.reviewId] == [chunk];
      assert queues == Put(old(Fields()), chunk).value.queues;
      return true;
    }

    /** Hands out the next chunk in rotation; on an empty scheduler the caller has to wait. */
    method GetChunk() returns (chunk: Option<Chunk>)
      requires Valid(Fields())
      modifies this
      ensures Valid(Fields())
      ensures chunk == Head(old(Fields()))
      ensures Fields() == if chunk.Some? then Get(old(Fields())) else old(Fields())
      ensures chunk.None? <==> old(size) == 0
    {
      AlongPositive(rotation, queues);
      if size == 0 {
        return None;
      }
      assert rotation != [];
      GetKeeps(Fields());
      var reviewId := rotation[0];
      rotation := rotation[1..];
      var queue := queues[reviewId];
      var first := queue[0];
      queue := queue[1..];
      size := size - 1;
      if queue != [] {
        queues := queues[reviewId := queue];
        rotation := rotation + [reviewId];
      } else {
        queues := queues - {reviewId};
      }
      return Some(first);
    }

    method CancelReview(reviewId: string) returns (removed: nat)
      requires Valid(Fields())
      modifies this
      ensures Valid(Fields())
      ensures Fields() == Cancel(old(Fields()), reviewId)
      ensures removed == |QueueOf(old(Fields()), reviewId)| == old(size) - size
    {
      if reviewId !in queues {
        return 0;
      }
      CancelKeeps(Fields(), reviewId);
      removed := |queues[reviewId]|;
      AlongMember(rotation, queues, reviewId);
      size := size - removed;
      rotation := Without(rotation, reviewId);
      queues := queues - {reviewId};
    }
  }
}
