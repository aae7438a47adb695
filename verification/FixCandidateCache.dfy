/**
The cache of prepared fixes (hybrid_review_service.py: `_cleanup_fix_candidates`, `_store_fix_candidate`,
`cancel_fix`).
*/
module FixCandidateCache {
  import opened Wrappers
  import opened Sorting

  const PER_OWNER: nat := 20

  const PER_REVIEW: nat := 8

  /** The parts of a prepared fix that the cache looks at. */
  datatype Prepared = Prepared(id: string, ownerId: string, reviewId: string, createdAt: int, expiresAt: int)

  // ---------------------------------------------------------------------------------------------
  // The cache as a dictionary in insertion order

  predicate DistinctIds(items: seq<Prepared>) {
    forall i, j :: 0 <= i < j < |items| ==> items[i].id != items[j].id
  }

  function IndexOf(items: seq<Prepared>, id: string): (at: Option<nat>)
    ensures at.Some? ==> at.value < |items| && items[at.value].id == id
    ensures at.None? ==> forall i :: 0 <= i < |items| ==> items[i].id != id
  {
    if items == [] then None
    else if items[0].id == id then Some(0)
    else
      var rest := IndexOf(items[1..], id);
      if rest.None? then None else Some(rest.value + 1)
  }

  /** Removing an absent key does nothing. */
  function Pop(items: seq<Prepared>, id: string): seq<Prepared> {
    var at := IndexOf(items, id);
    if at.None? then items else items[..at.value] + items[at.value + 1..]
  }

  function PopAll(items: seq<Prepared>, ids: seq<Prepared>): seq<Prepared>
    decreases |ids|
  {
    if ids == [] then items else PopAll(Pop(items, ids[0].id), ids[1..])
  }

  /** A key that is present keeps its place. */
  function Put(items: seq<Prepared>, p: Prepared): seq<Prepared> {
    var at := IndexOf(items, p.id);
    if at.None? then items + [p] else items[at.value := p]
  }

  // ---------------------------------------------------------------------------------------------
  // The operations

  function AliveAt(now: int): Prepared -> bool {
    (p: Prepared) => p.expiresAt > now
  }

  function OwnedBy(ownerId: string): Prepared -> bool {
    (p: Prepared) => p.ownerId == ownerId
  }

  function MadeFor(ownerId: string, reviewId: string): Prepared -> bool {
    (p: Prepared) => p.ownerId == ownerId && p.reviewId == reviewId
  }

  function Alive(items: seq<Prepared>, now: int): seq<Prepared> {
    Filter(AliveAt(now), items)
  }

  function OfOwner(items: seq<Prepared>, ownerId: string): seq<Prepared> {
    Filter(OwnedBy(ownerId), items)
  }

  function OfReview(items: seq<Prepared>, ownerId: string, reviewId: string): seq<Prepared> {
    Filter(MadeFor(ownerId, reviewId), items)
  }

  predicate Older(a: Prepared, b: Prepared) {
    a.createdAt <= b.createdAt
  }

  /** The oldest ones that have to go so that one more fits under the limit. */
  function Overflow(items: seq<Prepared>, limit: nat): (evicted: seq<Prepared>)
    requires limit > 0
  {
    var sorted := Sort(Older, items);
    if |sorted| >= limit then sorted[..|sorted| - limit + 1] else []
  }

  /** Both lists are drawn up before either of them is removed. */
  function Stored(items: seq<Prepared>, p: Prepared, now: int): seq<Prepared> {
    var alive := Alive(items, now);
    var ofReview := Overflow(OfReview(alive, p.ownerId, p.reviewId), PER_REVIEW);
    var ofOwner := Overflow(OfOwner(alive, p.ownerId), PER_OWNER);
    Put(PopAll(PopAll(alive, ofReview), ofOwner), p)
  }

  datatype Op =
    | Store(prepared: Prepared, now: int)
    | Cancel(ownerId: string, reviewId: string, id: string, now: int)
    | Confirm(id: string, now: int)

  function Cancelled(items: seq<Prepared>, ownerId: string, reviewId: string, id: string, now: int): seq<Prepared> {
    var alive := Alive(items, now);
    var at := IndexOf(alive, id);
    if at.Some? && alive[at.value].reviewId == reviewId && alive[at.value].ownerId == ownerId then Pop(alive, id)
    else alive
  }

  function Apply(items: seq<Prepared>, op: Op): seq<Prepared> {
    match op
    case Store(p, now) => Stored(items, p, now)
    case Cancel(ownerId, reviewId, id, now) => Cancelled(items, ownerId, reviewId, id, now)
    case Confirm(id, now) => Pop(Alive(items, now), id)
  }

  function Run(items: seq<Prepared>, ops: seq<Op>): seq<Prepared>
    decreases |ops|
  {
    if ops == [] then items else Run(Apply(items, ops[0]), ops[1..])
  }

  // ---------------------------------------------------------------------------------------------
  // Counting

  lemma {:induction false} FilterMembers<T(!new)>(keep: T -> bool, s: seq<T>)
    ensures forall x :: x in Filter(keep, s) <==> x in s && keep(x)
    decreases |s|
  {
    if s != [] {
      FilterMembers(keep, s[1..]);
      assert s == [s[0]] + s[1..];
    }
  }

  lemma {:induction false} FilterAppend<T>(keep: T -> bool, a: seq<T>, b: seq<T>)
    ensures Filter(keep, a + b) == Filter(keep, a) + Filter(keep, b)
    decreases |a|
  {
    if a == [] {
      assert a + b == b;
    } else {
      assert (a + b)[1..] == a[1..] + b;
      FilterAppend(keep, a[1..], b);
      Regroup(if keep(a[0]) then [a[0]] else [], Filter(keep, a[1..]), Filter(keep, b));
    }
  }

  lemma Regroup<T>(a: seq<T>, b: seq<T>, c: seq<T>)
    ensures a + (b + c) == (a + b) + c
  {
  }

  lemma {:induction false} FilterTwice<T>(keep: T -> bool, also: T -> bool, s: seq<T>)
    ensures Filter(keep, Filter(also, s)) == Filter(also, Filter(keep, s))
    ensures |Filter(keep, Filter(also, s))| <= |Filter(keep, s)|
    decreases |s|
  {
    if s != [] {
      FilterTwice(keep, also, s[1..]);
      FilterAppend(keep, if also(s[0]) then [s[0]] else [], Filter(also, s[1..]));
      FilterAppend(also, if keep(s[0]) then [s[0]] else [], Filter(keep, s[1..]));
    }
  }

  lemma {:induction false} FilterMiddle<T>(keep: T -> bool, a: seq<T>, x: T, b: seq<T>)
    ensures Filter(keep, a + ([x] + b)) == Filter(keep, a) + (if keep(x) then [x] else []) + Filter(keep, b)
  {
    FilterAppend(keep, a, [x] + b);
    assert ([x] + b)[1..] == b;
    Regroup(Filter(keep, a), if keep(x) then [x] else [], Filter(keep, b));
  }

  lemma {:induction false} PutFilter(keep: Prepared -> bool, items: seq<Prepared>, p: Prepared)
    ensures |Filter(keep, Put(items, p))| <= |Filter(keep, items)| + (if keep(p) then 1 else 0)
  {
    var at := IndexOf(items, p.id);
    if at.None? {
      FilterAppend(keep, items, [p]);
    } else {
      var a, x, b := items[..at.value], items[at.value], items[at.value + 1..];
      SplitAt(items, at.value);
      SplitAt(items[at.value := p], at.value);
      FilterMiddle(keep, a, x, b);
      FilterMiddle(keep, a, p, b);
    }
  }

  // ---------------------------------------------------------------------------------------------
  // Popping is filtering

  predicate HasId(items: seq<Prepared>, id: string) {
    exists i :: 0 <= i < |items| && items[i].id == id
  }

  function Without(ids: seq<Prepared>): Prepared -> bool {
    (p: Prepared) => !HasId(ids, p.id)
  }

  lemma {:induction false} FilterAll<T>(keep: T -> bool, s: seq<T>)
    requires forall i :: 0 <= i < |s| ==> keep(s[i])
    ensures Filter(keep, s) == s
    decreases |s|
  {
    if s != [] {
      FilterAll(keep, s[1..]);
    }
  }

  lemma {:induction false} FilterNone<T>(keep: T -> bool, s: seq<T>)
    requires forall i :: 0 <= i < |s| ==> !keep(s[i])
    ensures Filter(keep, s) == []
    decreases |s|
  {
    if s != [] {
      FilterNone(keep, s[1..]);
    }
  }

  lemma {:induction false} FilterSame<T(!new)>(keep: T -> bool, also: T -> bool, s: seq<T>)
    requires forall x :: x in s ==> keep(x) == also(x)
    ensures Filter(keep, s) == Filter(also, s)
    decreases |s|
  {
    if s != [] {
      assert forall x :: x in s[1..] ==> x in s;
      FilterSame(keep, also, s[1..]);
    }
  }

  lemma {:induction false} FilterBoth<T(!new)>(keep: T -> bool, also: T -> bool, both: T -> bool, s: seq<T>)
    requires forall x :: both(x) <==> keep(x) && also(x)
    ensures Filter(keep, Filter(also, s)) == Filter(both, s)
    decreases |s|
  {
    if s != [] {
      FilterBoth(keep, also, both, s[1..]);
      FilterAppend(keep, if also(s[0]) then [s[0]] else [], Filter(also, s[1..]));
    }
  }

  lemma {:induction false} FilterDistinct(keep: Prepared -> bool, items: seq<Prepared>)
    requires DistinctIds(items)
    ensures DistinctIds(Filter(keep, items))
    decreases |items|
  {
    if items != [] {
      assert DistinctIds(items[1..]);
      FilterDistinct(keep, items[1..]);
      FilterMembers(keep, items[1..]);
      forall i | 0 <= i < |Filter(keep, items[1..])| ensures Filter(keep, items[1..])[i].id != items[0].id {
        var x := Filter(keep, items[1..])[i];
        assert x in items[1..];
        var k :| 0 <= k < |items[1..]| && items[1..][k] == x;
        assert items[k + 1] == x;
      }
    }
  }

  function Other(id: string): Prepared -> bool {
    (p: Prepared) => p.id != id
  }

  lemma {:induction false} FilterOutOne<T>(keep: T -> bool, a: seq<T>, x: T, b: seq<T>)
    requires (forall i :: 0 <= i < |a| ==> keep(a[i])) && !keep(x) && (forall i :: 0 <= i < |b| ==> keep(b[i]))
    ensures Filter(keep, a + ([x] + b)) == a + b
  {
    FilterMiddle(keep, a, x, b);
    FilterAll(keep, a);
    FilterAll(keep, b);
    assert Filter(keep, a + ([x] + b)) == a + [] + b;
    assert a + [] == a;
  }

  lemma {:induction false} SplitAt<T>(s: seq<T>, k: nat)
    requires k < |s|
    ensures s == s[..k] + ([s[k]] + s[k + 1..])
  {
  }

  lemma {:induction false} PopIsFilter(items: seq<Prepared>, id: string)
    requires DistinctIds(items)
    ensures Pop(items, id) == Filter(Other(id), items)
  {
    var at := IndexOf(items, id);
    if at.None? {
      FilterAll(Other(id), items);
    } else {
      SplitAt(items, at.value);
      FilterOutOne(Other(id), items[..at.value], items[at.value], items[at.value + 1..]);
    }
  }

  lemma {:induction false} PopAllIsFilter(items: seq<Prepared>, ids: seq<Prepared>)
    requires DistinctIds(items)
    ensures PopAll(items, ids) == Filter(Without(ids), items)
    decreases |ids|
  {
    if ids == [] {
      FilterAll(Without(ids), items);
    } else {
      var keep := Other(ids[0].id);
      PopIsFilter(items, ids[0].id);
      FilterDistinct(keep, items);
      PopAllIsFilter(Pop(items, ids[0].id), ids[1..]);
      forall p: Prepared ensures HasId(ids, p.id) <==> p.id == ids[0].id || HasId(ids[1..], p.id) {
        if HasId(ids[1..], p.id) {
          var i :| 0 <= i < |ids[1..]| && ids[1..][i].id == p.id;
          assert ids[i + 1].id == p.id;
        }
        if HasId(ids, p.id) && p.id != ids[0].id {
          var i :| 0 <= i < |ids| && ids[i].id == p.id;
          assert ids[1..][i - 1].id == p.id;
        }
      }
      FilterBoth(Without(ids[1..]), keep, Without(ids), items);
    }
  }

  // ---------------------------------------------------------------------------------------------
  // Evicting the oldest makes room

  lemma {:induction false} SortKeepsCount<T>(le: (T, T) -> bool, keep: T -> bool, s: seq<T>)
    ensures |Filter(keep, Sort(le, s))| == |Filter(keep, s)|
    decreases |s|
  {
    if s != [] {
      SortKeepsCount(le, keep, s[1..]);
      InsertKeepsCount(le, keep, s[0], Sort(le, s[1..]));
    }
  }

  lemma {:induction false} InsertKeepsCount<T>(le: (T, T) -> bool, keep: T -> bool, x: T, s: seq<T>)
    ensures |Filter(keep, Insert(le, x, s))| == |Filter(keep, s)| + (if keep(x) then 1 else 0)
    decreases |s|
  {
    if s == [] || le(x, s[0]) {
      assert ([x] + s)[1..] == s;
    } else {
      InsertKeepsCount(le, keep, x, s[1..]);
      assert Insert(le, x, s)[1..] == Insert(le, x, s[1..]);
    }
  }

  lemma {:induction false} FilterShrinks<T>(keep: T -> bool, s: seq<T>)
    ensures |Filter(keep, s)| <= |s|
    decreases |s|
  {
    if s != [] {
      FilterShrinks(keep, s[1..]);
    }
  }

  lemma OverflowLeavesRoom(items: seq<Prepared>, limit: nat)
    requires limit > 0
    ensures |Filter(Without(Overflow(items, limit)), items)| < limit
  {
    var sorted, evicted := Sort(Older, items), Overflow(items, limit);
    SortPermutes(Older, items);
    if |sorted| < limit {
      FilterShrinks(Without(evicted), items);
    } else {
      var rest := sorted[|evicted|..];
      assert sorted == evicted + rest;
      SortKeepsCount(Older, Without(evicted), items);
      FilterAppend(Without(evicted), evicted, rest);
      forall i | 0 <= i < |evicted| ensures !Without(evicted)(evicted[i]) {
        assert HasId(evicted, evicted[i].id);
      }
      FilterNone(Without(evicted), evicted);
      FilterShrinks(Without(evicted), rest);
    }
  }

  ghost predicate Bounded(items: seq<Prepared>) {
    && DistinctIds(items)
    && (forall ownerId :: |OfOwner(items, ownerId)| <= PER_OWNER)
    && (forall ownerId, reviewId :: |OfReview(items, ownerId, reviewId)| <= PER_REVIEW)
  }

  lemma PutDistinct(items: seq<Prepared>, p: Prepared)
    requires DistinctIds(items)
    ensures DistinctIds(Put(items, p))
  {
  }

  /** What the two evictions leave of the candidates that have not expired. */
  function Left(items: seq<Prepared>, one: seq<Prepared>, other: seq<Prepared>): seq<Prepared> {
    Filter(Without(other), Filter(Without(one), items))
  }

  function ReviewOverflow(items: seq<Prepared>, p: Prepared, now: int): seq<Prepared> {
    Overflow(OfReview(Alive(items, now), p.ownerId, p.reviewId), PER_REVIEW)
  }

  function OwnerOverflow(items: seq<Prepared>, p: Prepared, now: int): seq<Prepared> {
    Overflow(OfOwner(Alive(items, now), p.ownerId), PER_OWNER)
  }

  lemma StoredShape(items: seq<Prepared>, p: Prepared, now: int)
    requires DistinctIds(items)
    ensures Stored(items, p, now)
            == Put(Left(Alive(items, now), ReviewOverflow(items, p, now), OwnerOverflow(items, p, now)), p)
    ensures DistinctIds(Stored(items, p, now))
  {
    var alive, one, other := Alive(items, now), ReviewOverflow(items, p, now), OwnerOverflow(items, p, now);
    FilterDistinct(AliveAt(now), items);
    PopAllIsFilter(alive, one);
    FilterDistinct(Without(one), alive);
    PopAllIsFilter(PopAll(alive, one), other);
    FilterDistinct(Without(other), PopAll(alive, one));
    PutDistinct(Left(alive, one, other), p);
  }

  lemma LeftCount(keep: Prepared -> bool, items: seq<Prepared>, one: seq<Prepared>, other: seq<Prepared>)
    ensures |Filter(keep, Left(items, one, other))| <= |Filter(keep, items)|
    ensures |Filter(keep, Left(items, one, other))| <= |Filter(Without(one), Filter(keep, items))|
    ensures |Filter(keep, Left(items, one, other))| <= |Filter(Without(other), Filter(keep, items))|
  {
    var a, b, kept := Without(one), Without(other), Filter(keep, items);
    FilterTwice(keep, b, Filter(a, items));
    FilterTwice(keep, a, items);
    assert Filter(keep, Left(items, one, other)) == Filter(b, Filter(a, kept));
    FilterTwice(b, a, kept);
    FilterShrinks(b, Filter(a, kept));
    FilterShrinks(a, Filter(b, kept));
    FilterShrinks(a, kept);
  }

  lemma StoredCount(keep: Prepared -> bool, items: seq<Prepared>, p: Prepared, now: int)
    requires DistinctIds(items)
    ensures var n := |Filter(keep, Stored(items, p, now))| - (if keep(p) then 1 else 0);
            var kept := Filter(keep, Alive(items, now));
            && n <= |Filter(keep, items)|
            && n <= |Filter(Without(ReviewOverflow(items, p, now)), kept)|
            && n <= |Filter(Without(OwnerOverflow(items, p, now)), kept)|
  {
    var alive, one, other := Alive(items, now), ReviewOverflow(items, p, now), OwnerOverflow(items, p, now);
    StoredShape(items, p, now);
    PutFilter(keep, Left(alive, one, other), p);
    LeftCount(keep, alive, one, other);
    FilterTwice(keep, AliveAt(now), items);
  }

  /** Storing keeps both limits, although both lists are drawn up before either is removed. */
  lemma StoreKeepsBounded(items: seq<Prepared>, p: Prepared, now: int)
    requires Bounded(items)
    ensures Bounded(Stored(items, p, now))
  {
    StoredShape(items, p, now);
    forall ownerId ensures |OfOwner(Stored(items, p, now), ownerId)| <= PER_OWNER {
      StoredCount(OwnedBy(ownerId), items, p, now);
      assert |OfOwner(items, ownerId)| <= PER_OWNER;
      OverflowLeavesRoom(OfOwner(Alive(items, now), p.ownerId), PER_OWNER);
    }
    forall ownerId, reviewId ensures |OfReview(Stored(items, p, now), ownerId, reviewId)| <= PER_REVIEW {
      StoredCount(MadeFor(ownerId, reviewId), items, p, now);
      assert |OfReview(items, ownerId, reviewId)| <= PER_REVIEW;
      OverflowLeavesRoom(OfReview(Alive(items, now), p.ownerId, p.reviewId), PER_REVIEW);
    }
  }

  lemma FilterKeepsBounded(keep: Prepared -> bool, items: seq<Prepared>)
    requires Bounded(items)
    ensures Bounded(Filter(keep, items))
  {
    FilterDistinct(keep, items);
    forall ownerId ensures |OfOwner(Filter(keep, items), ownerId)| <= PER_OWNER {
      FilterTwice(OwnedBy(ownerId), keep, items);
      assert |OfOwner(items, ownerId)| <= PER_OWNER;
    }
    forall ownerId, reviewId ensures |OfReview(Filter(keep, items), ownerId, reviewId)| <= PER_REVIEW {
      FilterTwice(MadeFor(ownerId, reviewId), keep, items);
      assert |OfReview(items, ownerId, reviewId)| <= PER_REVIEW;
    }
  }

  lemma PopKeepsBounded(items: seq<Prepared>, id: string)
    requires Bounded(items)
    ensures Bounded(Pop(items, id))
  {
    PopIsFilter(items, id);
    FilterKeepsBounded(Other(id), items);
  }

  // ---------------------------------------------------------------------------------------------
  // Main results

  /** After any sequence of operations every owner holds at most 20 candidates, and at most 8 for a review. */
  lemma {:induction false} RunKeepsBounded(items: seq<Prepared>, ops: seq<Op>)
    requires Bounded(items)
    ensures Bounded(Run(items, ops))
    decreases |ops|
  {
    if ops != [] {
      match ops[0] {
        case Store(p, now) =>
          StoreKeepsBounded(items, p, now);
        case Cancel(ownerId, reviewId, id, now) =>
          FilterKeepsBounded(AliveAt(now), items);
          PopKeepsBounded(Alive(items, now), id);
        case Confirm(id, now) =>
          FilterKeepsBounded(AliveAt(now), items);
          PopKeepsBounded(Alive(items, now), id);
      }
      RunKeepsBounded(Apply(items, ops[0]), ops[1..]);
    }
  }

  /** `x` is no newer than any of the survivors it competed with. */
  ghost predicate OldestAmong(x: Prepared, survivors: seq<Prepared>, p: Prepared, rivals: Prepared -> bool) {
    rivals(x) && forall y :: y in survivors && y != p && rivals(y) ==> x.createdAt <= y.createdAt
  }

  /** Whoever is evicted is among the oldest of the review or of the owner. */
  lemma EvictsTheOldest(items: seq<Prepared>, p: Prepared, now: int, x: Prepared)
    requires DistinctIds(items) && x in Alive(items, now) && x !in Stored(items, p, now) && x.id != p.id
    ensures OldestAmong(x, Stored(items, p, now), p, MadeFor(p.ownerId, p.reviewId))
         || OldestAmong(x, Stored(items, p, now), p, OwnedBy(p.ownerId))
  {
    var alive, one, other := Alive(items, now), ReviewOverflow(items, p, now), OwnerOverflow(items, p, now);
    StoredShape(items, p, now);
    FilterDistinct(AliveAt(now), items);
    PutMembers(Left(alive, one, other), p);
    FilterMembers(Without(one), alive);
    FilterMembers(Without(other), Filter(Without(one), alive));
    if HasId(one, x.id) {
      OverflowIsOldest(alive, MadeFor(p.ownerId, p.reviewId), PER_REVIEW, x);
    } else {
      OverflowIsOldest(alive, OwnedBy(p.ownerId), PER_OWNER, x);
    }
  }

  lemma PutMembers(items: seq<Prepared>, p: Prepared)
    ensures forall y :: y in Put(items, p) ==> y == p || y in items
    ensures forall y :: y in items && y.id != p.id ==> y in Put(items, p)
  {
    forall y | y in items && y.id != p.id ensures y in Put(items, p) {
      var k :| 0 <= k < |items| && items[k] == y;
      assert Put(items, p)[k] == y;
    }
  }

  lemma OverflowIsOldest(alive: seq<Prepared>, rivals: Prepared -> bool, limit: nat, x: Prepared)
    requires DistinctIds(alive) && x in alive && limit > 0
    requires HasId(Overflow(Filter(rivals, alive), limit), x.id)
    ensures rivals(x)
    ensures forall y :: y in alive && rivals(y) && !HasId(Overflow(Filter(rivals, alive), limit), y.id) ==>
              x.createdAt <= y.createdAt
  {
    var list := Filter(rivals, alive);
    var evicted := Overflow(list, limit);
    var i :| 0 <= i < |evicted| && evicted[i].id == x.id;
    FilterMembers(rivals, alive);
    OverflowMembers(list, limit);
    assert evicted[i] in evicted;
    SameId(alive, evicted[i], x);
    EvictedHaveIds(evicted);
  }

  lemma {:induction false} SortMembers(list: seq<Prepared>)
    ensures forall x :: x in Sort(Older, list) <==> x in list
  {
    SortPermutes(Older, list);
    assert forall x :: x in Sort(Older, list) <==> x in multiset(Sort(Older, list));
  }

  lemma {:induction false} EarlierIsOlder(a: seq<Prepared>, b: seq<Prepared>, e: Prepared, y: Prepared)
    requires Ordered(Older, a + b) && e in a && y in b
    ensures e.createdAt <= y.createdAt
  {
    var i :| 0 <= i < |a| && a[i] == e;
    var k :| 0 <= k < |b| && b[k] == y;
    OrderedAt(Older, a + b, i, |a| + k);
  }

  lemma {:induction false} OverflowMembers(list: seq<Prepared>, limit: nat)
    requires limit > 0
    ensures forall e :: e in Overflow(list, limit) ==> e in list
    ensures forall e, y :: e in Overflow(list, limit) && y in list && y !in Overflow(list, limit) ==>
              e.createdAt <= y.createdAt
  {
    var sorted, evicted := Sort(Older, list), Overflow(list, limit);
    var rest := sorted[|evicted|..];
    assert sorted == evicted + rest;
    SortMembers(list);
    SortOrdered(Older, list);
    forall e, y | e in evicted && y in list && y !in evicted ensures e.createdAt <= y.createdAt {
      assert y in sorted;
      EarlierIsOlder(evicted, rest, e, y);
    }
  }

  lemma EvictedHaveIds(evicted: seq<Prepared>)
    ensures forall e :: e in evicted ==> HasId(evicted, e.id)
  {
  }

  lemma SameId(items: seq<Prepared>, x: Prepared, y: Prepared)
    requires DistinctIds(items) && x in items && y in items && x.id == y.id
    ensures x == y
  {
  }

  /** Candidates of other owners stay, unless they have expired. */
  lemma OthersUntouched(items: seq<Prepared>, p: Prepared, now: int, x: Prepared)
    requires DistinctIds(items) && x in Alive(items, now) && x.ownerId != p.ownerId && x.id != p.id
    ensures x in Stored(items, p, now)
  {
    var alive, one, other := Alive(items, now), ReviewOverflow(items, p, now), OwnerOverflow(items, p, now);
    StoredShape(items, p, now);
    FilterDistinct(AliveAt(now), items);
    if HasId(one, x.id) {
      OverflowIsOldest(alive, MadeFor(p.ownerId, p.reviewId), PER_REVIEW, x);
    }
    if HasId(other, x.id) {
      OverflowIsOldest(alive, OwnedBy(p.ownerId), PER_OWNER, x);
    }
    FilterMembers(Without(one), alive);
    FilterMembers(Without(other), Filter(Without(one), alive));
    PutMembers(Left(alive, one, other), p);
  }

  // ---------------------------------------------------------------------------------------------
  // The service's own code

  class FixCandidates {
    var candidates: seq<Prepared>

    ghost predicate Valid()
      reads this
    {
      DistinctIds(candidates)
    }

    constructor ()
      ensures Valid() && candidates == []
    {
      candidates := [];
    }

    method PopEach(ids: seq<Prepared>)
      modifies this
      ensures candidates == PopAll(old(candidates), ids)
    {
      for i := 0 to |ids|
        invariant PopAll(candidates, ids[i..]) == PopAll(old(candidates), ids)
      {
        assert ids[i..][0] == ids[i] && ids[i..][1..] == ids[i + 1..];
        candidates := Pop(candidates, ids[i].id);
      }
    }

    method CleanupFixCandidates(now: int)
      requires Valid()
      modifies this
      ensures Valid() && candidates == Alive(old(candidates), now)
    {
      var expired: seq<Prepared> := [];
      for i := 0 to |candidates|
        invariant candidates == old(candidates)
        invariant expired == Filter(ExpiredAt(now), candidates[..i])
      {
        assert candidates[..i + 1] == candidates[..i] + [candidates[i]];
        FilterAppend(ExpiredAt(now), candidates[..i], [candidates[i]]);
        if candidates[i].expiresAt <= now {
          expired := expired + [candidates[i]];
        }
      }
      assert candidates[..|candidates|] == candidates;
      PopEach(expired);
      ExpiredGone(old(candidates), now);
      FilterDistinct(AliveAt(now), old(candidates));
    }

    method StoreFixCandidate(prepared: Prepared, now: int)
      requires Valid()
      modifies this
      ensures Valid() && candidates == Stored(old(candidates), prepared, now)
    {
      StoredShape(candidates, prepared, now);
      CleanupFixCandidates(now);
      var ownerItems := OfOwner(candidates, prepared.ownerId);
      var reviewItems := Filter((p: Prepared) => p.reviewId == prepared.reviewId, ownerItems);
      FilterBoth((p: Prepared) => p.reviewId == prepared.reviewId, OwnedBy(prepared.ownerId),
                 MadeFor(prepared.ownerId, prepared.reviewId), candidates);
      PopEach(Overflow(reviewItems, PER_REVIEW));
      PopEach(Overflow(ownerItems, PER_OWNER));
      candidates := Put(candidates, prepared);
    }

    method CancelFix(reviewId: string, ownerId: string, candidateId: string, now: int) returns (found: bool)
      requires Valid()
      modifies this
      ensures Valid() && candidates == Cancelled(old(candidates), ownerId, reviewId, candidateId, now)
      ensures found <==> exists p :: p in Alive(old(candidates), now) && p.id == candidateId
                                     && p.reviewId == reviewId && p.ownerId == ownerId
    {
      CleanupFixCandidates(now);
      var at := IndexOf(candidates, candidateId);
      if at.None? || candidates[at.value].reviewId != reviewId || candidates[at.value].ownerId != ownerId {
        return false;
      }
      assert candidates[at.value] in candidates;
      PopIsFilter(candidates, candidateId);
      FilterDistinct(Other(candidateId), candidates);
      candidates := Pop(candidates, candidateId);
      return true;
    }

    /** Confirming takes the candidate out before it looks at it. */
    method TakeForConfirm(candidateId: string, now: int) returns (prepared: Option<Prepared>)
      requires Valid()
      modifies this
      ensures Valid() && candidates == Pop(Alive(old(candidates), now), candidateId)
      ensures prepared.Some? ==> prepared.value in Alive(old(candidates), now) && prepared.value.id == candidateId
      ensures prepared.None? ==> forall p :: p in Alive(old(candidates), now) ==> p.id != candidateId
    {
      CleanupFixCandidates(now);
      var at := IndexOf(candidates, candidateId);
      prepared := if at.None? then None else Some(candidates[at.value]);
      PopIsFilter(candidates, candidateId);
      FilterDistinct(Other(candidateId), candidates);
      candidates := Pop(candidates, candidateId);
    }
  }

  function ExpiredAt(now: int): Prepared -> bool {
    (p: Prepared) => p.expiresAt <= now
  }

  /** Popping the ids of the expired candidates leaves those that have not expired. */
  lemma ExpiredGone(items: seq<Prepared>, now: int)
    requires DistinctIds(items)
    ensures PopAll(items, Filter(ExpiredAt(now), items)) == Alive(items, now)
  {
    var expired := Filter(ExpiredAt(now), items);
    PopAllIsFilter(items, expired);
    FilterMembers(ExpiredAt(now), items);
    forall x | x in items ensures Without(expired)(x) == AliveAt(now)(x) {
      if x.expiresAt <= now {
        assert x in expired;
        EvictedHaveIds(expired);
      } else if HasId(expired, x.id) {
        var i :| 0 <= i < |expired| && expired[i].id == x.id;
        SameId(items, expired[i], x);
      }
    }
    FilterSame(Without(expired), AliveAt(now), items);
  }
}
