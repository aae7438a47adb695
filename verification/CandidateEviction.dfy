/**
When storing a fix candidate evicts more than the limits demand. Both eviction lists of
`_store_fix_candidate` are drawn up before either is removed, so two candidates can go where one would do.
*/
module CandidateEviction {
  import opened Decimal
  import opened Sorting
  import opened FixCandidateCache

  // ---------------------------------------------------------------------------------------------
  // The oldest of a list

  /** The first of the oldest candidates in the order of the cache. */
  function FirstOldest(list: seq<Prepared>): (x: Prepared)
    requires list != []
    ensures x in list
  {
    if |list| == 1 then list[0]
    else
      var later := FirstOldest(list[1..]);
      if list[0].createdAt <= later.createdAt then list[0] else later
  }

  lemma {:induction false} FirstOldestIsOldest(list: seq<Prepared>)
    requires list != []
    ensures forall y :: y in list ==> FirstOldest(list).createdAt <= y.createdAt
    decreases |list|
  {
    if |list| > 1 {
      FirstOldestIsOldest(list[1..]);
      assert list == [list[0]] + list[1..];
    }
  }

  lemma {:induction false} SortedHead(list: seq<Prepared>)
    requires list != []
    ensures Sort(Older, list) != [] && Sort(Older, list)[0] == FirstOldest(list)
    decreases |list|
  {
    if |list| > 1 {
      SortedHead(list[1..]);
    } else {
      assert list[1..] == [];
    }
  }

  /** If the oldest of a list passes a filter, it is the oldest of what passes. */
  lemma {:induction false} FirstOldestFiltered(list: seq<Prepared>, keep: Prepared -> bool)
    requires list != [] && keep(FirstOldest(list))
    ensures Filter(keep, list) != [] && FirstOldest(Filter(keep, list)) == FirstOldest(list)
    decreases |list|
  {
    FilterMembers(keep, list);
    FirstOldestIsOldest(list);
    if |list| > 1 {
      var rest := Filter(keep, list[1..]);
      FilterMembers(keep, list[1..]);
      if FirstOldest(list) == list[0] {
        assert Filter(keep, list)[1..] == rest;
        if rest != [] {
          assert FirstOldest(rest) in list[1..];
          assert FirstOldest(rest) in list;
        }
      } else {
        FirstOldestFiltered(list[1..], keep);
        if keep(list[0]) {
          assert Filter(keep, list)[1..] == rest;
        } else {
          assert Filter(keep, list) == rest;
        }
      }
    }
  }

  // ---------------------------------------------------------------------------------------------
  // What a store leaves, when the limits held before

  lemma {:induction false} OverflowOfBounded(list: seq<Prepared>, limit: nat)
    requires 0 < limit && |list| <= limit
    ensures Overflow(list, limit) == if |list| == limit then [FirstOldest(list)] else []
  {
    SortPermutes(Older, list);
    if |list| == limit {
      SortedHead(list);
    }
  }

  lemma {:induction false} RemoveNone(items: seq<Prepared>)
    ensures Filter(Without([]), items) == items
  {
    FilterAll(Without([]), items);
  }

  lemma {:induction false} WithoutOne(items: seq<Prepared>, x: Prepared)
    ensures Filter(Without([x]), items) == Filter(Other(x.id), items)
  {
    forall y ensures Without([x])(y) == Other(x.id)(y) {
      assert [x][0].id == x.id;
    }
    FilterSame(Without([x]), Other(x.id), items);
  }

  /** Removing one candidate lowers the counts it is in by one. */
  lemma {:induction false} RemoveOneCount(keep: Prepared -> bool, items: seq<Prepared>, x: Prepared)
    requires DistinctIds(items) && x in items
    ensures |Filter(keep, Filter(Other(x.id), items))| == |Filter(keep, items)| - (if keep(x) then 1 else 0)
    ensures DistinctIds(Filter(Other(x.id), items))
    ensures forall y :: y in Filter(Other(x.id), items) <==> y in items && y != x
  {
    var k :| 0 <= k < |items| && items[k] == x;
    SplitAt(items, k);
    FilterOutOne(Other(x.id), items[..k], x, items[k + 1..]);
    FilterMiddle(keep, items[..k], x, items[k + 1..]);
    FilterAppend(keep, items[..k], items[k + 1..]);
    FilterDistinct(Other(x.id), items);
    FilterMembers(Other(x.id), items);
    forall y | y in items && y.id == x.id ensures y == x {
      SameId(items, x, y);
    }
  }

  lemma {:induction false} AddOneCount(keep: Prepared -> bool, items: seq<Prepared>, x: Prepared)
    ensures |Filter(keep, items + [x])| == |Filter(keep, items)| + (if keep(x) then 1 else 0)
  {
    FilterAppend(keep, items, [x]);
    assert [x][1..] == [];
  }

  /** A fresh candidate: its id is not in the cache yet. */
  predicate IsFresh(items: seq<Prepared>, p: Prepared) {
    forall y :: y in items ==> y.id != p.id
  }

  /** The two eviction lists are full and start with different candidates. */
  predicate Crowded(alive: seq<Prepared>, p: Prepared) {
    var own, review := OfOwner(alive, p.ownerId), OfReview(alive, p.ownerId, p.reviewId);
    |own| == PER_OWNER && |review| == PER_REVIEW && FirstOldest(own) != FirstOldest(review)
  }

  /** Some live candidate is gone although keeping it would have met both limits. */
  ghost predicate OverEvicts(items: seq<Prepared>, p: Prepared, now: int) {
    exists x :: x in Alive(items, now) && x !in Stored(items, p, now) && Bounded(Stored(items, p, now) + [x])
  }

  /** The candidates removed: none, the oldest of the review, the oldest of the owner, or both. */
  function Kept(alive: seq<Prepared>, p: Prepared): seq<Prepared> {
    var own, review := OfOwner(alive, p.ownerId), OfReview(alive, p.ownerId, p.reviewId);
    var one := if |review| == PER_REVIEW then Filter(Other(FirstOldest(review).id), alive) else alive;
    if |own| == PER_OWNER then Filter(Other(FirstOldest(own).id), one) else one
  }

  lemma {:induction false} RemoveOverflow(items: seq<Prepared>, list: seq<Prepared>, limit: nat)
    requires 0 < limit && |list| <= limit
    ensures Filter(Without(Overflow(list, limit)), items)
         == if |list| == limit then Filter(Other(FirstOldest(list).id), items) else items
  {
    OverflowOfBounded(list, limit);
    if |list| == limit {
      WithoutOne(items, FirstOldest(list));
    } else {
      RemoveNone(items);
    }
  }

  lemma {:induction false} LeftIsKept(alive: seq<Prepared>, p: Prepared)
    requires Bounded(alive)
    ensures Left(alive, Overflow(OfReview(alive, p.ownerId, p.reviewId), PER_REVIEW),
                 Overflow(OfOwner(alive, p.ownerId), PER_OWNER))
         == Kept(alive, p)
  {
    var own, review := OfOwner(alive, p.ownerId), OfReview(alive, p.ownerId, p.reviewId);
    RemoveOverflow(alive, review, PER_REVIEW);
    RemoveOverflow(Filter(Without(Overflow(review, PER_REVIEW)), alive), own, PER_OWNER);
  }

  lemma {:induction false} KeptMembers(alive: seq<Prepared>, p: Prepared)
    ensures forall y :: y in Kept(alive, p) ==> y in alive
  {
    var own, review := OfOwner(alive, p.ownerId), OfReview(alive, p.ownerId, p.reviewId);
    var one := if |review| == PER_REVIEW then Filter(Other(FirstOldest(review).id), alive) else alive;
    if |review| == PER_REVIEW {
      FilterMembers(Other(FirstOldest(review).id), alive);
    }
    if |own| == PER_OWNER {
      FilterMembers(Other(FirstOldest(own).id), one);
    }
  }

  lemma {:induction false} PutFresh(items: seq<Prepared>, p: Prepared)
    requires IsFresh(items, p)
    ensures Put(items, p) == items + [p]
  {
    assert forall i :: 0 <= i < |items| ==> items[i].id != p.id;
  }

  lemma {:induction false} StoredKept(items: seq<Prepared>, p: Prepared, now: int)
    requires Bounded(items) && IsFresh(items, p)
    ensures Bounded(Alive(items, now)) && IsFresh(Alive(items, now), p)
    ensures Stored(items, p, now) == Kept(Alive(items, now), p) + [p]
  {
    var alive := Alive(items, now);
    FilterKeepsBounded(AliveAt(now), items);
    FilterMembers(AliveAt(now), items);
    StoredShape(items, p, now);
    LeftIsKept(alive, p);
    KeptMembers(alive, p);
    PutFresh(Kept(alive, p), p);
  }

  // ---------------------------------------------------------------------------------------------
  // Over-eviction, exactly

  /** The counts of the cache behind a store that removed `one` and `other`, with one of the removed put back. */
  lemma {:induction false} PutBackCount(
    alive: seq<Prepared>, kept: seq<Prepared>, p: Prepared, back: Prepared, keep: Prepared -> bool
  )
    ensures |Filter(keep, kept + [p] + [back])|
         == |Filter(keep, kept)| + (if keep(p) then 1 else 0) + (if keep(back) then 1 else 0)
  {
    AddOneCount(keep, kept + [p], back);
    AddOneCount(keep, kept, p);
  }

  /** Full lists with different heads: the owner's oldest is not of this review. */
  lemma {:induction false} OldestElsewhere(alive: seq<Prepared>, p: Prepared)
    requires Crowded(alive, p)
    ensures FirstOldest(OfOwner(alive, p.ownerId)).reviewId != p.reviewId
  {
    var own := OfOwner(alive, p.ownerId);
    FilterMembers(OwnedBy(p.ownerId), alive);
    FilterBoth(MadeFor(p.ownerId, p.reviewId), OwnedBy(p.ownerId), MadeFor(p.ownerId, p.reviewId), alive);
    if FirstOldest(own).reviewId == p.reviewId {
      FirstOldestFiltered(own, MadeFor(p.ownerId, p.reviewId));
    }
  }

  /** Then the owner's oldest could have stayed: the review's oldest has already made room for the newcomer. */
  lemma {:induction false} CrowdedOverEvicts(items: seq<Prepared>, p: Prepared, now: int)
    requires Bounded(items) && IsFresh(items, p) && Crowded(Alive(items, now), p)
    ensures OverEvicts(items, p, now)
  {
    var alive := Alive(items, now);
    var own, review := OfOwner(alive, p.ownerId), OfReview(alive, p.ownerId, p.reviewId);
    var x, r := FirstOldest(own), FirstOldest(review);
    StoredKept(items, p, now);
    OldestElsewhere(alive, p);
    FilterMembers(OwnedBy(p.ownerId), alive);
    FilterMembers(MadeFor(p.ownerId, p.reviewId), alive);
    PutBackBounded(alive, p, r, x);
    OldestGone(alive, p, r, x);
    assert Stored(items, p, now) == Filter(Other(x.id), Filter(Other(r.id), alive)) + [p];
  }

  lemma {:induction false} OldestGone(alive: seq<Prepared>, p: Prepared, r: Prepared, x: Prepared)
    requires DistinctIds(alive) && IsFresh(alive, p) && r in alive && x in alive && r != x
    ensures x !in Filter(Other(x.id), Filter(Other(r.id), alive)) + [p]
  {
    RemoveOneCount(OwnedBy(p.ownerId), alive, r);
    RemoveOneCount(OwnedBy(p.ownerId), Filter(Other(r.id), alive), x);
  }

  lemma {:induction false} PutBackBounded(alive: seq<Prepared>, p: Prepared, r: Prepared, x: Prepared)
    requires Bounded(alive) && IsFresh(alive, p) && r in alive && x in alive && r != x
    requires r.ownerId == p.ownerId && r.reviewId == p.reviewId
    ensures Bounded(Filter(Other(x.id), Filter(Other(r.id), alive)) + [p] + [x])
  {
    var one := Filter(Other(r.id), alive);
    var kept := Filter(Other(x.id), one);
    RemoveOneCount(OwnedBy(p.ownerId), alive, r);
    RemoveOneCount(OwnedBy(p.ownerId), one, x);
    DistinctBack(alive, kept, p, x);
    forall ownerId ensures |OfOwner(kept + [p] + [x], ownerId)| <= PER_OWNER {
      SwapCount(alive, p, r, x, OwnedBy(ownerId));
      assert |OfOwner(alive, ownerId)| <= PER_OWNER;
    }
    forall ownerId, reviewId ensures |OfReview(kept + [p] + [x], ownerId, reviewId)| <= PER_REVIEW {
      SwapCount(alive, p, r, x, MadeFor(ownerId, reviewId));
      assert |OfReview(alive, ownerId, reviewId)| <= PER_REVIEW;
    }
  }

  lemma {:induction false} DistinctBack(alive: seq<Prepared>, kept: seq<Prepared>, p: Prepared, x: Prepared)
    requires DistinctIds(alive) && DistinctIds(kept) && IsFresh(alive, p) && x in alive
    requires forall y :: y in kept ==> y in alive && y != x
    ensures DistinctIds(kept + [p] + [x])
  {
    forall y | y in kept ensures y.id != x.id && y.id != p.id {
      if y.id == x.id {
        SameId(alive, x, y);
      }
    }
  }

  /** A candidate leaves and one like it comes: no count changes. */
  lemma {:induction false} SwapCount(
    alive: seq<Prepared>, p: Prepared, r: Prepared, x: Prepared, keep: Prepared -> bool
  )
    requires DistinctIds(alive) && r in alive && x in alive && r != x && keep(r) == keep(p)
    ensures |Filter(keep, Filter(Other(x.id), Filter(Other(r.id), alive)) + [p] + [x])| == |Filter(keep, alive)|
  {
    var one := Filter(Other(r.id), alive);
    RemoveOneCount(keep, alive, r);
    RemoveOneCount(keep, one, x);
    PutBackCount(alive, Filter(Other(x.id), one), p, x, keep);
  }

  /** Where only one candidate had to go, it could not have stayed. */
  lemma {:induction false} OneCannotStay(alive: seq<Prepared>, p: Prepared, r: Prepared, keep: Prepared -> bool)
    requires DistinctIds(alive) && r in alive && keep(r) && keep(p)
    ensures |Filter(keep, Filter(Other(r.id), alive) + [p] + [r])| == |Filter(keep, alive)| + 1
  {
    RemoveOneCount(keep, alive, r);
    PutBackCount(alive, Filter(Other(r.id), alive), p, r, keep);
  }

  /** What is gone where one candidate was removed is that candidate, and it could not have stayed. */
  lemma {:induction false} OnlyOneGone(
    alive: seq<Prepared>, p: Prepared, x: Prepared, r: Prepared, keep: Prepared -> bool, limit: nat
  )
    requires DistinctIds(alive) && x in alive && r in alive && keep(r) && keep(p) && |Filter(keep, alive)| == limit
    requires x !in Filter(Other(r.id), alive)
    ensures |Filter(keep, Filter(Other(r.id), alive) + [p] + [x])| > limit
  {
    RemoveOneCount(keep, alive, r);
    OneCannotStay(alive, p, r, keep);
  }

  lemma {:induction false} RemoveTwice(alive: seq<Prepared>, id: string)
    ensures Filter(Other(id), Filter(Other(id), alive)) == Filter(Other(id), alive)
  {
    FilterMembers(Other(id), alive);
    FilterAll(Other(id), Filter(Other(id), alive));
  }

  lemma {:induction false} OverEvictsOnlyCrowded(items: seq<Prepared>, p: Prepared, now: int, x: Prepared)
    requires Bounded(items) && IsFresh(items, p)
    requires x in Alive(items, now) && x !in Stored(items, p, now) && Bounded(Stored(items, p, now) + [x])
    ensures Crowded(Alive(items, now), p)
  {
    var alive := Alive(items, now);
    var own, review := OfOwner(alive, p.ownerId), OfReview(alive, p.ownerId, p.reviewId);
    StoredKept(items, p, now);
    FilterMembers(OwnedBy(p.ownerId), alive);
    FilterMembers(MadeFor(p.ownerId, p.reviewId), alive);
    var stored := Stored(items, p, now) + [x];
    assert |OfOwner(stored, p.ownerId)| <= PER_OWNER && |OfReview(stored, p.ownerId, p.reviewId)| <= PER_REVIEW;
    if |own| < PER_OWNER {
      if |review| == PER_REVIEW {
        OnlyOneGone(alive, p, x, FirstOldest(review), MadeFor(p.ownerId, p.reviewId), PER_REVIEW);
      }
    } else if |review| < PER_REVIEW {
      OnlyOneGone(alive, p, x, FirstOldest(own), OwnedBy(p.ownerId), PER_OWNER);
    } else if FirstOldest(own) == FirstOldest(review) {
      RemoveTwice(alive, FirstOldest(own).id);
      OnlyOneGone(alive, p, x, FirstOldest(own), OwnedBy(p.ownerId), PER_OWNER);
    }
  }

  /** Storing evicts too much exactly when both lists are full and their oldest candidates differ. */
  lemma {:induction false} OverEvictsExactly(items: seq<Prepared>, p: Prepared, now: int)
    requires Bounded(items) && IsFresh(items, p)
    ensures OverEvicts(items, p, now) <==> Crowded(Alive(items, now), p)
  {
    if OverEvicts(items, p, now) {
      var x :| x in Alive(items, now) && x !in Stored(items, p, now) && Bounded(Stored(items, p, now) + [x]);
      OverEvictsOnlyCrowded(items, p, now, x);
    }
    if Crowded(Alive(items, now), p) {
      CrowdedOverEvicts(items, p, now);
    }
  }

  // ---------------------------------------------------------------------------------------------
  // A cache where it happens

  /** `n` live candidates of one review, made one after the other. */
  function Series(from: nat, n: nat, reviewId: string): seq<Prepared> {
    seq(n, i requires 0 <= i < n => Prepared(ToDecimal(from + i), "owner", reviewId, from + i, 100))
  }

  /** Six candidates of one review, eight of a second and six of a third. */
  function FullCache(): seq<Prepared> {
    Series(0, 6, "first") + (Series(6, 8, "second") + Series(14, 6, "third"))
  }

  lemma {:induction false} FullCacheAt(i: nat)
    requires i < 20
    ensures |FullCache()| == 20
    ensures FullCache()[i] == Prepared(
              ToDecimal(i), "owner", if i < 6 then "first" else if i < 14 then "second" else "third", i, 100)
  {
  }

  lemma {:induction false} FullCacheCounts(keep: Prepared -> bool, a: nat, b: nat, c: nat)
    requires forall i :: 0 <= i < 6 ==> (keep(Series(0, 6, "first")[i]) <==> a == 6)
    requires forall i :: 0 <= i < 8 ==> (keep(Series(6, 8, "second")[i]) <==> b == 8)
    requires forall i :: 0 <= i < 6 ==> (keep(Series(14, 6, "third")[i]) <==> c == 6)
    requires a in {0, 6} && b in {0, 8} && c in {0, 6}
    ensures |Filter(keep, FullCache())| == a + b + c
  {
    var x, y, z := Series(0, 6, "first"), Series(6, 8, "second"), Series(14, 6, "third");
    FilterAppend(keep, x, y + z);
    FilterAppend(keep, y, z);
    AllOrNone(keep, x, a == 6);
    AllOrNone(keep, y, b == 8);
    AllOrNone(keep, z, c == 6);
  }

  lemma {:induction false} AllOrNone(keep: Prepared -> bool, s: seq<Prepared>, all: bool)
    requires forall i :: 0 <= i < |s| ==> keep(s[i]) == all
    ensures |Filter(keep, s)| == if all then |s| else 0
  {
    if all {
      FilterAll(keep, s);
    } else {
      FilterNone(keep, s);
    }
  }

  lemma {:induction false} FullCacheBounded()
    ensures Bounded(FullCache())
  {
    var items := FullCache();
    forall i, j | 0 <= i < j < |items| ensures items[i].id != items[j].id {
      FullCacheAt(i);
      FullCacheAt(j);
      DecimalRoundTrip(i);
      DecimalRoundTrip(j);
    }
    forall ownerId ensures |OfOwner(items, ownerId)| <= PER_OWNER {
      var n := if ownerId == "owner" then 1 else 0;
      FullCacheCounts(OwnedBy(ownerId), 6 * n, 8 * n, 6 * n);
    }
    forall ownerId, reviewId ensures |OfReview(items, ownerId, reviewId)| <= PER_REVIEW {
      var mine := ownerId == "owner";
      FullCacheCounts(MadeFor(ownerId, reviewId), if mine && reviewId == "first" then 6 else 0,
                      if mine && reviewId == "second" then 8 else 0, if mine && reviewId == "third" then 6 else 0);
    }
  }

  lemma {:induction false} FullCacheAlive()
    ensures Alive(FullCache(), 50) == FullCache()
  {
    forall i | 0 <= i < |FullCache()| ensures AliveAt(50)(FullCache()[i]) {
      FullCacheAt(i);
    }
    FilterAll(AliveAt(50), FullCache());
  }

  /** The oldest of the second review is not as old as the oldest of the owner. */
  lemma {:induction false} FullCacheHeads(own: seq<Prepared>, review: seq<Prepared>)
    requires own == OfOwner(FullCache(), "owner") && review == OfReview(FullCache(), "owner", "second")
    requires own != [] && review != []
    ensures FirstOldest(own).createdAt <= 0 < FirstOldest(review).createdAt
  {
    FullCacheAt(0);
    FilterMembers(OwnedBy("owner"), FullCache());
    assert FullCache()[0] in own;
    FirstOldestIsOldest(own);
    FilterMembers(MadeFor("owner", "second"), FullCache());
    LaterThanFirst(FirstOldest(review));
  }

  lemma {:induction false} LaterThanFirst(head: Prepared)
    requires head in FullCache() && head.reviewId == "second"
    ensures head.createdAt > 0
  {
    var items := FullCache();
    var k :| 0 <= k < |items| && items[k] == head;
    FullCacheAt(k);
  }

  lemma {:induction false} FullCacheSizes()
    ensures |OfOwner(FullCache(), "owner")| == 20 && |OfReview(FullCache(), "owner", "second")| == 8
  {
    FullCacheCounts(OwnedBy("owner"), 6, 8, 6);
    FullCacheCounts(MadeFor("owner", "second"), 0, 8, 0);
  }

  lemma {:induction false} FullCacheCrowded(p: Prepared)
    requires p.ownerId == "owner" && p.reviewId == "second"
    ensures Crowded(FullCache(), p)
  {
    FullCacheSizes();
    FullCacheHeads(OfOwner(FullCache(), "owner"), OfReview(FullCache(), "owner", "second"));
  }

  /** A candidate for the second review pushes out the oldest of the first one too, though 19 and a newcomer make 20. */
  lemma {:induction false} FullCacheOverEvicts(p: Prepared)
    requires p.ownerId == "owner" && p.reviewId == "second" && IsFresh(FullCache(), p)
    ensures Bounded(FullCache()) && OverEvicts(FullCache(), p, 50)
  {
    FullCacheBounded();
    FullCacheAlive();
    FullCacheCrowded(p);
    OverEvictsExactly(FullCache(), p, 50);
  }
}
