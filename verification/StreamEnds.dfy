/**
How a connection of the review event stream ends, wherever the network lets it end (client.ts,
`streamReviewSession`): what the reader has then, and which event it has lost for good.
*/
module StreamEnds {
  import opened Wrappers
  import opened ReviewStore
  import opened EventBlocks
  import opened EventStream

  /** Every event's data is JSON, and no shorter part of it is. */
  ghost predicate AllWholeOnly(accepts: string -> bool, log: seq<Event>) {
    forall i :: 0 <= i < |log| ==> WholeOnly(accepts, log[i])
  }

  // ---------------------------------------------------------------------------------------------
  // Where a text cut anywhere ends

  /** The characters of the unfinished block among the first `n`. */
  function Pending(events: seq<Event>, n: nat): nat {
    if events == [] || n < |Block(events[0])| then n else Pending(events[1..], n - |Block(events[0])|)
  }

  lemma {:induction false} PartArrived(events: seq<Event>, n: nat)
    requires n <= |Encode(events)|
    ensures var m, k := Arrived(events, n), Pending(events, n);
            && (m < |events| ==>
                  k < |Block(events[m])| && Encode(events)[..n] == Encode(events[..m]) + Block(events[m])[..k])
            && (m == |events| ==> n == |Encode(events)|)
    decreases |events|
  {
    if events != [] {
      var first, rest := Block(events[0]), Encode(events[1..]);
      if n < |first| {
        assert (first + rest)[..n] == Encode(events[..0]) + first[..n];
      } else {
        var m, k := Arrived(events[1..], n - |first|), Pending(events[1..], n - |first|);
        PartArrived(events[1..], n - |first|);
        EncodeTaken(events, m);
        if m < |events| - 1 {
          assert events[1..][m] == events[m + 1];
          PartBehind(first, rest, Encode(events[1..][..m]), Block(events[m + 1])[..k], n);
        }
      }
    }
  }

  lemma {:induction false} PartBehind(first: string, rest: string, whole: string, part: string, n: nat)
    requires |first| <= n <= |first| + |rest| && rest[..n - |first|] == whole + part
    ensures (first + rest)[..n] == (first + whole) + part
  {
  }

  lemma {:induction false} EncodeTaken(events: seq<Event>, m: nat)
    requires m < |events|
    ensures Encode(events[..m + 1]) == Block(events[0]) + Encode(events[1..][..m])
  {
    assert events[..m + 1][1..] == events[1..][..m];
  }

  /** The event that a clean end behind `n` characters loses: its data line has begun and is not complete. */
  function LostBy(log: seq<Event>, last: nat, known: nat, n: nat): Option<nat> {
    var sent := Sent(log, last, known);
    var m := Arrived(sent, n);
    if m < |sent| && Quiet(log, last, last + m) && |Head(sent[m])| <= Pending(sent, n) < |Body(sent[m])|
    then Some(last + m)
    else None
  }

  /** How many events a clean end behind `n` characters hands over: a block may lack its blank line. */
  function HandedOver(sent: seq<Event>, n: nat): nat {
    var m := Arrived(sent, n);
    if m < |sent| && |Body(sent[m])| <= Pending(sent, n) then m + 1 else m
  }

  // ---------------------------------------------------------------------------------------------
  // One connection

  lemma {:induction false} TerminalStops(accepts: string -> bool, log: seq<Event>, blocks: seq<string>, r: Reader)
    requires Numbered(log) && Faithful(r, log) && GoesOn(r) && AllCarry(accepts, blocks, log, r.last)
    requires GoesOn(ConsumeAll(accepts, blocks, r))
    ensures Quiet(log, r.last, r.last + |blocks|)
    decreases |blocks|
  {
    if blocks != [] {
      var next := Consume(accepts, blocks[0], r);
      AllCarryBehind(accepts, blocks, log, r.last);
      ConsumeNext(accepts, log, blocks[0], r);
      ConsumeKeepsTerminal(accepts, blocks[1..], next);
      TerminalStops(accepts, log, blocks[1..], next);
      QuietCons(log, r.last, r.last + |blocks|);
    }
  }

  lemma {:induction false} QuietCons(log: seq<Event>, from: nat, to: nat)
    requires from < |log| && !IsTerminal(log[from].event) && Quiet(log, from + 1, to)
    ensures Quiet(log, from, to)
  {
  }

  lemma {:induction false} ConsumeKeepsTerminal(accepts: string -> bool, blocks: seq<string>, r: Reader)
    requires GoesOn(ConsumeAll(accepts, blocks, r))
    ensures GoesOn(r)
    decreases |blocks|
  {
    if blocks != [] && r.halt == Running {
      ConsumeKeepsTerminal(accepts, blocks[1..], Consume(accepts, blocks[0], r));
    }
  }

  /** A connection that loses nothing: the reader is faithful, and goes on only after a clean end. */
  ghost predicate EndsWhole(after: Reader, log: seq<Event>, last: nat, handed: nat, clean: bool) {
    && Faithful(after, log) && last <= after.last
    && (GoesOn(after) ==> clean && after.last == last + handed)
    && (after.halt == Thrown ==> !clean)
    && (after.halt == Stopped ==> 0 < after.last && log[after.last - 1].event == "cancelled")
  }

  /** A connection that loses event `m`: everything before it is handed over, its number is taken over. */
  ghost predicate EndsWithout(after: Reader, log: seq<Event>, last: nat, m: nat) {
    && last <= m < |log| && after.last == m + 1 && after.handed == Deliveries(log[..m]) && after.halt == Thrown
  }

  ghost predicate Ends(after: Reader, log: seq<Event>, last: nat, known: nat, n: nat, clean: bool) {
    match (if clean then LostBy(log, last, known, n) else None)
    case Some(m) => EndsWithout(after, log, last, m)
    case None => EndsWhole(after, log, last, HandedOver(Sent(log, last, known), n), clean)
  }

  /** The end behind `m` whole events, and behind `k` characters of one more if there is one. */
  ghost predicate EndsThere(
    after: Reader, log: seq<Event>, last: nat, m: nat, k: nat, more: bool, handed: nat, clean: bool
  ) {
    if !more || !Quiet(log, last, last + m) then EndsWhole(after, log, last, handed, clean)
    else
      last + m < |log| &&
      var e := log[last + m];
      if clean && |Head(e)| <= k < |Body(e)| then EndsWithout(after, log, last, last + m)
      else EndsWhole(after, log, last, if k < |Body(e)| then m else m + 1, clean)
  }

  /** The first `m` events sent, and the next one, are those of the log behind `last`. */
  ghost predicate StandsFor(sent: seq<Event>, log: seq<Event>, last: nat, m: nat) {
    && m <= |sent| && last + m <= |log| && sent[..m] == log[last..last + m]
    && (m < |sent| ==> last + m < |log| && sent[m] == log[last + m])
  }

  lemma SentTaken(log: seq<Event>, last: nat, known: nat, m: nat)
    requires last <= |log| && m <= |Sent(log, last, known)|
    ensures StandsFor(Sent(log, last, known), log, last, m)
  {
  }

  lemma {:induction false} BreaksInside(
    accepts: string -> bool, log: seq<Event>, m: nat, pieces: seq<string>, p: Progress, r: Reader
  )
    requires GoesOn(r) && p == ReadAll(accepts, pieces, "", r)
    requires GoesOn(p.reader) && Faithful(p.reader, log) && p.reader.last == r.last + m
    ensures EndsWhole(Received(accepts, pieces, false, r), log, r.last, m, false)
  {
    assert r.(terminal := false, halt := Running) == r;
  }

  lemma {:induction false} EndsWithin(after: Reader, log: seq<Event>, last: nat, m: nat)
    requires ReadUpTo(after, log, last + m, 0)
    ensures EndsWhole(after, log, last, m, true)
  {
  }

  /** The stream is cut inside the block of event `end`. */
  lemma {:induction false} CleanlyInside(
    accepts: string -> bool, log: seq<Event>, end: nat, k: nat, pieces: seq<string>, after: Reader, handed: nat,
    r: Reader
  )
    requires Sound(accepts, log) && Faithful(r, log) && GoesOn(r) && r.last <= end < |log|
    requires WholeOnly(accepts, log[end]) && k < |Block(log[end])| && Quiet(log, r.last, end)
    requires Concat(pieces) == Encode(log[r.last..end]) + Block(log[end])[..k]
    requires after == Received(accepts, pieces, true, r)
    ensures EndsThere(after, log, r.last, end - r.last, k, true, handed, true)
  {
    CleanEndInsideBlock(accepts, log, end, k, pieces, r);
    EndsCleanly(after, log, r.last, end, k, handed);
  }

  lemma {:induction false} BrokenInside(
    accepts: string -> bool, log: seq<Event>, end: nat, k: nat, pieces: seq<string>, after: Reader, handed: nat,
    r: Reader
  )
    requires Sound(accepts, log) && Faithful(r, log) && GoesOn(r) && r.last <= end < |log|
    requires k < |Block(log[end])| && Quiet(log, r.last, end)
    requires Concat(pieces) == Encode(log[r.last..end]) + Block(log[end])[..k]
    requires after == Received(accepts, pieces, false, r)
    ensures EndsThere(after, log, r.last, end - r.last, k, true, handed, false)
  {
    ReadToPart(accepts, log, end, k, pieces, r);
    BreaksInside(accepts, log, end - r.last, pieces, ReadAll(accepts, pieces, "", r), r);
    BrokenThere(after, log, r.last, end - r.last, k, handed);
  }

  lemma {:induction false} BrokenThere(after: Reader, log: seq<Event>, last: nat, m: nat, k: nat, handed: nat)
    requires last + m < |log| && EndsWhole(after, log, last, m, false) && Quiet(log, last, last + m)
    ensures EndsThere(after, log, last, m, k, true, handed, false)
  {
  }

  lemma {:induction false} EndsCleanly(after: Reader, log: seq<Event>, last: nat, end: nat, k: nat, handed: nat)
    requires last <= end < |log| && Quiet(log, last, end)
    requires |Head(log[end])| <= k < |Body(log[end])| <==> !Faithful(after, log)
    requires !Faithful(after, log) ==>
               after.last == end + 1 && after.handed == Deliveries(log[..end]) && after.halt == Thrown
    requires Faithful(after, log) ==> ReadUpTo(after, log, if k < |Body(log[end])| then end else end + 1, 0)
    ensures EndsThere(after, log, last, end - last, k, true, handed, true)
  {
    if Faithful(after, log) {
      EndsWithin(after, log, last, if k < |Body(log[end])| then end - last else end - last + 1);
    }
  }

  lemma {:induction false} ReadsOfText(
    accepts: string -> bool, pieces: seq<string>, blocks: seq<string>, p: Progress, r: Reader
  )
    requires Blocks(Concat(pieces)) == blocks && p == ReadAll(accepts, pieces, "", r)
    ensures p.taken <= |blocks| && p.reader == ConsumeAll(accepts, blocks[..p.taken], r)
    ensures GoesOn(p.reader) ==> p.taken == |blocks| && p.buffer == Tail(Concat(pieces))
  {
    ReadsAmountTo(accepts, pieces, r);
  }

  lemma {:induction false} ReceivedFrom(
    accepts: string -> bool, pieces: seq<string>, clean: bool, p: Progress, r: Reader
  )
    requires p == ReadAll(accepts, pieces, "", r) && GoesOn(r) && (GoesOn(p.reader) ==> p.buffer == "")
    ensures Received(accepts, pieces, clean, r)
         == if GoesOn(p.reader) && !clean then p.reader.(halt := Thrown) else p.reader
  {
    assert r.(terminal := false, halt := Running) == r;
  }

  lemma {:induction false} CarryTaken(
    accepts: string -> bool, blocks: seq<string>, log: seq<Event>, from: nat, taken: nat
  )
    requires AllCarry(accepts, blocks, log, from) && taken <= |blocks|
    ensures AllCarry(accepts, blocks[..taken], log, from)
  {
  }

  /** The reader has gone through some of the blocks that stand for the next events of the log. */
  lemma {:induction false} WentThrough(
    accepts: string -> bool, log: seq<Event>, blocks: seq<string>, taken: nat, after: Reader, r: Reader
  )
    requires Numbered(log) && Faithful(r, log) && GoesOn(r) && taken <= |blocks|
    requires AllCarry(accepts, blocks, log, r.last)
    requires after == ConsumeAll(accepts, blocks[..taken], r)
    ensures ReadUpTo(after, log, r.last, taken)
    ensures GoesOn(after) && taken == |blocks| ==> Quiet(log, r.last, r.last + |blocks|)
    ensures Quiet(log, r.last, r.last + |blocks|) ==> GoesOn(after)
  {
    CarryTaken(accepts, blocks, log, r.last, taken);
    ConsumeRest(accepts, log, blocks[..taken], r);
    if GoesOn(after) && taken == |blocks| {
      assert blocks[..taken] == blocks;
      TerminalStops(accepts, log, blocks, r);
    }
    if Quiet(log, r.last, r.last + |blocks|) {
      PlainEventsGoOn(accepts, log, blocks[..taken], r);
    }
  }

  /** Everything that was sent has arrived, or a terminal event has. */
  lemma {:induction false} EndsBehindWhole(
    accepts: string -> bool, log: seq<Event>, blocks: seq<string>, handed: nat, pieces: seq<string>, clean: bool,
    r: Reader
  )
    requires Numbered(log) && Faithful(r, log) && GoesOn(r) && AllCarry(accepts, blocks, log, r.last)
    requires Blocks(Concat(pieces)) == blocks
    requires Quiet(log, r.last, r.last + |blocks|) ==> handed == |blocks| && Tail(Concat(pieces)) == ""
    ensures EndsWhole(Received(accepts, pieces, clean, r), log, r.last, handed, clean)
  {
    var p := ReadAll(accepts, pieces, "", r);
    ReadsOfText(accepts, pieces, blocks, p, r);
    WentThrough(accepts, log, blocks, p.taken, p.reader, r);
    ReceivedFrom(accepts, pieces, clean, p, r);
    EndsFrom(log, r.last, p.taken, handed, clean, p.reader);
  }

  lemma {:induction false} EndsFrom(log: seq<Event>, last: nat, taken: nat, handed: nat, clean: bool, reader: Reader)
    requires ReadUpTo(reader, log, last, taken) && (GoesOn(reader) ==> taken == handed)
    ensures EndsWhole(if GoesOn(reader) && !clean then reader.(halt := Thrown) else reader, log, last, handed, clean)
  {
  }

  lemma {:induction false} EndsByCase(log: seq<Event>, last: nat, known: nat, n: nat, clean: bool, after: Reader)
    requires var sent := Sent(log, last, known);
             EndsThere(after, log, last, Arrived(sent, n), Pending(sent, n), Arrived(sent, n) < |sent|,
                       HandedOver(sent, n), clean)
    requires last <= |log|
    ensures Ends(after, log, last, known, n, clean)
  {
    SentTaken(log, last, known, Arrived(Sent(log, last, known), n));
  }

  /**
  The text frames into blocks that stand for the next events, with `k` characters of the event behind them if there
  is one.
  */
  ghost predicate ReadsOfLog(
    accepts: string -> bool, text: string, blocks: seq<string>, log: seq<Event>, last: nat, k: nat, more: bool
  ) {
    var end := last + |blocks|;
    && Blocks(text) == blocks && AllCarry(accepts, blocks, log, last)
    && (if more then end < |log| && k < |Block(log[end])| && text == Encode(log[last..end]) + Block(log[end])[..k]
        else Tail(text) == "")
  }

  lemma {:induction false} ArrivedOfLog(
    accepts: string -> bool, log: seq<Event>, last: nat, sent: seq<Event>, m: nat, n: nat
  )
    requires Sound(accepts, log) && AllPrintable(sent) && n <= |Encode(sent)| && m == Arrived(sent, n)
    requires StandsFor(sent, log, last, m)
    ensures |Bodies(sent[..m])| == m
    ensures ReadsOfLog(accepts, Encode(sent)[..n], Bodies(sent[..m]), log, last, Pending(sent, n), m < |sent|)
  {
    PartArrived(sent, n);
    BlocksOfEncoded(sent, n);
    BodiesCarry(accepts, log, last, last + m);
    if m == |sent| {
      AllArrived(sent, n);
    }
  }

  lemma {:induction false} AllArrived(sent: seq<Event>, n: nat)
    requires n == |Encode(sent)| && Tail(Encode(sent)) == ""
    ensures Tail(Encode(sent)[..n]) == ""
  {
    assert Encode(sent)[..n] == Encode(sent);
  }

  lemma {:induction false} EndsAt(
    accepts: string -> bool, log: seq<Event>, blocks: seq<string>, k: nat, more: bool,
    pieces: seq<string>, clean: bool, handed: nat, r: Reader
  )
    requires Sound(accepts, log) && AllWholeOnly(accepts, log) && Faithful(r, log) && GoesOn(r)
    requires ReadsOfLog(accepts, Concat(pieces), blocks, log, r.last, k, more)
    requires more || handed == |blocks|
    ensures EndsThere(Received(accepts, pieces, clean, r), log, r.last, |blocks|, k, more, handed, clean)
  {
    var after := Received(accepts, pieces, clean, r);
    if !more || !Quiet(log, r.last, r.last + |blocks|) {
      EndsBehindWhole(accepts, log, blocks, handed, pieces, clean, r);
    } else if clean {
      CleanlyInside(accepts, log, r.last + |blocks|, k, pieces, after, handed, r);
    } else {
      BrokenInside(accepts, log, r.last + |blocks|, k, pieces, after, handed, r);
    }
  }

  /** One connection, cut into any reads and ended or broken anywhere. */
  lemma {:induction false} ConnectionExactly(
    accepts: string -> bool, log: seq<Event>, known: nat, n: nat, pieces: seq<string>, clean: bool, r: Reader
  )
    requires Sound(accepts, log) && AllWholeOnly(accepts, log) && Faithful(r, log)
    requires n <= |Encode(Sent(log, r.last, known))| && Concat(pieces) == Encode(Sent(log, r.last, known))[..n]
    ensures Ends(Received(accepts, pieces, clean, r), log, r.last, known, n, clean)
  {
    var begun := r.(terminal := false, halt := Running);
    SentTaken(log, r.last, known, Arrived(Sent(log, r.last, known), n));
    EndsThereFrom(accepts, log, Sent(log, r.last, known), n, pieces, clean, begun);
    assert Received(accepts, pieces, clean, begun) == Received(accepts, pieces, clean, r);
    EndsByCase(log, r.last, known, n, clean, Received(accepts, pieces, clean, r));
  }

  lemma {:induction false} EndsThereFrom(
    accepts: string -> bool, log: seq<Event>, sent: seq<Event>, n: nat,
    pieces: seq<string>, clean: bool, r: Reader
  )
    requires Sound(accepts, log) && AllWholeOnly(accepts, log) && Faithful(r, log) && GoesOn(r)
    requires AllPrintable(sent) && StandsFor(sent, log, r.last, Arrived(sent, n)) && n <= |Encode(sent)|
    requires Concat(pieces) == Encode(sent)[..n]
    ensures EndsThere(Received(accepts, pieces, clean, r), log, r.last, Arrived(sent, n), Pending(sent, n),
                      Arrived(sent, n) < |sent|, HandedOver(sent, n), clean)
  {
    var m := Arrived(sent, n);
    ArrivedOfLog(accepts, log, r.last, sent, m, n);
    EndsAt(accepts, log, Bodies(sent[..m]), Pending(sent, n), m < |sent|, pieces, clean, HandedOver(sent, n), r);
  }

  // ---------------------------------------------------------------------------------------------
  // A reader that has lost events before

  function Behind(before: seq<Delivery>, r: Reader): Reader {
    r.(handed := before + r.handed)
  }

  lemma ConsumeBehind(accepts: string -> bool, block: string, before: seq<Delivery>, r: Reader)
    ensures Consume(accepts, block, Behind(before, r)) == Behind(before, Consume(accepts, block, r))
  {
  }

  lemma {:induction false} ConsumeAllBehind(
    accepts: string -> bool, blocks: seq<string>, before: seq<Delivery>, r: Reader
  )
    ensures ConsumeAll(accepts, blocks, Behind(before, r)) == Behind(before, ConsumeAll(accepts, blocks, r))
    decreases |blocks|
  {
    if blocks != [] && r.halt == Running {
      ConsumeBehind(accepts, blocks[0], before, r);
      ConsumeAllBehind(accepts, blocks[1..], before, Consume(accepts, blocks[0], r));
    }
  }

  lemma {:induction false} ReadAllBehind(
    accepts: string -> bool, pieces: seq<string>, buffer: string, before: seq<Delivery>, r: Reader
  )
    ensures var p := ReadAll(accepts, pieces, buffer, r);
            ReadAll(accepts, pieces, buffer, Behind(before, r)) == p.(reader := Behind(before, p.reader))
    decreases |pieces|
  {
    if pieces != [] && GoesOn(r) {
      var text := buffer + pieces[0];
      ConsumeAllBehind(accepts, Blocks(text), before, r);
      ReadAllBehind(accepts, pieces[1..], Tail(text), before, ConsumeAll(accepts, Blocks(text), r));
    }
  }

  /** What a reader has been handed earlier plays no part in what a connection does to it. */
  lemma {:induction false} ReceivedBehind(
    accepts: string -> bool, pieces: seq<string>, clean: bool, before: seq<Delivery>, r: Reader
  )
    ensures Received(accepts, pieces, clean, Behind(before, r)) == Behind(before, Received(accepts, pieces, clean, r))
  {
    var begun := r.(terminal := false, halt := Running);
    assert Behind(before, r).(terminal := false, halt := Running) == Behind(before, begun);
    ReadAllBehind(accepts, pieces, "", before, begun);
    var p := ReadAll(accepts, pieces, "", begun);
    ConsumeBehind(accepts, p.buffer, before, p.reader);
  }

  /** The first `n` events of the log as they are handed over, the lost ones left out. */
  function Kept(log: seq<Event>, n: nat, lost: set<nat>): seq<Delivery>
    requires n <= |log|
  {
    if n == 0 then []
    else
      Kept(log, n - 1, lost)
      + (if n - 1 in lost then [] else [Delivery(Some(log[n - 1].sequence), log[n - 1].event, log[n - 1].data)])
  }

  lemma {:induction false} KeptGrows(log: seq<Event>, a: nat, b: nat, lost: set<nat>)
    requires a <= b <= |log| && forall m :: a <= m < b ==> m !in lost
    ensures Kept(log, b, lost) == Kept(log, a, lost) + Deliveries(log[a..b])
    decreases b - a
  {
    if a < b {
      KeptGrows(log, a, b - 1, lost);
      assert Deliveries(log[a..b]) == Deliveries(log[a..b - 1])
        + [Delivery(Some(log[b - 1].sequence), log[b - 1].event, log[b - 1].data)];
    }
  }

  lemma {:induction false} KeptWithin(log: seq<Event>, n: nat, one: set<nat>, other: set<nat>)
    requires n <= |log| && forall m :: 0 <= m < n ==> (m in one <==> m in other)
    ensures Kept(log, n, one) == Kept(log, n, other)
  {
    if n > 0 {
      KeptWithin(log, n - 1, one, other);
    }
  }

  ghost predicate Below(lost: set<nat>, n: nat) {
    forall m :: m in lost ==> m < n
  }

  lemma {:induction false} KeptLength(log: seq<Event>, n: nat, lost: set<nat>)
    requires n <= |log|
    ensures |Kept(log, n, lost)| <= n
    ensures |Kept(log, n, lost)| == n <==> forall m :: 0 <= m < n ==> m !in lost
  {
    if n > 0 {
      KeptLength(log, n - 1, lost);
    }
  }

  /** Nothing but what the reader lost is missing: it is faithful exactly when it lost nothing. */
  lemma {:induction false} FaithfulExactly(log: seq<Event>, lost: set<nat>, r: Reader)
    requires r.last <= |log| && Below(lost, r.last) && r.handed == Kept(log, r.last, lost)
    ensures Faithful(r, log) <==> lost == {}
  {
    KeptLength(log, r.last, lost);
    if lost == {} {
      KeptGrows(log, 0, r.last, lost);
    }
    assert |Deliveries(log[..r.last])| == r.last;
    assert forall m :: m in lost ==> 0 <= m < r.last;
  }

  /** A reader that has been handed the log up to its last id, except what it has lost. */
  ghost predicate FaithfulBut(r: Reader, log: seq<Event>, lost: set<nat>) {
    r.last <= |log| && Below(lost, r.last) && r.handed == Kept(log, r.last, lost)
  }

  function Lost(log: seq<Event>, last: nat, known: nat, n: nat, clean: bool): set<nat> {
    if clean && LostBy(log, last, known, n).Some? then {LostBy(log, last, known, n).value} else {}
  }

  /** How far a connection leaves the reader, and what kind of end it was. */
  ghost predicate EndsAs(after: Reader, log: seq<Event>, last: nat, known: nat, n: nat, clean: bool) {
    && last <= after.last
    && (GoesOn(after) ==> clean && after.last == last + HandedOver(Sent(log, last, known), n))
    && (after.halt == Stopped ==> 0 < after.last <= |log| && log[after.last - 1].event == "cancelled")
  }

  lemma {:induction false} HandedBehind(log: seq<Event>, last: nat, n: nat, d: seq<Delivery>)
    requires last <= n <= |log| && Deliveries(log[..last]) + d == Deliveries(log[..n])
    ensures d == Deliveries(log[last..n])
  {
    assert d == Deliveries(log[..n])[last..];
  }

  /** Any connection, whatever has been lost before it. */
  lemma {:induction false} ConnectionFaithful(
    accepts: string -> bool, log: seq<Event>, known: nat, n: nat, pieces: seq<string>, clean: bool,
    lost: set<nat>, r: Reader
  )
    requires Sound(accepts, log) && AllWholeOnly(accepts, log) && FaithfulBut(r, log, lost)
    requires n <= |Encode(Sent(log, r.last, known))| && Concat(pieces) == Encode(Sent(log, r.last, known))[..n]
    ensures var after := Received(accepts, pieces, clean, r);
            && FaithfulBut(after, log, lost + Lost(log, r.last, known, n, clean))
            && EndsAs(after, log, r.last, known, n, clean)
  {
    var bare := r.(handed := []);
    var before := Deliveries(log[..r.last]);
    ReceivedBehind(accepts, pieces, clean, before, bare);
    ReceivedBehind(accepts, pieces, clean, r.handed, bare);
    assert Behind(r.handed, bare) == r && before + [] == before;
    ConnectionExactly(accepts, log, known, n, pieces, clean, Behind(before, bare));
    AnyReader(log, r.last, known, n, clean, lost, r.handed, Received(accepts, pieces, clean, bare));
  }

  /** What one connection does to a faithful reader carries over to one that has lost events. */
  lemma {:induction false} AnyReader(
    log: seq<Event>, last: nat, known: nat, n: nat, clean: bool, lost: set<nat>, handed: seq<Delivery>, d: Reader
  )
    requires last <= |log| && Below(lost, last) && handed == Kept(log, last, lost)
    requires Ends(Behind(Deliveries(log[..last]), d), log, last, known, n, clean)
    ensures FaithfulBut(Behind(handed, d), log, lost + Lost(log, last, known, n, clean))
    ensures EndsAs(Behind(handed, d), log, last, known, n, clean)
  {
    var more := Lost(log, last, known, n, clean);
    var end := if more == {} then d.last else LostBy(log, last, known, n).value;
    HandedBehind(log, last, end, d.handed);
    LostBehind(log, last, end, d.last, lost, more);
  }

  lemma {:induction false} LostBehind(log: seq<Event>, last: nat, end: nat, after: nat, lost: set<nat>, more: set<nat>)
    requires last <= end <= after <= |log| && Below(lost, last)
    requires (more == {} && after == end) || (more == {end} && after == end + 1)
    ensures Below(lost + more, after)
    ensures Kept(log, after, lost + more) == Kept(log, last, lost) + Deliveries(log[last..end])
  {
    KeptWithin(log, last, lost, lost + more);
    KeptGrows(log, last, end, lost + more);
  }

  // ---------------------------------------------------------------------------------------------
  // An event that is lost

  const OneEvent := Event(1, "stage", "{}")

  function IsEmptyObject(text: string): bool {
    text == "{}"
  }

  /** A log of one event, whose stream ends cleanly where its data would begin: the event is never handed over. */
  lemma {:induction false} OneEventLost(n: nat)
    requires n == |Head(OneEvent)| < |Block(OneEvent)|
    ensures var after := Received(IsEmptyObject, [Block(OneEvent)[..n]], true, Reader(0, [], false, Running));
            after.last == 1 && after.handed == []
  {
    var log, r := [OneEvent], Reader(0, [], false, Running);
    var part := Block(OneEvent)[..n];
    assert WholeOnly(IsEmptyObject, OneEvent);
    assert Concat([part]) == Encode(log[0..0]) + part;
    CleanEndInsideBlock(IsEmptyObject, log, 0, n, [part], r);
  }
}
