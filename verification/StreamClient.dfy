/** The two ends of the review event stream as they run: the service's generator and the browser's reader. */
module StreamClient {
  import opened Wrappers
  import opened ReviewModels
  import opened ReviewStore
  import opened EventBlocks
  import opened EventStream
  import opened StreamEnds

  // ---------------------------------------------------------------------------------------------
  // The service's side (hybrid_review_service.py, `events`)

  /** What one round of the generator sees: no session any more, or its status and its log. */
  datatype Poll = Gone | Seen(status: ReviewStatus, log: seq<Event>)

  function After(log: seq<Event>, sequence: nat): seq<Event> {
    if sequence <= |log| then log[sequence..] else []
  }

  function LogAt(polls: seq<Poll>, n: nat): seq<Event>
    requires n <= |polls|
    decreases n
  {
    if n == 0 then [] else if polls[n - 1].Seen? then polls[n - 1].log else LogAt(polls, n - 1)
  }

  /** Logs only grow. */
  ghost predicate Growing(polls: seq<Poll>) {
    forall n :: 0 <= n < |polls| && polls[n].Seen? ==> Numbered(polls[n].log) && LogAt(polls, n) <= polls[n].log
  }

  /** The number the generator has reached after sending a log to someone who named `after`. */
  function NumberAfter(log: seq<Event>, after: nat): nat {
    if after <= |log| then |log| else after
  }

  lemma AfterGrowth(before: seq<Event>, log: seq<Event>, after: nat)
    requires before <= log && Numbered(log)
    ensures var events := After(log, NumberAfter(before, after));
            && After(log, after) == After(before, after) + events
            && NumberAfter(log, after)
               == (if events == [] then NumberAfter(before, after) else events[|events| - 1].sequence)
  {
  }

  /** What the reader is said to be sent is what the generator yields when it has seen the first `known` events. */
  lemma {:induction false} SentIsAfter(log: seq<Event>, last: nat, known: nat)
    requires known <= |log|
    ensures Sent(log, last, known) == After(log[..known], last)
  {
    if last <= known {
      assert log[..known][last..] == log[last..known];
    }
  }

  lemma {:induction false} SentOnceSeen(seen: seq<Event>, last: nat)
    ensures forall log :: seen <= log ==> Sent(log, last, |seen|) == After(seen, last)
  {
    forall log: seq<Event> | seen <= log ensures Sent(log, last, |seen|) == After(seen, last) {
      SentIsAfter(log, last, |seen|);
      assert log[..|seen|] == seen;
    }
  }

  method YieldAll(events: seq<Event>, from: nat) returns (yielded: seq<Event>, sequence: nat)
    ensures yielded == events && sequence == if events == [] then from else events[|events| - 1].sequence
  {
    yielded, sequence := [], from;
    for i := 0 to |events|
      invariant yielded == events[..i] && sequence == if i == 0 then from else events[i - 1].sequence
    {
      sequence := events[i].sequence;
      yielded := yielded + [events[i]];
    }
  }

  /**
  The generator yields what the log holds behind `after`, in order, and ends only when the review is final and
  nothing is left. That is what a reader who names `after` is sent out of any log that has grown from it.
  */
  method Events(after: nat, polls: seq<Poll>) returns (yielded: seq<Event>, rounds: nat)
    requires Growing(polls)
    ensures rounds <= |polls| && yielded == After(LogAt(polls, rounds), after)
    ensures forall log :: LogAt(polls, rounds) <= log ==> yielded == Sent(log, after, |LogAt(polls, rounds)|)
    ensures rounds < |polls| ==>
              polls[rounds].Gone? || (IsFinal(polls[rounds].status) && yielded == After(polls[rounds].log, after))
  {
    yielded, rounds := [], 0;
    var sequence := after;
    ghost var known: seq<Event> := [];
    while rounds < |polls|
      invariant rounds <= |polls| && known == LogAt(polls, rounds)
      invariant yielded == After(known, after) && sequence == NumberAfter(known, after)
    {
      SentOnceSeen(known, after);
      if polls[rounds].Gone? {
        return;
      }
      var log := polls[rounds].log;
      AfterGrowth(known, log, after);
      known := log;
      var events := After(log, sequence);
      var sent;
      sent, sequence := YieldAll(events, sequence);
      yielded := yielded + sent;
      if IsFinal(polls[rounds].status) && events == [] {
        return;
      }
      rounds := rounds + 1;
    }
    SentOnceSeen(known, after);
  }

  // ---------------------------------------------------------------------------------------------
  // The browser's side (client.ts, `streamReviewSession`)

  /** Asking for the session: its status, or an error with an HTTP status, 0 for none. */
  datatype Snapshot = Found(status: ReviewStatus) | Failed(code: nat)

  /** How one pass through the connecting loop goes, as far as the network and the caller's signal decide it. */
  datatype Link =
    | Aborted
    | Refused(code: nat)
    | Opened(known: nat, received: nat, cuts: seq<nat>, clean: bool, closes: bool, aborted: bool, snapshot: Snapshot)

  datatype Outcome =
    | TerminalSeen(snapshot: Snapshot)
    | CancelledSeen
    | StreamEnded(status: ReviewStatus)
    | SignalAborted
    | ApiFailure(code: nat)
    | ReturnedLate(status: ReviewStatus)
    | Exhausted

  const MAX_RECONNECTS := 4

  function Cut(text: string, cuts: seq<nat>): seq<string>
    decreases |cuts|
  {
    if cuts == [] then [text]
    else
      var k := if cuts[0] <= |text| then cuts[0] else |text|;
      [text[..k]] + Cut(text[k..], cuts[1..])
  }

  lemma {:induction false} CutConcat(text: string, cuts: seq<nat>)
    ensures Concat(Cut(text, cuts)) == text
    decreases |cuts|
  {
    if cuts == [] {
    } else {
      var k := if cuts[0] <= |text| then cuts[0] else |text|;
      CutConcat(text[k..], cuts[1..]);
      assert Cut(text, cuts)[1..] == Cut(text[k..], cuts[1..]);
      assert text[..k] + text[k..] == text;
    }
  }

  /** How much of what the server sent arrives. */
  function Extent(log: seq<Event>, last: nat, link: Link): nat
    requires link.Opened?
  {
    var text := Encode(Sent(log, last, link.known));
    if |text| <= link.received then |text| else link.received
  }

  /** The reads of an opened connection. */
  function ReadsOf(log: seq<Event>, last: nat, link: Link): seq<string>
    requires link.Opened?
  {
    Cut(Encode(Sent(log, last, link.known))[..Extent(log, last, link)], link.cuts)
  }

  /** The number a pass through the loop reaches, and the events it loses. */
  function Advanced(accepts: string -> bool, log: seq<Event>, last: nat, link: Link): nat {
    if link.Opened? then Received(accepts, ReadsOf(log, last, link), link.clean, Reader(last, [], false, Running)).last
    else last
  }

  function LostIn(log: seq<Event>, last: nat, link: Link): set<nat> {
    if link.Opened? then Lost(log, last, link.known, Extent(log, last, link), link.clean) else {}
  }

  /** The number reached, and the events lost, over the first `n` passes. */
  function LastAfter(accepts: string -> bool, log: seq<Event>, links: nat -> Link, n: nat): nat {
    if n == 0 then 0 else Advanced(accepts, log, LastAfter(accepts, log, links, n - 1), links(n - 1))
  }

  function LostOver(accepts: string -> bool, log: seq<Event>, links: nat -> Link, n: nat): set<nat> {
    if n == 0 then {}
    else LostOver(accepts, log, links, n - 1) + LostIn(log, LastAfter(accepts, log, links, n - 1), links(n - 1))
  }

  /** All that arrived of this connection has been handed over. */
  predicate Drained(link: Link, log: seq<Event>, before: nat, last: nat) {
    link.Opened? && last == before + HandedOver(Sent(log, before, link.known), Extent(log, before, link))
  }

  lemma ReadOne(accepts: string -> bool, pieces: seq<string>, i: nat, buffer: string, r: Reader)
    requires i < |pieces| && GoesOn(r)
    ensures ReadAll(accepts, pieces[i..], buffer, r).(taken := 0)
         == ReadAll(accepts, pieces[i + 1..], Tail(buffer + pieces[i]),
                    ConsumeAll(accepts, Blocks(buffer + pieces[i]), r)).(taken := 0)
  {
    assert pieces[i..][0] == pieces[i] && pieces[i..][1..] == pieces[i + 1..];
  }

  class Client {
    const accepts: string -> bool
    var lastEventId: nat
    var handed: seq<Delivery>
    var buffer: string
    var terminalEvent: bool

    constructor (accepts: string -> bool)
      ensures this.accepts == accepts
    {
      this.accepts := accepts;
      lastEventId, handed, buffer, terminalEvent := 0, [], "", false;
    }

    function View(halt: Halt): Reader
      reads this
    {
      Reader(lastEventId, handed, terminalEvent, halt)
    }

    method Consume(block: string) returns (halt: Halt)
      modifies this`lastEventId, this`handed, this`terminalEvent
      ensures View(halt) == EventStream.Consume(accepts, block, old(View(Running)))
    {
      var lines := Split(block);
      var idLine := FirstWith(lines, "id:");
      var eventLine := FirstWith(lines, "event:");
      var dataLine := FirstWith(lines, "data:");
      if eventLine.None? || dataLine.None? {
        return Running;
      }
      if idLine.Some? {
        var parsedId := SafeInteger(Trim(idLine.value[3..]));
        if parsedId.Some? && parsedId.value > lastEventId {
          lastEventId := parsedId.value;
        }
      }
      var event := Trim(eventLine.value[6..]);
      var data := Trim(dataLine.value[5..]);
      if !accepts(data) {
        return Thrown;
      }
      handed := handed + [Delivery(if lastEventId > 0 then Some(lastEventId) else None, event, data)];
      if event == "cancelled" {
        return Stopped;
      }
      if event == "complete" || event == "error" {
        terminalEvent := true;
      }
      return Running;
    }

    /** The inner loop: consume every complete block in the buffer. */
    method Drain() returns (halt: Halt)
      modifies this
      ensures View(halt) == ConsumeAll(accepts, Blocks(old(buffer)), old(View(Running)))
      ensures halt == Running ==> buffer == Tail(old(buffer))
    {
      halt := Running;
      var boundary := Boundary(buffer);
      while boundary.Some?
        invariant halt == Running && boundary == Boundary(buffer)
        invariant Tail(buffer) == Tail(old(buffer))
        invariant ConsumeAll(accepts, Blocks(buffer), View(halt))
                  == ConsumeAll(accepts, Blocks(old(buffer)), old(View(Running)))
        decreases |buffer|
      {
        ghost var begun := View(Running);
        var block, rest := buffer[..boundary.value], buffer[boundary.value + 2..];
        assert Blocks(buffer) == [block] + Blocks(rest);
        halt := Consume(block);
        assert ConsumeAll(accepts, [block] + Blocks(rest), begun) == ConsumeAll(accepts, Blocks(rest), View(halt));
        if halt != Running {
          return;
        }
        buffer := rest;
        boundary := Boundary(buffer);
      }
    }

    /** The reading loop of one connection. */
    method Receive(pieces: seq<string>, clean: bool) returns (halt: Halt)
      modifies this
      ensures View(halt) == Received(accepts, pieces, clean, old(View(Running)))
    {
      buffer, terminalEvent, halt := "", false, Running;
      ghost var whole := ReadAll(accepts, pieces, "", View(Running));
      var i := 0;
      while i < |pieces| && !terminalEvent
        invariant i <= |pieces| && halt == Running
        invariant ReadAll(accepts, pieces[i..], buffer, View(Running)).(taken := 0) == whole.(taken := 0)
      {
        ghost var begun := View(Running);
        ReadOne(accepts, pieces, i, buffer, begun);
        buffer := buffer + pieces[i];
        halt := Drain();
        if halt != Running {
          return;
        }
        i := i + 1;
      }
      if terminalEvent {
        return;
      }
      if !clean {
        return Thrown;
      }
      if Trim(buffer) != "" {
        halt := Consume(buffer);
      }
    }

    /** The reads of one connection, against the log they come from. */
    method ReceiveFrom(log: seq<Event>, link: Link, ghost lost: set<nat>) returns (halt: Halt)
      requires Sound(accepts, log) && AllWholeOnly(accepts, log) && FaithfulBut(View(Running), log, lost)
      requires link.Opened?
      modifies this
      ensures FaithfulBut(View(halt), log, lost + LostIn(log, old(lastEventId), link))
      ensures lastEventId == Advanced(accepts, log, old(lastEventId), link)
      ensures EndsAs(View(halt), log, old(lastEventId), link.known, Extent(log, old(lastEventId), link), link.clean)
      ensures terminalEvent ==> HasTerminal(handed)
    {
      ghost var begun := View(Running);
      var pieces := ReadsOf(log, lastEventId, link);
      CutConcat(Encode(Sent(log, lastEventId, link.known))[..Extent(log, lastEventId, link)], link.cuts);
      ConnectionFaithful(accepts, log, link.known, Extent(log, lastEventId, link), pieces, link.clean, lost, begun);
      AdvancedFrom(accepts, log, link, begun);
      TerminalHanded(accepts, pieces, link.clean, begun);
      halt := Receive(pieces, link.clean);
    }

    /** One pass through the connecting loop: its outcome, or none when the browser will try again. */
    method Connect(log: seq<Event>, link: Link, ghost lost: set<nat>) returns (outcome: Option<Outcome>)
      requires Sound(accepts, log) && AllWholeOnly(accepts, log) && FaithfulBut(View(Running), log, lost)
      modifies this
      ensures FaithfulBut(View(Running), log, lost + LostIn(log, old(lastEventId), link))
      ensures lastEventId == Advanced(accepts, log, old(lastEventId), link)
      ensures outcome.Some? ==> Explained(outcome.value, old(lastEventId), View(Running), log, link)
      ensures outcome.Some? ==> !outcome.value.ReturnedLate? && !outcome.value.Exhausted?
    {
      assert lost + {} == lost;
      if link.Aborted? {
        return Some(SignalAborted);
      }
      if link.Refused? {
        return if link.code > 0 then Some(ApiFailure(link.code)) else None;
      }
      var halt := ReceiveFrom(log, link, lost);
      if halt == Stopped {
        return Some(CancelledSeen);
      }
      if halt == Running && terminalEvent && link.closes {
        return Some(TerminalSeen(link.snapshot));
      }
      if halt == Running && !terminalEvent && link.snapshot.Found? {
        return if IsFinal(link.snapshot.status) then Some(StreamEnded(link.snapshot.status)) else None;
      }
      // What is left threw: the stream, closing it, or asking for the session.
      if link.aborted {
        return Some(SignalAborted);
      }
      if halt == Running && !terminalEvent && link.snapshot.code > 0 {
        return Some(ApiFailure(link.snapshot.code));
      }
      return None;
    }

    /** One pass among those of a session. */
    method Pass(log: seq<Event>, links: nat -> Link, n: nat) returns (outcome: Option<Outcome>)
      requires Sound(accepts, log) && AllWholeOnly(accepts, log) && Reached(accepts, log, links, n, View(Running))
      modifies this
      ensures Reached(accepts, log, links, n + 1, View(Running))
      ensures outcome.Some? ==> EndedBy(outcome.value, accepts, log, links, n + 1, View(Running))
    {
      outcome := Connect(log, links(n), LostOver(accepts, log, links, n));
    }

    /** The connecting loop, up to an outcome or the last allowed pass. */
    method ConnectAll(log: seq<Event>, links: nat -> Link) returns (outcome: Option<Outcome>, connections: nat)
      requires Sound(accepts, log) && AllWholeOnly(accepts, log)
      modifies this
      ensures 0 < connections <= MAX_RECONNECTS + 1 && (outcome.None? ==> connections == MAX_RECONNECTS + 1)
      ensures Reached(accepts, log, links, connections, View(Running))
      ensures outcome.Some? ==> EndedBy(outcome.value, accepts, log, links, connections, View(Running))
    {
      lastEventId, handed, connections, outcome := 0, [], 0, None;
      while outcome.None? && connections <= MAX_RECONNECTS
        invariant connections <= MAX_RECONNECTS + 1 && (connections == 0 ==> outcome.None?)
        invariant Reached(accepts, log, links, connections, View(Running))
        invariant outcome.Some? ==> EndedBy(outcome.value, accepts, log, links, connections, View(Running))
        decreases MAX_RECONNECTS + 1 - connections, outcome.None?
      {
        outcome := Pass(log, links, connections);
        connections := connections + 1;
      }
    }

    /**
    Whatever the network does, the numbered events handed over are the log up to the last id, each once and in
    order, except the events lost where a connection ended cleanly inside an unfinished data line.
    */
    method StreamReviewSession(
      log: seq<Event>, links: nat -> Link, late: Snapshot
    ) returns (outcome: Outcome, connections: nat)
      requires Sound(accepts, log) && AllWholeOnly(accepts, log)
      modifies this
      ensures 0 < connections <= MAX_RECONNECTS + 1
      ensures Reached(accepts, log, links, connections, View(Running))
      ensures Faithful(View(Running), log) <==> LostOver(accepts, log, links, connections) == {}
      ensures outcome.ReturnedLate? || outcome.Exhausted? ==> connections == MAX_RECONNECTS + 1
      ensures Explained(outcome, LastAfter(accepts, log, links, connections - 1), View(Running), log,
                        links(connections - 1))
    {
      var ended;
      ended, connections := ConnectAll(log, links);
      ReachedExactly(accepts, log, links, connections, View(Running));
      if ended.Some? {
        return ended.value, connections;
      }
      outcome := GiveUp(late);
    }

    method GiveUp(late: Snapshot) returns (outcome: Outcome)
      ensures outcome == if late.Found? && IsFinal(late.status) then ReturnedLate(late.status)
                         else if late.Failed? && late.code == 401 then ApiFailure(401)
                         else Exhausted
    {
      if late.Found? && IsFinal(late.status) {
        return ReturnedLate(late.status);
      }
      if late.Failed? && late.code == 401 {
        return ApiFailure(401);
      }
      return Exhausted;
    }
  }

  /** The reader after `n` passes: its number, and everything up to it but for what these passes have lost. */
  ghost predicate Reached(accepts: string -> bool, log: seq<Event>, links: nat -> Link, n: nat, r: Reader) {
    r.last == LastAfter(accepts, log, links, n) && FaithfulBut(r, log, LostOver(accepts, log, links, n))
  }

  /** The outcome of the last of `n` passes. */
  ghost predicate EndedBy(
    outcome: Outcome, accepts: string -> bool, log: seq<Event>, links: nat -> Link, n: nat, r: Reader
  )
    requires n > 0
  {
    && !outcome.ReturnedLate? && !outcome.Exhausted?
    && Explained(outcome, LastAfter(accepts, log, links, n - 1), r, log, links(n - 1))
  }

  lemma ReachedExactly(accepts: string -> bool, log: seq<Event>, links: nat -> Link, n: nat, r: Reader)
    requires Reached(accepts, log, links, n, r)
    ensures Faithful(r, log) <==> LostOver(accepts, log, links, n) == {}
  {
    FaithfulExactly(log, LostOver(accepts, log, links, n), r);
  }

  /** What an outcome says about the events handed over, the last pass having begun with `before`. */
  ghost predicate Explained(outcome: Outcome, before: nat, r: Reader, log: seq<Event>, link: Link) {
    && (outcome.TerminalSeen? ==> HasTerminal(r.handed))
    && (outcome.CancelledSeen? ==> 0 < r.last <= |log| && log[r.last - 1].event == "cancelled")
    && (outcome.StreamEnded? ==> Drained(link, log, before, r.last))
  }

  lemma {:induction false} AdvancedFrom(accepts: string -> bool, log: seq<Event>, link: Link, r: Reader)
    requires link.Opened?
    ensures Received(accepts, ReadsOf(log, r.last, link), link.clean, r).last == Advanced(accepts, log, r.last, link)
  {
    var bare := r.(handed := []);
    assert Behind(r.handed, bare) == r;
    ReceivedBehind(accepts, ReadsOf(log, r.last, link), link.clean, r.handed, bare);
  }

  /** A connection that ends with the terminal flag set has handed over a terminal event. */
  lemma TerminalHanded(accepts: string -> bool, pieces: seq<string>, clean: bool, r: Reader)
    ensures Received(accepts, pieces, clean, r).terminal ==> HasTerminal(Received(accepts, pieces, clean, r).handed)
  {
    var begun := r.(terminal := false, halt := Running);
    var p := ReadAll(accepts, pieces, "", begun);
    ReadsAmountTo(accepts, pieces, begun);
    ConsumeAllGrows(accepts, Blocks(Concat(pieces))[..p.taken], begun);
    if GoesOn(p.reader) && clean {
      ConsumeGrows(accepts, p.buffer, p.reader);
    }
  }
}
