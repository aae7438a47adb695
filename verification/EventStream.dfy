/**
Reading the review event stream (client.ts, `streamReviewSession`): what a block does to the reader,
what a connection does, and why any number of reconnects hands over every numbered event once.
`accepts` stands for JSON.parse succeeding.
*/
module EventStream {
  import opened Wrappers
  import opened Decimal
  import opened ReviewStore
  import opened EventBlocks

  datatype Delivery = Delivery(id: Option<nat>, event: string, data: string)

  /** Going on; thrown out by a text that is not JSON; stopped by a `cancelled` event. */
  datatype Halt = Running | Thrown | Stopped

  datatype Reader = Reader(last: nat, handed: seq<Delivery>, terminal: bool, halt: Halt)

  // ---------------------------------------------------------------------------------------------
  // What a block and a text do to the reader

  /** The id is taken over before the data is parsed. */
  function Consume(accepts: string -> bool, block: string, r: Reader): Reader {
    var parsed := Parse(block);
    if parsed.None? then r
    else
      var Parsed(id, event, data) := parsed.value;
      var last := if id.Some? && id.value > r.last then id.value else r.last;
      if !accepts(data) then r.(last := last, halt := Thrown)
      else
        var handed := r.handed + [Delivery(if last > 0 then Some(last) else None, event, data)];
        if event == "cancelled" then Reader(last, handed, r.terminal, Stopped)
        else Reader(last, handed, r.terminal || event == "complete" || event == "error", Running)
  }

  function ConsumeAll(accepts: string -> bool, blocks: seq<string>, r: Reader): Reader
    decreases |blocks|
  {
    if blocks == [] || r.halt != Running then r else ConsumeAll(accepts, blocks[1..], Consume(accepts, blocks[0], r))
  }

  /** The reader, the unframed rest, and how many blocks it has gone through. */
  datatype Progress = Progress(reader: Reader, buffer: string, taken: nat)

  predicate GoesOn(r: Reader) {
    r.halt == Running && !r.terminal
  }

  /** Reads are taken until one of them brought a terminal event or threw. */
  function ReadAll(accepts: string -> bool, pieces: seq<string>, buffer: string, r: Reader): Progress
    decreases |pieces|
  {
    if pieces == [] || !GoesOn(r) then Progress(r, buffer, 0)
    else
      var text := buffer + pieces[0];
      var next := ReadAll(accepts, pieces[1..], Tail(text), ConsumeAll(accepts, Blocks(text), r));
      next.(taken := |Blocks(text)| + next.taken)
  }

  function Concat(pieces: seq<string>): string {
    if pieces == [] then "" else pieces[0] + Concat(pieces[1..])
  }

  /** A connection that ends cleanly parses what is left; one that breaks throws. */
  function Received(accepts: string -> bool, pieces: seq<string>, clean: bool, r: Reader): Reader {
    var p := ReadAll(accepts, pieces, "", r.(terminal := false, halt := Running));
    if !GoesOn(p.reader) then p.reader
    else if !clean then p.reader.(halt := Thrown)
    else if Trim(p.buffer) != "" then Consume(accepts, p.buffer, p.reader)
    else p.reader
  }

  // ---------------------------------------------------------------------------------------------
  // Reading in pieces is reading a prefix of the blocks

  lemma {:induction false} ConsumeAllAppend(accepts: string -> bool, a: seq<string>, b: seq<string>, r: Reader)
    ensures ConsumeAll(accepts, a + b, r) == ConsumeAll(accepts, b, ConsumeAll(accepts, a, r))
    decreases |a|
  {
    if a == [] {
      assert a + b == b;
    } else if r.halt == Running {
      assert (a + b)[1..] == a[1..] + b;
      ConsumeAllAppend(accepts, a[1..], b, Consume(accepts, a[0], r));
    }
  }

  lemma ConsumePrefix(accepts: string -> bool, a: seq<string>, b: seq<string>, k: nat, r: Reader)
    requires k <= |b|
    ensures ConsumeAll(accepts, (a + b)[..|a| + k], r) == ConsumeAll(accepts, b[..k], ConsumeAll(accepts, a, r))
  {
    assert (a + b)[..|a| + k] == a + b[..k];
    ConsumeAllAppend(accepts, a, b[..k], r);
  }

  /** The reading amounts to a prefix of the blocks, all of them unless it stopped. */
  ghost predicate AmountsTo(accepts: string -> bool, p: Progress, blocks: seq<string>, tail: string, r: Reader) {
    && p.taken <= |blocks|
    && p.reader == ConsumeAll(accepts, blocks[..p.taken], r)
    && (GoesOn(p.reader) ==> p.taken == |blocks| && p.buffer == tail)
  }

  lemma AmountsBehind(accepts: string -> bool, p: Progress, a: seq<string>, b: seq<string>, tail: string, r: Reader)
    requires AmountsTo(accepts, p, b, tail, ConsumeAll(accepts, a, r))
    ensures AmountsTo(accepts, p.(taken := |a| + p.taken), a + b, tail, r)
  {
    ConsumePrefix(accepts, a, b, p.taken, r);
  }

  /**
  Whatever the cuts, the reads amount to a prefix of the text's blocks, the whole of it unless the reading stopped.
  */
  lemma {:induction false} ReadAllStep(accepts: string -> bool, pieces: seq<string>, buffer: string, r: Reader)
    requires pieces != [] && GoesOn(r)
    ensures var text := buffer + pieces[0];
            var next := ReadAll(accepts, pieces[1..], Tail(text), ConsumeAll(accepts, Blocks(text), r));
            ReadAll(accepts, pieces, buffer, r) == next.(taken := |Blocks(text)| + next.taken)
  {
  }

  lemma {:induction false} ReadAllIsPrefix(
    accepts: string -> bool, pieces: seq<string>, buffer: string, whole: string, r: Reader
  )
    requires Boundary(buffer).None? && whole == buffer + Concat(pieces)
    ensures AmountsTo(accepts, ReadAll(accepts, pieces, buffer, r), Blocks(whole), Tail(whole), r)
    decreases |pieces|
  {
    if pieces == [] {
      assert whole == buffer;
    } else if GoesOn(r) {
      var text, rest := buffer + pieces[0], Concat(pieces[1..]);
      ConcatStep(buffer, pieces);
      assert whole == text + rest;
      OneRead(accepts, pieces, buffer, text, rest, ReadAll(accepts, pieces, buffer, r), r);
    }
  }

  lemma {:induction false} OneRead(
    accepts: string -> bool, pieces: seq<string>, buffer: string, text: string, rest: string, p: Progress, r: Reader
  )
    requires pieces != [] && GoesOn(r) && text == buffer + pieces[0] && rest == Concat(pieces[1..])
    requires p == ReadAll(accepts, pieces, buffer, r)
    ensures AmountsTo(accepts, p, Blocks(text + rest), Tail(text + rest), r)
    decreases |pieces|, 0
  {
    var mid := ConsumeAll(accepts, Blocks(text), r);
    var next := ReadAll(accepts, pieces[1..], Tail(text), mid);
    ReadAllStep(accepts, pieces, buffer, r);
    assert p == next.(taken := |Blocks(text)| + next.taken);
    TailHasNoBlock(text);
    ReadAllIsPrefix(accepts, pieces[1..], Tail(text), Tail(text) + rest, mid);
    AfterOneRead(accepts, text, rest, next, r);
  }

  lemma ConcatStep(buffer: string, pieces: seq<string>)
    requires pieces != []
    ensures buffer + Concat(pieces) == buffer + pieces[0] + Concat(pieces[1..])
  {
    assert Concat(pieces) == pieces[0] + Concat(pieces[1..]);
  }

  lemma AfterOneRead(accepts: string -> bool, text: string, rest: string, next: Progress, r: Reader)
    requires AmountsTo(accepts, next, Blocks(Tail(text) + rest), Tail(Tail(text) + rest),
                       ConsumeAll(accepts, Blocks(text), r))
    ensures AmountsTo(accepts, next.(taken := |Blocks(text)| + next.taken), Blocks(text + rest), Tail(text + rest), r)
  {
    BlocksAppend(text, rest);
    AmountsBehind(accepts, next, Blocks(text), Blocks(Tail(text) + rest), Tail(text + rest), r);
  }

  lemma ReadsAmountTo(accepts: string -> bool, pieces: seq<string>, r: Reader)
    ensures AmountsTo(accepts, ReadAll(accepts, pieces, "", r), Blocks(Concat(pieces)), Tail(Concat(pieces)), r)
  {
    var whole := Concat(pieces);
    assert whole == "" + whole;
    ReadAllIsPrefix(accepts, pieces, "", whole, r);
  }

  predicate IsTerminal(event: string) {
    event == "complete" || event == "error" || event == "cancelled"
  }

  /** No event from `from` on and before `to` ends the reading. */
  predicate Quiet(log: seq<Event>, from: nat, to: nat) {
    forall i :: from <= i < to && i < |log| ==> !IsTerminal(log[i].event)
  }

  predicate HasTerminal(handed: seq<Delivery>) {
    exists i :: 0 <= i < |handed| && IsTerminal(handed[i].event)
  }

  /** What is handed over up to the first terminal event, that one included. */
  function UpToTerminal(handed: seq<Delivery>): seq<Delivery> {
    if handed == [] then []
    else if IsTerminal(handed[0].event) then [handed[0]]
    else [handed[0]] + UpToTerminal(handed[1..])
  }

  lemma {:induction false} UpToTerminalSettled(a: seq<Delivery>, b: seq<Delivery>)
    requires HasTerminal(a)
    ensures UpToTerminal(a + b) == UpToTerminal(a)
    decreases |a|
  {
    assert (a + b)[1..] == a[1..] + b;
    if !IsTerminal(a[0].event) {
      var i :| 0 <= i < |a| && IsTerminal(a[i].event);
      assert IsTerminal(a[1..][i - 1].event);
      UpToTerminalSettled(a[1..], b);
    }
  }

  /** Consuming only adds deliveries, and a reader that stops for a terminal event has handed it over. */
  lemma {:induction false} ConsumeAllGrows(accepts: string -> bool, blocks: seq<string>, r: Reader)
    requires r.terminal ==> HasTerminal(r.handed)
    ensures var after := ConsumeAll(accepts, blocks, r);
            && r.handed <= after.handed
            && (after.terminal ==> HasTerminal(after.handed))
            && (r.halt == Running && after.halt == Stopped ==> HasTerminal(after.handed))
    decreases |blocks|
  {
    if blocks != [] && r.halt == Running {
      var next := Consume(accepts, blocks[0], r);
      ConsumeGrows(accepts, blocks[0], r);
      if next.halt == Running {
        ConsumeAllGrows(accepts, blocks[1..], next);
      }
    }
  }

  lemma ConsumeGrows(accepts: string -> bool, block: string, r: Reader)
    requires r.halt == Running && (r.terminal ==> HasTerminal(r.handed))
    ensures var next := Consume(accepts, block, r);
            && r.handed <= next.handed
            && (next.terminal || next.halt == Stopped ==> HasTerminal(next.handed))
  {
    var next := Consume(accepts, block, r);
    if next.handed != r.handed {
      var n := |r.handed|;
      assert next.terminal && !r.terminal ==> IsTerminal(next.handed[n].event);
      assert next.halt == Stopped ==> IsTerminal(next.handed[n].event);
      if r.terminal {
        var i :| 0 <= i < n && IsTerminal(r.handed[i].event);
        assert IsTerminal(next.handed[i].event);
      }
    }
  }

  /**
  Compared with consuming every block of the text at once, cutting it into reads changes nothing up to the first
  terminal event.
  */
  lemma ReadsMatchWhole(accepts: string -> bool, pieces: seq<string>, r: Reader)
    requires GoesOn(r)
    ensures UpToTerminal(ReadAll(accepts, pieces, "", r).reader.handed)
         == UpToTerminal(ConsumeAll(accepts, Blocks(Concat(pieces)), r).handed)
  {
    ReadsAmountTo(accepts, pieces, r);
    PrefixMatchesWhole(accepts, ReadAll(accepts, pieces, "", r), Blocks(Concat(pieces)), Tail(Concat(pieces)), r);
  }

  lemma PrefixMatchesWhole(accepts: string -> bool, p: Progress, blocks: seq<string>, tail: string, r: Reader)
    requires GoesOn(r) && AmountsTo(accepts, p, blocks, tail, r)
    ensures UpToTerminal(p.reader.handed) == UpToTerminal(ConsumeAll(accepts, blocks, r).handed)
  {
    var rest := blocks[p.taken..];
    assert blocks == blocks[..p.taken] + rest;
    ConsumeAllAppend(accepts, blocks[..p.taken], rest, r);
    if GoesOn(p.reader) {
      assert rest == [];
    } else if p.reader.halt == Running {
      ConsumeAllGrows(accepts, blocks[..p.taken], r);
      ConsumeAllGrows(accepts, rest, p.reader);
      var more := ConsumeAll(accepts, rest, p.reader).handed;
      assert more == p.reader.handed + more[|p.reader.handed|..];
      UpToTerminalSettled(p.reader.handed, more[|p.reader.handed|..]);
    }
  }

  /** Two ways of cutting the same text agree up to the first terminal event. */
  lemma CutsDoNotMatter(accepts: string -> bool, one: seq<string>, other: seq<string>, r: Reader)
    requires GoesOn(r) && Concat(one) == Concat(other)
    ensures UpToTerminal(ReadAll(accepts, one, "", r).reader.handed)
         == UpToTerminal(ReadAll(accepts, other, "", r).reader.handed)
  {
    ReadsMatchWhole(accepts, one, r);
    ReadsMatchWhole(accepts, other, r);
  }

  // ---------------------------------------------------------------------------------------------
  // Exactly once

  /** A log as the service writes it. */
  ghost predicate Sound(accepts: string -> bool, log: seq<Event>) {
    && Numbered(log)
    && |log| <= MAX_SAFE
    && AllPrintable(log)
    && (forall i :: 0 <= i < |log| ==> accepts(log[i].data))
  }

  function Deliveries(log: seq<Event>): seq<Delivery> {
    seq(|log|, i requires 0 <= i < |log| => Delivery(Some(log[i].sequence), log[i].event, log[i].data))
  }

  /** What has been handed over is the log up to the last id: no gap and no duplicate. */
  ghost predicate Faithful(r: Reader, log: seq<Event>) {
    r.last <= |log| && r.handed == Deliveries(log[..r.last])
  }

  ghost predicate Carries(accepts: string -> bool, block: string, e: Event) {
    Parse(block) == Some(Parsed(Some(e.sequence), e.event, e.data)) && accepts(e.data)
  }

  lemma BodiesCarry(accepts: string -> bool, log: seq<Event>, from: nat, to: nat)
    requires Sound(accepts, log) && from <= to <= |log|
    ensures AllCarry(accepts, Bodies(log[from..to]), log, from)
  {
    forall i | 0 <= i < to - from ensures Carries(accepts, Bodies(log[from..to])[i], log[from + i]) {
      BlockRoundTrip(log[from + i]);
    }
  }

  ghost predicate AllCarry(accepts: string -> bool, blocks: seq<string>, log: seq<Event>, from: nat) {
    from + |blocks| <= |log| && forall i :: 0 <= i < |blocks| ==> Carries(accepts, blocks[i], log[from + i])
  }

  lemma {:induction false} OneMoreDelivery(log: seq<Event>, n: nat)
    requires n < |log|
    ensures Deliveries(log[..n + 1])
         == Deliveries(log[..n]) + [Delivery(Some(log[n].sequence), log[n].event, log[n].data)]
  {
  }

  lemma {:induction false} ConsumeNext(accepts: string -> bool, log: seq<Event>, block: string, r: Reader)
    requires Numbered(log) && Faithful(r, log) && r.halt == Running && r.last < |log|
    requires Carries(accepts, block, log[r.last])
    ensures var e, next := log[r.last], Consume(accepts, block, r);
            && Faithful(next, log) && next.last == r.last + 1 && next.halt != Thrown
            && (next.halt == Stopped <==> e.event == "cancelled")
            && (next.terminal <==> r.terminal || e.event == "complete" || e.event == "error")
  {
    OneMoreDelivery(log, r.last);
  }

  /** The reader after consuming the next `n` events of the log. */
  ghost predicate ReadUpTo(next: Reader, log: seq<Event>, last: nat, n: nat) {
    && Faithful(next, log) && last <= next.last <= last + n && next.halt != Thrown
    && (next.halt == Running ==> next.last == last + n)
    && (next.halt == Stopped ==> 0 < next.last && log[next.last - 1].event == "cancelled")
  }

  lemma AllCarryBehind(accepts: string -> bool, blocks: seq<string>, log: seq<Event>, from: nat)
    requires blocks != [] && AllCarry(accepts, blocks, log, from)
    ensures from < |log| && Carries(accepts, blocks[0], log[from]) && AllCarry(accepts, blocks[1..], log, from + 1)
  {
    assert Carries(accepts, blocks[0], log[from + 0]);
    forall i | 0 <= i < |blocks| - 1 ensures Carries(accepts, blocks[1..][i], log[from + 1 + i]) {
      assert blocks[1..][i] == blocks[i + 1];
    }
  }

  lemma {:induction false} ConsumeRest(accepts: string -> bool, log: seq<Event>, blocks: seq<string>, r: Reader)
    requires Numbered(log) && Faithful(r, log) && r.halt == Running && AllCarry(accepts, blocks, log, r.last)
    ensures ReadUpTo(ConsumeAll(accepts, blocks, r), log, r.last, |blocks|)
    decreases |blocks|
  {
    if blocks != [] {
      AllCarryBehind(accepts, blocks, log, r.last);
      ConsumeNext(accepts, log, blocks[0], r);
      var next := Consume(accepts, blocks[0], r);
      if next.halt == Running {
        ConsumeRest(accepts, log, blocks[1..], next);
      } else {
        assert ConsumeAll(accepts, blocks[1..], next) == next;
      }
    }
  }

  /** The text the server sends to a client that names `last`, when it knows the first `known` events. */
  function Sent(log: seq<Event>, last: nat, known: nat): seq<Event> {
    if last <= known <= |log| then log[last..known] else []
  }

  lemma {:induction false} TakenIsRead(
    accepts: string -> bool, log: seq<Event>, blocks: seq<string>, p: Progress, tail: string, r: Reader
  )
    requires Numbered(log) && Faithful(r, log) && r.halt == Running && AllCarry(accepts, blocks, log, r.last)
    requires AmountsTo(accepts, p, blocks, tail, r)
    ensures ReadUpTo(p.reader, log, r.last, p.taken)
  {
    ConsumeRest(accepts, log, blocks[..p.taken], r);
  }

  // ---------------------------------------------------------------------------------------------
  // A stream that ends cleanly inside a block

  /** What must have arrived of a block before the browser sees a data line. */
  function Head(e: Event): string {
    Joined(IdLine(e), Joined(EventLine(e), "data:"))
  }

  /** No shorter part of a JSON object is JSON. */
  ghost predicate WholeOnly(accepts: string -> bool, e: Event) {
    e.data != "" && accepts(e.data) && forall k: nat :: k < |e.data| ==> !accepts(Trim(e.data[..k]))
  }

  /** The three line breaks of a printed block. */
  lemma PartOfBlock(e: Event, n: nat)
    requires n < |Block(e)|
    ensures var a, b, part := |IdLine(e)|, |IdLine(e)| + 1 + |EventLine(e)|, Block(e)[..n];
            && (n <= a ==> part == IdLine(e)[..n])
            && (a < n <= b ==> part == Joined(IdLine(e), EventLine(e)[..n - a - 1]))
            && (b < n <= |Body(e)| ==> part == Joined(IdLine(e), Joined(EventLine(e), DataLine(e)[..n - b - 1])))
            && (n == |Body(e)| + 1 ==> part == Joined(IdLine(e), Joined(EventLine(e), Joined(DataLine(e), ""))))
  {
  }

  lemma OneLinePart(s: string, n: nat)
    requires OneLine(s) && n <= |s|
    ensures OneLine(s[..n])
  {
  }

  lemma ParseBeforeData(e: Event, n: nat)
    requires Printable(e) && n < |Head(e)|
    ensures n < |Body(e)| && Parse(Block(e)[..n]).None?
  {
    LinesOf(e);
    PartOfBlock(e, n);
    var a, b := |IdLine(e)|, |IdLine(e)| + 1 + |EventLine(e)|;
    if n <= a {
      OneLinePart(IdLine(e), n);
      SplitOne(IdLine(e)[..n]);
    } else if n <= b {
      OneLinePart(EventLine(e), n - a - 1);
      SplitOne(EventLine(e)[..n - a - 1]);
      SplitJoined(IdLine(e), EventLine(e)[..n - a - 1]);
    } else {
      OneLinePart(DataLine(e), n - b - 1);
      SplitOne(DataLine(e)[..n - b - 1]);
      SplitJoined(EventLine(e), DataLine(e)[..n - b - 1]);
      SplitJoined(IdLine(e), Joined(EventLine(e), DataLine(e)[..n - b - 1]));
    }
    NoDataLine(e, Split(Block(e)[..n]), n - b - 1);
  }

  lemma NoDataLine(e: Event, lines: seq<string>, k: int)
    requires k < 5
    requires (exists m: nat :: m <= |IdLine(e)| && lines == [IdLine(e)[..m]])
          || (exists m: nat :: m <= |EventLine(e)| && lines == [IdLine(e), EventLine(e)[..m]])
          || (0 <= k <= |DataLine(e)| && lines == [IdLine(e), EventLine(e), DataLine(e)[..k]])
    ensures FirstWith(lines, "data:").None?
  {
    assert IdLine(e)[0] == 'i' && EventLine(e)[0] == 'e';
    forall i | 0 <= i < |lines| ensures !("data:" <= lines[i]) {
    }
    NoneWith(lines, "data:");
  }

  lemma {:induction false} NoneWith(lines: seq<string>, prefix: string)
    requires forall i :: 0 <= i < |lines| ==> !(prefix <= lines[i])
    ensures FirstWith(lines, prefix).None?
  {
    if lines != [] {
      NoneWith(lines[1..], prefix);
    }
  }

  /** The part of the data line that has arrived with the first `n` characters. */
  function DataArrived(e: Event, n: nat): string
    requires |Head(e)| <= n
  {
    if n <= |Body(e)| then DataLine(e)[..n - |Head(e)| + 5] else DataLine(e)
  }

  lemma {:induction false} LinesWithinData(e: Event, n: nat)
    requires Printable(e) && |Head(e)| <= n < |Block(e)|
    ensures var lines := Split(Block(e)[..n]);
            |lines| >= 3 && lines[0] == IdLine(e) && lines[1] == EventLine(e) && lines[2] == DataArrived(e, n)
  {
    LinesOf(e);
    PartOfBlock(e, n);
    var line := DataArrived(e, n);
    OneLinePart(DataLine(e), |line|);
    SplitOne(line);
    if n <= |Body(e)| {
      SplitJoined(EventLine(e), line);
      SplitJoined(IdLine(e), Joined(EventLine(e), line));
    } else {
      SplitJoined(line, "");
      SplitJoined(EventLine(e), Joined(line, ""));
      SplitJoined(IdLine(e), Joined(EventLine(e), Joined(line, "")));
    }
  }

  lemma {:induction false} ParsedFromLines(e: Event, text: string, line: string)
    requires Printable(e) && "data:" <= line
    requires var lines := Split(text);
             |lines| >= 3 && lines[0] == IdLine(e) && lines[1] == EventLine(e) && lines[2] == line
    ensures var id := if e.sequence <= MAX_SAFE then Some(e.sequence) else None;
            Parse(text) == Some(Parsed(id, e.event, Trim(line[5..])))
  {
    FirstLines(Split(text));
    ValuesOf(e);
    DecimalRoundTrip(e.sequence);
    NumeralIsLine(ToDecimal(e.sequence));
    TrimBehindBlank(ToDecimal(e.sequence));
    TrimBehindBlank(e.event);
  }

  lemma {:induction false} ParseWithinData(e: Event, n: nat)
    requires Printable(e) && |Head(e)| <= n < |Block(e)|
    ensures var id := if e.sequence <= MAX_SAFE then Some(e.sequence) else None;
            && Parse(Block(e)[..n]).Some?
            && Parse(Block(e)[..n]).value.(data := "") == Parsed(id, e.event, "")
            && Parse(Block(e)[..n]).value.data
               == (if n >= |Body(e)| then e.data else if n == |Head(e)| then "" else Trim(e.data[..n - |Head(e)| - 1]))
  {
    LinesWithinData(e, n);
    ParsedFromLines(e, Block(e)[..n], DataArrived(e, n));
    DataPart(e, |DataArrived(e, n)|);
  }

  lemma DataPart(e: Event, k: nat)
    requires 5 <= k <= |DataLine(e)|
    ensures Trim(DataLine(e)[..k][5..]) == if k == 5 then "" else Trim(e.data[..k - 6])
    ensures k == |DataLine(e)| ==> e.data[..k - 6] == e.data
  {
    if k > 5 {
      assert DataLine(e)[..k][5..] == " " + e.data[..k - 6];
      TrimBehindBlank(e.data[..k - 6]);
    }
  }

  lemma {:induction false} BlocksThenPart(events: seq<Event>, part: string)
    requires AllPrintable(events) && Boundary(part).None?
    ensures Blocks(Encode(events) + part) == Bodies(events) && Tail(Encode(events) + part) == part
    decreases |events|
  {
    if events == [] {
      assert Encode(events) + part == part;
    } else {
      var rest := Encode(events[1..]) + part;
      assert Encode(events) + part == Block(events[0]) + rest;
      BodyIsTight(events[0]);
      OneBlockThen(Body(events[0]), rest);
      BlocksThenPart(events[1..], part);
      BodiesCons(events, |events|);
      assert events[..|events|] == events && events[1..][..|events| - 1] == events[1..];
    }
  }

  lemma {:induction false} PlainEventsGoOn(accepts: string -> bool, log: seq<Event>, blocks: seq<string>, r: Reader)
    requires Numbered(log) && Faithful(r, log) && GoesOn(r) && AllCarry(accepts, blocks, log, r.last)
    requires Quiet(log, r.last, r.last + |blocks|)
    ensures GoesOn(ConsumeAll(accepts, blocks, r))
    decreases |blocks|
  {
    if blocks != [] {
      AllCarryBehind(accepts, blocks, log, r.last);
      ConsumeNext(accepts, log, blocks[0], r);
      PlainEventsGoOn(accepts, log, blocks[1..], Consume(accepts, blocks[0], r));
    }
  }

  lemma PartNotBlank(e: Event, n: nat)
    requires 0 < n <= |Block(e)|
    ensures Trim(Block(e)[..n]) != ""
  {
    var part := Block(e)[..n];
    assert part[0] == 'i' && !IsWhite(part[0]);
    KeepsFirst(part);
  }

  lemma {:induction false} KeepsFirst(s: string)
    requires s != "" && !IsWhite(s[0])
    ensures TrimRight(s) != ""
  {
    if IsWhite(s[|s| - 1]) {
      KeepsFirst(s[..|s| - 1]);
    }
  }

  /** The unfinished block of `log[r.last]`, parsed because the stream has ended. */
  lemma PartConsumed(accepts: string -> bool, log: seq<Event>, n: nat, r: Reader)
    requires Sound(accepts, log) && Faithful(r, log) && GoesOn(r) && r.last < |log|
    requires WholeOnly(accepts, log[r.last]) && n < |Block(log[r.last])|
    ensures var e, after := log[r.last], Consume(accepts, Block(log[r.last])[..n], r);
            && (n < |Head(e)| ==> after == r)
            && (|Head(e)| <= n < |Body(e)| ==> after == r.(last := r.last + 1, halt := Thrown))
            && (|Body(e)| <= n ==> ReadUpTo(after, log, r.last + 1, 0))
  {
    var e := log[r.last];
    if n < |Head(e)| {
      ParseBeforeData(e, n);
    } else {
      ParseWithinData(e, n);
      if n >= |Body(e)| {
        ConsumeNext(accepts, log, Block(e)[..n], r);
      } else if n == |Head(e)| {
        assert !accepts(Trim(e.data[..0]));
      } else {
        assert !accepts(Trim(e.data[..n - |Head(e)| - 1]));
      }
    }
  }

  /** Up to the unfinished block of event `m` everything has been read, and that block is what is left. */
  lemma {:induction false} ReadToPart(
    accepts: string -> bool, log: seq<Event>, m: nat, n: nat, pieces: seq<string>, r: Reader
  )
    requires Sound(accepts, log) && Faithful(r, log) && GoesOn(r) && r.last <= m < |log| && n < |Block(log[m])|
    requires Quiet(log, r.last, m)
    requires Concat(pieces) == Encode(log[r.last..m]) + Block(log[m])[..n]
    ensures var p := ReadAll(accepts, pieces, "", r);
            GoesOn(p.reader) && p.buffer == Block(log[m])[..n] && Faithful(p.reader, log) && p.reader.last == m
  {
    BodyIsTight(log[m]);
    BoundaryNotYet(Body(log[m]), n);
    BlocksThenPart(log[r.last..m], Block(log[m])[..n]);
    ReadsAmountTo(accepts, pieces, r);
    BodiesCarry(accepts, log, r.last, m);
    AllTaken(accepts, log, Bodies(log[r.last..m]), ReadAll(accepts, pieces, "", r), Block(log[m])[..n], r);
  }

  /**
  A clean end inside the block of event `m` loses that event exactly when its data line has begun and is not
  complete.
  */
  lemma {:induction false} CleanEndInsideBlock(
    accepts: string -> bool, log: seq<Event>, m: nat, n: nat, pieces: seq<string>, r: Reader
  )
    requires Sound(accepts, log) && Faithful(r, log) && GoesOn(r) && r.last <= m < |log|
    requires WholeOnly(accepts, log[m]) && n < |Block(log[m])|
    requires Quiet(log, r.last, m)
    requires Concat(pieces) == Encode(log[r.last..m]) + Block(log[m])[..n]
    ensures var after := Received(accepts, pieces, true, r);
            && (|Head(log[m])| <= n < |Body(log[m])| <==> !Faithful(after, log))
            && (!Faithful(after, log) ==>
                  after.last == m + 1 && after.handed == Deliveries(log[..m]) && after.halt == Thrown)
            && (Faithful(after, log) ==> ReadUpTo(after, log, if n < |Body(log[m])| then m else m + 1, 0))
  {
    ReadToPart(accepts, log, m, n, pieces, r);
    var part, before := Block(log[m])[..n], ReadAll(accepts, pieces, "", r).reader;
    PartConsumed(accepts, log, n, before);
    PartLoses(accepts, log, n, before);
    if n > 0 {
      PartNotBlank(log[m], n);
    }
  }

  lemma {:induction false} PartLoses(accepts: string -> bool, log: seq<Event>, n: nat, r: Reader)
    requires Sound(accepts, log) && Faithful(r, log) && GoesOn(r) && r.last < |log|
    requires WholeOnly(accepts, log[r.last]) && n < |Block(log[r.last])|
    ensures |Head(log[r.last])| <= n < |Body(log[r.last])| <==>
              !Faithful(Consume(accepts, Block(log[r.last])[..n], r), log)
  {
    PartConsumed(accepts, log, n, r);
    var e := log[r.last];
    if |Head(e)| <= n < |Body(e)| {
      var lost := r.(last := r.last + 1, halt := Thrown);
      assert |lost.handed| == r.last && |Deliveries(log[..lost.last])| == r.last + 1;
    }
  }

  lemma AllTaken(accepts: string -> bool, log: seq<Event>, blocks: seq<string>, p: Progress, tail: string, r: Reader)
    requires Numbered(log) && Faithful(r, log) && GoesOn(r) && AllCarry(accepts, blocks, log, r.last)
    requires Quiet(log, r.last, r.last + |blocks|)
    requires AmountsTo(accepts, p, blocks, tail, r)
    ensures GoesOn(p.reader) && p.buffer == tail && Faithful(p.reader, log) && p.reader.last == r.last + |blocks|
  {
    TakenIsRead(accepts, log, blocks, p, tail, r);
    PlainEventsGoOn(accepts, log, blocks[..p.taken], r);
  }
}
