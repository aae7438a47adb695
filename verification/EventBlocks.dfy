/**
The blocks of the review event stream: how the server prints an event (main.py, `review_events`) and
how the browser frames and parses them (client.ts, `streamReviewSession`). A small subset of
section 9.2 of the WHATWG HTML Living Standard.
*/
module EventBlocks {
  import opened Wrappers
  import opened Decimal
  import opened ReviewStore

  /** JavaScript's largest safe integer. */
  const MAX_SAFE: nat := 9007199254740991

  // ---------------------------------------------------------------------------------------------
  // Printing

  function IdLine(e: Event): string {
    "id: " + ToDecimal(e.sequence)
  }

  function EventLine(e: Event): string {
    "event: " + e.event
  }

  function DataLine(e: Event): string {
    "data: " + e.data
  }

  function Joined(a: string, b: string): string {
    a + ("\n" + b)
  }

  function Body(e: Event): string {
    Joined(IdLine(e), Joined(EventLine(e), DataLine(e)))
  }

  function Block(e: Event): string {
    Body(e) + "\n\n"
  }

  function Encode(events: seq<Event>): string {
    if events == [] then "" else Block(events[0]) + Encode(events[1..])
  }

  function Bodies(events: seq<Event>): seq<string> {
    seq(|events|, i requires 0 <= i < |events| => Body(events[i]))
  }

  // ---------------------------------------------------------------------------------------------
  // Framing

  predicate BlankAt(s: string, i: nat) {
    i + 1 < |s| && s[i] == '\n' && s[i + 1] == '\n'
  }

  function Boundary(s: string): (b: Option<nat>)
    ensures b.Some? ==> BlankAt(s, b.value) && forall i: nat :: i < b.value ==> !BlankAt(s, i)
    ensures b.None? ==> forall i: nat :: !BlankAt(s, i)
  {
    if |s| < 2 then None
    else if s[0] == '\n' && s[1] == '\n' then Some(0)
    else
      var rest := Boundary(s[1..]);
      assert forall i: nat :: 0 < i ==> BlankAt(s, i) == BlankAt(s[1..], i - 1);
      if rest.None? then None else Some(rest.value + 1)
  }

  /** The complete blocks of a text. */
  function Blocks(s: string): seq<string>
    decreases |s|
  {
    var b := Boundary(s);
    if b.None? then [] else [s[..b.value]] + Blocks(s[b.value + 2..])
  }

  /** What is left in the buffer behind them. */
  function Tail(s: string): string
    decreases |s|
  {
    var b := Boundary(s);
    if b.None? then s else Tail(s[b.value + 2..])
  }

  lemma BoundaryAppend(a: string, b: string)
    requires Boundary(a).Some?
    ensures Boundary(a + b) == Boundary(a)
  {
    var k := Boundary(a).value;
    assert BlankAt(a + b, k);
    forall i: nat | i < k ensures !BlankAt(a + b, i) {
      assert !BlankAt(a, i);
    }
  }

  lemma {:induction false} FirstBlockOfAppend(a: string, b: string, k: nat)
    requires Boundary(a) == Some(k)
    ensures Boundary(a + b) == Some(k) && (a + b)[..k] == a[..k] && (a + b)[k + 2..] == a[k + 2..] + b
  {
    BoundaryAppend(a, b);
  }

  /** Framing does not depend on where the text was cut into reads. */
  lemma {:induction false} BlocksAppend(a: string, b: string)
    ensures Blocks(a + b) == Blocks(a) + Blocks(Tail(a) + b)
    ensures Tail(a + b) == Tail(Tail(a) + b)
    decreases |a|
  {
    if Boundary(a).Some? {
      var k := Boundary(a).value;
      var rest := a[k + 2..];
      FirstBlockOfAppend(a, b, k);
      FirstBlock(a + b, k, a[..k], rest + b);
      FirstBlock(a, k, a[..k], rest);
      BlocksAppend(rest, b);
      assert [a[..k]] + (Blocks(rest) + Blocks(Tail(rest) + b)) == ([a[..k]] + Blocks(rest)) + Blocks(Tail(rest) + b);
    }
  }

  lemma {:induction false} FirstBlock(s: string, k: nat, block: string, rest: string)
    requires Boundary(s) == Some(k) && block == s[..k] && rest == s[k + 2..]
    ensures Blocks(s) == [block] + Blocks(rest) && Tail(s) == Tail(rest)
  {
  }

  lemma {:induction false} TailHasNoBlock(s: string)
    ensures Boundary(Tail(s)).None?
    decreases |s|
  {
    if Boundary(s).Some? {
      TailHasNoBlock(s[Boundary(s).value + 2..]);
    }
  }

  // ---------------------------------------------------------------------------------------------
  // Parsing a block

  function Split(s: string): (lines: seq<string>)
    ensures lines != []
  {
    if s == "" then [""]
    else if s[0] == '\n' then [""] + Split(s[1..])
    else
      var rest := Split(s[1..]);
      [[s[0]] + rest[0]] + rest[1..]
  }

  function FirstWith(lines: seq<string>, prefix: string): (line: Option<string>)
    ensures line.Some? ==> prefix <= line.value
  {
    if lines == [] then None
    else if prefix <= lines[0] then Some(lines[0])
    else FirstWith(lines[1..], prefix)
  }

  predicate IsWhite(c: char) {
    c in {' ', '\t', '\n', '\r', '\U{0B}', '\U{0C}', '\U{A0}', '\U{1680}', '\U{2028}', '\U{2029}', '\U{202F}',
          '\U{205F}', '\U{3000}', '\U{FEFF}'}
    || '\U{2000}' <= c <= '\U{200A}'
  }

  function TrimLeft(s: string): string {
    if s != "" && IsWhite(s[0]) then TrimLeft(s[1..]) else s
  }

  function TrimRight(s: string): string {
    if s != "" && IsWhite(s[|s| - 1]) then TrimRight(s[..|s| - 1]) else s
  }

  function Trim(s: string): string {
    TrimRight(TrimLeft(s))
  }

  /** A safe integer written in digits; the empty text counts as zero. */
  function SafeInteger(s: string): Option<nat> {
    if s == "" then Some(0)
    else if IsNumeral(s) && FromDecimal(s) <= MAX_SAFE then Some(FromDecimal(s))
    else None
  }

  datatype Parsed = Parsed(id: Option<nat>, event: string, data: string)

  function Parse(block: string): Option<Parsed> {
    var lines := Split(block);
    var idLine, eventLine, dataLine := FirstWith(lines, "id:"), FirstWith(lines, "event:"), FirstWith(lines, "data:");
    if eventLine.None? || dataLine.None? then None
    else
      var id := if idLine.None? then None else SafeInteger(Trim(idLine.value[3..]));
      Some(Parsed(id, Trim(eventLine.value[6..]), Trim(dataLine.value[5..])))
  }

  // ---------------------------------------------------------------------------------------------
  // Printing and parsing undo each other

  predicate OneLine(s: string) {
    '\n' !in s
  }

  /** Event names and JSON texts are single lines without blanks at their ends. */
  predicate Printable(e: Event) {
    OneLine(e.event) && Trim(e.event) == e.event && OneLine(e.data) && Trim(e.data) == e.data
  }

  lemma {:induction false} SplitOne(a: string)
    requires OneLine(a)
    ensures Split(a) == [a]
  {
    if a != "" {
      SplitOne(a[1..]);
      assert [a[0]] + a[1..] == a;
    }
  }

  lemma {:induction false} SplitJoined(a: string, b: string)
    requires OneLine(a)
    ensures Split(Joined(a, b)) == [a] + Split(b)
    decreases |a|
  {
    var s := Joined(a, b);
    if a == "" {
      assert s == "\n" + b && s[1..] == b;
    } else {
      assert s[1..] == Joined(a[1..], b) && s[0] == a[0];
      SplitJoined(a[1..], b);
      assert [a[0]] + a[1..] == a;
    }
  }

  lemma NumeralIsLine(s: string)
    requires IsNumeral(s)
    ensures OneLine(s) && Trim(s) == s
  {
    assert IsDigit(s[0]) && IsDigit(s[|s| - 1]);
    assert forall c :: c in s ==> IsDigit(c);
  }

  lemma TrimBehindBlank(s: string)
    ensures Trim(" " + s) == Trim(s)
  {
    assert (" " + s)[1..] == s;
  }

  lemma LinesOf(e: Event)
    requires Printable(e)
    ensures OneLine(IdLine(e)) && OneLine(EventLine(e)) && OneLine(DataLine(e))
  {
    DecimalRoundTrip(e.sequence);
    NumeralIsLine(ToDecimal(e.sequence));
  }

  lemma ValuesOf(e: Event)
    ensures IdLine(e)[3..] == " " + ToDecimal(e.sequence) && EventLine(e)[6..] == " " + e.event
    ensures DataLine(e)[5..] == " " + e.data
  {
  }

  /** Parsing the printed block gives the event back, its number as long as it is a safe integer. */
  lemma BlockRoundTrip(e: Event)
    requires Printable(e)
    ensures Parse(Body(e)) == Some(Parsed(if e.sequence <= MAX_SAFE then Some(e.sequence) else None, e.event, e.data))
  {
    LinesOf(e);
    SplitOne(DataLine(e));
    SplitJoined(EventLine(e), DataLine(e));
    SplitJoined(IdLine(e), Joined(EventLine(e), DataLine(e)));
    var lines := [IdLine(e), EventLine(e), DataLine(e)];
    assert Split(Body(e)) == lines;
    FirstLines(lines);
    ValuesOf(e);
    DecimalRoundTrip(e.sequence);
    NumeralIsLine(ToDecimal(e.sequence));
    TrimBehindBlank(ToDecimal(e.sequence));
    TrimBehindBlank(e.event);
    TrimBehindBlank(e.data);
  }

  lemma {:induction false} FirstLines(lines: seq<string>)
    requires |lines| >= 3 && "id:" <= lines[0] && "event:" <= lines[1] && "data:" <= lines[2]
    ensures FirstWith(lines, "id:") == Some(lines[0])
    ensures FirstWith(lines, "event:") == Some(lines[1])
    ensures FirstWith(lines, "data:") == Some(lines[2])
  {
    Differs("event:", lines[0]);
    Differs("data:", lines[0]);
    Differs("data:", lines[1]);
    FirstAt(lines, "id:", 0);
    FirstAt(lines, "event:", 1);
    FirstAt(lines, "data:", 2);
  }

  lemma Differs(prefix: string, line: string)
    requires prefix != "" && line != "" && prefix[0] != line[0]
    ensures !(prefix <= line)
  {
  }

  lemma {:induction false} FirstAt(lines: seq<string>, prefix: string, k: nat)
    requires k < |lines| && prefix <= lines[k]
    requires forall i :: 0 <= i < k ==> !(prefix <= lines[i])
    ensures FirstWith(lines, prefix) == Some(lines[k])
    decreases k
  {
    if k > 0 {
      FirstAt(lines[1..], prefix, k - 1);
    }
  }

  // ---------------------------------------------------------------------------------------------
  // Framing what was printed

  /** No blank line inside, and no line break at either end. */
  ghost predicate Tight(s: string) {
    s != "" && s[0] != '\n' && s[|s| - 1] != '\n' && forall i: nat :: !BlankAt(s, i)
  }

  lemma TightJoined(a: string, b: string)
    requires Tight(a) && Tight(b)
    ensures Tight(Joined(a, b))
  {
    var s := Joined(a, b);
    forall i: nat ensures !BlankAt(s, i) {
      if i + 1 < |s| {
        assert s[i] == if i < |a| then a[i] else if i == |a| then '\n' else b[i - |a| - 1];
        assert s[i + 1] == if i + 1 < |a| then a[i + 1] else if i + 1 == |a| then '\n' else b[i - |a|];
        assert i + 1 < |a| ==> !BlankAt(a, i);
        assert i > |a| ==> !BlankAt(b, i - |a| - 1);
      }
    }
    assert s[0] == a[0] && s[|s| - 1] == b[|b| - 1];
  }

  lemma BodyIsTight(e: Event)
    requires Printable(e)
    ensures Tight(Body(e))
  {
    LinesOf(e);
    TightJoined(EventLine(e), DataLine(e));
    TightJoined(IdLine(e), Joined(EventLine(e), DataLine(e)));
  }

  lemma BoundaryBehind(body: string, rest: string)
    requires Tight(body)
    ensures Boundary(body + "\n\n" + rest) == Some(|body|)
  {
    var s := body + "\n\n" + rest;
    assert BlankAt(s, |body|);
    forall i: nat | i < |body| ensures !BlankAt(s, i) {
      assert s[i] == body[i] && !BlankAt(body, i);
    }
  }

  lemma OneBlockThen(body: string, rest: string)
    requires Tight(body)
    ensures Blocks(body + "\n\n" + rest) == [body] + Blocks(rest)
    ensures Tail(body + "\n\n" + rest) == Tail(rest)
  {
    var s := body + "\n\n" + rest;
    BoundaryBehind(body, rest);
    assert s[..|body|] == body && s[|body| + 2..] == rest;
  }

  lemma BoundaryNotYet(body: string, n: nat)
    requires Tight(body) && n < |body| + 2
    ensures Boundary((body + "\n\n")[..n]).None?
  {
    var s := (body + "\n\n")[..n];
    forall i: nat ensures !BlankAt(s, i) {
      if i + 1 < n {
        assert s[i] == body[i] && !BlankAt(body, i);
      }
    }
  }

  predicate AllPrintable(events: seq<Event>) {
    forall i :: 0 <= i < |events| ==> Printable(events[i])
  }

  /** How many blocks are complete among the first `n` characters. */
  function Arrived(events: seq<Event>, n: nat): (m: nat)
    ensures m <= |events|
  {
    if events == [] || n < |Block(events[0])| then 0 else 1 + Arrived(events[1..], n - |Block(events[0])|)
  }

  /** Any part of the stream that has arrived frames into the bodies of the events that arrived whole. */
  lemma {:induction false} BlocksOfEncoded(events: seq<Event>, n: nat)
    requires AllPrintable(events) && n <= |Encode(events)|
    ensures Blocks(Encode(events)[..n]) == Bodies(events[..Arrived(events, n)])
    ensures n == |Encode(events)| ==> Arrived(events, n) == |events| && Tail(Encode(events)) == ""
    decreases |events|
  {
    if events != [] {
      BodyIsTight(events[0]);
      if n < |Block(events[0])| {
        BoundaryNotYet(Body(events[0]), n);
        assert Encode(events)[..n] == Block(events[0])[..n];
      } else {
        BlocksOfEncoded(events[1..], n - |Block(events[0])|);
        WholeBlockArrived(events, n);
      }
    }
  }

  lemma {:induction false} WholeBlockArrived(events: seq<Event>, n: nat)
    requires events != [] && Tight(Body(events[0])) && |Block(events[0])| <= n <= |Encode(events)|
    ensures var k, rest := n - |Block(events[0])|, Encode(events[1..]);
            && Blocks(Encode(events)[..n]) == [Body(events[0])] + Blocks(rest[..k])
            && Bodies(events[..Arrived(events, n)])
               == [Body(events[0])] + Bodies(events[1..][..Arrived(events[1..], k)])
            && (n == |Encode(events)| ==> rest[..k] == rest && Tail(Encode(events)) == Tail(rest))
  {
    BlockThenText(Body(events[0]), Encode(events[1..]), n);
    BodiesCons(events, 1 + Arrived(events[1..], n - |Block(events[0])|));
  }

  /** A whole block and part of what follows it. */
  lemma {:induction false} BlockThenText(body: string, rest: string, n: nat)
    requires Tight(body) && |body| + 2 <= n <= |body| + 2 + |rest|
    ensures var s, k := body + "\n\n" + rest, n - |body| - 2;
            && Blocks(s[..n]) == [body] + Blocks(rest[..k])
            && (k == |rest| ==> rest[..k] == rest && Tail(s) == Tail(rest))
  {
    var k := n - |body| - 2;
    assert (body + "\n\n" + rest)[..n] == body + "\n\n" + rest[..k];
    OneBlockThen(body, rest[..k]);
    OneBlockThen(body, rest);
  }

  lemma BodiesCons(events: seq<Event>, m: nat)
    requires 0 < m <= |events|
    ensures Bodies(events[..m]) == [Body(events[0])] + Bodies(events[1..][..m - 1])
  {
  }
}
