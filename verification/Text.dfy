/**
Source text as lines. `Lines` is Python's `splitlines(keepends=True)` with "\n" as the only
line terminator; `Join` is `"".join(lines)`.
*/
module Text {

  function LineLength(s: string): (n: nat)
    requires s != ""
    ensures 0 < n <= |s|
  {
    if s[0] == '\n' || |s| == 1 then 1 else 1 + LineLength(s[1..])
  }

  function Lines(s: string): seq<string>
    decreases |s|
  {
    if s == "" then [] else [s[..LineLength(s)]] + Lines(s[LineLength(s)..])
  }

  function Join(lines: seq<string>): string {
    if lines == [] then "" else lines[0] + Join(lines[1..])
  }

  /** `s.rstrip("\n")` */
  function TrimRight(s: string): string {
    if s != "" && s[|s| - 1] == '\n' then TrimRight(s[..|s| - 1]) else s
  }

  lemma {:induction false} TrimRightPrefix(s: string)
    ensures TrimRight(s) <= s
    ensures TrimRight(s) == "" || TrimRight(s)[|TrimRight(s)| - 1] != '\n'
    ensures forall i :: |TrimRight(s)| <= i < |s| ==> s[i] == '\n'
  {
    if s != "" && s[|s| - 1] == '\n' {
      TrimRightPrefix(s[..|s| - 1]);
    }
  }

  /** `s.lstrip("\n")` */
  function TrimLeft(s: string): string {
    if s != "" && s[0] == '\n' then TrimLeft(s[1..]) else s
  }

  /** Every terminator is the last character of its line. */
  predicate IsLine(l: string) {
    l != "" && forall i :: 0 <= i < |l| - 1 ==> l[i] != '\n'
  }

  predicate Closed(s: string) {
    s == "" || s[|s| - 1] == '\n'
  }

  /** A list of lines as `Lines` produces it: only the last may lack its terminator. */
  predicate Proper(lines: seq<string>) {
    && (forall i :: 0 <= i < |lines| ==> IsLine(lines[i]))
    && (forall i :: 0 <= i < |lines| - 1 ==> Closed(lines[i]))
  }

  lemma {:induction false} ProperPart(lines: seq<string>, from: nat, to: nat)
    requires Proper(lines) && from <= to <= |lines|
    ensures Proper(lines[from..to])
  {
    var part := lines[from..to];
    forall i | 0 <= i < |part| ensures IsLine(part[i]) && (i < |part| - 1 ==> Closed(part[i])) {
      assert part[i] == lines[from + i];
    }
  }

  lemma LineLengthOfLine(l: string, rest: string)
    requires IsLine(l)
    requires Closed(l) || rest == ""
    ensures LineLength(l + rest) == |l|
  {
    if |l| == 1 {
      if rest == "" {
        assert l + rest == l;
      }
    } else {
      assert (l + rest)[0] == l[0] != '\n';
      assert (l + rest)[1..] == l[1..] + rest;
      assert forall i :: 0 <= i < |l[1..]| - 1 ==> l[1..][i] == l[i + 1];
      LineLengthOfLine(l[1..], rest);
    }
  }

  lemma {:induction false} FirstLine(s: string)
    requires s != ""
    ensures IsLine(s[..LineLength(s)])
    ensures Closed(s[..LineLength(s)]) || LineLength(s) == |s|
  {
    if s[0] != '\n' && |s| > 1 {
      FirstLine(s[1..]);
      var n := LineLength(s[1..]);
      assert s[..n + 1][1..] == s[1..][..n];
      assert s[..n + 1] == [s[0]] + s[1..][..n];
    }
  }

  /** Splitting loses nothing, and what it yields is a proper list of lines. */
  lemma {:induction false} JoinLines(s: string)
    ensures Join(Lines(s)) == s
    ensures Proper(Lines(s))
    decreases |s|
  {
    if s != "" {
      var n := LineLength(s);
      FirstLine(s);
      JoinLines(s[n..]);
      assert s == s[..n] + s[n..];
      if n == |s| {
        assert Lines(s[n..]) == [];
      }
    }
  }

  /** A proper list of lines is the only way to split its text. */
  lemma {:induction false} LinesJoin(lines: seq<string>)
    requires Proper(lines)
    ensures Lines(Join(lines)) == lines
  {
    if lines != [] {
      var l, rest := lines[0], Join(lines[1..]);
      forall i | 0 <= i < |lines[1..]| ensures IsLine(lines[1..][i]) {
        assert lines[1..][i] == lines[i + 1];
      }
      LinesJoin(lines[1..]);
      if |lines| == 1 {
        assert rest == "";
      }
      LineLengthOfLine(l, rest);
      assert (l + rest)[..|l|] == l && (l + rest)[|l|..] == rest;
    }
  }

  lemma {:induction false} JoinAppend(a: seq<string>, b: seq<string>)
    ensures Join(a + b) == Join(a) + Join(b)
  {
    if a == [] {
      assert a + b == b;
    } else {
      assert (a + b)[1..] == a[1..] + b;
      JoinAppend(a[1..], b);
      assert (a[0] + Join(a[1..])) + Join(b) == a[0] + (Join(a[1..]) + Join(b));
    }
  }

  lemma JoinPrefix(lines: seq<string>, k: int)
    requires 0 <= k <= |lines|
    ensures Join(lines) == Join(lines[..k]) + Join(lines[k..])
  {
    assert lines == lines[..k] + lines[k..];
    JoinAppend(lines[..k], lines[k..]);
  }

  lemma {:induction false} JoinLast(lines: seq<string>)
    requires lines != []
    ensures Join(lines) == Join(lines[..|lines| - 1]) + lines[|lines| - 1]
  {
    var n := |lines| - 1;
    assert lines == lines[..n] + [lines[n]];
    JoinAppend(lines[..n], [lines[n]]);
    assert Join([lines[n]]) == lines[n] + Join([]);
  }

  /** The text is closed exactly when its last line is. */
  lemma ClosedLast(lines: seq<string>)
    requires Proper(lines) && lines != []
    ensures Closed(Join(lines)) <==> Closed(lines[|lines| - 1])
    ensures Join(lines) != ""
  {
    JoinLast(lines);
  }

  lemma {:induction false} ClosedParts(head: seq<string>, last: string)
    requires Proper(head + [last]) && !Closed(last)
    ensures Proper(head + [last + "\n"]) && Join(head + [last + "\n"]) == Join(head + [last]) + "\n"
  {
    var open, closed := head + [last], head + [last + "\n"];
    JoinLast(open);
    JoinLast(closed);
    assert open[..|head|] == head && closed[..|head|] == head;
    assert IsLine(open[|head|]);
    forall i | 0 <= i < |head| ensures IsLine(closed[i]) && Closed(closed[i]) {
      assert closed[i] == open[i];
    }
    assert Join(head) + (last + "\n") == Join(head) + last + "\n";
  }

  /** Appending a line terminator to an open text closes its last line and changes nothing else. */
  lemma {:induction false} CloseText(s: string)
    requires s != "" && !Closed(s)
    ensures var lines := Lines(s);
            lines != [] && Lines(s + "\n") == lines[..|lines| - 1] + [lines[|lines| - 1] + "\n"]
    ensures forall i :: 0 <= i < |Lines(s)| ==> Closed(Lines(s + "\n")[i])
  {
    JoinLines(s);
    var lines := Lines(s);
    ClosedLast(lines);
    var head, last := lines[..|lines| - 1], lines[|lines| - 1];
    assert lines == head + [last];
    ClosedParts(head, last);
    LinesJoin(head + [last + "\n"]);
  }

  /** Trimming twice is trimming once. */
  lemma TrimRightTwice(s: string)
    ensures TrimRight(TrimRight(s)) == TrimRight(s)
    ensures TrimRight(s) == "" || !Closed(TrimRight(s))
  {
    TrimRightPrefix(s);
  }

  lemma {:induction false} TrimRightUnique(t: string, s: string)
    requires t <= s && (t == "" || t[|t| - 1] != '\n')
    requires forall i :: |t| <= i < |s| ==> s[i] == '\n'
    ensures TrimRight(s) == t
  {
    if |t| < |s| {
      TrimRightUnique(t, s[..|s| - 1]);
    } else {
      assert t == s;
    }
  }
}
