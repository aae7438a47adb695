/** The text of a chunk's id (python_chunker.py, review_planner.py). */
module ChunkIds {
  import opened Decimal
  import opened ReviewChunks

  function Render(id: ChunkId): string {
    match id
    case Root(prefix, index) => prefix + ":" + ToDecimal(index)
    case Child(parent, number) => Render(parent) + "." + ToDecimal(number)
  }

  function TrailingDigits(s: string): nat {
    if s == "" || !IsDigit(s[|s| - 1]) then 0 else 1 + TrailingDigits(s[..|s| - 1])
  }

  lemma {:induction false} TrailingNumeral(a: string, c: char, m: string)
    requires !IsDigit(c) && forall i :: 0 <= i < |m| ==> IsDigit(m[i])
    ensures TrailingDigits(a + [c] + m) == |m|
    decreases |m|
  {
    var s := a + [c] + m;
    if m == "" {
      assert s[|s| - 1] == c;
    } else {
      assert s[|s| - 1] == m[|m| - 1] && s[..|s| - 1] == a + [c] + m[..|m| - 1];
      TrailingNumeral(a, c, m[..|m| - 1]);
    }
  }

  /** A text that ends in a separator and a numeral is cut in one way only. */
  lemma CutUniquely(a: string, c: char, m: string, b: string, d: char, n: string)
    requires a + [c] + m == b + [d] + n && IsNumeral(m) && IsNumeral(n) && !IsDigit(c) && !IsDigit(d)
    ensures a == b && c == d && m == n
  {
    var s, t := a + [c] + m, b + [d] + n;
    TrailingNumeral(a, c, m);
    TrailingNumeral(b, d, n);
    assert s[..|a|] == a && t[..|b|] == b && s[|a|] == c && t[|b|] == d && s[|a| + 1..] == m && t[|b| + 1..] == n;
  }

  /** Different chunks have different ids as texts. */
  lemma {:induction false} RenderInjective(x: ChunkId, y: ChunkId)
    requires Render(x) == Render(y)
    ensures x == y
    decreases x
  {
    var (a, m) := if x.Root? then (x.prefix, x.index) else (Render(x.parent), x.number);
    var (b, n) := if y.Root? then (y.prefix, y.index) else (Render(y.parent), y.number);
    DecimalRoundTrip(m);
    DecimalRoundTrip(n);
    CutUniquely(a, if x.Root? then ':' else '.', ToDecimal(m), b, if y.Root? then ':' else '.', ToDecimal(n));
    if x.Child? {
      RenderInjective(x.parent, y.parent);
    }
  }
}
