/**
Rewriting the definition list of a CREATE TABLE statement (sqlite_auth_migration.py:
`_table_body_bounds`, `_split_table_definitions`, `_review_sessions_new_table_sql`). The scanners
look one character ahead for doubled quotes; the specification is a state machine that does not.
*/
module SqlTableDefinitions {
  import opened Wrappers
  import opened Ascii

  datatype SqlError = UnsupportedTable | Unbalanced | EmptyDefinition | UnsupportedIdentifier | MultipleOwners

  // ---------------------------------------------------------------------------------------------
  // The state machine

  datatype ScanState = Scan(depth: int, quote: Option<char>)

  const TOP := Scan(0, None)
  const INSIDE := Scan(1, None)

  predicate IsQuote(c: char) {
    c == '\'' || c == '"' || c == '`'
  }

  /** A doubled quote closes the literal and opens it again. */
  function Next(st: ScanState, c: char): ScanState {
    if st.quote.Some? then (if c == st.quote.value then Scan(st.depth, None) else st)
    else if IsQuote(c) then Scan(st.depth, Some(c))
    else if c == '[' then Scan(st.depth, Some(']'))
    else if c == '(' then Scan(st.depth + 1, None)
    else if c == ')' then Scan(st.depth - 1, None)
    else st
  }

  function Scanned(st: ScanState, s: string): ScanState
    decreases |s|
  {
    if s == "" then st else Scanned(Next(st, s[0]), s[1..])
  }

  /** Where the parenthesis closes that brought the scan to depth 1. */
  function CloseAt(s: string, st: ScanState): (at: Option<nat>)
    ensures at.Some? ==> at.value < |s| && s[at.value] == ')'
  {
    if s == "" then None
    else if st == INSIDE && s[0] == ')' then Some(0)
    else
      var rest := CloseAt(s[1..], Next(st, s[0]));
      if rest.None? then None else Some(rest.value + 1)
  }

  function Find(s: string, c: char): (at: Option<nat>)
    ensures at.Some? ==> at.value < |s| && s[at.value] == c && forall i :: 0 <= i < at.value ==> s[i] != c
    ensures at.None? ==> forall i :: 0 <= i < |s| ==> s[i] != c
  {
    if s == "" then None
    else if s[0] == c then Some(0)
    else
      var rest := Find(s[1..], c);
      if rest.None? then None else Some(rest.value + 1)
  }

  function Bounds(sql: string): Result<(nat, nat), SqlError> {
    var start := Find(sql, '(');
    if start.None? then Err(UnsupportedTable)
    else
      var at := CloseAt(sql[start.value..], TOP);
      if at.None? then Err(Unbalanced) else Ok((start.value, start.value + at.value))
  }

  /** The text between top-level commas. */
  function Pieces(s: string, st: ScanState): (p: seq<string>)
    ensures p != []
  {
    if s == "" then [""]
    else if st == TOP && s[0] == ',' then [""] + Pieces(s[1..], st)
    else
      var rest := Pieces(s[1..], Next(st, s[0]));
      [[s[0]] + rest[0]] + rest[1..]
  }

  predicate IsSpace(c: char) {
    c in {' ', '\t', '\n', '\r', '\U{0B}', '\U{0C}', '\U{1C}', '\U{1D}', '\U{1E}', '\U{1F}', '\U{85}', '\U{A0}',
          '\U{1680}', '\U{2028}', '\U{2029}', '\U{202F}', '\U{205F}', '\U{3000}'}
    || '\U{2000}' <= c <= '\U{200A}'
  }

  function TrimStart(s: string): string {
    if s != "" && IsSpace(s[0]) then TrimStart(s[1..]) else s
  }

  function TrimEnd(s: string): string {
    if s != "" && IsSpace(s[|s| - 1]) then TrimEnd(s[..|s| - 1]) else s
  }

  function Strip(s: string): string {
    TrimEnd(TrimStart(s))
  }

  function StripAll(pieces: seq<string>): seq<string> {
    seq(|pieces|, i requires 0 <= i < |pieces| => Strip(pieces[i]))
  }

  function Definitions(body: string): Result<seq<string>, SqlError> {
    var definitions := StripAll(Pieces(body, TOP));
    if exists i :: 0 <= i < |definitions| && definitions[i] == "" then Err(EmptyDefinition) else Ok(definitions)
  }

  // ---------------------------------------------------------------------------------------------
  // Names and the edit

  const OWNER := "owner_id"

  const OWNER_TYPE := " TEXT NOT NULL REFERENCES users"

  const OWNER_KEY := "user_id"

  const CANONICAL_OWNER := OWNER + (OWNER_TYPE + ("(" + (OWNER_KEY + ")")))

  const CONSTRAINT_PREFIXES := [
    "CONSTRAINT ", "PRIMARY ", "PRIMARY(", "UNIQUE ", "UNIQUE(", "CHECK ", "CHECK(", "FOREIGN ", "FOREIGN("]

  function Word(s: string): string {
    if s == "" || IsSpace(s[0]) then "" else [s[0]] + Word(s[1..])
  }

  function Closing(c: char): char {
    if c == '[' then ']' else c
  }

  /** A quoted identifier ends at its first closing quote, so there is no doubled one left in it. */
  function DefinitionName(definition: string): Result<string, SqlError> {
    var stripped := TrimStart(definition);
    if stripped == "" then Ok("")
    else if stripped[0] in {'"', '`', '['} then
      var end := Find(stripped[1..], Closing(stripped[0]));
      if end.None? then Err(UnsupportedIdentifier) else Ok(stripped[1..][..end.value])
    else Ok(Word(stripped))
  }

  /** Compared without regard to (ASCII) case. */
  predicate IsOwnerName(name: string) {
    |name| == |OWNER| && forall i :: 0 <= i < |name| ==> Lower(name[i]) == OWNER[i]
  }

  predicate IsOwner(definition: string) {
    DefinitionName(definition).Ok? && IsOwnerName(DefinitionName(definition).value)
  }

  predicate HasPrefix(definition: string, prefix: string) {
    |prefix| <= |definition| && forall i :: 0 <= i < |prefix| ==> Upper(definition[i]) == prefix[i]
  }

  predicate IsConstraint(definition: string) {
    exists k :: 0 <= k < |CONSTRAINT_PREFIXES| && HasPrefix(TrimStart(definition), CONSTRAINT_PREFIXES[k])
  }

  function OwnerPositions(definitions: seq<string>): (positions: seq<nat>)
    ensures forall i :: 0 <= i < |positions| ==> positions[i] < |definitions| && IsOwner(definitions[positions[i]])
    ensures forall k :: 0 <= k < |definitions| && IsOwner(definitions[k]) ==> k in positions
  {
    if definitions == [] then []
    else
      var last := |definitions| - 1;
      OwnerPositions(definitions[..last]) + (if IsOwner(definitions[last]) then [last] else [])
  }

  function FirstConstraint(definitions: seq<string>): (at: nat)
    ensures at <= |definitions|
  {
    if definitions == [] || IsConstraint(definitions[0]) then 0 else 1 + FirstConstraint(definitions[1..])
  }

  function Edited(definitions: seq<string>): Result<seq<string>, SqlError> {
    if exists i :: 0 <= i < |definitions| && DefinitionName(definitions[i]).Err? then Err(UnsupportedIdentifier)
    else
      var owners := OwnerPositions(definitions);
      if |owners| > 1 then Err(MultipleOwners)
      else if |owners| == 1 then Ok(definitions[owners[0] := CANONICAL_OWNER])
      else
        var at := FirstConstraint(definitions);
        Ok(definitions[..at] + [CANONICAL_OWNER] + definitions[at..])
  }

  const HEAD := "CREATE TABLE review_sessions_new "

  function Listed(definitions: seq<string>): string {
    if definitions == [] then ""
    else if |definitions| == 1 then definitions[0]
    else definitions[0] + ", " + Listed(definitions[1..])
  }

  function Statement(definitions: seq<string>, suffix: string): string {
    HEAD + ("(" + (Listed(definitions) + (")" + suffix)))
  }

  function Parsed(sql: string): Result<seq<string>, SqlError> {
    var bounds := Bounds(sql);
    if bounds.Err? then Err(bounds.error)
    else
      Definitions(sql[bounds.value.0 + 1..bounds.value.1])
  }

  function Suffix(sql: string): string
    requires Bounds(sql).Ok?
  {
    sql[Bounds(sql).value.1 + 1..]
  }

  function Rewritten(sql: string): Result<string, SqlError> {
    var definitions := Parsed(sql);
    if definitions.Err? then Err(definitions.error)
    else
      var edited := Edited(definitions.value);
      if edited.Err? then Err(edited.error) else Ok(Statement(edited.value, Suffix(sql)))
  }

  // ---------------------------------------------------------------------------------------------
  // Scanning pieces of text

  lemma {:induction false} ScannedAppend(st: ScanState, a: string, b: string)
    ensures Scanned(st, a + b) == Scanned(Scanned(st, a), b)
    decreases |a|
  {
    if a == "" {
      assert a + b == b;
    } else {
      assert (a + b)[1..] == a[1..] + b;
      ScannedAppend(Next(st, a[0]), a[1..], b);
    }
  }

  /** No top-level comma and no parenthesis that would close the enclosing one. */
  predicate Quiet(s: string, st: ScanState) {
    s == "" || (!(st == TOP && s[0] in {',', ')'}) && Quiet(s[1..], Next(st, s[0])))
  }

  predicate NeverCloses(s: string, st: ScanState) {
    s == "" || (!(st == TOP && s[0] == ')') && NeverCloses(s[1..], Next(st, s[0])))
  }

  lemma {:induction false} QuietNeverCloses(s: string, st: ScanState)
    requires Quiet(s, st)
    ensures NeverCloses(s, st)
  {
    if s != "" {
      QuietNeverCloses(s[1..], Next(st, s[0]));
    }
  }

  lemma {:induction false} NeverClosesAppend(a: string, b: string, st: ScanState)
    requires NeverCloses(a, st) && NeverCloses(b, Scanned(st, a))
    ensures NeverCloses(a + b, st)
    decreases |a|
  {
    if a == "" {
      assert a + b == b;
    } else {
      assert (a + b)[1..] == a[1..] + b;
      NeverClosesAppend(a[1..], b, Next(st, a[0]));
    }
  }

  function Deeper(st: ScanState): ScanState {
    Scan(st.depth + 1, st.quote)
  }

  /** Reading a body one level deeper finds its end exactly behind it. */
  lemma {:induction false} CloseBehind(body: string, st: ScanState, rest: string)
    requires NeverCloses(body, st) && Scanned(st, body) == TOP
    ensures CloseAt(body + (")" + rest), Deeper(st)) == Some(|body|)
    decreases |body|
  {
    var s := body + (")" + rest);
    if body == "" {
      assert s == ")" + rest && s[0] == ')';
    } else {
      assert s[1..] == body[1..] + (")" + rest);
      CloseBehind(body[1..], Next(st, body[0]), rest);
      CloseOneLater(s, st);
    }
  }

  lemma {:induction false} CloseOneLater(s: string, st: ScanState)
    requires s != "" && !(st == TOP && s[0] == ')')
    ensures var rest := CloseAt(s[1..], Deeper(Next(st, s[0])));
            CloseAt(s, Deeper(st)) == if rest.None? then None else Some(rest.value + 1)
  {
  }

  /** And conversely what lies before the end is such a body. */
  lemma {:induction false} BeforeClose(s: string, st: ScanState)
    requires CloseAt(s, Deeper(st)).Some?
    ensures var body := s[..CloseAt(s, Deeper(st)).value]; NeverCloses(body, st) && Scanned(st, body) == TOP
  {
    var at := CloseAt(s, Deeper(st)).value;
    if at > 0 {
      BeforeClose(s[1..], Next(st, s[0]));
      assert s[..at][1..] == s[1..][..at - 1];
    }
  }

  /** The body of an accepted statement. */
  lemma AcceptedBody(sql: string)
    requires Bounds(sql).Ok?
    ensures var (start, end) := Bounds(sql).value;
            start < end < |sql| && NeverCloses(sql[start + 1..end], TOP) && Scanned(TOP, sql[start + 1..end]) == TOP
  {
    var (start, end) := Bounds(sql).value;
    var s := sql[start..];
    assert s[0] == '(' && Next(TOP, '(') == Deeper(TOP);
    BeforeClose(s[1..], TOP);
    assert s[1..][..end - start - 1] == sql[start + 1..end];
  }

  // ---------------------------------------------------------------------------------------------
  // Splitting

  /** A quiet stretch stays in one piece with what follows it. */
  lemma {:induction false} PiecesAppend(a: string, b: string, st: ScanState)
    requires Quiet(a, st)
    ensures var p := Pieces(b, Scanned(st, a)); Pieces(a + b, st) == [a + p[0]] + p[1..]
    decreases |a|
  {
    if a == "" {
      assert a + b == b;
      var p := Pieces(b, st);
      assert a + p[0] == p[0];
      assert [a + p[0]] + p[1..] == p;
    } else {
      assert (a + b)[1..] == a[1..] + b;
      PiecesAppend(a[1..], b, Next(st, a[0]));
      assert [a[0]] + (a[1..] + Pieces(b, Scanned(st, a))[0]) == a + Pieces(b, Scanned(st, a))[0];
    }
  }

  predicate Balanced(p: string, st: ScanState) {
    Quiet(p, st) && Scanned(st, p) == TOP
  }

  lemma {:induction false} PiecesBalanced(s: string, st: ScanState)
    requires NeverCloses(s, st) && Scanned(st, s) == TOP
    ensures Balanced(Pieces(s, st)[0], st)
    ensures forall i :: 1 <= i < |Pieces(s, st)| ==> Balanced(Pieces(s, st)[i], TOP)
  {
    if s != "" {
      PiecesBalanced(s[1..], Next(st, s[0]));
      var rest := Pieces(s[1..], Next(st, s[0]));
      if st == TOP && s[0] == ',' {
        assert Next(st, ',') == TOP;
        assert Pieces(s, st) == [""] + rest;
      } else {
        assert ([s[0]] + rest[0])[1..] == rest[0];
      }
    }
  }

  predicate PlainQuote(st: ScanState) {
    st.quote.Some? ==> !IsSpace(st.quote.value)
  }

  lemma {:induction false} ScannedPlainQuote(st: ScanState, s: string)
    requires PlainQuote(st)
    ensures PlainQuote(Scanned(st, s))
    decreases |s|
  {
    if s != "" {
      ScannedPlainQuote(Next(st, s[0]), s[1..]);
    }
  }

  lemma {:induction false} TrimStartBalanced(p: string)
    requires Balanced(p, TOP)
    ensures Balanced(TrimStart(p), TOP)
    ensures TrimStart(p) == "" || !IsSpace(TrimStart(p)[0])
  {
    if p != "" && IsSpace(p[0]) {
      TrimStartBalanced(p[1..]);
    }
  }

  lemma {:induction false} QuietPrefix(a: string, b: string, st: ScanState)
    requires Quiet(a + b, st)
    ensures Quiet(a, st)
    decreases |a|
  {
    if a != "" {
      assert (a + b)[1..] == a[1..] + b;
      QuietPrefix(a[1..], b, Next(st, a[0]));
    }
  }

  lemma {:induction false} TrimEndBalanced(p: string)
    requires Balanced(p, TOP)
    ensures Balanced(TrimEnd(p), TOP)
    ensures TrimEnd(p) <= p
    ensures TrimEnd(p) == "" || !IsSpace(TrimEnd(p)[|TrimEnd(p)| - 1])
  {
    if p != "" && IsSpace(p[|p| - 1]) {
      var n := |p| - 1;
      assert p == p[..n] + [p[n]];
      ScannedAppend(TOP, p[..n], [p[n]]);
      ScannedPlainQuote(TOP, p[..n]);
      assert [p[n]][1..] == "";
      QuietPrefix(p[..n], [p[n]], TOP);
      TrimEndBalanced(p[..n]);
    }
  }

  /** A definition as the splitter hands it out. */
  predicate Clean(d: string) {
    d != "" && Balanced(d, TOP) && !IsSpace(d[0]) && !IsSpace(d[|d| - 1])
  }

  lemma StripClean(p: string)
    requires Balanced(p, TOP) && Strip(p) != ""
    ensures Clean(Strip(p))
  {
    TrimStartBalanced(p);
    TrimEndBalanced(TrimStart(p));
  }

  lemma CleanStrip(d: string)
    requires Clean(d)
    ensures Strip(d) == d && Strip(" " + d) == d
  {
    assert (" " + d)[1..] == d && (" " + d)[0] == ' ';
    assert TrimStart(" " + d) == TrimStart(d);
  }

  predicate AllClean(definitions: seq<string>) {
    forall i :: 0 <= i < |definitions| ==> Clean(definitions[i])
  }

  lemma ParsedClean(sql: string)
    requires Parsed(sql).Ok?
    ensures AllClean(Parsed(sql).value) && Parsed(sql).value != []
  {
    AcceptedBody(sql);
    var (start, end) := Bounds(sql).value;
    var pieces := Pieces(sql[start + 1..end], TOP);
    PiecesBalanced(sql[start + 1..end], TOP);
    forall i | 0 <= i < |pieces| ensures Clean(Strip(pieces[i])) {
      assert StripAll(pieces)[i] == Parsed(sql).value[i] != "";
      StripClean(pieces[i]);
    }
  }

  // ---------------------------------------------------------------------------------------------
  // Printing and splitting again

  lemma {:induction false} ListedBalanced(definitions: seq<string>)
    requires AllClean(definitions)
    ensures NeverCloses(Listed(definitions), TOP) && Scanned(TOP, Listed(definitions)) == TOP
  {
    if |definitions| == 1 {
      QuietNeverCloses(definitions[0], TOP);
    } else if |definitions| > 1 {
      var d, rest := definitions[0], Listed(definitions[1..]);
      ListedBalanced(definitions[1..]);
      QuietNeverCloses(d, TOP);
      NeverClosesAppend(d, ", " + rest, TOP);
      ScannedAppend(TOP, d, ", " + rest);
      assert d + (", " + rest) == Listed(definitions);
    }
  }

  /** The pieces of a printed list: the definitions, all but the first with a space before them. */
  lemma {:induction false} PiecesOfListed(definitions: seq<string>)
    requires AllClean(definitions) && definitions != []
    ensures var p := Pieces(Listed(definitions), TOP);
            && |p| == |definitions| && p[0] == definitions[0]
            && forall i :: 1 <= i < |p| ==> p[i] == " " + definitions[i]
  {
    var d := definitions[0];
    if |definitions| == 1 {
      PiecesAppend(d, "", TOP);
      assert d + "" == d;
    } else {
      var rest := Listed(definitions[1..]);
      PiecesOfListed(definitions[1..]);
      FirstOfListed(d, rest);
      assert d + (", " + rest) == Listed(definitions);
      PiecesShifted(Pieces(rest, TOP), definitions);
    }
  }

  lemma {:induction false} PiecesShifted(q: seq<string>, definitions: seq<string>)
    requires |definitions| > 1 && |q| == |definitions| - 1 && q[0] == definitions[1]
    requires forall i :: 1 <= i < |q| ==> q[i] == " " + definitions[1..][i]
    ensures var p := [definitions[0], " " + q[0]] + q[1..];
            |p| == |definitions| && forall i :: 1 <= i < |p| ==> p[i] == " " + definitions[i]
  {
    var p := [definitions[0], " " + q[0]] + q[1..];
    forall i | 1 <= i < |p| ensures p[i] == " " + definitions[i] {
      if i > 1 {
        assert p[i] == q[i - 1] && definitions[1..][i - 1] == definitions[i];
      }
    }
  }

  lemma {:induction false} FirstOfListed(d: string, rest: string)
    requires Balanced(d, TOP)
    ensures var q := Pieces(rest, TOP); Pieces(d + (", " + rest), TOP) == [d, " " + q[0]] + q[1..]
  {
    PiecesAppend(d, ", " + rest, TOP);
    assert d + "" == d;
  }

  lemma DefinitionsOfListed(definitions: seq<string>)
    requires AllClean(definitions) && definitions != []
    ensures Definitions(Listed(definitions)) == Ok(definitions)
  {
    PiecesOfListed(definitions);
    var p := Pieces(Listed(definitions), TOP);
    forall i | 0 <= i < |p| ensures Strip(p[i]) == definitions[i] {
      CleanStrip(definitions[i]);
    }
    assert StripAll(p) == definitions;
  }

  /** Behind a head without parentheses, a balanced body in parentheses is what the bounds enclose. */
  lemma {:induction false} BoundsBehind(head: string, body: string, suffix: string)
    requires (forall i :: 0 <= i < |head| ==> head[i] != '(') && NeverCloses(body, TOP) && Scanned(TOP, body) == TOP
    ensures var sql := head + ("(" + (body + (")" + suffix)));
            && Bounds(sql) == Ok((|head|, |head| + 1 + |body|))
            && sql[|head| + 1..|head| + 1 + |body|] == body
            && sql[|head| + 1 + |body| + 1..] == suffix
  {
    var inner := "(" + (body + (")" + suffix));
    var sql := head + inner;
    FindBehind(head, inner);
    assert sql[|head|..] == inner && inner[1..] == body + (")" + suffix);
    CloseBehind(body, TOP, suffix);
    assert CloseAt(inner, TOP) == Some(|body| + 1);
  }

  lemma {:induction false} BoundsOfStatement(definitions: seq<string>, suffix: string)
    requires AllClean(definitions) && definitions != []
    ensures var sql := Statement(definitions, suffix);
            && Bounds(sql) == Ok((|HEAD|, |HEAD| + 1 + |Listed(definitions)|))
            && sql[|HEAD| + 1..|HEAD| + 1 + |Listed(definitions)|] == Listed(definitions)
            && sql[|HEAD| + 1 + |Listed(definitions)| + 1..] == suffix
  {
    ListedBalanced(definitions);
    BoundsBehind(HEAD, Listed(definitions), suffix);
  }

  lemma {:induction false} FindBehind(head: string, inner: string)
    requires (forall i :: 0 <= i < |head| ==> head[i] != '(') && inner != "" && inner[0] == '('
    ensures Find(head + inner, '(') == Some(|head|)
    decreases |head|
  {
    if head == "" {
      assert head + inner == inner;
    } else {
      assert (head + inner)[1..] == head[1..] + inner;
      FindBehind(head[1..], inner);
    }
  }

  // ---------------------------------------------------------------------------------------------
  // The canonical owner column

  lemma CanonicalOwnerIsClean()
    ensures Clean(CANONICAL_OWNER)
  {
    OwnerTextIsPlain();
    PlainText(OWNER, TOP);
    PlainText(OWNER_TYPE, TOP);
    PlainText(OWNER_KEY, INSIDE);
    CallBalanced(OWNER, OWNER_TYPE, OWNER_KEY);
  }

  lemma OwnerTextIsPlain()
    ensures forall i :: 0 <= i < |OWNER| ==> IsPlain(OWNER[i]) && !IsSpace(OWNER[i])
    ensures forall i :: 0 <= i < |OWNER_TYPE| ==> IsPlain(OWNER_TYPE[i])
    ensures forall i :: 0 <= i < |OWNER_KEY| ==> IsPlain(OWNER_KEY[i])
  {
  }

  /** Plain text and a call with a plain argument are a clean definition. */
  lemma CallBalanced(a: string, t: string, b: string)
    requires Balanced(a, TOP) && Balanced(t, TOP) && Quiet(b, INSIDE) && Scanned(INSIDE, b) == INSIDE
    requires a != "" && !IsSpace(a[0])
    ensures Clean(a + (t + ("(" + (b + ")"))))
  {
    var call := "(" + (b + ")");
    QuietAppend(a, t + call, TOP);
    ScannedAppend(TOP, a, t + call);
    QuietAppend(t, call, TOP);
    ScannedAppend(TOP, t, call);
    assert call[1..] == b + ")" && call[0] == '(';
    QuietAppend(b, ")", INSIDE);
    ScannedAppend(INSIDE, b, ")");
    assert ")"[1..] == "";
  }

  predicate IsPlain(c: char) {
    !IsQuote(c) && c !in {'[', '(', ')', ','}
  }

  lemma {:induction false} PlainText(s: string, st: ScanState)
    requires st.quote.None? && forall i :: 0 <= i < |s| ==> IsPlain(s[i])
    ensures Quiet(s, st) && Scanned(st, s) == st
    decreases |s|
  {
    if s != "" {
      PlainText(s[1..], st);
    }
  }

  lemma {:induction false} QuietAppend(a: string, b: string, st: ScanState)
    requires Quiet(a, st)
    ensures Quiet(a + b, st) <==> Quiet(b, Scanned(st, a))
    decreases |a|
  {
    if a == "" {
      assert a + b == b;
    } else {
      assert (a + b)[1..] == a[1..] + b;
      QuietAppend(a[1..], b, Next(st, a[0]));
    }
  }

  lemma {:induction false} WordOf(word: string, rest: string)
    requires (forall i :: 0 <= i < |word| ==> !IsSpace(word[i])) && rest != "" && IsSpace(rest[0])
    ensures Word(word + rest) == word
    decreases |word|
  {
    if word == "" {
      assert word + rest == rest;
    } else {
      assert (word + rest)[1..] == word[1..] + rest;
      WordOf(word[1..], rest);
    }
  }

  lemma CanonicalOwnerIsOwner()
    ensures IsOwner(CANONICAL_OWNER)
  {
    OwnerTextIsPlain();
    OwnerNamed(OWNER_TYPE + ("(" + (OWNER_KEY + ")")));
  }

  lemma OwnerNamed(rest: string)
    requires rest != "" && rest[0] == ' '
    ensures IsOwner(OWNER + rest)
  {
    OwnerTextIsPlain();
    WordOf(OWNER, rest);
    assert TrimStart(OWNER + rest) == OWNER + rest;
  }

  /** A definition the splitter hands out never has an unterminated quoted name. */
  lemma CleanHasName(d: string)
    requires Clean(d)
    ensures DefinitionName(d).Ok?
  {
    if d[0] in {'"', '`', '['} {
      var q := Closing(d[0]);
      if Find(d[1..], q).None? {
        StaysQuoted(d[1..], 0, q);
      }
    }
  }

  lemma {:induction false} StaysQuoted(s: string, depth: int, q: char)
    requires forall i :: 0 <= i < |s| ==> s[i] != q
    ensures Scanned(Scan(depth, Some(q)), s) == Scan(depth, Some(q))
    decreases |s|
  {
    if s != "" {
      StaysQuoted(s[1..], depth, q);
    }
  }

  // ---------------------------------------------------------------------------------------------
  // Main results

  /** The edited list: the others unchanged and in order, and exactly one owner, the canonical one. */
  lemma {:induction false} EditedExactly(definitions: seq<string>)
    requires Edited(definitions).Ok?
    ensures var edited := Edited(definitions).value;
            exists at :: 0 <= at < |edited| && edited[at] == CANONICAL_OWNER
              && (forall k :: 0 <= k < |edited| && IsOwner(edited[k]) ==> k == at)
              && (if |OwnerPositions(definitions)| == 1
                  then |edited| == |definitions| && at == OwnerPositions(definitions)[0]
                       && forall k :: 0 <= k < |edited| && k != at ==> edited[k] == definitions[k]
                  else at == FirstConstraint(definitions)
                       && edited[..at] == definitions[..at] && edited[at + 1..] == definitions[at..])
  {
    var edited, owners := Edited(definitions).value, OwnerPositions(definitions);
    if |owners| == 1 {
      OwnerReplaced(definitions, owners[0], CANONICAL_OWNER);
      assert OnlyOwner(edited, owners[0], CANONICAL_OWNER);
    } else {
      OwnerInserted(definitions, FirstConstraint(definitions), CANONICAL_OWNER);
      assert OnlyOwner(edited, FirstConstraint(definitions), CANONICAL_OWNER);
    }
  }

  /** The owner column stands at `at`, and no other definition is one. */
  predicate OnlyOwner(definitions: seq<string>, at: nat, owner: string) {
    && at < |definitions| && definitions[at] == owner
    && forall k :: 0 <= k < |definitions| && IsOwner(definitions[k]) ==> k == at
  }

  lemma {:induction false} OwnerReplaced(definitions: seq<string>, at: nat, owner: string)
    requires OwnerPositions(definitions) == [at]
    ensures at < |definitions| && OnlyOwner(definitions[at := owner], at, owner)
  {
    assert OwnerPositions(definitions)[0] == at;
    var edited := definitions[at := owner];
    forall k | 0 <= k < |edited| && k != at ensures !IsOwner(edited[k]) {
      assert edited[k] == definitions[k];
    }
  }

  lemma {:induction false} OwnerInserted(definitions: seq<string>, at: nat, owner: string)
    requires OwnerPositions(definitions) == [] && at <= |definitions|
    ensures OnlyOwner(definitions[..at] + [owner] + definitions[at..], at, owner)
  {
    var edited := definitions[..at] + [owner] + definitions[at..];
    forall k | 0 <= k < |edited| && k != at ensures !IsOwner(edited[k]) {
      assert edited[k] == definitions[if k < at then k else k - 1];
    }
  }

  lemma {:induction false} EditedClean(definitions: seq<string>)
    requires AllClean(definitions) && Edited(definitions).Ok?
    ensures AllClean(Edited(definitions).value) && Edited(definitions).value != []
  {
    CanonicalOwnerIsClean();
  }

  /** Re-scanning the rewritten statement gives back exactly the edited definitions and the suffix. */
  lemma {:induction false} RewrittenParsesBack(sql: string)
    requires Rewritten(sql).Ok?
    ensures Parsed(Rewritten(sql).value) == Edited(Parsed(sql).value)
    ensures Bounds(Rewritten(sql).value).Ok? && Suffix(Rewritten(sql).value) == Suffix(sql)
  {
    ParsedClean(sql);
    var edited := Edited(Parsed(sql).value).value;
    EditedClean(Parsed(sql).value);
    BoundsOfStatement(edited, Suffix(sql));
    DefinitionsOfListed(edited);
  }

  lemma {:induction false} OneOwnerPosition(definitions: seq<string>, at: nat)
    requires at < |definitions| && IsOwner(definitions[at])
    requires forall k :: 0 <= k < |definitions| && IsOwner(definitions[k]) ==> k == at
    ensures OwnerPositions(definitions) == [at]
    decreases |definitions|
  {
    var last := |definitions| - 1;
    var front := definitions[..last];
    forall k | 0 <= k < last ensures front[k] == definitions[k] {
    }
    if at < last {
      OneOwnerPosition(front, at);
    } else {
      NoOwnerPosition(front);
    }
  }

  lemma {:induction false} NoOwnerPosition(definitions: seq<string>)
    requires forall k :: 0 <= k < |definitions| ==> !IsOwner(definitions[k])
    ensures OwnerPositions(definitions) == []
    decreases |definitions|
  {
    if definitions != [] {
      NoOwnerPosition(definitions[..|definitions| - 1]);
    }
  }

  /** A list whose one owner is the canonical one is left as it is. */
  lemma {:induction false} CanonicalIsStable(edited: seq<string>, at: nat)
    requires AllClean(edited) && at < |edited| && edited[at] == CANONICAL_OWNER
    requires forall k :: 0 <= k < |edited| && IsOwner(edited[k]) ==> k == at
    ensures Edited(edited) == Ok(edited)
  {
    CanonicalOwnerIsOwner();
    OneOwnerPosition(edited, at);
    forall k | 0 <= k < |edited| ensures DefinitionName(edited[k]).Ok? {
      CleanHasName(edited[k]);
    }
    assert edited[at := CANONICAL_OWNER] == edited;
  }

  /** Editing an edited list changes nothing. */
  lemma {:induction false} EditedIsStable(definitions: seq<string>)
    requires AllClean(definitions) && Edited(definitions).Ok?
    ensures Edited(Edited(definitions).value) == Edited(definitions)
  {
    EditedExactly(definitions);
    EditedClean(definitions);
    var edited := Edited(definitions).value;
    var at :| 0 <= at < |edited| && edited[at] == CANONICAL_OWNER
              && forall k :: 0 <= k < |edited| && IsOwner(edited[k]) ==> k == at;
    CanonicalIsStable(edited, at);
  }

  /** Rewriting twice is rewriting once. */
  lemma {:induction false} RewritingIsIdempotent(sql: string)
    requires Rewritten(sql).Ok?
    ensures Rewritten(Rewritten(sql).value) == Rewritten(sql)
  {
    RewrittenParsesBack(sql);
    ParsedClean(sql);
    EditedIsStable(Parsed(sql).value);
  }

  /** What the rewriter accepts: a balanced body without blank definitions and with at most one owner. */
  lemma {:induction false} RewrittenExactly(sql: string)
    ensures Rewritten(sql).Ok? <==> Parsed(sql).Ok? && |OwnerPositions(Parsed(sql).value)| <= 1
    ensures Rewritten(sql) != Err(UnsupportedIdentifier)
  {
    if Parsed(sql).Ok? {
      ParsedClean(sql);
      var definitions := Parsed(sql).value;
      forall k | 0 <= k < |definitions| ensures DefinitionName(definitions[k]).Ok? {
        CleanHasName(definitions[k]);
      }
    }
  }
}
