/** The scanning loops of the migration, proved against the state machine. */
module SqliteAuthMigration {
  import opened Wrappers
  import opened SqlTableDefinitions

  // ---------------------------------------------------------------------------------------------
  // Where the body ends

  /** A position found in the text from `index`, counted from `start`. */
  function CloseFrom(sql: string, start: nat, index: nat, st: ScanState): Option<nat>
    requires start <= index <= |sql|
  {
    var at := CloseAt(sql[index..], st);
    if at.None? then None else Some(at.value + index - start)
  }

  lemma CloseStep(sql: string, start: nat, index: nat, st: ScanState)
    requires start <= index < |sql| && !(st == INSIDE && sql[index] == ')')
    ensures CloseFrom(sql, start, index, st) == CloseFrom(sql, start, index + 1, Next(st, sql[index]))
  {
    assert sql[index..][0] == sql[index] && sql[index..][1..] == sql[index + 1..];
  }

  /** Skipping a doubled quote at once is what the state machine does in two steps. */
  lemma CloseDoubled(sql: string, start: nat, index: nat, depth: int, q: char)
    requires start <= index && index + 1 < |sql| && sql[index] == q && sql[index + 1] == q && IsQuote(q)
    ensures CloseFrom(sql, start, index, Scan(depth, Some(q))) == CloseFrom(sql, start, index + 2, Scan(depth, Some(q)))
  {
    CloseStep(sql, start, index, Scan(depth, Some(q)));
    CloseStep(sql, start, index + 1, Scan(depth, None));
  }

  predicate QuoteState(quote: Option<char>) {
    quote.Some? ==> IsQuote(quote.value) || quote.value == ']'
  }

  method TableBodyBounds(sql: string) returns (r: Result<(nat, nat), SqlError>)
    ensures r == Bounds(sql)
  {
    var opening := Find(sql, '(');
    if opening.None? {
      return Err(UnsupportedTable);
    }
    var start := opening.value;
    var depth: int := 0;
    var quote: Option<char> := None;
    var index := start;
    while index < |sql|
      invariant start <= index <= |sql|
      invariant QuoteState(quote)
      invariant CloseFrom(sql, start, start, TOP) == CloseFrom(sql, start, index, Scan(depth, quote))
    {
      var character := sql[index];
      ghost var st := Scan(depth, quote);
      if quote.Some? {
        if character == quote.value {
          if quote.value != ']' && index + 1 < |sql| && sql[index + 1] == quote.value {
            CloseDoubled(sql, start, index, depth, quote.value);
            index := index + 2;
            continue;
          }
          quote := None;
        }
      } else if IsQuote(character) {
        quote := Some(character);
      } else if character == '[' {
        quote := Some(']');
      } else if character == '(' {
        depth := depth + 1;
      } else if character == ')' {
        depth := depth - 1;
        if depth == 0 {
          return Ok((start, index));
        }
      }
      CloseStep(sql, start, index, st);
      index := index + 1;
    }
    return Err(Unbalanced);
  }

  // ---------------------------------------------------------------------------------------------
  // The definitions

  /** A started piece and what the rest of the text adds to it. */
  function Continued(started: string, rest: seq<string>): seq<string>
    requires rest != []
  {
    [started + rest[0]] + rest[1..]
  }

  function PiecesFrom(body: string, start: nat, index: nat, st: ScanState): seq<string>
    requires start <= index <= |body|
  {
    Continued(body[start..index], Pieces(body[index..], st))
  }

  lemma PiecesAtStart(body: string, start: nat, st: ScanState)
    requires start <= |body|
    ensures PiecesFrom(body, start, start, st) == Pieces(body[start..], st)
  {
    var rest := Pieces(body[start..], st);
    assert body[start..start] + rest[0] == rest[0];
  }

  lemma PiecesAtEnd(body: string, start: nat, st: ScanState)
    requires start <= |body|
    ensures PiecesFrom(body, start, |body|, st) == [body[start..]]
  {
    assert body[start..|body|] + "" == body[start..];
  }

  lemma PiecesStep(body: string, start: nat, index: nat, st: ScanState)
    requires start <= index < |body| && !(st == TOP && body[index] == ',')
    ensures PiecesFrom(body, start, index, st) == PiecesFrom(body, start, index + 1, Next(st, body[index]))
  {
    assert body[index..][0] == body[index] && body[index..][1..] == body[index + 1..];
    var rest := Pieces(body[index + 1..], Next(st, body[index]));
    assert body[start..index] + ([body[index]] + rest[0]) == body[start..index + 1] + rest[0];
  }

  lemma PiecesDoubled(body: string, start: nat, index: nat, depth: int, q: char)
    requires start <= index && index + 1 < |body| && body[index] == q && body[index + 1] == q && IsQuote(q)
    ensures PiecesFrom(body, start, index, Scan(depth, Some(q)))
            == PiecesFrom(body, start, index + 2, Scan(depth, Some(q)))
  {
    PiecesStep(body, start, index, Scan(depth, Some(q)));
    PiecesStep(body, start, index + 1, Scan(depth, None));
  }

  lemma PiecesCut(body: string, start: nat, index: nat)
    requires start <= index < |body| && body[index] == ','
    ensures PiecesFrom(body, start, index, TOP) == [body[start..index]] + PiecesFrom(body, index + 1, index + 1, TOP)
  {
    assert body[index..][0] == ',' && body[index..][1..] == body[index + 1..];
    PiecesAtStart(body, index + 1, TOP);
    assert body[start..index] + "" == body[start..index];
  }

  lemma StripAllAppend(a: seq<string>, p: string)
    ensures StripAll(a + [p]) == StripAll(a) + [Strip(p)]
  {
  }

  lemma {:induction false} PieceCut(body: string, cut: seq<string>, start: nat, index: nat)
    requires start <= index < |body| && body[index] == ','
    ensures cut + PiecesFrom(body, start, index, TOP)
            == cut + [body[start..index]] + PiecesFrom(body, index + 1, index + 1, TOP)
    ensures StripAll(cut + [body[start..index]]) == StripAll(cut) + [Strip(body[start..index])]
  {
    PiecesCut(body, start, index);
    StripAllAppend(cut, body[start..index]);
  }

  lemma {:induction false} DefinitionsFrom(body: string, cut: seq<string>, start: nat, st: ScanState)
    requires start <= |body| && Pieces(body, TOP) == cut + PiecesFrom(body, start, |body|, st)
    ensures StripAll(Pieces(body, TOP)) == StripAll(cut) + [Strip(body[start..])]
  {
    PiecesAtEnd(body, start, st);
    StripAllAppend(cut, body[start..]);
  }

  /**
  The part of the loop that tracks quotes and parentheses: the state behind the character, or behind a doubled
  quote.
  */
  method Track(body: string, ghost start: nat, index: nat, depth: int, quote: Option<char>)
    returns (next: nat, depth': int, quote': Option<char>)
    requires start <= index < |body| && QuoteState(quote)
    requires !(quote.None? && body[index] == ',' && depth == 0)
    ensures index < next <= |body| && QuoteState(quote')
    ensures PiecesFrom(body, start, next, Scan(depth', quote')) == PiecesFrom(body, start, index, Scan(depth, quote))
  {
    var character := body[index];
    depth', quote' := depth, quote;
    if quote.Some? {
      if character == quote.value {
        if quote.value != ']' && index + 1 < |body| && body[index + 1] == quote.value {
          PiecesDoubled(body, start, index, depth, quote.value);
          return index + 2, depth, quote;
        }
        quote' := None;
      }
    } else if IsQuote(character) {
      quote' := Some(character);
    } else if character == '[' {
      quote' := Some(']');
    } else if character == '(' {
      depth' := depth + 1;
    } else if character == ')' {
      depth' := depth - 1;
    }
    PiecesStep(body, start, index, Scan(depth, quote));
    next := index + 1;
  }

  method SplitTableDefinitions(body: string) returns (r: Result<seq<string>, SqlError>)
    ensures r == Definitions(body)
  {
    var definitions: seq<string> := [];
    ghost var pieces, cut: seq<string> := Pieces(body, TOP), [];
    var start := 0;
    var depth: int := 0;
    var quote: Option<char> := None;
    var index := 0;
    PiecesAtStart(body, 0, TOP);
    assert body[0..] == body;
    while index < |body|
      invariant 0 <= start <= index <= |body|
      invariant QuoteState(quote)
      invariant definitions == StripAll(cut)
      invariant pieces == cut + PiecesFrom(body, start, index, Scan(depth, quote))
    {
      if quote.None? && body[index] == ',' && depth == 0 {
        PieceCut(body, cut, start, index);
        cut := cut + [body[start..index]];
        definitions := definitions + [Strip(body[start..index])];
        start := index + 1;
        index := index + 1;
      } else {
        index, depth, quote := Track(body, start, index, depth, quote);
      }
    }
    DefinitionsFrom(body, cut, start, Scan(depth, quote));
    definitions := definitions + [Strip(body[start..])];
    if exists i :: 0 <= i < |definitions| && definitions[i] == "" {
      return Err(EmptyDefinition);
    }
    return Ok(definitions);
  }

  // ---------------------------------------------------------------------------------------------
  // The rewriter

  method PlaceOwner(parsed: seq<string>) returns (r: Result<seq<string>, SqlError>)
    ensures r == Edited(parsed)
  {
    var definitions := parsed;
    if exists i :: 0 <= i < |definitions| && DefinitionName(definitions[i]).Err? {
      return Err(UnsupportedIdentifier);
    }
    var owners := OwnerPositions(definitions);
    if |owners| > 1 {
      return Err(MultipleOwners);
    }
    if |owners| == 1 {
      definitions := definitions[owners[0] := CANONICAL_OWNER];
    } else {
      var at := FirstConstraint(definitions);
      definitions := definitions[..at] + [CANONICAL_OWNER] + definitions[at..];
    }
    return Ok(definitions);
  }

  /** Parse, put the canonical owner in its place, print. */
  method ReviewSessionsNewTableSql(sql: string) returns (r: Result<string, SqlError>)
    ensures r == Rewritten(sql)
  {
    var bounds := TableBodyBounds(sql);
    if bounds.Err? {
      return Err(bounds.error);
    }
    var (start, end) := bounds.value;
    ParsedWithin(sql, bounds.value);
    var parsed := SplitTableDefinitions(sql[start + 1..end]);
    RewrittenFrom(sql, parsed, sql[end + 1..]);
    if parsed.Err? {
      return Err(parsed.error);
    }
    var edited := PlaceOwner(parsed.value);
    if edited.Err? {
      return Err(edited.error);
    }
    return Ok(Statement(edited.value, sql[end + 1..]));
  }

  lemma {:induction false} RewrittenFrom(sql: string, parsed: Result<seq<string>, SqlError>, suffix: string)
    requires Bounds(sql).Ok? && Parsed(sql) == parsed && Suffix(sql) == suffix
    ensures Rewritten(sql)
         == if parsed.Err? then Err(parsed.error)
            else
              var edited := Edited(parsed.value);
              if edited.Err? then Err(edited.error) else Ok(Statement(edited.value, suffix))
  {
  }

  lemma {:induction false} ParsedWithin(sql: string, bounds: (nat, nat))
    requires Bounds(sql) == Ok(bounds)
    ensures bounds.0 < bounds.1 < |sql|
    ensures Parsed(sql) == Definitions(sql[bounds.0 + 1..bounds.1]) && Suffix(sql) == sql[bounds.1 + 1..]
  {
    AcceptedBody(sql);
  }
}
