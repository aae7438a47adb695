/** Fitting a chunk and its context references into a token budget (context_budget.py). */
module ContextBudget {
  import opened Decimal
  import opened Sorting
  import ReviewChunks

  type Reference = ReviewChunks.ContextReference

  datatype Action = SplitTarget | TrimContext | Fits

  datatype Decision = Decision(
    action: Action, references: seq<Reference>, promptTokens: int, outputTokens: int, totalTokens: int)

  datatype Budget = Budget(
    contextTokens: int, safetyTokens: int, minimumOutput: int, maximumOutput: int, fixedPrompt: int)

  // ---------------------------------------------------------------------------------------------
  // Estimating

  function Utf8Length(s: string): nat {
    if s == "" then 0
    else
      (if s[0] < '\U{80}' then 1 else if s[0] < '\U{800}' then 2 else if s[0] < '\U{10000}' then 3 else 4)
      + Utf8Length(s[1..])
  }

  /** Half a token a byte, rounded up, and at least one. */
  function EstimateText(s: string): nat {
    var halves := (Utf8Length(s) + 1) / 2;
    if halves < 1 then 1 else halves
  }

  function Metadata(r: Reference): string {
    r.path + ":" + ToDecimal(r.startLine) + "-" + ToDecimal(r.endLine)
  }

  function ReferenceTokens(r: Reference): (n: nat)
    ensures n >= 33
  {
    EstimateText(Metadata(r) + r.code) + 32
  }

  function TokensOf(references: seq<Reference>): nat {
    if references == [] then 0
    else TokensOf(references[..|references| - 1]) + ReferenceTokens(references[|references| - 1])
  }

  // ---------------------------------------------------------------------------------------------
  // Ranking

  predicate StringLess(a: string, b: string) {
    b != "" && (a == "" || a[0] < b[0] || (a[0] == b[0] && StringLess(a[1..], b[1..])))
  }

  /** By rank, then path, then first line. */
  predicate RankedBefore(a: Reference, b: Reference) {
    a.rank < b.rank
    || (a.rank == b.rank && (StringLess(a.path, b.path) || (a.path == b.path && a.startLine <= b.startLine)))
  }

  function Ranked(references: seq<Reference>): seq<Reference> {
    Sort(RankedBefore, references)
  }

  lemma {:induction false} StringOrder(a: string, b: string, c: string)
    ensures StringLess(a, b) || StringLess(b, a) || a == b
    ensures StringLess(a, b) && StringLess(b, c) ==> StringLess(a, c)
    decreases |a|
  {
    if a != "" && b != "" {
      StringOrder(a[1..], b[1..], if c == "" then c else c[1..]);
      assert a == [a[0]] + a[1..] && b == [b[0]] + b[1..];
    }
  }

  lemma RankingIsOrder()
    ensures TotalPreorder(RankedBefore)
  {
    forall x: Reference, y: Reference ensures RankedBefore(x, y) || RankedBefore(y, x) {
      StringOrder(x.path, y.path, "");
    }
    forall x: Reference, y: Reference, z: Reference | RankedBefore(x, y) && RankedBefore(y, z)
      ensures RankedBefore(x, z)
    {
      StringOrder(x.path, y.path, z.path);
    }
  }

  // ---------------------------------------------------------------------------------------------
  // Fitting

  function Available(b: Budget): int {
    b.contextTokens - b.safetyTokens
  }

  function Base(b: Budget, code: string): int {
    b.fixedPrompt + EstimateText(code) + 32
  }

  /** The first `n` ranked references leave the minimum output. */
  predicate Leaves(b: Budget, code: string, ranked: seq<Reference>, n: nat)
    requires n <= |ranked|
  {
    Base(b, code) + TokensOf(ranked[..n]) + b.minimumOutput <= Available(b)
  }

  /** The target alone is too large. */
  predicate MustSplit(b: Budget, code: string) {
    Base(b, code) + b.minimumOutput > Available(b)
  }

  ghost predicate IsDecision(b: Budget, code: string, references: seq<Reference>, d: Decision) {
    var ranked, kept := Ranked(references), |d.references|;
    if MustSplit(b, code) then d == Decision(SplitTarget, [], Base(b, code), 0, Base(b, code))
    else
      && kept <= |ranked| && d.references == ranked[..kept]
      && (forall n :: 0 <= n <= |ranked| ==> (Leaves(b, code, ranked, n) <==> n <= kept))
      && d.promptTokens == Base(b, code) + TokensOf(d.references)
      && d.outputTokens == (if b.maximumOutput <= Available(b) - d.promptTokens then b.maximumOutput
                            else Available(b) - d.promptTokens)
      && d.totalTokens == d.promptTokens + d.outputTokens
      && d.action == (if kept < |references| then TrimContext else Fits)
  }

  lemma {:induction false} LongerCostsMore(ranked: seq<Reference>, n: nat, m: nat)
    requires n <= m <= |ranked|
    ensures TokensOf(ranked[..m]) >= TokensOf(ranked[..n]) + 33 * (m - n)
    decreases m
  {
    if n < m {
      LongerCostsMore(ranked, n, m - 1);
      assert ranked[..m][..m - 1] == ranked[..m - 1];
    }
  }

  ghost predicate NoneLongerLeaves(b: Budget, code: string, ranked: seq<Reference>, kept: nat) {
    forall n :: kept < n <= |ranked| ==> !Leaves(b, code, ranked, n)
  }

  lemma {:induction false} OneFewer(b: Budget, code: string, ranked: seq<Reference>, references: seq<Reference>)
    requires references != [] && |references| <= |ranked| && references == ranked[..|references|]
    requires NoneLongerLeaves(b, code, ranked, |references|)
    requires Base(b, code) + TokensOf(references) + b.minimumOutput > Available(b)
    ensures NoneLongerLeaves(b, code, ranked, |references| - 1)
    ensures references[..|references| - 1] == ranked[..|references| - 1]
    ensures TokensOf(references[..|references| - 1])
            == TokensOf(references) - ReferenceTokens(references[|references| - 1])
  {
  }

  lemma KeptExactly(b: Budget, code: string, ranked: seq<Reference>, kept: nat)
    requires kept <= |ranked| && Leaves(b, code, ranked, kept) && NoneLongerLeaves(b, code, ranked, kept)
    ensures forall n :: 0 <= n <= |ranked| ==> (Leaves(b, code, ranked, n) <==> n <= kept)
  {
    forall n | 0 <= n <= kept ensures Leaves(b, code, ranked, n) {
      LongerCostsMore(ranked, n, kept);
    }
  }

  /** Keeps the longest ranked prefix of references that leaves room for the minimum output. */
  method Fit(b: Budget, code: string, contextReferences: seq<Reference>) returns (d: Decision)
    ensures IsDecision(b, code, contextReferences, d)
  {
    var available := Available(b);
    var base := Base(b, code);
    if base + b.minimumOutput > available {
      return Decision(SplitTarget, [], base, 0, base);
    }
    ghost var ranked := Ranked(contextReferences);
    var references := Ranked(contextReferences);
    SortPermutes(RankedBefore, contextReferences);
    var originalCount := |references|;
    var prompt := base + TokensOf(references);
    assert references == ranked[..|ranked|];
    while references != [] && prompt + b.minimumOutput > available
      invariant |references| <= |ranked| && references == ranked[..|references|]
      invariant prompt == base + TokensOf(references)
      invariant NoneLongerLeaves(b, code, ranked, |references|)
      decreases |references|
    {
      OneFewer(b, code, ranked, references);
      var removed := references[|references| - 1];
      prompt := prompt - ReferenceTokens(removed);
      references := references[..|references| - 1];
    }
    KeptExactly(b, code, ranked, |references|);
    var output := if b.maximumOutput <= available - prompt then b.maximumOutput else available - prompt;
    var action := if |references| < originalCount then TrimContext else Fits;
    return Decision(action, references, prompt, output, prompt + output);
  }

  // ---------------------------------------------------------------------------------------------
  // What that means

  lemma BudgetIsKept(b: Budget, code: string, references: seq<Reference>, d: Decision)
    requires IsDecision(b, code, references, d)
    ensures d.action == SplitTarget <==> MustSplit(b, code)
    ensures d.action != SplitTarget ==>
              && d.totalTokens <= Available(b)
              && d.outputTokens >= (if b.minimumOutput <= b.maximumOutput then b.minimumOutput else b.maximumOutput)
    ensures d.action == Fits <==> !MustSplit(b, code) && Leaves(b, code, Ranked(references), |Ranked(references)|)
  {
    SortPermutes(RankedBefore, references);
    if !MustSplit(b, code) {
      assert Leaves(b, code, Ranked(references), |d.references|);
    }
  }

  /** A larger context never keeps fewer references, and never asks for a split where the smaller one did not. */
  lemma LargerContextKeepsMore(
    b: Budget, larger: Budget, code: string, references: seq<Reference>, d: Decision, e: Decision
  )
    requires larger == b.(contextTokens := larger.contextTokens) && b.contextTokens <= larger.contextTokens
    requires IsDecision(b, code, references, d) && IsDecision(larger, code, references, e)
    ensures e.action == SplitTarget ==> d.action == SplitTarget
    ensures d.references <= e.references
  {
    if !MustSplit(b, code) {
      assert Leaves(b, code, Ranked(references), |d.references|);
      assert Leaves(larger, code, Ranked(references), |d.references|);
    }
  }

  /** What is dropped ranks behind what is kept, and nothing else is dropped. */
  lemma DroppedRankBehind(b: Budget, code: string, references: seq<Reference>, d: Decision)
    requires IsDecision(b, code, references, d) && d.action != SplitTarget
    ensures multiset(references) == multiset(d.references) + multiset(Ranked(references)[|d.references|..])
    ensures forall kept, dropped :: kept in d.references && dropped in Ranked(references)[|d.references|..] ==>
              RankedBefore(kept, dropped)
  {
    var ranked, n := Ranked(references), |d.references|;
    SortPermutes(RankedBefore, references);
    RankingIsOrder();
    SortOrdered(RankedBefore, references);
    assert ranked == ranked[..n] + ranked[n..];
  }
}
