/** Naming a pasted snippet (languageDetector.ts, `canonicalPathKey` and `uniqueSnippetFilename`), for ASCII paths. */
module SnippetFilename {
  import opened Ascii
  import opened Decimal

  datatype ReviewLanguage = Python | Cpp

  // ---------------------------------------------------------------------------------------------
  // Canonical path keys

  predicate IsSlash(c: char) {
    c == '/' || c == '\\'
  }

  function SplitPath(path: string): (parts: seq<string>)
    ensures parts != []
  {
    if path == "" then [""]
    else
      var rest := SplitPath(path[1..]);
      if IsSlash(path[0]) then [""] + rest else [[path[0]] + rest[0]] + rest[1..]
  }

  /** Empty parts and `.` are skipped, `..` takes one part back. */
  function Resolved(parts: seq<string>): seq<string> {
    if parts == [] then []
    else
      var before, part := Resolved(parts[..|parts| - 1]), parts[|parts| - 1];
      if part == "" || part == "." then before
      else if part == ".." then (if before == [] then [] else before[..|before| - 1])
      else before + [part]
  }

  function JoinPath(parts: seq<string>): string {
    if parts == [] then ""
    else if |parts| == 1 then parts[0]
    else parts[0] + "/" + JoinPath(parts[1..])
  }

  function LowerCase(s: string): string {
    seq(|s|, i requires 0 <= i < |s| => Lower(s[i]))
  }

  function PathKey(path: string): string {
    LowerCase(JoinPath(Resolved(SplitPath(path))))
  }

  method CanonicalPathKey(path: string) returns (key: string)
    ensures key == PathKey(path)
  {
    var parts: seq<string> := [];
    var all := SplitPath(path);
    for i := 0 to |all|
      invariant parts == Resolved(all[..i])
    {
      var part := all[i];
      assert all[..i + 1][..i] == all[..i];
      if part == "" || part == "." {
        continue;
      }
      if part == ".." {
        if parts != [] {
          parts := parts[..|parts| - 1];
        }
      } else {
        parts := parts + [part];
      }
    }
    assert all[..|all|] == all;
    return LowerCase(JoinPath(parts));
  }

  // ---------------------------------------------------------------------------------------------
  // Candidate names

  function Suffix(language: ReviewLanguage): string {
    if language == Python then ".py" else ".cpp"
  }

  function Candidate(language: ReviewLanguage, index: nat): string {
    if index == 1 then "snippet" + Suffix(language) else "snippet-" + ToDecimal(index) + Suffix(language)
  }

  predicate IsPlain(c: char) {
    !IsSlash(c) && !('A' <= c <= 'Z')
  }

  lemma {:induction false} SplitPlain(s: string)
    requires forall i :: 0 <= i < |s| ==> IsPlain(s[i])
    ensures SplitPath(s) == [s]
  {
    if s != "" {
      SplitPlain(s[1..]);
      assert [s[0]] + s[1..] == s;
    }
  }

  lemma KeyOfPlain(s: string)
    requires (forall i :: 0 <= i < |s| ==> IsPlain(s[i])) && |s| > 2
    ensures PathKey(s) == s
  {
    SplitPlain(s);
    ResolvedOne(s);
  }

  lemma ResolvedOne(s: string)
    requires |s| > 2
    ensures Resolved([s]) == [s] && JoinPath([s]) == s
  {
    assert [s][..0] == [] && Resolved([]) == [];
    assert s != "" && s != "." && s != "..";
  }

  lemma CandidateIsPlain(language: ReviewLanguage, index: nat)
    ensures forall i :: 0 <= i < |Candidate(language, index)| ==> IsPlain(Candidate(language, index)[i])
    ensures |Candidate(language, index)| > 2
  {
    DecimalRoundTrip(index);
    forall c | c in ToDecimal(index) ensures IsPlain(c) {
      assert IsDigit(c);
    }
    PlainText("snippet-");
    PlainText("snippet");
    PlainText(Suffix(language));
  }

  lemma PlainText(s: string)
    requires s in {"snippet-", "snippet", ".py", ".cpp"}
    ensures forall i :: 0 <= i < |s| ==> IsPlain(s[i])
  {
  }

  /** A candidate's key is the candidate itself. */
  lemma CandidateKey(language: ReviewLanguage, index: nat)
    ensures PathKey(Candidate(language, index)) == Candidate(language, index)
  {
    CandidateIsPlain(language, index);
    KeyOfPlain(Candidate(language, index));
  }

  lemma CandidateText(language: ReviewLanguage, index: nat)
    ensures var name := Candidate(language, index); var n := |name| - |Suffix(language)|;
            && n >= 7
            && (index == 1 ==> name[7] == '.')
            && (index != 1 ==> n >= 8 && name[7] == '-' && name[8..n] == ToDecimal(index))
  {
  }

  lemma CandidatesDiffer(language: ReviewLanguage, i: nat, j: nat)
    requires i != j
    ensures Candidate(language, i) != Candidate(language, j)
  {
    DecimalRoundTrip(i);
    DecimalRoundTrip(j);
    CandidateText(language, i);
    CandidateText(language, j);
    assert ToDecimal(i) != ToDecimal(j);
  }

  // ---------------------------------------------------------------------------------------------
  // The search

  function Keys(paths: seq<string>): set<string> {
    if paths == [] then {} else Keys(paths[..|paths| - 1]) + {PathKey(paths[|paths| - 1])}
  }

  predicate Occupied(paths: seq<string>, key: string) {
    exists i :: 0 <= i < |paths| && PathKey(paths[i]) == key
  }

  lemma {:induction false} KeysExactly(paths: seq<string>, key: string)
    ensures key in Keys(paths) <==> Occupied(paths, key)
    decreases |paths|
  {
    if paths != [] {
      var n := |paths| - 1;
      KeysExactly(paths[..n], key);
      if Occupied(paths[..n], key) {
        var i :| 0 <= i < n && PathKey(paths[..n][i]) == key;
        assert PathKey(paths[i]) == key;
      }
      if Occupied(paths, key) && PathKey(paths[n]) != key {
        var i :| 0 <= i < |paths| && PathKey(paths[i]) == key;
        assert PathKey(paths[..n][i]) == key;
      }
    }
  }

  lemma {:induction false} KeysSize(paths: seq<string>)
    ensures |Keys(paths)| <= |paths|
    decreases |paths|
  {
    if paths != [] {
      KeysSize(paths[..|paths| - 1]);
    }
  }

  function Tried(language: ReviewLanguage, n: nat): set<string> {
    if n == 0 then {} else Tried(language, n - 1) + {Candidate(language, n)}
  }

  lemma {:induction false} TriedExactly(language: ReviewLanguage, n: nat)
    ensures |Tried(language, n)| == n
    ensures forall name :: name in Tried(language, n) <==> exists i :: 1 <= i <= n && Candidate(language, i) == name
  {
    if n > 0 {
      TriedExactly(language, n - 1);
      forall i | 1 <= i < n ensures Candidate(language, i) != Candidate(language, n) {
        CandidatesDiffer(language, i, n);
      }
    }
  }

  lemma SubsetSize<T>(a: set<T>, b: set<T>)
    requires a <= b
    ensures |a| <= |b|
  {
    assert b == a + (b - a);
  }

  /** More candidates cannot have been tried than there are keys. */
  lemma Pigeonhole(language: ReviewLanguage, n: nat, occupied: set<string>)
    requires forall k :: 1 <= k <= n ==> Candidate(language, k) in occupied
    ensures n <= |occupied|
  {
    TriedExactly(language, n);
    SubsetSize(Tried(language, n), occupied);
  }

  /** The search ends within one more try than there are paths, at the first candidate that is free. */
  method UniqueSnippetFilename(language: ReviewLanguage, paths: seq<string>) returns (name: string, ghost index: nat)
    ensures 1 <= index <= |paths| + 1 && name == Candidate(language, index)
    ensures !Occupied(paths, PathKey(name))
    ensures forall k :: 1 <= k < index ==> Occupied(paths, PathKey(Candidate(language, k)))
  {
    var occupied := Keys(paths);
    var next := 1;
    KeysSize(paths);
    while true
      invariant 1 <= next <= |occupied| + 1
      invariant forall k :: 1 <= k < next ==> Candidate(language, k) in occupied
      decreases |occupied| + 1 - next
    {
      var candidate := Candidate(language, next);
      CandidateKey(language, next);
      var key := CanonicalPathKey(candidate);
      if key !in occupied {
        KeysExactly(paths, key);
        forall k | 1 <= k < next ensures Occupied(paths, PathKey(Candidate(language, k))) {
          CandidateKey(language, k);
          KeysExactly(paths, Candidate(language, k));
        }
        return candidate, next;
      }
      Pigeonhole(language, next, occupied);
      next := next + 1;
    }
  }
}
