/** The person wizard's name matching: a longest-common-subsequence table and the score built on it. */
module Lcs {
  import opened Basics

  // ---------------------------------------------------------------------------
  // Common subsequences
  // ---------------------------------------------------------------------------

  /** `at` lists increasing positions of `t` that spell `s`. */
  ghost predicate Spells(s: string, t: string, at: seq<nat>) {
    && |at| == |s|
    && (forall k :: 0 <= k < |at| ==> at[k] < |t| && t[at[k]] == s[k])
    && (forall k, l :: 0 <= k < l < |at| ==> at[k] < at[l])
  }

  ghost predicate IsSubsequence(s: string, t: string) {
    exists at :: Spells(s, t, at)
  }

  ghost predicate Common(s: string, a: string, b: string) {
    IsSubsequence(s, a) && IsSubsequence(s, b)
  }

  // ---------------------------------------------------------------------------
  // The table's recurrence
  // ---------------------------------------------------------------------------

  /** Entry (i, j) of the table: for the first `i` and `j` characters. */
  function Cell(a: string, b: string, i: nat, j: nat): (n: nat)
    requires i <= |a| && j <= |b|
  {
    if i == 0 || j == 0 then 0
    else if a[i - 1] == b[j - 1] then Cell(a, b, i - 1, j - 1) + 1
    else Max(Cell(a, b, i - 1, j), Cell(a, b, i, j - 1))
  }

  function Length(a: string, b: string): nat {
    Cell(a, b, |a|, |b|)
  }

  /** The rows before `i` are filled, and column 0 everywhere. */
  ghost predicate RowsDone(dp: array2<nat>, left: string, right: string, i: nat)
    requires dp.Length0 == |left| + 1 && dp.Length1 == |right| + 1 && i <= |left| + 1
    reads dp
  {
    && (forall x, y :: 0 <= x < i && 0 <= y <= |right| ==> dp[x, y] == Cell(left, right, x, y))
    && (forall x :: 0 <= x <= |left| ==> dp[x, 0] == 0)
  }

  method FillRow(dp: array2<nat>, left: string, right: string, i: nat)
    requires dp.Length0 == |left| + 1 && dp.Length1 == |right| + 1 && 1 <= i <= |left|
    requires RowsDone(dp, left, right, i)
    modifies dp
    ensures RowsDone(dp, left, right, i + 1)
  {
    for j := 1 to |right| + 1
      invariant RowsDone(dp, left, right, i)
      invariant forall y :: 0 <= y < j ==> dp[i, y] == Cell(left, right, i, y)
    {
      if left[i - 1] == right[j - 1] {
        dp[i, j] := dp[i - 1, j - 1] + 1;
      } else {
        dp[i, j] := Max(dp[i - 1, j], dp[i, j - 1]);
      }
    }
  }

  /** Fills the table row by row. */
  method LongestCommonSubsequenceLength(left: string, right: string) returns (n: nat)
    ensures n == Length(left, right)
  {
    if left == "" || right == "" {
      return 0;
    }
    var dp := new nat[|left| + 1, |right| + 1]((i, j) => 0);
    for i := 1 to |left| + 1
      invariant RowsDone(dp, left, right, i)
    {
      FillRow(dp, left, right, i);
    }
    n := dp[|left|, |right|];
  }

  // ---------------------------------------------------------------------------
  // Optimality
  // ---------------------------------------------------------------------------

  /** The positions all lie before `i`. */
  ghost predicate SpellsBefore(s: string, t: string, at: seq<nat>, i: nat) {
    Spells(s, t, at) && (at != [] ==> Last(at) < i)
  }

  lemma {:induction false} DropLast(s: string, t: string, at: seq<nat>, i: nat)
    requires s != [] && SpellsBefore(s, t, at, i)
    ensures i > 0 && SpellsBefore(Init(s), t, Init(at), i - 1)
  {
  }

  /** No common subsequence of the two prefixes is longer than the entry. */
  lemma {:induction false} NoneLonger(s: string, a: string, b: string, i: nat, j: nat, inA: seq<nat>, inB: seq<nat>)
    requires i <= |a| && j <= |b| && SpellsBefore(s, a, inA, i) && SpellsBefore(s, b, inB, j)
    ensures |s| <= Cell(a, b, i, j)
    decreases i + j
  {
    if s != [] {
      DropLast(s, a, inA, i);
      DropLast(s, b, inB, j);
      if a[i - 1] == b[j - 1] {
        NoneLonger(Init(s), a, b, i - 1, j - 1, Init(inA), Init(inB));
      } else if Last(inA) < i - 1 {
        NoneLonger(s, a, b, i - 1, j, inA, inB);
      } else {
        assert Last(inA) == i - 1 && Last(inB) < j - 1;
        NoneLonger(s, a, b, i, j - 1, inA, inB);
      }
    }
  }

  lemma {:induction false} AppendSpells(s: string, t: string, at: seq<nat>, i: nat)
    requires 0 < i <= |t| && SpellsBefore(s, t, at, i - 1)
    ensures SpellsBefore(s + [t[i - 1]], t, at + [i - 1], i)
  {
  }

  /** Some common subsequence of the two prefixes is as long as the entry. */
  lemma {:induction false} OneAsLong(a: string, b: string, i: nat, j: nat) returns (s: string, inA: seq<nat>,
        inB: seq<nat>)
    requires i <= |a| && j <= |b|
    ensures SpellsBefore(s, a, inA, i) && SpellsBefore(s, b, inB, j) && |s| == Cell(a, b, i, j)
    decreases i + j
  {
    if i == 0 || j == 0 {
      s, inA, inB := [], [], [];
    } else if a[i - 1] == b[j - 1] {
      s, inA, inB := OneAsLong(a, b, i - 1, j - 1);
      AppendSpells(s, a, inA, i);
      AppendSpells(s, b, inB, j);
      s, inA, inB := s + [a[i - 1]], inA + [i - 1], inB + [j - 1];
    } else if Cell(a, b, i - 1, j) >= Cell(a, b, i, j - 1) {
      s, inA, inB := OneAsLong(a, b, i - 1, j);
    } else {
      s, inA, inB := OneAsLong(a, b, i, j - 1);
    }
  }

  /** OPTIMALITY. A common subsequence of the returned length exists, and none is longer. */
  lemma {:induction false} LengthIsLongest(a: string, b: string)
    ensures exists s :: Common(s, a, b) && |s| == Length(a, b)
    ensures forall s :: Common(s, a, b) ==> |s| <= Length(a, b)
  {
    var s, inA, inB := OneAsLong(a, b, |a|, |b|);
    assert Common(s, a, b);
    forall s | Common(s, a, b)
      ensures |s| <= Length(a, b)
    {
      var inA :| Spells(s, a, inA);
      var inB :| Spells(s, b, inB);
      NoneLonger(s, a, b, |a|, |b|, inA, inB);
    }
  }

  lemma {:induction false} LengthSymmetric(a: string, b: string)
    ensures Length(a, b) == Length(b, a)
  {
    LengthIsLongest(a, b);
    LengthIsLongest(b, a);
    var s :| Common(s, a, b) && |s| == Length(a, b);
    var r :| Common(r, b, a) && |r| == Length(b, a);
    assert Common(s, b, a) && Common(r, a, b);
  }

  // ---------------------------------------------------------------------------
  // The score
  // ---------------------------------------------------------------------------

  predicate FoundAt(s: string, t: string, i: nat)
    requires i + |t| <= |s|
  {
    s[i..i + |t|] == t
  }

  /** JavaScript's `s.includes(t)` */
  predicate Includes(s: string, t: string) {
    exists i :: 0 <= i <= |s| - |t| && FoundAt(s, t, i)
  }

  function Threshold(a: string, b: string): int {
    var floor := ((if |a| <= |b| then |a| else |b|) as real * 0.6).Floor;
    if 3 >= floor then 3 else floor
  }

  function Score(seed: string, candidate: string): int {
    if seed == "" || candidate == "" || seed == candidate then (if seed == candidate then 100 else 0)
    else if Includes(seed, candidate) || Includes(candidate, seed) then 80
    else if Length(seed, candidate) >= Threshold(seed, candidate) then 60
    else 0
  }

  /** `normalize` stands for trimming and lower-casing. */
  method GetSuggestionScore(seedUser: string, candidateUser: string, normalize: string -> string) returns (score: int)
    ensures score == Score(normalize(seedUser), normalize(candidateUser))
  {
    var seed, candidate := normalize(seedUser), normalize(candidateUser);
    if seed == "" || candidate == "" || seed == candidate {
      return if seed == candidate then 100 else 0;
    }
    if Includes(seed, candidate) || Includes(candidate, seed) {
      return 80;
    }
    var lcs := LongestCommonSubsequenceLength(seed, candidate);
    return if lcs >= Threshold(seed, candidate) then 60 else 0;
  }

  /** The two names can be swapped. */
  lemma {:induction false} ScoreSymmetric(a: string, b: string)
    ensures Score(a, b) == Score(b, a)
  {
    LengthSymmetric(a, b);
  }

  /** Neither is empty, they differ, and neither contains the other. */
  predicate Unlike(a: string, b: string) {
    a != "" && b != "" && a != b && !Includes(a, b) && !Includes(b, a)
  }

  /** At least three characters and, for the shorter of two names, at least 0.6 of its length, rounded down. */
  predicate LongFor(s: string, least: int) {
    |s| >= 3 && 5 * (|s| + 1) > 3 * least
  }

  /** What each score says about the two normalised names. */
  lemma {:induction false} ScoreMeans(a: string, b: string)
    ensures Score(a, b) in {0, 60, 80, 100}
    ensures Score(a, b) == 100 <==> a == b
    ensures Score(a, b) == 80 <==> a != b && a != "" && b != "" && (Includes(a, b) || Includes(b, a))
    ensures Score(a, b) == 60 <==> Unlike(a, b) && exists s :: Common(s, a, b) && LongFor(s, if |a| <= |b| then |a| else |b|)
  {
    LengthIsLongest(a, b);
  }
}
