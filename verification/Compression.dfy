/**
 Compression to a token budget: rank the tokens by importance, keep as many of the best as the budget
 allows, and put those out in their old order.
 */
module Compression {
  import opened Basics

  // ---- texts and tokens -----------------------------------------------------------------------------

  /** What counts as white space and as a letter or digit. */
  datatype Alphabet = Alphabet(space: char -> bool, alphanumeric: char -> bool) {
    predicate Valid() {
      space(' ')
    }
  }

  predicate IsToken(abc: Alphabet, token: string) {
    token != "" && forall c :: c in token ==> !abc.space(c)
  }

  /** The end of the token, or of the gap, that begins at `from`. */
  function RunEnd(abc: Alphabet, text: string, from: nat, inSpace: bool): (end: nat)
    requires from <= |text|
    ensures from <= end <= |text| && forall k :: from <= k < end ==> abc.space(text[k]) == inSpace
    ensures end < |text| ==> abc.space(text[end]) != inSpace
    decreases |text| - from
  {
    if from < |text| && abc.space(text[from]) == inSpace then RunEnd(abc, text, from + 1, inSpace) else from
  }

  /** The tokens between runs of white space. */
  function Split(abc: Alphabet, text: string): (tokens: seq<string>)
    ensures forall t :: t in tokens ==> IsToken(abc, t)
    decreases |text|
  {
    var start := RunEnd(abc, text, 0, true);
    if start == |text| then [] else
      var end := RunEnd(abc, text, start, false);
      [text[start..end]] + Split(abc, text[end..])
  }

  /** The tokens with one space before each. */
  function Spaced(tokens: seq<string>): string {
    if tokens == [] then "" else " " + tokens[0] + Spaced(tokens[1..])
  }

  function Join(tokens: seq<string>): string {
    if tokens == [] then "" else tokens[0] + Spaced(tokens[1..])
  }

  /** A run ends where it is told apart from what follows. */
  lemma RunEndIs(abc: Alphabet, text: string, from: nat, inSpace: bool, end: nat)
    requires from <= end <= |text| && forall k :: from <= k < end ==> abc.space(text[k]) == inSpace
    requires end < |text| ==> abc.space(text[end]) != inSpace
    ensures RunEnd(abc, text, from, inSpace) == end
  {
  }

  /** The first token of a text, behind a gap. */
  lemma SplitToken(abc: Alphabet, gap: string, token: string, rest: string)
    requires (forall c :: c in gap ==> abc.space(c)) && IsToken(abc, token) && (rest == "" || abc.space(rest[0]))
    ensures Split(abc, gap + token + rest) == [token] + Split(abc, rest)
  {
    var text, start, end := gap + token + rest, |gap|, |gap| + |token|;
    forall k | 0 <= k < end
      ensures abc.space(text[k]) == (k < start)
    {
      assert if k < start then text[k] in gap else text[k] == token[k - start] && text[k] in token;
    }
    RunEndIs(abc, text, 0, true, start);
    RunEndIs(abc, text, start, false, end);
    assert text[start..end] == token && text[end..] == rest;
  }

  lemma {:induction false} SpacedSplits(abc: Alphabet, tokens: seq<string>)
    requires abc.Valid() && forall t :: t in tokens ==> IsToken(abc, t)
    ensures Split(abc, Spaced(tokens)) == tokens
    decreases tokens
  {
    if tokens != [] {
      SpacedSplits(abc, tokens[1..]);
      SplitToken(abc, " ", tokens[0], Spaced(tokens[1..]));
    }
  }

  lemma SplitFirst(abc: Alphabet, token: string, more: seq<string>)
    requires abc.Valid() && IsToken(abc, token)
    ensures Split(abc, token + Spaced(more)) == [token] + Split(abc, Spaced(more))
  {
    SplitToken(abc, "", token, Spaced(more));
    assert "" + token == token;
  }

  /** The text put out has the tokens that were kept, and no others. */
  lemma JoinedSplits(abc: Alphabet, tokens: seq<string>)
    requires abc.Valid() && forall t :: t in tokens ==> IsToken(abc, t)
    ensures Split(abc, Join(tokens)) == tokens
  {
    if tokens != [] {
      SplitFirst(abc, tokens[0], tokens[1..]);
      SpacedSplits(abc, tokens[1..]);
    }
  }

  // ---- the best of a ranking ----------------------------------------------------------------------------

  function Count(keep: seq<bool>): (n: nat)
    ensures n <= |keep|
  {
    if keep == [] then 0 else Count(keep[..|keep| - 1]) + if keep[|keep| - 1] then 1 else 0
  }

  /** Higher scores first, and the earlier of two equal ones. */
  predicate Outranks(scores: seq<real>, i: nat, j: nat)
    requires i < |scores| && j < |scores|
  {
    scores[i] > scores[j] || (scores[i] == scores[j] && i < j)
  }

  lemma OutranksOneWay(scores: seq<real>, i: nat, j: nat)
    requires i < |scores| && j < |scores|
    ensures !(Outranks(scores, i, j) && Outranks(scores, j, i))
  {
  }

  /** Exactly `k` are kept, each outranking every one that is dropped. */
  ghost predicate Best(scores: seq<real>, keep: seq<bool>, k: nat) {
    && |keep| == |scores| && Count(keep) == k
    && forall i, j :: 0 <= i < |keep| && 0 <= j < |keep| && keep[i] && !keep[j] ==> Outranks(scores, i, j)
  }

  ghost predicate Within(a: seq<bool>, b: seq<bool>) {
    |a| == |b| && forall i :: 0 <= i < |a| && a[i] ==> b[i]
  }

  lemma {:induction false} WithinCounts(a: seq<bool>, b: seq<bool>)
    requires Within(a, b)
    ensures Count(a) <= Count(b) && (Count(a) == Count(b) ==> a == b)
  {
    if a != [] {
      var n := |a| - 1;
      WithinCounts(a[..n], b[..n]);
      assert a == a[..n] + [a[n]] && b == b[..n] + [b[n]];
    }
  }

  /** Keeping more never drops what was kept. */
  lemma BestAreNested(scores: seq<real>, a: seq<bool>, b: seq<bool>, k: nat, m: nat)
    requires Best(scores, a, k) && Best(scores, b, m)
    ensures Within(a, b) || Within(b, a)
    ensures k <= m ==> Within(a, b)
  {
    if i :| 0 <= i < |a| && a[i] && !b[i] {
      forall j | 0 <= j < |b| && b[j]
        ensures a[j]
      {
        OutranksOneWay(scores, i, j);
      }
      WithinCounts(b, a);
    }
  }

  /** There is only one way to keep the best `k`. */
  lemma BestIsUnique(scores: seq<real>, a: seq<bool>, b: seq<bool>, k: nat)
    requires Best(scores, a, k) && Best(scores, b, k)
    ensures a == b
  {
    BestAreNested(scores, a, b, k, k);
    WithinCounts(a, b);
  }

  // ---- ranking in place --------------------------------------------------------------------------------------

  datatype Scored = Scored(index: nat, score: real)

  predicate Comes(a: Scored, b: Scored) {
    a.score > b.score || (a.score == b.score && a.index < b.index)
  }

  ghost predicate Ranked(s: seq<Scored>) {
    forall i, j :: 0 <= i < j < |s| ==> Comes(s[i], s[j])
  }

  /** Entries with the scores of the first `n` tokens. */
  ghost predicate Scores(s: seq<Scored>, scores: seq<real>, n: nat) {
    forall i :: 0 <= i < |s| ==> s[i].index < n && s[i].index < |scores| && s[i].score == scores[s[i].index]
  }

  /** One step of the stable sort: the next entry moves before those that score less, and no further. */
  method Insert(a: array<Scored>, i: nat, ghost scores: seq<real>)
    requires i < a.Length && i < |scores| && Ranked(a[..i]) && Scores(a[..i], scores, i) && a[i] == Scored(i, scores[i])
    modifies a
    ensures Ranked(a[..i + 1]) && Scores(a[..i + 1], scores, i + 1) && a[i + 1..] == old(a[i + 1..])
  {
    ghost var before := a[..i];
    var x, j := a[i], i;
    while j > 0 && a[j - 1].score < x.score
      invariant j <= i && a[i + 1..] == old(a[i + 1..])
      invariant forall k :: 0 <= k < j ==> a[k] == before[k]
      invariant forall k :: j < k <= i ==> a[k] == before[k - 1] && before[k - 1].score < x.score
    {
      a[j] := a[j - 1];
      j := j - 1;
    }
    a[j] := x;
    forall k, m | 0 <= k < m < i + 1
      ensures Comes(a[k], a[m])
    {
      if j == m {
        assert Comes(before[j - 1], x);
        assert k == j - 1 || Comes(before[k], before[j - 1]);
      }
    }
  }

  method SortByScore(a: array<Scored>, ghost scores: seq<real>)
    requires a.Length == |scores| && forall i :: 0 <= i < a.Length ==> a[i] == Scored(i, scores[i])
    modifies a
    ensures Ranked(a[..]) && Scores(a[..], scores, |scores|)
  {
    for i := 0 to a.Length
      invariant Ranked(a[..i]) && Scores(a[..i], scores, i)
      invariant forall j :: i <= j < a.Length ==> a[j] == Scored(j, scores[j])
    {
      Insert(a, i, scores);
      assert forall j :: i + 1 <= j < a.Length ==> a[j] == a[i + 1..][j - i - 1];
    }
    assert a[..a.Length] == a[..];
  }

  ghost function Indices(s: seq<Scored>): (indices: set<nat>)
    ensures forall i :: 0 <= i < |s| ==> s[i].index in indices
    ensures forall x :: x in indices ==> exists i :: 0 <= i < |s| && s[i].index == x
  {
    if s == [] then {} else Indices(s[..|s| - 1]) + {s[|s| - 1].index}
  }

  lemma {:induction false} IndicesCount(s: seq<Scored>, scores: seq<real>)
    requires Ranked(s) && Scores(s, scores, |scores|)
    ensures |Indices(s)| == |s|
  {
    if s != [] {
      var n := |s| - 1;
      IndicesCount(s[..n], scores);
      forall i | 0 <= i < n
        ensures s[..n][i].index != s[n].index
      {
        assert Comes(s[i], s[n]);
      }
    }
  }

  function Below(n: nat): (numbers: set<nat>)
    ensures |numbers| == n && forall x: nat :: x in numbers <==> x < n
  {
    if n == 0 then {} else Below(n - 1) + {n - 1}
  }

  /** A full ranking has every token in it. */
  lemma RankedAll(s: seq<Scored>, scores: seq<real>, x: nat) returns (i: nat)
    requires |s| == |scores| && Ranked(s) && Scores(s, scores, |scores|) && x < |scores|
    ensures i < |s| && s[i].index == x
  {
    IndicesCount(s, scores);
    assert Indices(s) <= Below(|scores|);
    SubsetOfSameSize(Indices(s), Below(|scores|));
    assert x in Indices(s);
    i :| 0 <= i < |s| && s[i].index == x;
  }

  // ---- the budget ------------------------------------------------------------------------------------------------

  function Ceiling(x: real): int {
    -((-x).Floor)
  }

  function TargetCount(n: nat, ratio: real): (k: nat)
    ensures k >= 1
  {
    var wanted := Ceiling(n as real * ratio);
    if wanted < 1 then 1 else wanted
  }

  /** The budget is the least number of tokens, one at least, that is no less than the share asked for. */
  lemma BudgetIsLeast(n: nat, ratio: real, k: nat)
    requires k >= 1
    ensures k >= TargetCount(n, ratio) <==> k as real >= n as real * ratio
  {
    var x := n as real * ratio;
    assert (-x).Floor as real <= -x < (-x).Floor as real + 1.0;
  }

  function Kept(tokens: seq<string>, keep: seq<bool>): (kept: seq<string>)
    requires |keep| == |tokens|
    ensures |kept| == Count(keep) && forall t :: t in kept ==> t in tokens
  {
    if tokens == [] then [] else
      var n := |tokens| - 1;
      Kept(tokens[..n], keep[..n]) + if keep[n] then [tokens[n]] else []
  }

  lemma {:induction false} CountSet(keep: seq<bool>, i: nat)
    requires i < |keep| && !keep[i]
    ensures Count(keep[i := true]) == Count(keep) + 1
  {
    var n := |keep| - 1;
    if i < n {
      CountSet(keep[..n], i);
      assert keep[i := true][..n] == keep[..n][i := true];
    } else {
      assert keep[i := true][..n] == keep[..n];
    }
  }

  lemma {:induction false} CountNone(keep: seq<bool>)
    requires forall i :: 0 <= i < |keep| ==> !keep[i]
    ensures Count(keep) == 0
  {
    if keep != [] {
      CountNone(keep[..|keep| - 1]);
    }
  }

  ghost predicate InHead(ranking: seq<Scored>, k: nat, x: nat)
    requires k <= |ranking|
  {
    exists i :: 0 <= i < k && ranking[i].index == x
  }

  lemma HeadGrows(ranking: seq<Scored>, k: nat)
    requires k < |ranking|
    ensures forall x :: InHead(ranking, k + 1, x) <==> InHead(ranking, k, x) || x == ranking[k].index
  {
    assert InHead(ranking, k + 1, ranking[k].index);
  }

  lemma HeadIsBest(ranking: seq<Scored>, scores: seq<real>, keep: seq<bool>, k: nat)
    requires |ranking| == |scores| == |keep| && Ranked(ranking) && Scores(ranking, scores, |scores|) && k <= |scores|
    requires Count(keep) == k && forall x :: 0 <= x < |keep| ==> (keep[x] <==> InHead(ranking, k, x))
    ensures Best(scores, keep, k)
  {
    forall x, y | 0 <= x < |keep| && 0 <= y < |keep| && keep[x] && !keep[y]
      ensures Outranks(scores, x, y)
    {
      var i :| 0 <= i < k && ranking[i].index == x;
      var j := RankedAll(ranking, scores, y);
      assert Comes(ranking[i], ranking[j]);
    }
  }

  /** Marks the tokens at the head of the ranking. */
  method MarkBest(ranking: seq<Scored>, scores: seq<real>, k: nat) returns (keep: array<bool>)
    requires |ranking| == |scores| && Ranked(ranking) && Scores(ranking, scores, |scores|) && k <= |scores|
    ensures fresh(keep) && Best(scores, keep[..], k)
  {
    keep := new bool[|scores|](_ => false);
    CountNone(keep[..]);
    for i := 0 to k
      invariant Count(keep[..]) == i
      invariant forall x :: 0 <= x < |scores| ==> (keep[x] <==> InHead(ranking, i, x))
      modifies keep
    {
      var index := ranking[i].index;
      assert forall j :: 0 <= j < i ==> Comes(ranking[j], ranking[i]);
      CountSet(keep[..], index);
      ghost var was := keep[..];
      keep[index] := true;
      assert keep[..] == was[index := true];
      HeadGrows(ranking, i);
    }
    HeadIsBest(ranking, scores, keep[..], k);
  }

  method Ranking(scores: seq<real>) returns (indexed: array<Scored>)
    ensures fresh(indexed) && indexed.Length == |scores| && Ranked(indexed[..]) && Scores(indexed[..], scores, |scores|)
  {
    indexed := new Scored[|scores|](i requires 0 <= i < |scores| => Scored(i, scores[i]));
    SortByScore(indexed, scores);
  }

  method PutOut(tokens: seq<string>, keep: array<bool>) returns (out: seq<string>)
    requires keep.Length == |tokens|
    ensures out == Kept(tokens, keep[..])
  {
    out := [];
    for i := 0 to |tokens|
      invariant out == Kept(tokens[..i], keep[..i])
    {
      assert tokens[..i + 1][..i] == tokens[..i] && keep[..i + 1][..i] == keep[..i];
      if keep[i] {
        out := out + [tokens[i]];
      }
    }
    assert tokens[..|tokens|] == tokens && keep[..keep.Length] == keep[..];
  }

  /** The outcome the budget calls for: the tokens of `out` are the best ones, in their old order. */
  ghost predicate Compressed(abc: Alphabet, scores: seq<real>, tokens: seq<string>, k: nat, out: string) {
    |scores| == |tokens| && exists keep :: Best(scores, keep, k) && Split(abc, out) == Kept(tokens, keep)
  }

  method Compress(abc: Alphabet, scorer: seq<string> -> seq<real>, input: string, ratio: real) returns (out: string)
    requires abc.Valid() && forall tokens :: |scorer(tokens)| == |tokens|
    ensures Split(abc, input) == [] ==> out == ""
    ensures var tokens := Split(abc, input);
      tokens != [] && TargetCount(|tokens|, ratio) >= |tokens| ==> out == input
    ensures var tokens := Split(abc, input);
      TargetCount(|tokens|, ratio) < |tokens| ==>
        Compressed(abc, scorer(tokens), tokens, TargetCount(|tokens|, ratio), out)
  {
    var tokens := Split(abc, input);
    if tokens == [] {
      return "";
    }
    var targetCount := TargetCount(|tokens|, ratio);
    if targetCount >= |tokens| {
      return input;
    }
    var scores := scorer(tokens);
    var indexed := Ranking(scores);
    var keep := MarkBest(indexed[..], scores, targetCount);
    var kept := PutOut(tokens, keep);
    JoinedSplits(abc, kept);
    out := Join(kept);
    assert Best(scores, keep[..], targetCount) && Split(abc, out) == Kept(tokens, keep[..]);
  }

  // ---- the heuristic scorer -----------------------------------------------------------------------------------------

  const NEGATIONS: seq<string> := [
    "not", "no", "never", "don't", "doesn't", "didn't", "won't", "can't", "cannot", "shouldn't", "mustn't", "isn't",
    "aren't", "wasn't", "weren't", "without", "unless", "nor", "neither"
  ]

  const HARD_KEEP_SCORE: real := 2.0
  const CEILING: real := 1.2

  predicate IsDigit(c: char) { '0' <= c <= '9' }

  predicate IsUpper(c: char) { 'A' <= c <= 'Z' }

  predicate IsLower(c: char) { 'a' <= c <= 'z' }

  /** Lower case, and the straight apostrophe for the typographic one. */
  function Plain(c: char): char {
    if c == '\U{2019}' then '\'' else AsciiLower(c)
  }

  function Normal(token: string): (n: string)
    ensures |n| == |token|
  {
    seq(|token|, i requires 0 <= i < |token| => Plain(token[i]))
  }

  /** Characters that are not punctuation around a word. */
  predicate InWord(c: char) {
    IsDigit(c) || IsUpper(c) || IsLower(c) || c == '\''
  }

  function TrimStart(text: string): string {
    if text != "" && !InWord(text[0]) then TrimStart(text[1..]) else text
  }

  function TrimEnd(text: string): string {
    if text != "" && !InWord(text[|text| - 1]) then TrimEnd(text[..|text| - 1]) else text
  }

  predicate IsHardKeep(token: string) {
    (exists c :: c in token && IsDigit(c)) || TrimEnd(TrimStart(Normal(token))) in NEGATIONS
  }

  lemma {:induction false} TrimmedStart(before: string, text: string)
    requires (forall c :: c in before ==> !InWord(c)) && (text == "" || InWord(text[0]))
    ensures TrimStart(before + text) == text
  {
    if before == "" {
      assert before + text == text;
    } else {
      assert (before + text)[1..] == before[1..] + text;
      TrimmedStart(before[1..], text);
    }
  }

  lemma {:induction false} TrimmedEnd(text: string, after: string)
    requires (forall c :: c in after ==> !InWord(c)) && (text == "" || InWord(text[|text| - 1]))
    ensures TrimEnd(text + after) == text
  {
    if after == "" {
      assert text + after == text;
    } else {
      assert (text + after)[..|text + after| - 1] == text + after[..|after| - 1];
      TrimmedEnd(text, after[..|after| - 1]);
    }
  }

  lemma NegationsAreWords(word: string)
    requires word in NEGATIONS
    ensures word != "" && InWord(word[0]) && InWord(word[|word| - 1])
  {
  }

  lemma NormalParts(a: string, b: string, c: string)
    ensures Normal(a + b + c) == Normal(a) + (Normal(b) + Normal(c))
  {
  }

  /** A negation is known in any case, with either apostrophe, and with punctuation around it. */
  lemma NegationIsHardKeep(before: string, word: string, after: string)
    requires Normal(word) in NEGATIONS && forall c :: c in before + after ==> !InWord(Plain(c))
    ensures IsHardKeep(before + word + after)
  {
    NegationsAreWords(Normal(word));
    NormalParts(before, word, after);
    forall c | c in Normal(before) || c in Normal(after)
      ensures !InWord(c)
    {
      if c in Normal(before) {
        var i :| 0 <= i < |before| && Normal(before)[i] == c;
        assert before[i] in before + after;
      } else {
        var i :| 0 <= i < |after| && Normal(after)[i] == c;
        assert after[i] in before + after;
      }
    }
    TrimmedStart(Normal(before), Normal(word) + Normal(after));
    TrimmedEnd(Normal(word), Normal(after));
  }

  function Clamped(x: real): real {
    if x < 0.0 then 0.0 else if x > 1.0 then 1.0 else x
  }

  function Score(abc: Alphabet, token: string): real {
    if IsHardKeep(token) then HARD_KEEP_SCORE else
      var upper := if exists c :: c in token && IsUpper(c) then 1.0 else 0.0;
      var punctOnly := if forall c :: c in token ==> !abc.alphanumeric(c) then 1.0 else 0.0;
      (Clamped(|token| as real / 10.0) + upper * 0.2) * (1.0 - punctOnly)
  }

  function Heuristic(abc: Alphabet, tokens: seq<string>): (scores: seq<real>)
    ensures |scores| == |tokens|
  {
    seq(|tokens|, i requires 0 <= i < |tokens| => Score(abc, tokens[i]))
  }

  function HardKeeps(tokens: seq<string>): (hard: seq<bool>)
    ensures |hard| == |tokens|
  {
    seq(|tokens|, i requires 0 <= i < |tokens| => IsHardKeep(tokens[i]))
  }

  /** Tokens that carry facts score above every other one. */
  lemma HardKeepsScoreHighest(abc: Alphabet, token: string)
    ensures IsHardKeep(token) <==> Score(abc, token) > CEILING
    ensures 0.0 <= Score(abc, token) <= HARD_KEEP_SCORE
  {
  }

  predicate HasUpper(token: string) {
    exists c :: c in token && IsUpper(c)
  }

  predicate PunctuationOnly(abc: Alphabet, token: string) {
    forall c :: c in token ==> !abc.alphanumeric(c)
  }

  /** A score is between zero and one unless the token carries facts, or is a word with a capital and more than eight characters. */
  lemma InUnitRangeIff(abc: Alphabet, token: string)
    ensures 0.0 <= Score(abc, token) <= 1.0 <==>
      !IsHardKeep(token) && (PunctuationOnly(abc, token) || !HasUpper(token) || |token| <= 8)
  {
    assert |token| <= 8 <==> |token| as real / 10.0 <= 0.8;
  }

  lemma UntrimmedWord(token: string)
    requires token != "" && InWord(token[0]) && InWord(token[|token| - 1])
    ensures TrimEnd(TrimStart(token)) == token
  {
    assert "" + token == token && token + "" == token;
    TrimmedStart("", token);
    TrimmedEnd(token, "");
  }

  lemma NegationsAreShort(word: string)
    requires |word| > 9
    ensures word !in NEGATIONS
  {
  }

  /** A long word with a capital leaves the range, up to the ceiling. */
  lemma LongWordsReachCeiling(abc: Alphabet, token: string)
    requires |token| > 9 && InWord(Plain(token[0])) && InWord(Plain(token[|token| - 1]))
    requires forall i :: 0 <= i < |token| ==> !IsDigit(token[i])
    requires IsUpper(token[0]) && abc.alphanumeric(token[0])
    ensures !IsHardKeep(token) && Score(abc, token) == CEILING
  {
    UntrimmedWord(Normal(token));
    NegationsAreShort(Normal(token));
    assert token[0] in token;
  }

  lemma UnitRangeCanBeLeft(abc: Alphabet)
    requires abc.alphanumeric('E')
    ensures Score(abc, "Extraordinary") == CEILING > 1.0
  {
    LongWordsReachCeiling(abc, "Extraordinary");
  }

  /** Of the tokens that carry facts all survive, or nothing else does. */
  lemma HardKeepsFirst(abc: Alphabet, tokens: seq<string>, keep: seq<bool>, k: nat)
    requires Best(Heuristic(abc, tokens), keep, k)
    ensures Within(HardKeeps(tokens), keep) || Within(keep, HardKeeps(tokens))
  {
    var scores, hard := Heuristic(abc, tokens), HardKeeps(tokens);
    if j :| 0 <= j < |tokens| && hard[j] && !keep[j] {
      HardKeepsScoreHighest(abc, tokens[j]);
      forall i | 0 <= i < |tokens| && keep[i]
        ensures hard[i]
      {
        assert Outranks(scores, i, j);
        HardKeepsScoreHighest(abc, tokens[i]);
      }
    }
  }

  /** They all survive exactly when the budget has room for them; it is not so at any ratio. */
  lemma HardKeepsSurviveIff(abc: Alphabet, tokens: seq<string>, keep: seq<bool>, k: nat)
    requires Best(Heuristic(abc, tokens), keep, k)
    ensures Within(HardKeeps(tokens), keep) <==> Count(HardKeeps(tokens)) <= k
  {
    HardKeepsFirst(abc, tokens, keep, k);
    if Within(HardKeeps(tokens), keep) {
      WithinCounts(HardKeeps(tokens), keep);
    } else {
      WithinCounts(keep, HardKeeps(tokens));
    }
  }

  /** Three numbers at three tenths: only one of them is kept. */
  lemma HardKeepCanBeLost(abc: Alphabet, keep: seq<bool>)
    requires Best(Heuristic(abc, ["1", "2", "3"]), keep, TargetCount(3, 0.3))
    ensures !Within(HardKeeps(["1", "2", "3"]), keep)
  {
    var tokens := ["1", "2", "3"];
    BudgetIsLeast(3, 0.3, 1);
    forall i | 0 <= i < 3
      ensures IsHardKeep(tokens[i])
    {
      assert tokens[i][0] in tokens[i] && IsDigit(tokens[i][0]);
    }
    var hard := HardKeeps(tokens);
    assert hard == [true, true, true] && hard[..2] == [true, true] && hard[..2][..1] == [true] && hard[..2][..1][..0] == [];
    HardKeepsSurviveIff(abc, tokens, keep, 1);
  }
}
