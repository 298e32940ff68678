/**
 packages/tui/src/fuzzy.ts. Scores are counted in tenths; what `toLowerCase` does to a string
 is an input.
 */
module Fuzzy {
  import opened StableSort

  datatype FuzzyMatch = FuzzyMatch(matches: bool, score: int)

  predicate IsSpace(c: char) {
    || c in {' ', '\t', '\n', '\r', '\U{000b}', '\U{000c}', '\U{00a0}', '\U{1680}', '\U{2028}', '\U{2029}', '\U{202f}',
             '\U{205f}', '\U{3000}', '\U{feff}'}
    || '\U{2000}' <= c <= '\U{200a}'
  }

  predicate IsSeparator(c: char) { IsSpace(c) || c in {'-', '_', '.', '/', ':'} }

  predicate StartsWord(text: string, i: nat)
    requires i < |text|
  {
    i == 0 || IsSeparator(text[i - 1])
  }

  // ---- subsequences ----

  /** The places `at` of the text spell the query, in order. */
  predicate Spells(at: seq<nat>, query: string, text: string) {
    && |at| == |query|
    && (forall k | 0 <= k < |at| :: at[k] < |text| && text[at[k]] == query[k])
    && (forall j, k | 0 <= j < k < |at| :: at[j] < at[k])
  }

  ghost predicate IsSubsequence(query: string, text: string) { exists at :: Spells(at, query, text) }

  /** The places that the left-to-right scan takes in the first `n` characters. */
  function Scan(query: string, text: string, n: nat): (at: seq<nat>)
    requires n <= |text|
    ensures |at| <= |query|
  {
    if n == 0 then []
    else
      var before := Scan(query, text, n - 1);
      if |before| < |query| && text[n - 1] == query[|before|] then before + [n - 1] else before
  }

  /** The scan spells a prefix of the query with places among the first `n`. */
  lemma {:induction false} ScanSpells(query: string, text: string, n: nat)
    requires n <= |text|
    ensures var at := Scan(query, text, n);
            Spells(at, query[..|at|], text) && forall k | 0 <= k < |at| :: at[k] < n
  {
    if n > 0 {
      ScanSpells(query, text, n - 1);
    }
  }

  /** The scan is ahead of every other spelling: it takes each character no later. */
  lemma {:induction false} ScanIsEarliest(at: seq<nat>, query: string, text: string, n: nat, k: nat)
    requires Spells(at, query, text) && n <= |text| && k < |at| && at[k] < n
    ensures k < |Scan(query, text, n)| && Scan(query, text, n)[k] <= at[k]
    decreases n
  {
    hide Spells;
    SpelledAt(at, query, text, k);
    if at[k] < n - 1 {
      ScanIsEarliest(at, query, text, n - 1, k);
    } else {
      if k > 0 {
        SpelledAt(at, query, text, k - 1);
        SpelledInOrder(at, query, text, k - 1, k);
        ScanIsEarliest(at, query, text, n - 1, k - 1);
      }
      ScanSpells(query, text, n);
      ScanBounded(query, text, n);
    }
  }

  lemma {:induction false} SpelledAt(at: seq<nat>, query: string, text: string, k: nat)
    requires Spells(at, query, text) && k < |at|
    ensures |at| == |query| && at[k] < |text| && text[at[k]] == query[k]
  {
  }

  lemma {:induction false} SpelledInOrder(at: seq<nat>, query: string, text: string, j: nat, k: nat)
    requires Spells(at, query, text) && j < k < |at|
    ensures at[j] < at[k]
  {
  }

  lemma {:induction false} ScanBounded(query: string, text: string, n: nat)
    requires n <= |text|
    ensures forall k | 0 <= k < |Scan(query, text, n)| :: Scan(query, text, n)[k] < n
  {
    ScanSpells(query, text, n);
  }

  /** Greedy scanning is complete: it spells the whole query exactly when anything does. */
  lemma {:induction false} GreedyIsComplete(query: string, text: string)
    ensures |Scan(query, text, |text|)| == |query| <==> IsSubsequence(query, text)
  {
    hide Spells, Scan;
    var scan := Scan(query, text, |text|);
    ScanSpells(query, text, |text|);
    if |scan| == |query| {
      assert query[..|scan|] == query;
      assert Spells(scan, query, text);
    }
    if IsSubsequence(query, text) {
      var at :| Spells(at, query, text);
      if query != [] {
        SpelledFully(at, query, text);
        SpelledAt(at, query, text, |query| - 1);
        ScanIsEarliest(at, query, text, |text|, |query| - 1);
      }
    }
  }

  lemma {:induction false} SpelledFully(at: seq<nat>, query: string, text: string)
    requires Spells(at, query, text)
    ensures |at| == |query|
  {
  }

  lemma {:induction false} LongerIsNone(query: string, text: string)
    requires |query| > |text|
    ensures |Scan(query, text, |text|)| < |query|
  {
    ScanShort(query, text, |text|);
  }

  lemma {:induction false} ScanShort(query: string, text: string, n: nat)
    requires n <= |text|
    ensures |Scan(query, text, n)| <= n
  {
    if n > 0 {
      ScanShort(query, text, n - 1);
    }
  }

  // ---- scores ----

  function Before(at: seq<nat>, k: nat): int
    requires k <= |at|
  {
    if k == 0 then -1 else at[k - 1] as int
  }

  /** How many matches in a row end with number `k`; the first one counts if it is at the front. */
  function RunAt(at: seq<nat>, k: nat): nat
    requires k < |at|
  {
    if Before(at, k) + 1 == at[k] then 1 + (if k == 0 then 0 else RunAt(at, k - 1)) else 0
  }

  /** What the match number `k` adds to the score: runs and word starts are rewarded, gaps and
      late places are penalized. */
  function Gain(text: string, at: seq<nat>, k: nat): int
    requires k < |at| && at[k] < |text|
  {
    (if Before(at, k) + 1 == at[k] then -50 * RunAt(at, k)
     else if k > 0 then 20 * (at[k] - Before(at, k) - 1)
     else 0)
    + (if StartsWord(text, at[k]) then -100 else 0)
    + at[k]
  }

  function Score(text: string, at: seq<nat>): int
    requires forall k | 0 <= k < |at| :: at[k] < |text|
  {
    if at == [] then 0 else Score(text, at[..|at| - 1]) + Gain(text, at, |at| - 1)
  }

  /** What matching a query comes to: the score of the earliest spelling, with a bonus for the
      whole text. */
  function MatchOf(query: string, text: string): FuzzyMatch {
    var at := Scan(query, text, |text|);
    if query == [] then FuzzyMatch(true, 0)
    else if |at| < |query| then FuzzyMatch(false, 0)
    else
      ScanBounded(query, text, |text|);
      FuzzyMatch(true, Score(text, at) - if query == text then 1000 else 0)
  }

  lemma {:induction false} ScoreMore(text: string, at: seq<nat>, i: nat)
    requires i < |text| && forall k | 0 <= k < |at| :: at[k] < |text|
    ensures var more := at + [i];
            && Score(text, more) == Score(text, at) + Gain(text, more, |at|)
            && Before(more, |at|) == Before(at, |at|)
            && RunAt(more, |at|) ==
               if Before(at, |at|) + 1 == i then 1 + (if at == [] then 0 else RunAt(at, |at| - 1)) else 0
  {
    hide Gain, StartsWord;
    assert (at + [i])[..|at|] == at;
    if at != [] {
      SameRun(at, at + [i], |at| - 1);
    }
  }

  lemma {:induction false} SameRun(at: seq<nat>, more: seq<nat>, k: nat)
    requires k < |at| && at <= more
    ensures RunAt(more, k) == RunAt(at, k)
  {
    if k > 0 {
      SameRun(at, more, k - 1);
    }
  }

  // ---- what a score adds up to ----

  function SumOf(at: seq<nat>): nat { if at == [] then 0 else SumOf(at[..|at| - 1]) + at[|at| - 1] }

  /** How many of the places start a word. */
  function WordStarts(text: string, at: seq<nat>): nat
    requires forall k | 0 <= k < |at| :: at[k] < |text|
  {
    if at == [] then 0
    else WordStarts(text, at[..|at| - 1]) + if StartsWord(text, at[|at| - 1]) then 1 else 0
  }

  /** How many characters between the first and the last place are left out. */
  function Skipped(at: seq<nat>): int {
    if at == [] then 0 else at[|at| - 1] as int - at[0] + 1 - |at|
  }

  /** How many of the first `n` places are as far before place `k` as they are in the text, with one
      more just before the text. */
  function Adjacent(at: seq<nat>, k: nat, n: nat): nat
    requires n <= k < |at|
  {
    (if n == 0 then (if at[k] == k then 1 else 0)
     else Adjacent(at, k, n - 1) + if at[k] + (n - 1) == at[n - 1] + k then 1 else 0)
  }

  /** How many pairs of places lie together in one run; the front of the text counts as a place. */
  function Together(at: seq<nat>): nat {
    if at == [] then 0 else Together(at[..|at| - 1]) + Adjacent(at, |at| - 1, |at| - 1)
  }

  predicate Rising(at: seq<nat>) { forall j, k | 0 <= j < k < |at| :: at[j] < at[k] }

  lemma {:induction false} RisingFast(at: seq<nat>, j: nat, k: nat)
    requires Rising(at) && j <= k < |at|
    ensures at[k] + j >= at[j] + k && at[k] >= k
    decreases k
  {
    if j < k {
      RisingFast(at, j, k - 1);
    } else if k > 0 {
      RisingFast(at, k - 1, k - 1);
    }
  }

  lemma {:induction false} NoneAdjacent(at: seq<nat>, k: nat, n: nat)
    requires Rising(at) && n <= k < |at| && Before(at, k) + 1 != at[k]
    ensures Adjacent(at, k, n) == 0
  {
    if k > 0 {
      RisingFast(at, 0, k - 1);
    }
    if n > 0 {
      NoneAdjacent(at, k, n - 1);
      RisingFast(at, n - 1, k - 1);
    }
  }

  lemma {:induction false} AdjacentToo(at: seq<nat>, k: nat, n: nat)
    requires 0 < k < |at| && at[k - 1] + 1 == at[k] && n < k
    ensures Adjacent(at, k, n) == Adjacent(at, k - 1, n)
  {
    if n > 0 {
      AdjacentToo(at, k, n - 1);
    }
  }

  lemma {:induction false} RunIsAdjacent(at: seq<nat>, k: nat)
    requires Rising(at) && k < |at|
    ensures RunAt(at, k) == Adjacent(at, k, k)
  {
    if Before(at, k) + 1 != at[k] {
      NoneAdjacent(at, k, k);
    } else if k > 0 {
      RunIsAdjacent(at, k - 1);
      AdjacentToo(at, k, k - 1);
    }
  }

  /** What the score of a spelling adds up to, in tenths: its places themselves, ten for each word
      that it starts, two for each character it skips, and five for each pair in one run. */
  lemma {:induction false} ScoreAddsUp(text: string, at: seq<nat>)
    requires Rising(at) && forall k | 0 <= k < |at| :: at[k] < |text|
    ensures Score(text, at) == SumOf(at) - 100 * WordStarts(text, at) + 20 * Skipped(at) - 50 * Together(at)
  {
    hide StartsWord;
    if at != [] {
      var k := |at| - 1;
      ScoreAddsUp(text, at[..k]);
      RunIsAdjacent(at, k);
      if k > 0 {
        assert at[..k][0] == at[0] && at[..k][k - 1] == at[k - 1];
      }
      if Before(at, k) + 1 != at[k] {
        NoneAdjacent(at, k, k);
      }
    }
  }

  /** matchQuery. */
  method MatchQuery(query: string, text: string) returns (r: FuzzyMatch)
    ensures r == MatchOf(query, text)
  {
    hide IsSeparator, Score, RunAt;
    if |query| == 0 {
      return FuzzyMatch(true, 0);
    }
    if |query| > |text| {
      LongerIsNone(query, text);
      return FuzzyMatch(false, 0);
    }
    var queryIndex, score, lastMatchIndex, consecutiveMatches := 0, 0, -1, 0;
    ghost var at: seq<nat> := [];
    var i := 0;
    NoScore(text);
    while i < |text| && queryIndex < |query|
      invariant i <= |text| && at == Scan(query, text, i) && queryIndex == |at|
      invariant forall k | 0 <= k < |at| :: at[k] < |text|
      invariant score == Score(text, at) && lastMatchIndex == Before(at, |at|)
      invariant consecutiveMatches == if at == [] then 0 else RunAt(at, |at| - 1)
    {
      ScanBounded(query, text, i);
      if text[i] == query[queryIndex] {
        ScoreMore(text, at, i);
        var isWordBoundary := StartsWord(text, i);
        if lastMatchIndex == i - 1 {
          consecutiveMatches := consecutiveMatches + 1;
          score := score - consecutiveMatches * 50;
        } else {
          consecutiveMatches := 0;
          if lastMatchIndex >= 0 {
            score := score + (i - lastMatchIndex - 1) * 20;
          }
        }
        if isWordBoundary {
          score := score - 100;
        }
        score := score + i;
        lastMatchIndex := i;
        queryIndex := queryIndex + 1;
        at := at + [i];
      }
      i := i + 1;
    }
    if queryIndex < |query| {
      return FuzzyMatch(false, 0);
    }
    ScanIsOver(query, text, i);
    if query == text {
      score := score - 1000;
    }
    r := FuzzyMatch(true, score);
  }

  lemma {:induction false} NoScore(text: string)
    ensures Score(text, []) == 0
  {
  }

  /** A scan that has spelled the query takes nothing more. */
  lemma {:induction false} ScanIsOver(query: string, text: string, n: nat)
    requires n <= |text| && |Scan(query, text, n)| == |query|
    ensures Scan(query, text, |text|) == Scan(query, text, n)
    decreases |text| - n
  {
    if n < |text| {
      ScanIsOver(query, text, n + 1);
    }
  }

  // ---- swapped queries ----

  predicate IsLetter(c: char) { 'a' <= c <= 'z' }

  predicate IsDigit(c: char) { '0' <= c <= '9' }

  function LeadingLetters(s: string): (n: nat)
    ensures n <= |s| && (forall i | 0 <= i < n :: IsLetter(s[i])) && (n < |s| ==> !IsLetter(s[n]))
  {
    if s == [] || !IsLetter(s[0]) then 0 else 1 + LeadingLetters(s[1..])
  }

  function LeadingDigits(s: string): (n: nat)
    ensures n <= |s| && (forall i | 0 <= i < n :: IsDigit(s[i])) && (n < |s| ==> !IsDigit(s[n]))
  {
    if s == [] || !IsDigit(s[0]) then 0 else 1 + LeadingDigits(s[1..])
  }

  /** The two halves of a query of letters and digits exchanged; nothing for other queries. */
  function Swapped(query: string): string {
    var l, d := LeadingLetters(query), LeadingDigits(query);
    if 0 < l < |query| && LeadingDigits(query[l..]) == |query| - l then query[l..] + query[..l]
    else if 0 < d < |query| && LeadingLetters(query[d..]) == |query| - d then query[d..] + query[..d]
    else []
  }

  /** Letters then digits, or digits then letters, with the border at `k`. */
  predicate Halves(query: string, k: nat) {
    && 0 < k < |query|
    && ((forall i | 0 <= i < |query| :: if i < k then IsLetter(query[i]) else IsDigit(query[i]))
        || (forall i | 0 <= i < |query| :: if i < k then IsDigit(query[i]) else IsLetter(query[i])))
  }

  lemma {:induction false} LettersEnd(s: string, k: nat)
    requires k <= |s| && (forall i | 0 <= i < k :: IsLetter(s[i])) && (k < |s| ==> !IsLetter(s[k]))
    ensures LeadingLetters(s) == k
  {
    if k > 0 {
      LettersEnd(s[1..], k - 1);
    }
  }

  lemma {:induction false} DigitsEnd(s: string, k: nat)
    requires k <= |s| && (forall i | 0 <= i < k :: IsDigit(s[i])) && (k < |s| ==> !IsDigit(s[k]))
    ensures LeadingDigits(s) == k
  {
    if k > 0 {
      DigitsEnd(s[1..], k - 1);
    }
  }

  lemma {:induction false} SwappedHalves(query: string, k: nat)
    requires Halves(query, k)
    ensures Swapped(query) == query[k..] + query[..k]
  {
    var tail := query[k..];
    assert forall i | 0 <= i < |tail| :: tail[i] == query[k + i];
    if IsLetter(query[0]) {
      LettersEnd(query, k);
      DigitsEnd(tail, |tail|);
    } else {
      DigitsEnd(query, k);
      LettersEnd(tail, |tail|);
    }
  }

  lemma {:induction false} SwappedOnlyHalves(query: string)
    requires Swapped(query) != []
    ensures exists k :: Halves(query, k)
  {
    hide Halves, IsLetter, IsDigit;
    var l, d := LeadingLetters(query), LeadingDigits(query);
    if 0 < l < |query| && LeadingDigits(query[l..]) == |query| - l {
      LettersThenDigits(query, l);
    } else {
      DigitsThenLetters(query, d);
    }
  }

  lemma {:induction false} LettersThenDigits(query: string, k: nat)
    requires 0 < k < |query| && LeadingLetters(query) == k && LeadingDigits(query[k..]) == |query| - k
    ensures Halves(query, k)
  {
    hide IsLetter, IsDigit;
    var tail := query[k..];
    assert forall i | k <= i < |query| :: query[i] == tail[i - k];
  }

  lemma {:induction false} DigitsThenLetters(query: string, k: nat)
    requires 0 < k < |query| && LeadingDigits(query) == k && LeadingLetters(query[k..]) == |query| - k
    ensures Halves(query, k)
  {
    hide IsLetter, IsDigit;
    var tail := query[k..];
    assert forall i | k <= i < |query| :: query[i] == tail[i - k];
  }

  function FuzzyMatchOf(query: string, text: string): FuzzyMatch {
    var primary := MatchOf(query, text);
    if primary.matches then primary
    else
      var swapped := Swapped(query);
      if swapped == [] then primary
      else
        var second := MatchOf(swapped, text);
        if second.matches then FuzzyMatch(true, second.score + 50) else primary
  }

  method FuzzyMatchLower(queryLower: string, textLower: string) returns (r: FuzzyMatch)
    ensures r == FuzzyMatchOf(queryLower, textLower)
  {
    hide MatchOf, Swapped;
    var primaryMatch := MatchQuery(queryLower, textLower);
    if primaryMatch.matches {
      return primaryMatch;
    }
    var swappedQuery := Swapped(queryLower);
    if swappedQuery == [] {
      return primaryMatch;
    }
    var swappedMatch := MatchQuery(swappedQuery, textLower);
    if !swappedMatch.matches {
      return primaryMatch;
    }
    return FuzzyMatch(true, swappedMatch.score + 50);
  }

  /** A text matches exactly when the query, or its swapped form, is a subsequence of it. */
  lemma {:induction false} MatchesExactly(query: string, text: string)
    ensures FuzzyMatchOf(query, text).matches <==>
            IsSubsequence(query, text) || (Swapped(query) != [] && IsSubsequence(Swapped(query), text))
    ensures !FuzzyMatchOf(query, text).matches ==> FuzzyMatchOf(query, text).score == 0
  {
    hide Scan, Swapped, IsSubsequence, Score;
    GreedyIsComplete(query, text);
    GreedyIsComplete(Swapped(query), text);
    EmptyIsSubsequence(text);
  }

  lemma {:induction false} EmptyIsSubsequence(text: string)
    ensures IsSubsequence([], text)
  {
    assert Spells([], [], text);
  }

  // ---- what a match is worth ----

  /** The spelling takes every character no later than any other spelling. */
  ghost predicate Earliest(at: seq<nat>, query: string, text: string) {
    Spells(at, query, text) && forall other | Spells(other, query, text) :: NoLater(at, other)
  }

  predicate NoLater(at: seq<nat>, other: seq<nat>) {
    |at| == |other| && forall k | 0 <= k < |at| :: at[k] <= other[k]
  }

  /** In tenths: the places, ten for each word start, two for each character skipped, five for each
      pair in one run, and a hundred for the whole text. */
  function Worth(at: seq<nat>, query: string, text: string): int
    requires forall k | 0 <= k < |at| :: at[k] < |text|
  {
    SumOf(at) - 100 * WordStarts(text, at) + 20 * Skipped(at) - 50 * Together(at) - if query == text then 1000 else 0
  }

  /** The scan finds the only earliest spelling. */
  lemma {:induction false} EarliestIsScan(at: seq<nat>, query: string, text: string)
    requires Earliest(at, query, text)
    ensures Scan(query, text, |text|) == at
  {
    hide Spells, Scan, NoLater;
    var scan := Scan(query, text, |text|);
    assert IsSubsequence(query, text);
    GreedyIsComplete(query, text);
    ScanSpells(query, text, |text|);
    assert query[..|scan|] == query;
    SpelledFully(at, query, text);
    NoLaterAt(at, scan);
    forall k | 0 <= k < |at|
      ensures scan[k] == at[k]
    {
      SpelledAt(at, query, text, k);
      ScanIsEarliest(at, query, text, |text|, k);
    }
  }

  lemma {:induction false} NoLaterAt(at: seq<nat>, other: seq<nat>)
    requires NoLater(at, other)
    ensures |at| == |other| && forall k | 0 <= k < |at| :: at[k] <= other[k]
  {
  }

  lemma {:induction false} SpelledRises(at: seq<nat>, query: string, text: string)
    requires Spells(at, query, text)
    ensures Rising(at) && forall k | 0 <= k < |at| :: at[k] < |text|
  {
  }

  lemma {:induction false} MatchIsWorth(at: seq<nat>, query: string, text: string)
    requires query != [] && Earliest(at, query, text)
    ensures forall k | 0 <= k < |at| :: at[k] < |text|
    ensures MatchOf(query, text) == FuzzyMatch(true, Worth(at, query, text))
  {
    hide Spells, Score, SumOf, WordStarts, Skipped, Together;
    SpelledRises(at, query, text);
    SpelledFully(at, query, text);
    EarliestIsScan(at, query, text);
    ScoreAddsUp(text, at);
  }

  /** A query that is a subsequence of the text is scored by its earliest spelling. */
  lemma {:induction false} ScoredExactly(at: seq<nat>, query: string, text: string)
    requires query != [] && Earliest(at, query, text)
    ensures forall k | 0 <= k < |at| :: at[k] < |text|
    ensures FuzzyMatchOf(query, text) == FuzzyMatch(true, Worth(at, query, text))
  {
    hide Earliest, MatchOf, Worth;
    MatchIsWorth(at, query, text);
  }

  /** One that is not, but whose halves are, exchanged, by that spelling with a penalty of five; the
      empty query matches everything and is worth nothing. */
  lemma {:induction false} SwappedScoredExactly(at: seq<nat>, query: string, text: string, k: nat)
    requires Halves(query, k) && !IsSubsequence(query, text) && Earliest(at, query[k..] + query[..k], text)
    ensures forall k | 0 <= k < |at| :: at[k] < |text|
    ensures FuzzyMatchOf(query, text) == FuzzyMatch(true, Worth(at, query[k..] + query[..k], text) + 50)
    ensures FuzzyMatchOf([], text) == FuzzyMatch(true, 0)
  {
    hide Earliest, MatchOf, Worth, IsSubsequence, Swapped;
    var swapped := query[k..] + query[..k];
    SwappedHalves(query, k);
    MatchIsWorth(at, swapped, text);
    NoMatch(query, text);
    EmptyMatch(text);
  }

  lemma {:induction false} NoMatch(query: string, text: string)
    requires !IsSubsequence(query, text)
    ensures !MatchOf(query, text).matches
  {
    hide IsSubsequence, Scan, Score;
    GreedyIsComplete(query, text);
    EmptyIsSubsequence(text);
  }

  lemma {:induction false} EmptyMatch(text: string)
    ensures MatchOf([], text) == FuzzyMatch(true, 0)
  {
  }

  // ---- fuzzyFilter ----

  predicate Splits(c: char) { IsSpace(c) || c == '/' }

  /** The words of a query: its longest runs without spaces and slashes. */
  function Tokens(s: string): (words: seq<string>)
    decreases |s|
  {
    if s == [] then []
    else if Splits(s[0]) then Tokens(s[1..])
    else
      var n := WordEnd(s);
      [s[..n]] + Tokens(s[n..])
  }

  function WordEnd(s: string): (n: nat)
    ensures n <= |s| && (forall i | 0 <= i < n :: !Splits(s[i])) && (n < |s| ==> Splits(s[n]))
    ensures s != [] && !Splits(s[0]) ==> n > 0
  {
    if s == [] || Splits(s[0]) then 0 else 1 + WordEnd(s[1..])
  }

  /** The sum of the scores, if all tokens match. */
  function TotalScore(tokens: seq<string>, text: string): (r: FuzzyMatch) {
    if tokens == [] then FuzzyMatch(true, 0)
    else
      var before := TotalScore(tokens[..|tokens| - 1], text);
      var last := FuzzyMatchOf(tokens[|tokens| - 1], text);
      if before.matches && last.matches then FuzzyMatch(true, before.score + last.score) else FuzzyMatch(false, 0)
  }

  /** Wherever a list of tokens is cut in two, all match if both parts do, and the scores add up. */
  lemma {:induction false} ScoresAddUp(tokens: seq<string>, more: seq<string>, text: string)
    ensures var one, two := TotalScore(tokens, text), TotalScore(more, text);
            TotalScore(tokens + more, text) ==
            if one.matches && two.matches then FuzzyMatch(true, one.score + two.score) else FuzzyMatch(false, 0)
    ensures forall token :: TotalScore([token], text) ==
              if FuzzyMatchOf(token, text).matches then FuzzyMatchOf(token, text) else FuzzyMatch(false, 0)
  {
    hide FuzzyMatchOf;
    if more == [] {
      assert tokens + more == tokens;
    } else {
      var k := |more| - 1;
      ScoresAddUp(tokens, more[..k], text);
      assert (tokens + more)[..|tokens + more| - 1] == tokens + more[..k];
    }
  }

  predicate Fits(token: string, text: string) { FuzzyMatchOf(token, text).matches }

  lemma {:induction false} TotalMatches(tokens: seq<string>, text: string)
    ensures TotalScore(tokens, text).matches <==> forall i | 0 <= i < |tokens| :: Fits(tokens[i], text)
  {
    hide FuzzyMatchOf;
    if tokens != [] {
      TotalMatches(tokens[..|tokens| - 1], text);
    }
  }

  /** A text is kept exactly when every token, or its swapped form, is a subsequence of it. */
  lemma {:induction false} KeptExactly(tokens: seq<string>, text: string)
    ensures TotalScore(tokens, text).matches <==>
            forall i | 0 <= i < |tokens| ::
              IsSubsequence(tokens[i], text) || (Swapped(tokens[i]) != [] && IsSubsequence(Swapped(tokens[i]), text))
  {
    hide TotalScore, FuzzyMatchOf, IsSubsequence, Swapped;
    TotalMatches(tokens, text);
    forall i | 0 <= i < |tokens|
      ensures Fits(tokens[i], text) <==>
              IsSubsequence(tokens[i], text) || (Swapped(tokens[i]) != [] && IsSubsequence(Swapped(tokens[i]), text))
    {
      MatchesExactly(tokens[i], text);
    }
  }

  // ---- the words of a query ----

  function Unsplit(s: string): string {
    if s == [] then [] else (if Splits(s[0]) then [] else [s[0]]) + Unsplit(s[1..])
  }

  function Joined(words: seq<string>): string {
    if words == [] then [] else words[0] + Joined(words[1..])
  }

  lemma {:induction false} UnsplitWord(s: string, n: nat)
    requires n <= |s| && forall i | 0 <= i < n :: !Splits(s[i])
    ensures Unsplit(s) == s[..n] + Unsplit(s[n..])
  {
    hide Splits;
    if n == 0 {
      assert s[0..] == s;
    } else {
      UnsplitWord(s[1..], n - 1);
      assert s[1..][n - 1..] == s[n..] && s[..n] == [s[0]] + s[1..][..n - 1];
    }
  }

  /** The words are not empty, hold no space or slash, and together hold all the rest of the
      query in order. */
  lemma {:induction false} TokensAreWords(s: string)
    ensures var words := Tokens(s);
            && Joined(words) == Unsplit(s)
            && forall k | 0 <= k < |words| ::
                 words[k] != [] && forall i | 0 <= i < |words[k]| :: !Splits(words[k][i])
    decreases |s|
  {
    hide Splits;
    if s != [] {
      if Splits(s[0]) {
        TokensAreWords(s[1..]);
      } else {
        var n := WordEnd(s);
        TokensAreWords(s[n..]);
        UnsplitWord(s, n);
        assert ([s[..n]] + Tokens(s[n..]))[1..] == Tokens(s[n..]);
      }
    }
  }

  /** From place `from` on, the words are the longest runs without a space or a slash: each has one,
      or an end of the query, on both sides, and they hold everything else. */
  predicate Words(s: string, from: nat, words: seq<string>, starts: seq<nat>) {
    && |starts| == |words|
    && (forall k | 0 <= k < |words| :: from <= starts[k] && IsWord(s, starts[k], words[k]))
    && (forall j, k | 0 <= j < k < |words| :: starts[j] + |words[j]| < starts[k])
    && (forall i | from <= i < |s| && !Splits(s[i]) ::
          exists k | 0 <= k < |words| :: starts[k] <= i < starts[k] + |words[k]|)
  }

  predicate IsWord(s: string, start: nat, word: string) {
    && word != [] && start + |word| <= |s| && word == s[start..start + |word|]
    && (forall i | start <= i < start + |word| :: !Splits(s[i]))
    && (start == 0 || Splits(s[start - 1]))
    && (start + |word| == |s| || Splits(s[start + |word|]))
  }

  lemma {:induction false} WordsFrom(s: string, from: nat) returns (starts: seq<nat>)
    requires from <= |s| && (from == 0 || from == |s| || Splits(s[from - 1]) || Splits(s[from]))
    ensures Words(s, from, Tokens(s[from..]), starts)
    decreases |s| - from
  {
    hide Splits, Words, IsWord;
    if from == |s| {
      starts := [];
      NoWords(s);
    } else if Splits(s[from]) {
      assert s[from..][1..] == s[from + 1..];
      starts := WordsFrom(s, from + 1);
      NoWordAt(s, from, Tokens(s[from + 1..]), starts);
    } else {
      var n := WordAt(s, from);
      var later := WordsFrom(s, from + n);
      FirstWord(s, from, n, Tokens(s[from + n..]), later);
      starts := [from] + later;
    }
  }

  lemma {:induction false} NoWords(s: string)
    ensures Words(s, |s|, [], [])
  {
  }

  lemma {:induction false} NoWordAt(s: string, from: nat, words: seq<string>, starts: seq<nat>)
    requires from < |s| && Splits(s[from]) && Words(s, from + 1, words, starts)
    ensures Words(s, from, words, starts)
  {
    hide Splits, IsWord;
  }

  lemma {:induction false} WordAt(s: string, from: nat) returns (n: nat)
    requires from < |s| && !Splits(s[from]) && (from == 0 || Splits(s[from - 1]))
    ensures n > 0 && from + n <= |s| && IsWord(s, from, s[from..from + n])
    ensures from + n == |s| || Splits(s[from + n])
    ensures Tokens(s[from..]) == [s[from..from + n]] + Tokens(s[from + n..])
  {
    hide Splits;
    var rest := s[from..];
    n := WordEnd(rest);
    assert rest[n..] == s[from + n..] && rest[..n] == s[from..from + n];
    assert from + n < |s| ==> rest[n] == s[from + n];
    forall i | from <= i < from + n
      ensures !Splits(s[i])
    {
      assert rest[i - from] == s[i];
    }
  }

  lemma {:induction false} FirstWord(s: string, from: nat, n: nat, words: seq<string>, later: seq<nat>)
    requires 0 < n && from + n <= |s| && Words(s, from + n, words, later)
    requires IsWord(s, from, s[from..from + n])
    ensures Words(s, from, [s[from..from + n]] + words, [from] + later)
  {
    hide Splits;
    var all, starts := [s[from..from + n]] + words, [from] + later;
    assert forall k | 0 < k < |all| :: all[k] == words[k - 1] && starts[k] == later[k - 1];
    forall i | from <= i < |s| && !Splits(s[i])
      ensures exists k | 0 <= k < |all| :: starts[k] <= i < starts[k] + |all[k]|
    {
      if i < from + n {
        assert starts[0] <= i < starts[0] + |all[0]|;
      } else {
        var k :| 0 <= k < |words| && later[k] <= i < later[k] + |words[k]|;
        assert starts[k + 1] <= i < starts[k + 1] + |all[k + 1]|;
      }
    }
    forall j, k | 0 <= j < k < |all|
      ensures starts[j] + |all[j]| < starts[k]
    {
      if j == 0 {
        assert IsWord(s, later[k - 1], words[k - 1]);
        assert starts[k] != from + n;
      }
    }
  }

  /** The words of a query are its longest runs without a space or a slash, in order. */
  lemma {:induction false} TokensAreMaximal(s: string) returns (starts: seq<nat>)
    ensures Words(s, 0, Tokens(s), starts)
  {
    assert s[0..] == s;
    starts := WordsFrom(s, 0);
  }

  /** The characters that matter: spaces and slashes divide words; letters and digits are plain ones;
      after a space or one of five signs a word starts. */
  lemma {:induction false} CharactersExactly(text: string, i: nat)
    requires i < |text|
    ensures Splits(text[i]) <==> IsSpace(text[i]) || text[i] == '/'
    ensures IsLetter(text[i]) <==> text[i] in "abcdefghijklmnopqrstuvwxyz"
    ensures IsDigit(text[i]) <==> text[i] in "0123456789"
    ensures StartsWord(text, i) <==> (i > 0 ==> IsSpace(text[i - 1]) || text[i - 1] in "-_./:")
  {
    hide IsSpace;
  }

  datatype Item = Item(id: nat, text: string)

  /** `toLowerCase`, whatever it does. */
  type Lower = string -> string

  function LowerAll(tokens: seq<string>, lower: Lower): (lowered: seq<string>)
    ensures |lowered| == |tokens| && forall i | 0 <= i < |tokens| :: lowered[i] == lower(tokens[i])
  {
    if tokens == [] then [] else LowerAll(tokens[..|tokens| - 1], lower) + [lower(tokens[|tokens| - 1])]
  }

  /** The items that match all the lowercased tokens, with their scores, in their order. */
  function Matching(items: seq<Item>, tokens: seq<string>, lower: Lower): seq<Keyed<Item>> {
    if items == [] then []
    else
      var last := items[|items| - 1];
      var total := TotalScore(tokens, lower(last.text));
      Matching(items[..|items| - 1], tokens, lower) + if total.matches then [Keyed(last, total.score)] else []
  }

  function ItemsOf(s: seq<Keyed<Item>>): (items: seq<Item>)
    ensures |items| == |s| && forall i | 0 <= i < |s| :: items[i] == s[i].item
  {
    if s == [] then [] else ItemsOf(s[..|s| - 1]) + [s[|s| - 1].item]
  }

  /** fuzzyFilter: the query is split into words first, and words and texts are lowercased then. */
  method FuzzyFilter(items: seq<Item>, query: string, lower: Lower) returns (r: seq<Item>)
    ensures r == if Tokens(query) == [] then items
                 else ItemsOf(Sort(Matching(items, LowerAll(Tokens(query), lower), lower)))
  {
    var tokens := Tokens(query);
    if tokens == [] {
      return items;
    }
    var results: seq<Keyed<Item>> := [];
    for k := 0 to |items|
      invariant results == Matching(items[..k], LowerAll(tokens, lower), lower)
    {
      var total := MatchAll(tokens, items[k].text, lower);
      assert items[..k + 1][..k] == items[..k];
      if total.matches {
        results := results + [Keyed(items[k], total.score)];
      }
    }
    assert items[..|items|] == items;
    r := ItemsOf(Sort(results));
  }

  method MatchAll(tokens: seq<string>, text: string, lower: Lower) returns (r: FuzzyMatch)
    ensures r == TotalScore(LowerAll(tokens, lower), lower(text))
  {
    hide FuzzyMatchOf;
    ghost var lowered := LowerAll(tokens, lower);
    var totalScore, k := 0, 0;
    while k < |tokens|
      invariant k <= |tokens| && TotalScore(lowered[..k], lower(text)) == FuzzyMatch(true, totalScore)
    {
      var match_ := FuzzyMatchLower(lower(tokens[k]), lower(text));
      assert lowered[..k + 1][..k] == lowered[..k];
      k := k + 1;
      if !match_.matches {
        TotalFails(lowered, lower(text), k);
        return FuzzyMatch(false, 0);
      }
      totalScore := totalScore + match_.score;
    }
    assert lowered[..|tokens|] == lowered;
    r := FuzzyMatch(true, totalScore);
  }

  lemma {:induction false} TotalFails(tokens: seq<string>, text: string, k: nat)
    requires k <= |tokens| && TotalScore(tokens[..k], text) == FuzzyMatch(false, 0)
    ensures TotalScore(tokens, text) == FuzzyMatch(false, 0)
    decreases |tokens| - k
  {
    hide FuzzyMatchOf;
    if k == |tokens| {
      assert tokens[..k] == tokens;
    } else {
      assert tokens[..k + 1][..k] == tokens[..k];
      TotalFails(tokens, text, k + 1);
    }
  }

  /** The filter keeps exactly the items of which every token is, or is swapped, a subsequence,
      best scores first; among equals they keep their order. */
  lemma {:induction false} FilterExactly(items: seq<Item>, tokens: seq<string>, lower: Lower, key: int)
    ensures var kept := Sort(Matching(items, tokens, lower));
            && Ascending(kept)
            && WithKey(kept, key) == WithKey(Matching(items, tokens, lower), key)
            && ItemsOf(WithKey(kept, key)) == Having(items, tokens, lower, key)
  {
    hide Matching, Sort;
    SortIsStable(Matching(items, tokens, lower));
    MatchingHas(items, tokens, lower, key);
  }

  /** The items of one total score, in their order. */
  function Having(items: seq<Item>, tokens: seq<string>, lower: Lower, score: int): seq<Item> {
    if items == [] then []
    else
      var last := items[|items| - 1];
      Having(items[..|items| - 1], tokens, lower, score)
      + if TotalScore(tokens, lower(last.text)) == FuzzyMatch(true, score) then [last] else []
  }

  lemma {:induction false} MatchingHas(items: seq<Item>, tokens: seq<string>, lower: Lower, key: int)
    ensures ItemsOf(WithKey(Matching(items, tokens, lower), key)) == Having(items, tokens, lower, key)
  {
    hide TotalScore;
    if items != [] {
      var k := |items| - 1;
      MatchingHas(items[..k], tokens, lower, key);
      var before := Matching(items[..k], tokens, lower);
      var total := TotalScore(tokens, lower(items[k].text));
      if total.matches {
        WithKeySnoc(before, Keyed(items[k], total.score), key);
        OneMoreItem(WithKey(before, key), Keyed(items[k], total.score));
        assert WithKey(before, key) + [] == WithKey(before, key);
      } else {
        assert before + [] == before;
      }
    }
  }

  lemma {:induction false} OneMoreItem(s: seq<Keyed<Item>>, x: Keyed<Item>)
    ensures ItemsOf(s + [x]) == ItemsOf(s) + [x.item]
  {
    assert (s + [x])[..|s|] == s;
  }
}
