/**
 Shortening an oversized text (packages/context/src/compress.ts) and the token estimate it is
 usually measured with (packages/memory/src/score.ts, `estimateTokens`).
 */
module Compress {
  import opened Strings

  const MARKER := "\n\U{2026}[truncated]\U{2026}\n"
  const MARKER_START := "\U{2026}[truncated]\U{2026}\n"

  type Estimate = string -> nat

  datatype Shortened = Shortened(text: string, tokens: nat, summarized: bool)

  function Max(x: int, y: int): int {
    if x >= y then x else y
  }

  /** `s.slice(0, n)` */
  function SliceTo(s: string, n: nat): string {
    if n <= |s| then s[..n] else s
  }

  /** `s.slice(start)`: a negative start counts from the end. */
  function SliceFrom(s: string, start: int): string {
    if start >= |s| then "" else if start >= 0 then s[start..] else if |s| + start > 0 then s[|s| + start..] else s
  }

  /** The characters left for text: about four a token, less the marker. */
  function BudgetChars(target: int): nat {
    Max(0, target * 4 - |MARKER|)
  }

  /** Six tenths of the budget, rounded up. */
  function HeadChars(budget: nat): nat {
    (3 * budget + 4) / 5
  }

  function TruncateMiddle(text: string, target: int, estimate: Estimate): Shortened {
    if target <= 0 then Shortened("", 0, |text| > 0)
    else if estimate(text) <= target then Shortened(text, estimate(text), false)
    else
      var head := HeadChars(BudgetChars(target));
      var tail := BudgetChars(target) - head;
      var out := SliceTo(text, head) + MARKER + if tail > 0 then SliceFrom(text, |text| - tail) else "";
      Shortened(out, estimate(out), true)
  }

  function TruncateTail(text: string, target: int, estimate: Estimate): string {
    if target <= 0 then "" else if estimate(text) <= target then text
    else MARKER_START + SliceFrom(text, |text| - BudgetChars(target))
  }

  /** The text is cut. */
  predicate IsCut(text: string, target: int, estimate: Estimate) {
    target > 0 && estimate(text) > target
  }

  /**
   A text no shorter than the budget keeps a head and a tail that do not overlap, and becomes exactly as
   long as allowed.
   */
  lemma HeadAndTail(text: string, target: int, estimate: Estimate)
    requires IsCut(text, target, estimate) && BudgetChars(target) <= |text|
    ensures var r := TruncateMiddle(text, target, estimate);
      var head, tail := HeadChars(BudgetChars(target)), BudgetChars(target) - HeadChars(BudgetChars(target));
      && r.text == text[..head] + MARKER + text[|text| - tail..]
      && head + tail <= |text| && 3 * BudgetChars(target) <= 5 * head < 3 * BudgetChars(target) + 5
      && |r.text| == Max(4 * target, |MARKER|)
  {
  }

  /** A text shorter than the budget keeps everything in head and tail together, some of it twice. */
  lemma OverlapGrows(text: string, target: int, estimate: Estimate)
    requires IsCut(text, target, estimate) && |text| < BudgetChars(target)
    ensures var r := TruncateMiddle(text, target, estimate);
      && |r.text| > |text|
      && exists head, tail :: r.text == head + MARKER + tail && head <= text && Covers(text, head, tail)
  {
    var budget := BudgetChars(target);
    var head := SliceTo(text, HeadChars(budget));
    var tailChars := budget - HeadChars(budget);
    var tail := if tailChars > 0 then SliceFrom(text, |text| - tailChars) else "";
    if HeadChars(budget) >= |text| {
      assert head == text;
      assert tail == text[|text| - |tail|..];
    } else {
      assert tail == text[|text| - tailChars..];
    }
    assert Covers(text, head, tail);
  }

  /** `tail` ends the text, and begins no later than `head` ends. */
  predicate Covers(text: string, head: string, tail: string) {
    |tail| <= |text| && tail == text[|text| - |tail|..] && |text| <= |head| + |tail|
  }

  /** Cutting makes a text shorter exactly when it was longer than what it is cut to. */
  lemma ShorterIff(text: string, target: int, estimate: Estimate)
    requires IsCut(text, target, estimate)
    ensures |TruncateMiddle(text, target, estimate).text| < |text| <==> |text| > Max(4 * target, |MARKER|)
  {
    if BudgetChars(target) <= |text| {
      HeadAndTail(text, target, estimate);
    } else {
      OverlapGrows(text, target, estimate);
    }
  }

  // ----- at four characters a token

  function ByChars(s: string): nat {
    (|s| + 3) / 4
  }

  /**
   Measured at four characters a token, the result fits exactly when nothing was to be cut or four tokens
   are allowed.
   */
  lemma FitsIff(text: string, target: int)
    ensures var r := TruncateMiddle(text, target, ByChars);
      r.tokens <= Max(0, target) <==> target <= 0 || ByChars(text) <= target || target >= 4
  {
    if IsCut(text, target, ByChars) {
      assert BudgetChars(target) <= |text|;
      HeadAndTail(text, target, ByChars);
    }
  }

  // ----- at no less than a token a word

  predicate StartsWord(s: string, i: nat)
    requires i < |s|
  {
    !Blank(s[i]) && (i == 0 || Blank(s[i - 1]))
  }

  function WordsIn(s: string, n: nat): nat
    requires n <= |s|
  {
    if n == 0 then 0 else WordsIn(s, n - 1) + if StartsWord(s, n - 1) then 1 else 0
  }

  function Words(s: string): nat {
    WordsIn(s, |s|)
  }

  function EstimateTokens(s: string): nat {
    if |s| == 0 then 0 else Max(ByChars(s), Words(s))
  }

  /** The last word of `a` and the first of `b` become one. */
  predicate Joins(a: string, b: string) {
    a != "" && b != "" && !Blank(a[|a| - 1]) && !Blank(b[0])
  }

  lemma {:induction false} WordsOfPrefix(a: string, b: string, n: nat)
    requires n <= |a|
    ensures WordsIn(a + b, n) == WordsIn(a, n)
  {
    hide Blank;
    if n > 0 {
      WordsOfPrefix(a, b, n - 1);
    }
  }

  lemma {:induction false} WordsOfMore(a: string, b: string, n: nat)
    requires 0 < n <= |b|
    ensures WordsIn(a + b, |a| + n) == Words(a) + WordsIn(b, n) - if Joins(a, b) then 1 else 0
  {
    hide Blank;
    var s := a + b;
    assert s[|a| + n - 1] == b[n - 1];
    if n == 1 {
      WordsOfPrefix(a, b, |a|);
      assert a != "" ==> s[|a| - 1] == a[|a| - 1];
      assert WordsIn(b, 1) == WordsIn(b, 0) + if StartsWord(b, 0) then 1 else 0;
      assert WordsIn(s, |a| + 1) == WordsIn(s, |a|) + if StartsWord(s, |a|) then 1 else 0;
    } else {
      WordsOfMore(a, b, n - 1);
      assert s[|a| + n - 2] == b[n - 2];
      assert StartsWord(s, |a| + n - 1) == StartsWord(b, n - 1);
    }
  }

  lemma WordsAppend(a: string, b: string)
    ensures Words(a + b) == Words(a) + Words(b) - if Joins(a, b) then 1 else 0
  {
    if b == "" {
      assert a + b == a;
    } else {
      WordsOfMore(a, b, |b|);
    }
  }

  lemma {:induction false} SomeWord(s: string)
    requires s != "" && !Blank(s[|s| - 1])
    ensures Words(s) >= 1
    decreases |s|
  {
    hide Blank;
    if |s| > 1 && !Blank(s[|s| - 2]) {
      SomeWord(s[..|s| - 1]);
      WordsOfPrefix(s[..|s| - 1], s[|s| - 1..], |s| - 1);
      assert s == s[..|s| - 1] + s[|s| - 1..];
    } else {
      assert StartsWord(s, |s| - 1);
    }
  }

  /** Head and tail that cover a text hold at least its words. */
  lemma CoverHoldsWords(text: string, head: string, tail: string)
    requires head <= text && Covers(text, head, tail)
    ensures Words(text) <= Words(head) + Words(tail)
  {
    hide Words, Blank;
    var rest := text[|head|..];
    WordsAppend(head, rest);
    assert head + rest == text;
    var overlap := tail[..|tail| - |rest|];
    assert overlap + rest == tail by {
      assert tail[|tail| - |rest|..] == rest;
    }
    WordsAppend(overlap, rest);
    if Joins(overlap, rest) {
      SomeWord(overlap);
    }
  }

  lemma MarkerIsAWord(head: string, tail: string)
    ensures Words(head + MARKER + tail) == Words(head) + 1 + Words(tail)
  {
    assert Words(MARKER) == 1 by {
      OneWord(MARKER, |MARKER|);
    }
    hide Words;
    WordsAppend(head, MARKER);
    WordsAppend(head + MARKER, tail);
    assert Blank('\n');
    assert (head + MARKER)[|head + MARKER| - 1] == '\n' by {
      assert (head + MARKER)[|head + MARKER| - 1] == MARKER[|MARKER| - 1];
    }
  }

  lemma {:induction false} OneWord(s: string, n: nat)
    requires n <= |s| && |s| > 1 && Blank(s[0]) && !Blank(s[1])
    requires forall i :: 1 < i < |s| ==> Blank(s[i]) || !Blank(s[i - 1])
    ensures WordsIn(s, n) == if n >= 2 then 1 else 0
  {
    hide Blank;
    if n > 0 {
      OneWord(s, n - 1);
    }
  }

  /**
   With the estimate the engine uses by default, a text of many short words that is shorter than the
   budget costs more tokens after it was cut than before.
   */
  lemma CuttingManyShortWordsCostsTokens(text: string, target: int)
    requires IsCut(text, target, EstimateTokens) && |text| < BudgetChars(target)
    ensures TruncateMiddle(text, target, EstimateTokens).tokens > EstimateTokens(text)
  {
    hide Words, Blank;
    OverlapGrows(text, target, EstimateTokens);
    var r := TruncateMiddle(text, target, EstimateTokens);
    var head, tail :| r.text == head + MARKER + tail && head <= text && Covers(text, head, tail);
    CoverHoldsWords(text, head, tail);
    MarkerIsAWord(head, tail);
    assert ByChars(text) <= target;
  }

  /** The words the kept head and tail hold. */
  function KeptWords(text: string, target: int): nat
    requires BudgetChars(target) <= |text|
  {
    var head := HeadChars(BudgetChars(target));
    Words(text[..head]) + Words(text[|text| - (BudgetChars(target) - head)..])
  }

  /**
   With the estimate the engine uses by default, a cut text fits exactly when at least four tokens are
   allowed, it is no shorter than the character budget, and head and tail hold fewer words than the target.
   */
  lemma FitsByDefaultIff(text: string, target: int)
    requires IsCut(text, target, EstimateTokens)
    ensures TruncateMiddle(text, target, EstimateTokens).tokens <= target <==>
      target >= 4 && BudgetChars(target) <= |text| && KeptWords(text, target) < target
  {
    hide Words, Blank;
    if BudgetChars(target) <= |text| {
      HeadAndTail(text, target, EstimateTokens);
      var head := HeadChars(BudgetChars(target));
      MarkerIsAWord(text[..head], text[|text| - (BudgetChars(target) - head)..]);
    } else {
      CuttingManyShortWordsCostsTokens(text, target);
    }
  }

  /** And it costs fewer tokens than the whole text exactly when the target and the kept words, with the marker, do. */
  lemma SavesByDefaultIff(text: string, target: int)
    requires IsCut(text, target, EstimateTokens)
    ensures TruncateMiddle(text, target, EstimateTokens).tokens < EstimateTokens(text) <==>
      BudgetChars(target) <= |text| && Max(Max(target, 4), KeptWords(text, target) + 1) < EstimateTokens(text)
  {
    hide Words, Blank;
    if BudgetChars(target) <= |text| {
      HeadAndTail(text, target, EstimateTokens);
      var head := HeadChars(BudgetChars(target));
      MarkerIsAWord(text[..head], text[|text| - (BudgetChars(target) - head)..]);
    } else {
      CuttingManyShortWordsCostsTokens(text, target);
    }
  }

  /** Every word but the last is followed by a blank. */
  lemma {:induction false} WordsNeedRoom(s: string, n: nat)
    requires n <= |s|
    ensures 2 * WordsIn(s, n) <= n + 1
    ensures n > 0 && Blank(s[n - 1]) ==> 2 * WordsIn(s, n) <= n
  {
    hide Blank;
    if n > 0 {
      WordsNeedRoom(s, n - 1);
    }
  }

  /** A text that is cut although it is shorter than the character budget exists exactly from nine tokens on. */
  lemma ManyShortWordsExistIff(target: int)
    ensures (exists text :: IsCut(text, target, EstimateTokens) && |text| < BudgetChars(target)) <==> target >= 9
  {
    if target >= 9 {
      var text := Letters(target);
      LettersAreWords(target);
      assert IsCut(text, target, EstimateTokens) && |text| < BudgetChars(target);
    }
    if text :| IsCut(text, target, EstimateTokens) && |text| < BudgetChars(target) {
      WordsNeedRoom(text, |text|);
    }
  }

  /** `n` one-letter words and one more. */
  function Letters(n: nat): string {
    if n == 0 then "a" else "a " + Letters(n - 1)
  }

  lemma {:induction false} LettersAreWords(n: nat)
    ensures |Letters(n)| == 2 * n + 1 && Words(Letters(n)) == n + 1 && Letters(n)[0] == 'a'
  {
    if n == 0 {
      assert WordsIn("a", 1) == WordsIn("a", 0) + 1;
    } else {
      LettersAreWords(n - 1);
      WordsAppend("a ", Letters(n - 1));
      assert WordsIn("a ", 1) == 1;
      assert Words("a ") == 1;
    }
  }

  // ----- the tail alone

  /**
   Keeping the tail keeps as much as the budget or the text allows, except when the text is shorter
   than the budget but longer than half of it.
   */
  lemma TailKeepsIff(text: string, target: int, estimate: Estimate)
    requires IsCut(text, target, estimate)
    ensures var budget := BudgetChars(target);
      var kept := |TruncateTail(text, target, estimate)| - |MARKER_START|;
      && kept == (if budget <= |text| then budget else if budget < 2 * |text| then budget - |text| else |text|)
      && (kept == (if budget <= |text| then budget else |text|) <==> budget <= |text| || 2 * |text| <= budget)
  {
  }

  /**
   Ten one-letter words, cut for nine tokens: there is room for all of them, and only the last two
   characters are kept.
   */
  lemma TailLosesRoom()
    ensures var text := Letters(9);
      && IsCut(text, 9, EstimateTokens)
      && |text| < BudgetChars(9) < 2 * |text|
      && |TruncateTail(text, 9, EstimateTokens)| - |MARKER_START| == 2
  {
    LettersAreWords(9);
    TailKeepsIff(Letters(9), 9, EstimateTokens);
  }
}
