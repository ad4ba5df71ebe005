/**
 Reading the verdict out of an evaluation turn's answer (packages/agent/src/policies.ts,
 `parseVerdict`): a hand-written scanner for NEXUS_GOAL_VERDICT:\s*(MET|NOT_MET)\b, applied
 repeatedly from the end of the previous match.
 */
module Verdicts {
  import opened Strings
  import opened Options

  datatype Verdict = Met | Unmet | Indeterminate

  const TOKEN := "NEXUS_GOAL_VERDICT:"
  const MET := "MET"
  const NOT_MET := "NOT_MET"

  /** The regular expression class \w. */
  predicate WordChar(c: char) {
    'a' <= c <= 'z' || 'A' <= c <= 'Z' || '0' <= c <= '9' || c == '_'
  }

  /** `word` stands at `q` as a verdict introduced by the token at `p`. */
  predicate Says(s: string, p: nat, q: nat, word: string) {
    && At(s, p, TOKEN)
    && p + |TOKEN| <= q
    && At(s, q, word)
    && BlankBetween(s, p + |TOKEN|, q)
    && (q + |word| == |s| || !WordChar(s[q + |word|]))
  }

  predicate BlankBetween(s: string, i: nat, j: nat)
    requires j <= |s|
  {
    forall k :: i <= k < j ==> Blank(s[k])
  }

  /** The answer gives this verdict somewhere. */
  predicate Gives(s: string, word: string) {
    exists p: nat, q: nat :: p <= |s| && q <= |s| && Says(s, p, q, word)
  }

  /** Exactly one of the two verdicts must be given, any number of times. */
  function VerdictOf(answer: string): Verdict {
    if Gives(answer, MET) && !Gives(answer, NOT_MET) then Met
    else if Gives(answer, NOT_MET) && !Gives(answer, MET) then Unmet
    else Indeterminate
  }

  datatype Match = Match(start: nat, mid: nat, word: string)

  predicate IsMatch(s: string, m: Match) {
    (m.word == MET || m.word == NOT_MET) && Says(s, m.start, m.mid, m.word)
  }

  /** Nothing is said by a token at `p`. */
  ghost predicate Silent(s: string, p: nat) {
    forall q: nat :: !Says(s, p, q, MET) && !Says(s, p, q, NOT_MET)
  }

  method MatchAt(s: string, p: nat) returns (m: Option<Match>)
    ensures m.None? ==> Silent(s, p)
    ensures m.Some? ==> m.value.start == p && IsMatch(s, m.value)
  {
    hide Blank;
    if !At(s, p, TOKEN) {
      return None;
    }
    var q := p + |TOKEN|;
    while q < |s| && Blank(s[q])
      invariant p + |TOKEN| <= q <= |s| && BlankBetween(s, p + |TOKEN|, q)
    {
      q := q + 1;
    }
    forall q': nat | Says(s, p, q', MET) || Says(s, p, q', NOT_MET)
      ensures q' == q
    {
      WordStarts(s, p, q', if Says(s, p, q', MET) then MET else NOT_MET);
    }
    if At(s, q, MET) && (q + |MET| == |s| || !WordChar(s[q + |MET|])) {
      return Some(Match(p, q, MET));
    }
    if At(s, q, NOT_MET) && (q + |NOT_MET| == |s| || !WordChar(s[q + |NOT_MET|])) {
      return Some(Match(p, q, NOT_MET));
    }
    return None;
  }

  /** The first match at or after `from`. */
  method Exec(s: string, from: nat) returns (m: Option<Match>)
    ensures m.Some? ==> from <= m.value.start && IsMatch(s, m.value)
    ensures forall p :: from <= p && (m.Some? ==> p < m.value.start) ==> Silent(s, p)
  {
    hide Says, Silent, IsMatch;
    var p := from;
    while p < |s|
      invariant from <= p
      invariant forall k :: from <= k < p ==> Silent(s, k)
    {
      m := MatchAt(s, p);
      if m.Some? {
        return;
      }
      p := p + 1;
    }
    forall k | k >= |s|
      ensures Silent(s, k)
    {
      SilentPastEnd(s, k);
    }
    return None;
  }

  lemma SilentPastEnd(s: string, p: nat)
    requires p >= |s|
    ensures Silent(s, p)
  {
  }

  /** No token begins inside a match, so resuming at its end skips nothing. */
  lemma NoTokenInside(s: string, m: Match, p: nat)
    requires IsMatch(s, m) && m.start < p < m.mid + |m.word|
    ensures Silent(s, p)
  {
    hide Blank;
    LettersAreNotBlank();
    TokenStarts(s, p);
    if p < m.start + |TOKEN| {
      assert s[p] == TOKEN[p - m.start];
    } else if p < m.mid {
      assert Blank(s[p]);
    } else {
      assert s[p] == m.word[p - m.mid];
      if m.word == NOT_MET && p == m.mid {
        assert s[p + 1] == NOT_MET[1];
      }
    }
  }

  lemma LettersAreNotBlank()
    ensures !Blank('M') && !Blank('N')
  {
  }

  lemma TokenStarts(s: string, p: nat)
    ensures At(s, p, TOKEN) ==> s[p] == 'N' && s[p + 1] == 'E'
  {
    if At(s, p, TOKEN) {
      assert s[p] == TOKEN[0] && s[p + 1] == TOKEN[1];
    }
  }

  lemma WordStarts(s: string, p: nat, q: nat, word: string)
    requires Says(s, p, q, word) && (word == MET || word == NOT_MET)
    ensures s[q] == word[0] && !Blank(s[q])
  {
    assert s[q] == word[0];
  }

  /** A token introduces at most one verdict. */
  lemma OneVerdictPerToken(s: string, m: Match, q: nat, word: string)
    requires IsMatch(s, m) && Says(s, m.start, q, word) && (word == MET || word == NOT_MET)
    ensures q == m.mid && word == m.word
  {
    WordStarts(s, m.start, q, word);
    WordStarts(s, m.start, m.mid, m.word);
  }

  /** Some token before `limit` introduces the word. */
  ghost predicate GivesBefore(s: string, word: string, limit: nat) {
    exists p: nat, q: nat :: p < limit && Says(s, p, q, word)
  }

  lemma FoundAfter(s: string, m: Match, from: nat, word: string)
    requires IsMatch(s, m) && from <= m.start && (word == MET || word == NOT_MET)
    requires forall p :: from <= p < m.start ==> Silent(s, p)
    ensures GivesBefore(s, word, m.mid + |m.word|) <==> GivesBefore(s, word, from) || word == m.word
  {
    if p: nat, q: nat :| p < m.mid + |m.word| && Says(s, p, q, word) {
      if m.start < p {
        NoTokenInside(s, m, p);
      } else if p == m.start {
        OneVerdictPerToken(s, m, q, word);
      } else {
        assert !Silent(s, p);
        assert p < from && GivesBefore(s, word, from);
      }
    }
    if word == m.word {
      assert Says(s, m.start, m.mid, word);
    }
  }

  method ParseVerdict(answer: string) returns (verdict: Verdict)
    ensures verdict == VerdictOf(answer)
  {
    hide Says, IsMatch, Silent, GivesBefore;
    var found: set<string> := {};
    var lastIndex: nat := 0;
    NothingBeforeZero(answer);
    var m := Exec(answer, lastIndex);
    while m.Some?
      invariant found <= {MET, NOT_MET}
      invariant MET in found <==> GivesBefore(answer, MET, lastIndex)
      invariant NOT_MET in found <==> GivesBefore(answer, NOT_MET, lastIndex)
      invariant m.Some? ==> lastIndex <= m.value.start && IsMatch(answer, m.value)
      invariant forall p :: lastIndex <= p && (m.Some? ==> p < m.value.start) ==> Silent(answer, p)
      decreases if m.Some? then |answer| + 1 - lastIndex else 0
    {
      MatchEnds(answer, m.value);
      FoundAfter(answer, m.value, lastIndex, MET);
      FoundAfter(answer, m.value, lastIndex, NOT_MET);
      found := found + {m.value.word};
      lastIndex := m.value.mid + |m.value.word|;
      m := Exec(answer, lastIndex);
    }
    AllFound(answer, lastIndex);
    if |found| != 1 {
      verdict := Indeterminate;
      assert found != {MET} && found != {NOT_MET};
    } else {
      verdict := if MET in found then Met else Unmet;
      SingleWord(found);
    }
  }

  lemma SingleWord(found: set<string>)
    requires |found| == 1 && found <= {MET, NOT_MET}
    ensures found == {MET} || found == {NOT_MET}
  {
    if MET in found {
      assert |found - {MET}| == 0;
    } else {
      assert found <= {NOT_MET};
      assert NOT_MET in found by {
        var w :| w in found;
      }
    }
  }

  lemma NothingBeforeZero(s: string)
    ensures !GivesBefore(s, MET, 0) && !GivesBefore(s, NOT_MET, 0)
  {
  }

  lemma MatchEnds(s: string, m: Match)
    requires IsMatch(s, m)
    ensures m.start < m.mid + |m.word| <= |s| && (m.word == MET || m.word == NOT_MET)
  {
  }

  lemma AllFound(s: string, limit: nat)
    requires forall p :: limit <= p ==> Silent(s, p)
    ensures GivesBefore(s, MET, limit) <==> Gives(s, MET)
    ensures GivesBefore(s, NOT_MET, limit) <==> Gives(s, NOT_MET)
  {
    if p: nat, q: nat :| Says(s, p, q, MET) {
      assert !Silent(s, p);
      assert p < limit;
    }
    if p: nat, q: nat :| Says(s, p, q, NOT_MET) {
      assert !Silent(s, p);
      assert p < limit;
    }
  }

  /** An answer with one token only, then blanks and a verdict: it counts unless the word goes on. */
  lemma SingleTokenVerdict(before: string, gap: string, word: string, after: string)
    requires word in {"MET", "NOT_MET"} && forall i :: 0 <= i < |gap| ==> Blank(gap[i])
    requires var s := before + "NEXUS_GOAL_VERDICT:" + gap + word + after;
      forall p :: At(s, p, "NEXUS_GOAL_VERDICT:") ==> p == |before|
    ensures VerdictOf(before + "NEXUS_GOAL_VERDICT:" + gap + word + after) ==
      if after != "" && ('a' <= after[0] <= 'z' || 'A' <= after[0] <= 'Z' || '0' <= after[0] <= '9' || after[0] == '_')
      then Indeterminate else if word == "MET" then Met else Unmet
  {
    var s := before + "NEXUS_GOAL_VERDICT:" + gap + word + after;
    var p, q := |before|, |before| + 19 + |gap|;
    assert s[p..p + 19] == TOKEN && s[q..q + |word|] == word;
    assert forall k :: p + 19 <= k < q ==> s[k] == gap[k - p - 19];
    assert q + |word| < |s| ==> s[q + |word|] == after[0];
    assert At(s, p, TOKEN) && At(s, q, word) && BlankBetween(s, p + |TOKEN|, q);
    var ends := q + |word| == |s| || !WordChar(s[q + |word|]);
    forall r: nat, x | Says(s, p, r, x) && x in {MET, NOT_MET}
      ensures r == q && x == word && ends
    {
      OnlyHere(s, p, q, word, r, x);
    }
    assert ends ==> Says(s, p, q, word);
    hide At, Blank, WordChar;
  }

  lemma OnlyHere(s: string, p: nat, q: nat, word: string, r: nat, x: string)
    requires At(s, p, TOKEN) && p + |TOKEN| <= q && At(s, q, word) && BlankBetween(s, p + |TOKEN|, q)
    requires word in {MET, NOT_MET} && x in {MET, NOT_MET} && Says(s, p, r, x)
    ensures r == q && x == word
  {
    WordStarts(s, p, r, x);
    LettersAreNotBlank();
    assert s[q] == word[0] && s[r] == x[0];
    hide Blank;
  }

  // ----- the two reply forms of the prompt

  const MET_START := TOKEN + " MET - "
  const MET_REST := "<one sentence of justification>"
  const MET_FORM := MET_START + MET_REST
  const NOT_MET_START := TOKEN + " NOT_MET - "
  const NOT_MET_REST := "<one sentence naming what is missing>"
  const NOT_MET_FORM := NOT_MET_START + NOT_MET_REST

  const BRIEF := [
    "Decide whether the OBJECTIVE below has been FULLY achieved, judging ONLY from the EVIDENCE.",
    "Describing, restating, planning, or promising the work is NOT achieving it.",
    "If the evidence does not show the work actually done, the answer is NOT_MET.",
    ""]

  const REPLY_FORMS := [
    "Reply with EXACTLY one line and nothing else, in one of these two forms:", MET_FORM, NOT_MET_FORM]

  function Bulleted(criteria: seq<string>): seq<string> {
    seq(|criteria|, i requires 0 <= i < |criteria| => "- " + criteria[i])
  }

  function Prompt(objective: string, criteria: seq<string>, shown: string): string {
    Join(BRIEF + ["OBJECTIVE:\n" + objective]
          + (if criteria == [] then [] else ["", "REQUIRED CRITERIA:\n" + Join(Bulleted(criteria), "\n")])
          + ["", "EVIDENCE:\n" + shown, ""] + REPLY_FORMS, "\n")
  }

  lemma Shifted(s: string, i: nat, before: string, t: string)
    requires At(s, i, before + t)
    ensures At(s, i + |before|, t)
  {
    assert (before + t)[|before|..] == t;
    assert s[i..i + |before + t|][|before|..] == s[i + |before|..i + |before| + |t|];
  }

  lemma Shortened(s: string, i: nat, t: string, after: string)
    requires At(s, i, t + after)
    ensures At(s, i, t)
  {
    assert s[i..i + |t|] == s[i..i + |t + after|][..|t|];
  }

  lemma FormGives(s: string, i: nat, word: string)
    requires At(s, i, TOKEN + (" " + (word + " - ")))
    ensures Gives(s, word)
  {
    var q := i + |TOKEN| + 1;
    Shortened(s, i, TOKEN, " " + (word + " - "));
    Shifted(s, i, TOKEN, " " + (word + " - "));
    Shortened(s, i + |TOKEN|, " ", word + " - ");
    Shifted(s, i + |TOKEN|, " ", word + " - ");
    Shortened(s, q, word, " - ");
    Shifted(s, q, word, " - ");
    assert s[i + |TOKEN|] == s[i + |TOKEN|..i + |TOKEN| + 1][0];
    assert s[q + |word|] == s[q + |word|..q + |word| + 3][0];
    assert BlankBetween(s, i + |TOKEN|, q);
    assert Says(s, i, q, word);
  }

  /** An answer that quotes both reply forms, anywhere and in any order, settles nothing. */
  lemma BothFormsSettleNothing(answer: string, i: nat, j: nat)
    requires At(answer, i, MET_START) && At(answer, j, NOT_MET_START)
    ensures VerdictOf(answer) == Indeterminate
  {
    assert MET_START == TOKEN + (" " + (MET + " - ")) && NOT_MET_START == TOKEN + (" " + (NOT_MET + " - "));
    hide Gives, At;
    FormGives(answer, i, MET);
    FormGives(answer, j, NOT_MET);
  }

  lemma {:induction false} LinesOfSnoc(lines: seq<string>, last: string)
    requires lines != []
    ensures Join(lines + [last], "\n") == Join(lines, "\n") + "\n" + last
  {
    if |lines| > 1 {
      LinesOfSnoc(lines[1..], last);
      assert (lines + [last])[1..] == lines[1..] + [last];
    } else {
      assert (lines + [last])[1..] == [last];
    }
  }

  /** A model that echoes its instructions, with whatever around them, is never taken for a verdict. */
  lemma EchoSettlesNothing(objective: string, criteria: seq<string>, shown: string, before: string, after: string)
    ensures VerdictOf(before + Prompt(objective, criteria, shown) + after) == Indeterminate
  {
    var head := BRIEF + ["OBJECTIVE:\n" + objective]
      + (if criteria == [] then [] else ["", "REQUIRED CRITERIA:\n" + Join(Bulleted(criteria), "\n")])
      + ["", "EVIDENCE:\n" + shown, ""] + [REPLY_FORMS[0]];
    assert head + [MET_FORM] + [NOT_MET_FORM] == BRIEF + ["OBJECTIVE:\n" + objective]
      + (if criteria == [] then [] else ["", "REQUIRED CRITERIA:\n" + Join(Bulleted(criteria), "\n")])
      + ["", "EVIDENCE:\n" + shown, ""] + REPLY_FORMS;
    EchoOfLines(head, before, after);
  }

  lemma EchoOfLines(head: seq<string>, before: string, after: string)
    requires head != []
    ensures VerdictOf(before + Join(head + [MET_FORM] + [NOT_MET_FORM], "\n") + after) == Indeterminate
  {
    hide VerdictOf, At, Join;
    var text := Join(head, "\n");
    LinesOfSnoc(head, MET_FORM);
    LinesOfSnoc(head + [MET_FORM], NOT_MET_FORM);
    EchoOfForms(before, text, after);
  }

  lemma EchoOfForms(before: string, text: string, after: string)
    ensures VerdictOf(before + (text + "\n" + MET_FORM + "\n" + NOT_MET_FORM) + after) == Indeterminate
  {
    hide VerdictOf, At;
    BothStand(before, text, MET_START, MET_REST, NOT_MET_START, NOT_MET_REST, after);
    BothFormsSettleNothing(before + (text + "\n" + MET_FORM + "\n" + NOT_MET_FORM) + after,
                           |before + text + "\n"|, |before + text + "\n" + MET_FORM + "\n"|);
  }

  lemma BothStand(before: string, text: string, start1: string, rest1: string, start2: string, rest2: string,
                  after: string)
    ensures var s := before + (text + "\n" + (start1 + rest1) + "\n" + (start2 + rest2)) + after;
      && At(s, |before + text + "\n"|, start1)
      && At(s, |before + text + "\n" + (start1 + rest1) + "\n"|, start2)
  {
    hide At;
    var s := before + (text + "\n" + (start1 + rest1) + "\n" + (start2 + rest2)) + after;
    var first, second := before + text + "\n", before + text + "\n" + (start1 + rest1) + "\n";
    assert s == first + (start1 + rest1) + ("\n" + (start2 + rest2) + after);
    assert s == second + (start2 + rest2) + after;
    StandsWithin(first, start1, rest1, "\n" + (start2 + rest2) + after);
    StandsWithin(second, start2, rest2, after);
  }

  lemma StandsWithin(before: string, start: string, rest: string, after: string)
    ensures At(before + (start + rest) + after, |before|, start)
  {
  }
}
