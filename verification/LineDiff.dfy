/**
 The approval preview's line diff (packages/cli/src/commands.ts, `unifiedLineDiff`).

 A diff is a list of lines tagged ' ' (kept), '-' (removed) or '+' (added). The longest common
 subsequence is defined without the table: the largest set of pairs of equal lines that runs
 forward through both files. The diff produced spells both files and keeps that many lines, so
 no diff of the same two files is shorter.
 */
module LineDiff {
  import opened Strings

  const MAX_DIFF_LINES := 2000

  type Lines = seq<string>

  // ----- texts and lines

  /** JavaScript's `text.split("\n")`. */
  function Split(text: string): (lines: Lines)
    ensures lines != []
    ensures Join(lines, "\n") == text
    ensures forall l :: l in lines ==> '\n' !in l
  {
    if text == "" then [""]
    else
      var rest := Split(text[1..]);
      if text[0] == '\n' then [""] + rest
      else [[text[0]] + rest[0]] + rest[1..]
  }

  function LinesOf(text: string): (lines: Lines)
    ensures Join(lines, "\n") == text
  {
    if |text| > 0 then Split(text) else []
  }

  // ----- reading a diff

  predicate Tagged(line: string, tag: char) {
    |line| > 0 && line[0] == tag
  }

  /** The file that the kept lines and the lines tagged `mine` among the first `n` diff lines spell. */
  function Side(diff: Lines, mine: char, n: nat): Lines
    requires n <= |diff|
  {
    if n == 0 then []
    else Side(diff, mine, n - 1) + Picked(diff[n - 1], mine)
  }

  function Picked(line: string, mine: char): Lines {
    if Tagged(line, ' ') || Tagged(line, mine) then [line[1..]] else []
  }

  function OldSide(diff: Lines): Lines {
    Side(diff, '-', |diff|)
  }

  function NewSide(diff: Lines): Lines {
    Side(diff, '+', |diff|)
  }

  function KeptLines(diff: Lines): nat {
    Kept(diff, |diff|)
  }

  function Kept(diff: Lines, n: nat): nat
    requires n <= |diff|
  {
    if n == 0 then 0 else Kept(diff, n - 1) + if Tagged(diff[n - 1], ' ') then 1 else 0
  }

  predicate AllTagged(diff: Lines) {
    forall i :: 0 <= i < |diff| ==> Tagged(diff[i], ' ') || Tagged(diff[i], '-') || Tagged(diff[i], '+')
  }

  /** `diff` turns the lines `a` into the lines `b`. */
  predicate IsDiff(diff: Lines, a: Lines, b: Lines) {
    AllTagged(diff) && OldSide(diff) == a && NewSide(diff) == b
  }

  lemma {:induction false} SideOfPrefix(diff: Lines, mine: char, more: Lines, n: nat)
    requires n <= |diff|
    ensures Side(diff + more, mine, n) == Side(diff, mine, n)
  {
    if n > 0 {
      SideOfPrefix(diff, mine, more, n - 1);
    }
  }

  lemma {:induction false} KeptOfPrefix(diff: Lines, more: Lines, n: nat)
    requires n <= |diff|
    ensures Kept(diff + more, n) == Kept(diff, n)
  {
    if n > 0 {
      KeptOfPrefix(diff, more, n - 1);
    }
  }

  /** What pushing one more line adds to both sides and to the count of kept lines. */
  lemma Push(diff: Lines, tag: char, text: string)
    requires tag in {' ', '-', '+'}
    ensures var d := diff + [[tag] + text];
      && OldSide(d) == OldSide(diff) + (if tag == '+' then [] else [text])
      && NewSide(d) == NewSide(diff) + (if tag == '-' then [] else [text])
      && KeptLines(d) == KeptLines(diff) + (if tag == ' ' then 1 else 0)
      && (AllTagged(diff) ==> AllTagged(d))
  {
    SideOfPrefix(diff, '-', [[tag] + text], |diff|);
    SideOfPrefix(diff, '+', [[tag] + text], |diff|);
    KeptOfPrefix(diff, [[tag] + text], |diff|);
    assert ([tag] + text)[1..] == text;
  }

  // ----- longest common subsequence

  type Pairing = seq<(nat, nat)>

  /** Pairs of equal lines, running strictly forward through both files from `(i, j)` on. */
  predicate Pairs(m: Pairing, a: Lines, i: nat, b: Lines, j: nat) {
    && (forall k :: 0 <= k < |m| ==> i <= m[k].0 < |a| && j <= m[k].1 < |b| && a[m[k].0] == b[m[k].1])
    && (forall k, l :: 0 <= k < l < |m| ==> m[k].0 < m[l].0 && m[k].1 < m[l].1)
  }

  /** `n` is the length of a longest common subsequence of `a` and `b`. */
  ghost predicate IsLcsLength(a: Lines, b: Lines, n: nat) {
    && (exists m :: Pairs(m, a, 0, b, 0) && |m| == n)
    && (forall m :: Pairs(m, a, 0, b, 0) ==> |m| <= n)
  }

  /** The kept lines of a diff are a common subsequence of the two files. */
  lemma {:induction false} KeptLinesPair(diff: Lines, n: nat) returns (m: Pairing)
    requires n <= |diff|
    ensures Pairs(m, Side(diff, '-', n), 0, Side(diff, '+', n), 0) && |m| == Kept(diff, n)
  {
    if n == 0 {
      m := [];
    } else {
      m := KeptLinesPair(diff, n - 1);
      if Tagged(diff[n - 1], ' ') {
        m := m + [(|Side(diff, '-', n - 1)|, |Side(diff, '+', n - 1)|)];
      }
    }
  }

  lemma {:induction false} DiffLength(diff: Lines, n: nat)
    requires n <= |diff| && AllTagged(diff)
    ensures n + Kept(diff, n) == |Side(diff, '-', n)| + |Side(diff, '+', n)|
  {
    if n > 0 {
      DiffLength(diff, n - 1);
    }
  }

  /** A diff is a shortest one exactly when it keeps as many lines as the longest common subsequence has. */
  lemma ShortestIffLongestKept(diff: Lines, a: Lines, b: Lines, n: nat)
    requires IsDiff(diff, a, b) && IsLcsLength(a, b, n)
    ensures KeptLines(diff) == n <==> forall other :: IsDiff(other, a, b) ==> |diff| <= |other|
  {
    DiffLength(diff, |diff|);
    var mine := KeptLinesPair(diff, |diff|);
    forall other | IsDiff(other, a, b)
      ensures |other| == |a| + |b| - KeptLines(other) && KeptLines(other) <= n
    {
      DiffLength(other, |other|);
      var m := KeptLinesPair(other, |other|);
    }
    if forall other :: IsDiff(other, a, b) ==> |diff| <= |other| {
      var m :| Pairs(m, a, 0, b, 0) && |m| == n;
      var best := DiffFromPairs(m, a, 0, b, 0);
      assert a[0..] == a && b[0..] == b;
      assert IsDiff(best, a, b);
    }
  }

  /** Every common subsequence is the kept part of some diff. */
  lemma {:induction false} DiffFromPairs(m: Pairing, a: Lines, i: nat, b: Lines, j: nat) returns (diff: Lines)
    requires i <= |a| && j <= |b| && Pairs(m, a, i, b, j)
    ensures IsDiff(diff, a[i..], b[j..]) && KeptLines(diff) == |m|
    decreases |a| - i + |b| - j
  {
    hide OldSide, NewSide, KeptLines;
    var rest;
    if i == |a| && j == |b| {
      diff := [];
      EmptyDiff();
    } else if i < |a| && (m == [] || m[0].0 > i) {
      rest := DiffFromPairs(m, a, i + 1, b, j);
      diff := [['-'] + a[i]] + rest;
      Unshift(rest, '-', a[i]);
    } else if j < |b| && (m == [] || m[0].1 > j) {
      rest := DiffFromPairs(m, a, i, b, j + 1);
      diff := [['+'] + b[j]] + rest;
      Unshift(rest, '+', b[j]);
    } else {
      assert m != [] && m[0] == (i, j);
      rest := DiffFromPairs(m[1..], a, i + 1, b, j + 1);
      diff := [[' '] + a[i]] + rest;
      Unshift(rest, ' ', a[i]);
    }
  }

  lemma EmptyDiff()
    ensures IsDiff([], [], []) && KeptLines([]) == 0
  {
  }

  lemma {:induction false} ShiftedSide(first: string, rest: Lines, mine: char, n: nat)
    requires n <= |rest|
    ensures Side([first] + rest, mine, n + 1) == Picked(first, mine) + Side(rest, mine, n)
  {
    hide Picked;
    if n > 0 {
      ShiftedSide(first, rest, mine, n - 1);
      assert ([first] + rest)[n] == rest[n - 1];
    }
  }

  lemma {:induction false} ShiftedKept(first: string, rest: Lines, n: nat)
    requires n <= |rest|
    ensures Kept([first] + rest, n + 1) == Kept(rest, n) + if Tagged(first, ' ') then 1 else 0
  {
    if n > 0 {
      ShiftedKept(first, rest, n - 1);
    }
  }

  lemma Unshift(rest: Lines, tag: char, text: string)
    requires tag in {' ', '-', '+'}
    ensures var d := [[tag] + text] + rest;
      && OldSide(d) == (if tag == '+' then [] else [text]) + OldSide(rest)
      && NewSide(d) == (if tag == '-' then [] else [text]) + NewSide(rest)
      && KeptLines(d) == KeptLines(rest) + (if tag == ' ' then 1 else 0)
      && (AllTagged(rest) ==> AllTagged(d))
  {
    ShiftedSide([tag] + text, rest, '-', |rest|);
    ShiftedSide([tag] + text, rest, '+', |rest|);
    ShiftedKept([tag] + text, rest, |rest|);
    TaggedOneMore([tag] + text, rest);
    hide Side, Kept, AllTagged;
    assert ([tag] + text)[1..] == text;
  }

  lemma TaggedOneMore(first: string, rest: Lines)
    requires Tagged(first, ' ') || Tagged(first, '-') || Tagged(first, '+')
    ensures AllTagged(rest) ==> AllTagged([first] + rest)
  {
  }

  // ----- the table

  type Grid = seq<seq<int>>

  function Max(x: int, y: int): int {
    if x >= y then x else y
  }

  predicate HasShape(t: Grid, rows: nat, cols: nat) {
    |t| == rows && forall i :: 0 <= i < rows ==> |t[i]| == cols
  }

  predicate Obeys(t: Grid, a: Lines, i: nat, b: Lines, j: nat)
    requires HasShape(t, |a| + 1, |b| + 1) && i < |a| && j < |b|
  {
    t[i][j] == if a[i] == b[j] then t[i + 1][j + 1] + 1 else Max(t[i + 1][j], t[i][j + 1])
  }

  /** A table with a zero border that obeys the recurrence from row `i` down, and in row `i - 1` from column `j` on. */
  ghost predicate IsTableFrom(t: Grid, a: Lines, i: nat, b: Lines, j: nat) {
    && HasShape(t, |a| + 1, |b| + 1)
    && (forall k :: 0 <= k <= |a| ==> t[k][|b|] == 0)
    && (forall l :: 0 <= l <= |b| ==> t[|a|][l] == 0)
    && (forall k, l :: 0 <= k < |a| && 0 <= l < |b| && (i <= k || (i == k + 1 && j <= l)) ==> Obeys(t, a, k, b, l))
  }

  ghost predicate IsTable(t: Grid, a: Lines, b: Lines) {
    IsTableFrom(t, a, 0, b, 0)
  }

  lemma SetCell(t: Grid, a: Lines, i: nat, b: Lines, j: nat)
    requires i < |a| && j < |b| && IsTableFrom(t, a, i + 1, b, j + 1)
    ensures var v := if a[i] == b[j] then t[i + 1][j + 1] + 1 else Max(t[i + 1][j], t[i][j + 1]);
      IsTableFrom(t[i := t[i][j := v]], a, i + 1, b, j)
  {
    var v := if a[i] == b[j] then t[i + 1][j + 1] + 1 else Max(t[i + 1][j], t[i][j + 1]);
    var t' := t[i := t[i][j := v]];
    forall k, l | 0 <= k < |a| && 0 <= l < |b| && (i + 1 <= k || (i == k && j <= l))
      ensures Obeys(t', a, k, b, l)
    {
      assert (k, l) != (i, j) ==> Obeys(t, a, k, b, l);
    }
  }

  /** No common subsequence of two tails is longer than their cell says. */
  lemma {:induction false} NoLongerPairing(t: Grid, a: Lines, i: nat, b: Lines, j: nat, m: Pairing)
    requires IsTable(t, a, b) && i <= |a| && j <= |b| && Pairs(m, a, i, b, j)
    ensures |m| <= t[i][j]
    decreases |a| - i + |b| - j
  {
    if m == [] {
      CellsFit(t, a, i, b, j);
    } else {
      assert i <= m[0].0 < |a| && j <= m[0].1 < |b|;
      assert Obeys(t, a, i, b, j);
      if a[i] == b[j] {
        NoLongerPairing(t, a, i + 1, b, j + 1, m[1..]);
      } else if m[0].0 > i {
        NoLongerPairing(t, a, i + 1, b, j, m);
      } else {
        NoLongerPairing(t, a, i, b, j + 1, m);
      }
    }
  }

  /** The cells never exceed the shorter tail, so 32-bit entries cannot wrap within the size cap. */
  lemma {:induction false} CellsFit(t: Grid, a: Lines, i: nat, b: Lines, j: nat)
    requires IsTable(t, a, b) && i <= |a| && j <= |b|
    ensures 0 <= t[i][j] <= |a| - i && t[i][j] <= |b| - j
    decreases |a| - i + |b| - j
  {
    if i < |a| && j < |b| {
      assert Obeys(t, a, i, b, j);
      CellsFit(t, a, i + 1, b, j + 1);
      CellsFit(t, a, i + 1, b, j);
      CellsFit(t, a, i, b, j + 1);
    }
  }

  /** Some common subsequence of two tails is as long as their cell says. */
  lemma {:induction false} LongestPairing(t: Grid, a: Lines, i: nat, b: Lines, j: nat) returns (m: Pairing)
    requires IsTable(t, a, b) && i <= |a| && j <= |b|
    ensures Pairs(m, a, i, b, j) && |m| == t[i][j]
    decreases |a| - i + |b| - j
  {
    m := [];
    if i < |a| && j < |b| {
      assert Obeys(t, a, i, b, j);
      if a[i] == b[j] {
        var rest := LongestPairing(t, a, i + 1, b, j + 1);
        m := [(i, j)] + rest;
      } else if t[i + 1][j] >= t[i][j + 1] {
        m := LongestPairing(t, a, i + 1, b, j);
      } else {
        m := LongestPairing(t, a, i, b, j + 1);
      }
    }
  }

  /** Giving up a new line never lengthens what the tails have in common. */
  lemma LessInCommon(t: Grid, a: Lines, i: nat, b: Lines, j: nat)
    requires IsTable(t, a, b) && i <= |a| && j < |b|
    ensures t[i][j + 1] <= t[i][j]
  {
    var m := LongestPairing(t, a, i, b, j + 1);
    NoLongerPairing(t, a, i, b, j, m);
  }

  lemma EmptyTable(a: Lines, b: Lines)
    ensures IsTableFrom(seq(|a| + 1, _ => seq(|b| + 1, _ => 0)), a, |a|, b, |b|)
  {
  }

  lemma RowDone(t: Grid, a: Lines, i: nat, b: Lines)
    requires IsTableFrom(t, a, i + 1, b, 0)
    ensures IsTableFrom(t, a, i, b, |b|)
  {
  }

  /** Fills the table from the bottom right corner; `t` is its final content. */
  method FillTable(a: Lines, b: Lines) returns (lcs: array2<int>, ghost t: Grid)
    ensures fresh(lcs) && lcs.Length0 == |a| + 1 && lcs.Length1 == |b| + 1
    ensures IsTable(t, a, b)
    ensures forall i, j :: 0 <= i <= |a| && 0 <= j <= |b| ==> lcs[i, j] == t[i][j]
  {
    hide IsTableFrom;
    var rows, cols := |a|, |b|;
    lcs := new int[rows + 1, cols + 1]((_, _) => 0);
    t := seq(rows + 1, _ => seq(cols + 1, _ => 0));
    EmptyTable(a, b);
    var i := rows;
    while i > 0
      invariant 0 <= i <= rows && IsTableFrom(t, a, i, b, cols) && HasShape(t, rows + 1, cols + 1)
      invariant forall k, l :: 0 <= k <= rows && 0 <= l <= cols ==> lcs[k, l] == t[k][l]
    {
      i := i - 1;
      var j := cols;
      while j > 0
        invariant 0 <= j <= cols && IsTableFrom(t, a, i + 1, b, j) && HasShape(t, rows + 1, cols + 1)
        invariant forall k, l :: 0 <= k <= rows && 0 <= l <= cols ==> lcs[k, l] == t[k][l]
      {
        j := j - 1;
        SetCell(t, a, i, b, j);
        lcs[i, j] := if a[i] == b[j] then lcs[i + 1, j + 1] + 1 else Max(lcs[i + 1, j], lcs[i, j + 1]);
        t := t[i := t[i][j := lcs[i, j]]];
      }
      RowDone(t, a, i, b);
    }
    TableDone(t, a, b);
  }

  lemma TableDone(t: Grid, a: Lines, b: Lines)
    requires IsTableFrom(t, a, 0, b, |b|)
    ensures IsTable(t, a, b)
  {
  }

  // ----- the diff

  /** So far the diff spells the first `i` old and the first `j` new lines, keeping `kept` of them. */
  ghost predicate Spelled(out: Lines, a: Lines, i: nat, b: Lines, j: nat, kept: int)
    requires i <= |a| && j <= |b|
  {
    IsDiff(out, a[..i], b[..j]) && KeptLines(out) == kept
  }

  /** One tagged line more moves the diff past one old line, one new line, or one of each. */
  lemma Advance(out: Lines, a: Lines, i: nat, b: Lines, j: nat, kept: int, tag: char, text: string)
    requires i <= |a| && j <= |b| && Spelled(out, a, i, b, j, kept) && tag in {' ', '-', '+'}
    requires tag != '+' ==> i < |a| && text == a[i]
    requires tag != '-' ==> j < |b| && text == b[j]
    ensures Spelled(out + [[tag] + text], a, if tag == '+' then i else i + 1, b, if tag == '-' then j else j + 1,
                    if tag == ' ' then kept + 1 else kept)
  {
    hide OldSide, NewSide, KeptLines;
    Push(out, tag, text);
    assert tag != '+' ==> a[..i + 1] == a[..i] + [a[i]];
    assert tag != '-' ==> b[..j + 1] == b[..j] + [b[j]];
  }

  /** Within a block of changes the removed lines come before the added ones. */
  predicate RemovalsFirst(out: Lines) {
    forall k :: 0 <= k < |out| - 1 ==> !(Tagged(out[k], '+') && Tagged(out[k + 1], '-'))
  }

  /** The walk will not remove an old line at `(i, j)`. */
  ghost predicate NoRemovalAt(t: Grid, a: Lines, i: nat, b: Lines, j: nat)
    requires HasShape(t, |a| + 1, |b| + 1) && i <= |a| && j <= |b|
  {
    i < |a| ==> j < |b| && (a[i] == b[j] || t[i + 1][j] < t[i][j + 1])
  }

  /** After adding a new line the walk never goes on to remove an old one. */
  lemma NoRemovalAfterAddition(t: Grid, a: Lines, i: nat, b: Lines, j: nat)
    requires IsTable(t, a, b) && i < |a| && j < |b|
    requires a[i] != b[j] && t[i + 1][j] < t[i][j + 1]
    ensures NoRemovalAt(t, a, i, b, j + 1)
  {
    LessInCommon(t, a, i + 1, b, j);
    CellsFit(t, a, i + 1, b, j);
    if j + 1 < |b| {
      assert Obeys(t, a, i, b, j + 1);
    }
  }

  lemma Pushed(out: Lines, tag: char, text: string)
    requires RemovalsFirst(out) && (EndsInAddition(out) ==> tag != '-')
    ensures RemovalsFirst(out + [[tag] + text]) && (EndsInAddition(out + [[tag] + text]) ==> tag == '+')
  {
  }

  predicate EndsInAddition(out: Lines) {
    out != [] && Tagged(out[|out| - 1], '+')
  }

  lemma NothingSpelled(a: Lines, b: Lines)
    ensures Spelled([], a, 0, b, 0, 0) && RemovalsFirst([]) && !EndsInAddition([])
  {
    assert a[..0] == [] && b[..0] == [];
  }

  lemma AllSpelled(t: Grid, a: Lines, b: Lines, out: Lines)
    requires IsTable(t, a, b) && Spelled(out, a, |a|, b, |b|, t[0][0])
    ensures IsDiff(out, a, b) && IsLcsLength(a, b, KeptLines(out))
  {
    assert a[..|a|] == a && b[..|b|] == b;
    KeepsLongest(t, a, b, out);
  }

  lemma NothingInCommonAtEdge(t: Grid, a: Lines, i: nat, b: Lines, j: nat)
    requires IsTable(t, a, b) && i <= |a| && j <= |b| && (i == |a| || j == |b|)
    ensures t[i][j] == 0
  {
  }

  /** Walks the table from the top left corner, preferring removals on ties. */
  method Walk(a: Lines, b: Lines) returns (out: Lines)
    ensures IsDiff(out, a, b)
    ensures IsLcsLength(a, b, KeptLines(out))
    ensures RemovalsFirst(out)
  {
    hide Spelled, RemovalsFirst, EndsInAddition, IsDiff, IsLcsLength, KeptLines;
    var rows, cols := |a|, |b|;
    var lcs, t := FillTable(a, b);
    out := [];
    NothingSpelled(a, b);
    var i, j := 0, 0;
    while i < rows && j < cols
      invariant 0 <= i <= rows && 0 <= j <= cols
      invariant forall k, l :: 0 <= k <= rows && 0 <= l <= cols ==> lcs[k, l] == t[k][l]
      invariant Spelled(out, a, i, b, j, t[0][0] - t[i][j])
      invariant RemovalsFirst(out) && (EndsInAddition(out) ==> NoRemovalAt(t, a, i, b, j))
    {
      ghost var kept := t[0][0] - t[i][j];
      assert Obeys(t, a, i, b, j);
      if a[i] == b[j] {
        Advance(out, a, i, b, j, kept, ' ', a[i]);
        Pushed(out, ' ', a[i]);
        out := out + [" " + a[i]];
        i, j := i + 1, j + 1;
      } else if lcs[i + 1, j] >= lcs[i, j + 1] {
        Advance(out, a, i, b, j, kept, '-', a[i]);
        Pushed(out, '-', a[i]);
        out := out + ["-" + a[i]];
        i := i + 1;
      } else {
        Advance(out, a, i, b, j, kept, '+', b[j]);
        Pushed(out, '+', b[j]);
        NoRemovalAfterAddition(t, a, i, b, j);
        out := out + ["+" + b[j]];
        j := j + 1;
      }
    }
    NothingInCommonAtEdge(t, a, i, b, j);
    while i < rows
      invariant 0 <= i <= rows && 0 <= j <= cols && (i == rows || j == cols)
      invariant RemovalsFirst(out) && (EndsInAddition(out) ==> i == rows)
      invariant Spelled(out, a, i, b, j, t[0][0])
    {
      Advance(out, a, i, b, j, t[0][0], '-', a[i]);
      Pushed(out, '-', a[i]);
      out := out + ["-" + a[i]];
      i := i + 1;
    }
    while j < cols
      invariant i == rows && 0 <= j <= cols && RemovalsFirst(out)
      invariant Spelled(out, a, i, b, j, t[0][0])
    {
      Advance(out, a, i, b, j, t[0][0], '+', b[j]);
      Pushed(out, '+', b[j]);
      out := out + ["+" + b[j]];
      j := j + 1;
    }
    AllSpelled(t, a, b, out);
  }

  lemma KeepsLongest(t: Grid, a: Lines, b: Lines, out: Lines)
    requires IsTable(t, a, b) && IsDiff(out, a, b) && KeptLines(out) == t[0][0]
    ensures IsLcsLength(a, b, t[0][0])
  {
    var m := KeptLinesPair(out, |out|);
    forall other | Pairs(other, a, 0, b, 0)
      ensures |other| <= t[0][0]
    {
      NoLongerPairing(t, a, 0, b, 0, other);
    }
  }

  datatype Preview =
    | NoChange
    | Omitted(oldCount: nat, newCount: nat)
    | Hunk(oldCount: nat, newCount: nat, lines: Lines)

  /** Equal texts, oversized texts, or one hunk that spells both texts and is as short as any diff of them. */
  method UnifiedLineDiff(oldText: string, newText: string) returns (p: Preview)
    ensures p.NoChange? <==> oldText == newText
    ensures p.Omitted? <==>
      (oldText != newText && (|LinesOf(oldText)| > MAX_DIFF_LINES || |LinesOf(newText)| > MAX_DIFF_LINES))
    ensures !p.NoChange? ==> p.oldCount == |LinesOf(oldText)| && p.newCount == |LinesOf(newText)|
    ensures p.Hunk? ==>
      && IsDiff(p.lines, LinesOf(oldText), LinesOf(newText))
      && Join(OldSide(p.lines), "\n") == oldText
      && Join(NewSide(p.lines), "\n") == newText
      && RemovalsFirst(p.lines)
      && forall other :: IsDiff(other, LinesOf(oldText), LinesOf(newText)) ==> |p.lines| <= |other|
  {
    if oldText == newText {
      return NoChange;
    }
    var oldLines := LinesOf(oldText);
    var newLines := LinesOf(newText);
    if |oldLines| > MAX_DIFF_LINES || |newLines| > MAX_DIFF_LINES {
      return Omitted(|oldLines|, |newLines|);
    }
    var lines := Walk(oldLines, newLines);
    ShortestIffLongestKept(lines, oldLines, newLines, KeptLines(lines));
    p := Hunk(|oldLines|, |newLines|, lines);
  }
}
