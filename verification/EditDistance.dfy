/**
 "Did you mean" suggestions for mistyped flags (packages/cli/src/args.ts).

 The distance is defined without the recurrence: the cheapest way to align one string with the
 other by keeping, substituting, inserting, deleting or swapping neighbouring characters, each
 character being touched once (Optimal String Alignment). Any table that obeys the recurrence
 holds exactly these minima, and the table-filling method builds such a table.
 */
module EditDistance {
  import opened Options

  /** A way to turn one string into another, as the edits made from left to right. */
  datatype Alignment =
    | Start
    | Keep(front: Alignment)
    | Substitute(front: Alignment)
    | Insert(front: Alignment)
    | Delete(front: Alignment)
    | Swap(front: Alignment)

  /** `al` turns `a[..i]` into `b[..j]`. */
  predicate Aligns(al: Alignment, a: string, i: nat, b: string, j: nat)
    requires i <= |a| && j <= |b|
  {
    match al
    case Start => i == 0 && j == 0
    case Keep(front) => i > 0 && j > 0 && a[i - 1] == b[j - 1] && Aligns(front, a, i - 1, b, j - 1)
    case Substitute(front) => i > 0 && j > 0 && Aligns(front, a, i - 1, b, j - 1)
    case Insert(front) => j > 0 && Aligns(front, a, i, b, j - 1)
    case Delete(front) => i > 0 && Aligns(front, a, i - 1, b, j)
    case Swap(front) => EndsSwapped(a, i, b, j) && Aligns(front, a, i - 2, b, j - 2)
  }

  /** The last two characters of `a[..i]` are those of `b[..j]` the other way round. */
  predicate EndsSwapped(a: string, i: nat, b: string, j: nat)
    requires i <= |a| && j <= |b|
  {
    i > 1 && j > 1 && a[i - 1] == b[j - 2] && a[i - 2] == b[j - 1]
  }

  function Cost(al: Alignment): nat {
    match al
    case Start => 0
    case Keep(front) => Cost(front)
    case Substitute(front) => Cost(front) + 1
    case Insert(front) => Cost(front) + 1
    case Delete(front) => Cost(front) + 1
    case Swap(front) => Cost(front) + 1
  }

  /** `d` is the cost of a cheapest way to turn `a` into `b`. */
  ghost predicate IsDistance(a: string, b: string, d: nat) {
    && (exists al :: Aligns(al, a, |a|, b, |b|) && Cost(al) == d)
    && (forall al :: Aligns(al, a, |a|, b, |b|) ==> d <= Cost(al))
  }

  // ----- the recurrence

  type Grid = seq<seq<nat>>

  predicate HasShape(t: Grid, cols: nat) {
    forall i :: 0 <= i < |t| ==> |t[i]| == cols
  }

  function Min(x: nat, y: nat): nat {
    if x <= y then x else y
  }

  /** The recurrence: the value of a cell from the cells one step (`both`, `up`, `left`) and two steps back. */
  function Cell(a: string, i: nat, b: string, j: nat, both: nat, up: nat, left: nat, back: nat): nat
    requires 1 <= i <= |a| && 1 <= j <= |b|
  {
    var best := Min(both + if a[i - 1] == b[j - 1] then 0 else 1, Min(up + 1, left + 1));
    if EndsSwapped(a, i, b, j) then Min(best, back + 1) else best
  }

  /** What row `i`, column `j` must hold, given the rows above it and the cell to its left. */
  function NextCell(a: string, b: string, above: Grid, i: nat, j: nat, left: nat): nat
    requires i <= |above| && HasShape(above, |b| + 1) && 1 <= i <= |a| && 1 <= j <= |b|
  {
    Cell(a, i, b, j, above[i - 1][j - 1], above[i - 1][j], left, if i > 1 && j > 1 then above[i - 2][j - 2] else 0)
  }

  predicate Obeys(a: string, b: string, t: Grid, i: nat, j: nat)
    requires HasShape(t, |b| + 1) && 1 <= i < |t| <= |a| + 1 && 1 <= j <= |b|
  {
    t[i][j] == NextCell(a, b, t, i, j, t[i][j - 1])
  }

  /** `t` is the top of a table: border row and column 0, 1, 2, ... and the recurrence everywhere else. */
  ghost predicate IsTable(a: string, b: string, t: Grid) {
    && HasShape(t, |b| + 1) && 1 <= |t| <= |a| + 1
    && (forall i :: 0 <= i < |t| ==> t[i][0] == i)
    && (forall j :: 0 <= j <= |b| ==> t[0][j] == j)
    && (forall i, j :: 1 <= i < |t| && 1 <= j <= |b| ==> Obeys(a, b, t, i, j))
  }

  lemma FirstRow(a: string, b: string)
    ensures IsTable(a, b, [seq(|b| + 1, j => j)])
  {
  }

  lemma AddRow(a: string, b: string, t: Grid, row: seq<nat>)
    requires IsTable(a, b, t) && |t| <= |a|
    requires |row| == |b| + 1 && row[0] == |t|
    requires forall j :: 1 <= j <= |b| ==> row[j] == NextCell(a, b, t, |t|, j, row[j - 1])
    ensures IsTable(a, b, t + [row])
  {
    var t' := t + [row];
    forall i, j | 1 <= i < |t'| && 1 <= j <= |b|
      ensures Obeys(a, b, t', i, j)
    {
      assert i < |t| ==> Obeys(a, b, t, i, j);
    }
  }

  /** No alignment of two prefixes is cheaper than their cell says. */
  lemma {:induction false} NoCheaperAlignment(a: string, b: string, t: Grid, i: nat, j: nat, al: Alignment)
    requires IsTable(a, b, t) && i < |t| && j <= |b|
    requires Aligns(al, a, i, b, j)
    ensures t[i][j] <= Cost(al)
  {
    assert i > 0 && j > 0 ==> Obeys(a, b, t, i, j);
    match al {
      case Start =>
      case Keep(front) => NoCheaperAlignment(a, b, t, i - 1, j - 1, front);
      case Substitute(front) => NoCheaperAlignment(a, b, t, i - 1, j - 1, front);
      case Insert(front) => NoCheaperAlignment(a, b, t, i, j - 1, front);
      case Delete(front) => NoCheaperAlignment(a, b, t, i - 1, j, front);
      case Swap(front) => NoCheaperAlignment(a, b, t, i - 2, j - 2, front);
    }
  }

  /** Some alignment of two prefixes costs exactly what their cell says. */
  lemma {:induction false} CheapestAlignment(a: string, b: string, t: Grid, i: nat, j: nat) returns (al: Alignment)
    requires IsTable(a, b, t) && i < |t| && j <= |b|
    ensures Aligns(al, a, i, b, j) && Cost(al) == t[i][j]
    decreases i + j
  {
    assert i > 0 && j > 0 ==> Obeys(a, b, t, i, j);
    if i == 0 && j == 0 {
      al := Start;
    } else if i == 0 || (j > 0 && t[i][j] == t[i][j - 1] + 1) {
      var front := CheapestAlignment(a, b, t, i, j - 1);
      al := Insert(front);
    } else if j == 0 || t[i][j] == t[i - 1][j] + 1 {
      var front := CheapestAlignment(a, b, t, i - 1, j);
      al := Delete(front);
    } else if EndsSwapped(a, i, b, j) && t[i][j] == t[i - 2][j - 2] + 1 {
      var front := CheapestAlignment(a, b, t, i - 2, j - 2);
      al := Swap(front);
    } else {
      var front := CheapestAlignment(a, b, t, i - 1, j - 1);
      al := if a[i - 1] == b[j - 1] then Keep(front) else Substitute(front);
    }
  }

  /** The recurrence computes cheapest alignments: its last cell is the distance. */
  lemma TableGivesDistance(a: string, b: string, t: Grid)
    requires IsTable(a, b, t) && |t| == |a| + 1
    ensures t[|a|][|b|] == Distance(a, b)
  {
    var best := CheapestAlignment(a, b, t, |a|, |b|);
    forall al | Aligns(al, a, |a|, b, |b|)
      ensures t[|a|][|b|] <= Cost(al)
    {
      NoCheaperAlignment(a, b, t, |a|, |b|, al);
    }
    DistanceIsUnique(a, b, t[|a|][|b|]);
  }

  /** Fills the table row by row, as the source does. */
  method Compute(a: string, b: string) returns (d: nat)
    ensures d == Distance(a, b)
  {
    hide IsDistance, IsTable;
    var rows, cols := |a| + 1, |b| + 1;
    var dp := new nat[rows, cols]((_, _) => 0);
    for i := 0 to rows
      invariant forall k :: 0 <= k < i ==> dp[k, 0] == k
    {
      dp[i, 0] := i;
    }
    for j := 0 to cols
      invariant forall k :: 0 <= k < rows ==> dp[k, 0] == k
      invariant forall k :: 0 <= k < j ==> dp[0, k] == k
    {
      dp[0, j] := j;
    }
    ghost var t: Grid := [seq(cols, j => j)];  // the rows filled so far
    FirstRow(a, b);
    for i := 1 to rows
      invariant |t| == i && HasShape(t, cols)
      invariant forall k, l :: 0 <= k < i && 0 <= l < cols ==> dp[k, l] == t[k][l]
      invariant forall k :: 0 <= k < rows ==> dp[k, 0] == k
      invariant IsTable(a, b, t)
    {
      ghost var row: seq<nat> := [i];
      for j := 1 to cols
        invariant |row| == j && row[0] == i
        invariant forall k, l :: 0 <= k < i && 0 <= l < cols ==> dp[k, l] == t[k][l]
        invariant forall k :: 0 <= k < rows ==> dp[k, 0] == k
        invariant forall l :: 0 <= l < j ==> dp[i, l] == row[l]
        invariant forall l :: 1 <= l < j ==> row[l] == NextCell(a, b, t, i, l, row[l - 1])
      {
        var cost := if a[i - 1] == b[j - 1] then 0 else 1;
        var best := Min(dp[i - 1, j - 1] + cost, Min(dp[i - 1, j] + 1, dp[i, j - 1] + 1));
        if i > 1 && j > 1 && a[i - 1] == b[j - 2] && a[i - 2] == b[j - 1] {
          best := Min(best, dp[i - 2, j - 2] + 1);
        }
        dp[i, j] := best;
        row := row + [best];
      }
      AddRow(a, b, t, row);
      t := t + [row];
    }
    d := dp[rows - 1, cols - 1];
    TableGivesDistance(a, b, t);
  }

  // ----- the distance as a function, and what follows from its definition

  /** Turning `a[..i]` into `b[..j]` by substituting what overlaps and deleting or inserting the rest. */
  lemma {:induction false} PlainAlignment(a: string, i: nat, b: string, j: nat) returns (al: Alignment)
    requires i <= |a| && j <= |b|
    ensures Aligns(al, a, i, b, j) && Cost(al) <= if i <= j then j else i
    decreases i + j
  {
    if i == 0 && j == 0 {
      al := Start;
    } else if i == 0 {
      var front := PlainAlignment(a, i, b, j - 1);
      al := Insert(front);
    } else if j == 0 {
      var front := PlainAlignment(a, i - 1, b, j);
      al := Delete(front);
    } else {
      var front := PlainAlignment(a, i - 1, b, j - 1);
      al := Substitute(front);
    }
  }

  lemma {:induction false} CheapestAtMost(a: string, b: string, al: Alignment) returns (d: nat)
    requires Aligns(al, a, |a|, b, |b|)
    ensures d <= Cost(al) && IsDistance(a, b, d)
    decreases Cost(al)
  {
    if cheaper :| Aligns(cheaper, a, |a|, b, |b|) && Cost(cheaper) < Cost(al) {
      d := CheapestAtMost(a, b, cheaper);
    } else {
      d := Cost(al);
    }
  }

  lemma DistanceExists(a: string, b: string)
    ensures exists d: nat :: IsDistance(a, b, d) && d <= if |a| <= |b| then |b| else |a|
  {
    var al := PlainAlignment(a, |a|, b, |b|);
    var d := CheapestAtMost(a, b, al);
  }

  lemma DistanceIsUnique(a: string, b: string, d: nat)
    requires IsDistance(a, b, d)
    ensures d == Distance(a, b)
  {
    assert IsDistance(a, b, Distance(a, b));
  }

  ghost function Distance(a: string, b: string): (d: nat)
    ensures IsDistance(a, b, d)
  {
    DistanceExists(a, b);
    var d: nat :| IsDistance(a, b, d);
    d
  }

  function Inverse(al: Alignment): Alignment {
    match al
    case Start => Start
    case Keep(front) => Keep(Inverse(front))
    case Substitute(front) => Substitute(Inverse(front))
    case Insert(front) => Delete(Inverse(front))
    case Delete(front) => Insert(Inverse(front))
    case Swap(front) => Swap(Inverse(front))
  }

  lemma {:induction false} InverseAligns(al: Alignment, a: string, i: nat, b: string, j: nat)
    requires i <= |a| && j <= |b| && Aligns(al, a, i, b, j)
    ensures Aligns(Inverse(al), b, j, a, i) && Cost(Inverse(al)) == Cost(al)
  {
    match al {
      case Start =>
      case Keep(front) => InverseAligns(front, a, i - 1, b, j - 1);
      case Substitute(front) => InverseAligns(front, a, i - 1, b, j - 1);
      case Insert(front) => InverseAligns(front, a, i, b, j - 1);
      case Delete(front) => InverseAligns(front, a, i - 1, b, j);
      case Swap(front) => InverseAligns(front, a, i - 2, b, j - 2);
    }
  }

  lemma NoFartherBack(a: string, b: string)
    ensures Distance(b, a) <= Distance(a, b)
  {
    assert IsDistance(a, b, Distance(a, b)) && IsDistance(b, a, Distance(b, a));
    var al :| Aligns(al, a, |a|, b, |b|) && Cost(al) == Distance(a, b);
    InverseAligns(al, a, |a|, b, |b|);
  }

  lemma Symmetric(a: string, b: string)
    ensures Distance(a, b) == Distance(b, a)
  {
    NoFartherBack(a, b);
    NoFartherBack(b, a);
  }

  lemma {:induction false} FreeAlignmentKeepsAll(al: Alignment, a: string, i: nat, b: string, j: nat)
    requires i <= |a| && j <= |b| && Aligns(al, a, i, b, j) && Cost(al) == 0
    ensures i == j && forall k :: 0 <= k < i ==> a[k] == b[k]
  {
    if al.Keep? {
      FreeAlignmentKeepsAll(al.front, a, i - 1, b, j - 1);
    }
  }

  lemma {:induction false} SelfAlignment(a: string, i: nat) returns (al: Alignment)
    requires i <= |a|
    ensures Aligns(al, a, i, a, i) && Cost(al) == 0
  {
    if i == 0 {
      al := Start;
    } else {
      var front := SelfAlignment(a, i - 1);
      al := Keep(front);
    }
  }

  lemma ZeroExactlyWhenEqual(a: string, b: string)
    ensures Distance(a, b) == 0 <==> a == b
  {
    assert IsDistance(a, b, Distance(a, b));
    if Distance(a, b) == 0 {
      var al :| Aligns(al, a, |a|, b, |b|) && Cost(al) == 0;
      FreeAlignmentKeepsAll(al, a, |a|, b, |b|);
    }
    if a == b {
      var al := SelfAlignment(a, |a|);
    }
  }

  lemma {:induction false} CostCoversLengthGap(al: Alignment, a: string, i: nat, b: string, j: nat)
    requires i <= |a| && j <= |b| && Aligns(al, a, i, b, j)
    ensures i - j <= Cost(al) && j - i <= Cost(al)
  {
    match al {
      case Start =>
      case Keep(front) => CostCoversLengthGap(front, a, i - 1, b, j - 1);
      case Substitute(front) => CostCoversLengthGap(front, a, i - 1, b, j - 1);
      case Insert(front) => CostCoversLengthGap(front, a, i, b, j - 1);
      case Delete(front) => CostCoversLengthGap(front, a, i - 1, b, j);
      case Swap(front) => CostCoversLengthGap(front, a, i - 2, b, j - 2);
    }
  }

  lemma BetweenLengthGapAndLongerLength(a: string, b: string)
    ensures |a| - |b| <= Distance(a, b) && |b| - |a| <= Distance(a, b)
    ensures Distance(a, b) <= if |a| <= |b| then |b| else |a|
  {
    assert IsDistance(a, b, Distance(a, b));
    var al :| Aligns(al, a, |a|, b, |b|) && Cost(al) == Distance(a, b);
    CostCoversLengthGap(al, a, |a|, b, |b|);
    var plain := PlainAlignment(a, |a|, b, |b|);
  }

  // ----- single typing errors

  /** A prefix and a common ending cost nothing to keep. */
  lemma {:induction false} KeepEnding(al: Alignment, a: string, b: string, t: string, n: nat)
      returns (longer: Alignment)
    requires n <= |t| && Aligns(al, a, |a|, b, |b|)
    ensures Aligns(longer, a + t, |a| + n, b + t, |b| + n) && Cost(longer) == Cost(al)
  {
    if n == 0 {
      longer := al;
      InLonger(al, a, |a|, b, |b|, t, t);
    } else {
      var front := KeepEnding(al, a, b, t, n - 1);
      longer := Keep(front);
    }
  }

  lemma OneEditIsNear(al: Alignment, a: string, b: string, t: string)
    requires Aligns(al, a, |a|, b, |b|) && Cost(al) == 1
    ensures Distance(a + t, b + t) <= 1
  {
    var longer := KeepEnding(al, a, b, t, |t|);
    assert IsDistance(a + t, b + t, Distance(a + t, b + t));
    assert |a + t| == |a| + |t| && |b + t| == |b| + |t|;
  }

  /**
   Two neighbouring characters the wrong way round, or one wrong, missing or extra character, are at most
   one edit.
   */
  lemma TypingErrorsAreOneEdit(s: string, x: char, y: char, t: string)
    ensures Distance(s + [x, y] + t, s + [y, x] + t) <= 1
    ensures Distance(s + [x] + t, s + [y] + t) <= 1
    ensures Distance(s + [x] + t, s + t) <= 1 && Distance(s + t, s + [x] + t) <= 1
  {
    hide IsDistance;
    var same := SelfAlignment(s, |s|);
    InLonger(same, s, |s|, s, |s|, [x, y], [y, x]);
    InLonger(same, s, |s|, s, |s|, [x], [y]);
    InLonger(same, s, |s|, s, |s|, [x], []);
    InLonger(same, s, |s|, s, |s|, [], [x]);
    assert s + [] == s;
    OneEditIsNear(Swap(same), s + [x, y], s + [y, x], t);
    OneEditIsNear(Substitute(same), s + [x], s + [y], t);
    OneEditIsNear(Delete(same), s + [x], s, t);
    OneEditIsNear(Insert(same), s, s + [x], t);
  }

  lemma {:induction false} InLonger(al: Alignment, a: string, i: nat, b: string, j: nat, u: string, v: string)
    requires i <= |a| && j <= |b| && Aligns(al, a, i, b, j)
    ensures Aligns(al, a + u, i, b + v, j)
  {
    match al {
      case Start =>
      case Keep(front) => InLonger(front, a, i - 1, b, j - 1, u, v);
      case Substitute(front) => InLonger(front, a, i - 1, b, j - 1, u, v);
      case Insert(front) => InLonger(front, a, i, b, j - 1, u, v);
      case Delete(front) => InLonger(front, a, i - 1, b, j, u, v);
      case Swap(front) => InLonger(front, a, i - 2, b, j - 2, u, v);
    }
  }

  // ----- the suggestion

  ghost function Distances(name: string, candidates: seq<string>): (ds: seq<nat>)
    ensures |ds| == |candidates|
    ensures forall i :: 0 <= i < |candidates| ==> ds[i] == Distance(name, candidates[i])
  {
    if candidates == [] then [] else [Distance(name, candidates[0])] + Distances(name, candidates[1..])
  }

  /** The candidates among the first `n` that are exactly `d` away, in order. */
  ghost function Ties(candidates: seq<string>, ds: seq<nat>, n: nat, d: nat): (ties: seq<string>)
    requires n <= |candidates| == |ds|
    ensures ties == [] <==> forall i :: 0 <= i < n ==> ds[i] != d
  {
    if n == 0 then []
    else Ties(candidates, ds, n - 1, d) + if ds[n - 1] == d then [candidates[n - 1]] else []
  }

  /** `d` is the distance of the nearest of the first `n` candidates. */
  ghost predicate IsMinimum(ds: seq<nat>, n: nat, d: nat)
    requires n <= |ds|
  {
    (exists i :: 0 <= i < n && ds[i] == d) && forall i :: 0 <= i < n ==> d <= ds[i]
  }

  /** The rule for equally near candidates: the first one as long as the typo, else simply the first. */
  ghost predicate Picked(ties: seq<string>, length: nat, c: string) {
    exists t :: 0 <= t < |ties| && ties[t] == c
      && if |c| == length then forall u :: 0 <= u < t ==> |ties[u]| != length
         else t == 0 && forall u :: 0 <= u < |ties| ==> |ties[u]| != length
  }

  /** A guess is made exactly when the nearest candidate is one or two edits away, and is the one the rule picks. */
  ghost predicate Suggested(name: string, candidates: seq<string>, ds: seq<nat>, guess: Option<string>)
    requires |ds| == |candidates|
  {
    exists d: nat :: IsMinimum(ds, |ds|, d)
      && (guess.Some? <==> 1 <= d <= 2)
      && (guess.Some? ==> Picked(Ties(candidates, ds, |ds|, d), |name|, guess.value))
  }

  /** What the search knows after the first `n` candidates. */
  ghost predicate Searched(candidates: seq<string>, ds: seq<nat>, n: nat, bestDist: Option<nat>, ties: seq<string>)
    requires n <= |candidates| == |ds|
  {
    match bestDist
    case None => n == 0 && ties == []
    case Some(d) => IsMinimum(ds, n, d) && ties == Ties(candidates, ds, n, d)
  }

  lemma Closer(candidates: seq<string>, ds: seq<nat>, n: nat, bestDist: Option<nat>, ties: seq<string>)
    requires n < |candidates| == |ds| && Searched(candidates, ds, n, bestDist, ties)
    requires bestDist.None? || ds[n] < bestDist.value
    ensures Searched(candidates, ds, n + 1, Some(ds[n]), [candidates[n]])
  {
  }

  lemma NotCloser(candidates: seq<string>, ds: seq<nat>, n: nat, d: nat, ties: seq<string>)
    requires n < |candidates| == |ds| && Searched(candidates, ds, n, Some(d), ties)
    requires d <= ds[n]
    ensures Searched(candidates, ds, n + 1, Some(d), if ds[n] == d then ties + [candidates[n]] else ties)
  {
  }

  /** The search loop: the smallest distance and every candidate at it. */
  method CollectTies(name: string, candidates: seq<string>) returns (bestDist: Option<nat>, ties: seq<string>)
    ensures Searched(candidates, Distances(name, candidates), |candidates|, bestDist, ties)
  {
    hide Ties, IsDistance;
    ghost var ds := Distances(name, candidates);
    bestDist, ties := None, [];
    for i := 0 to |candidates|
      invariant Searched(candidates, ds, i, bestDist, ties)
    {
      var d := Compute(name, candidates[i]);
      if bestDist.None? || d < bestDist.value {
        Closer(candidates, ds, i, bestDist, ties);
        bestDist, ties := Some(d), [candidates[i]];
      } else {
        NotCloser(candidates, ds, i, bestDist.value, ties);
        if d == bestDist.value {
          ties := ties + [candidates[i]];
        }
      }
    }
  }

  method NearestFlagName(name: string, candidates: seq<string>) returns (guess: Option<string>)
    ensures candidates == [] ==> guess.None?
    ensures candidates != [] ==> Suggested(name, candidates, Distances(name, candidates), guess)
  {
    hide IsDistance, Distances;
    var bestDist, ties := CollectTies(name, candidates);
    if bestDist.None? || bestDist.value == 0 || bestDist.value > 2 || |ties| == 0 {
      return None;
    }
    for t := 0 to |ties|
      invariant forall u :: 0 <= u < t ==> |ties[u]| != |name|
    {
      if |ties[t]| == |name| {
        return Some(ties[t]);
      }
    }
    guess := Some(ties[0]);
  }
}
