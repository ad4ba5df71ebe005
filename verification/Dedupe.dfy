/**
 Removing near-identical chunks (packages/context/src/engine.ts, `dedupe`).

 `norm` stands for `normalizeKey`: trimming, collapsing white space and lower-casing. Nothing
 below depends on which texts it identifies, so it is a parameter.
 */
module Dedupe {
  import opened Chunks
  import opened Strings

  datatype Reason = Duplicate | Budget

  datatype DroppedChunk = DroppedChunk(id: string, sourceId: string, lane: Lane, tokens: nat, reason: Reason)

  function Drop(c: Chunk, reason: Reason): DroppedChunk {
    DroppedChunk(c.id, c.sourceId, c.lane, c.tokens, reason)
  }

  function Drops(s: seq<Chunk>, reason: Reason): (ds: seq<DroppedChunk>)
    ensures |ds| == |s| && forall i :: 0 <= i < |s| ==> ds[i] == Drop(s[i], reason)
    ensures forall i :: 0 <= i < |s| ==>
      && ds[i].id == s[i].id && ds[i].sourceId == s[i].sourceId && ds[i].lane == s[i].lane
      && ds[i].tokens == s[i].tokens && ds[i].reason == reason
  {
    seq(|s|, i requires 0 <= i < |s| => Drop(s[i], reason))
  }

  type Norm = string -> string

  /** No chunk before position `i` has the same text; empty texts are never compared. */
  predicate FirstOfText(norm: Norm, s: seq<Chunk>, i: nat)
    requires i < |s|
  {
    norm(s[i].text) == "" || forall j :: 0 <= j < i ==> norm(s[j].text) != norm(s[i].text)
  }

  /** The chunks among the first `n` that are, or are not, the first of their text. */
  function Firsts(norm: Norm, s: seq<Chunk>, n: nat, yes: bool): (r: seq<Chunk>)
    requires n <= |s|
    ensures forall c :: c in r <==> exists i :: 0 <= i < n && s[i] == c && FirstOfText(norm, s, i) == yes
  {
    if n == 0 then []
    else Firsts(norm, s, n - 1, yes) + if FirstOfText(norm, s, n - 1) == yes then [s[n - 1]] else []
  }

  function Winners(norm: Norm, weight: real, chunks: seq<Chunk>): seq<Chunk> {
    var s := Sort(ByStrength(weight), chunks);
    Firsts(norm, s, |s|, true)
  }

  function Duplicates(norm: Norm, weight: real, chunks: seq<Chunk>): seq<Chunk> {
    var s := Sort(ByStrength(weight), chunks);
    Firsts(norm, s, |s|, false)
  }

  method Run(chunks: seq<Chunk>, weight: real, norm: Norm) returns (winners: seq<Chunk>, dropped: seq<DroppedChunk>)
    ensures winners == Winners(norm, weight, chunks)
    ensures dropped == Drops(Duplicates(norm, weight, chunks), Duplicate)
  {
    var byStrength := Sort(ByStrength(weight), chunks);
    var seen: map<string, Chunk> := map[];
    winners, dropped := [], [];
    for i := 0 to |byStrength|
      invariant winners == Firsts(norm, byStrength, i, true)
      invariant dropped == Drops(Firsts(norm, byStrength, i, false), Duplicate)
      invariant forall key :: key in seen <==> key != "" && exists j :: 0 <= j < i && norm(byStrength[j].text) == key
    {
      var c := byStrength[i];
      var key := norm(c.text);
      if |key| == 0 {
        winners := winners + [c];
      } else if key in seen {
        dropped := dropped + [Drop(c, Duplicate)];
      } else {
        seen := seen[key := c];
        winners := winners + [c];
      }
    }
  }

  // ----- who survives

  predicate SameText(norm: Norm, c: Chunk, d: Chunk) {
    norm(c.text) == norm(d.text)
  }

  /** `c` is the strongest copy of its text, or has no text to compare. */
  ghost predicate Strongest(norm: Norm, weight: real, chunks: set<Chunk>, c: Chunk) {
    norm(c.text) == "" || forall d :: d in chunks && SameText(norm, c, d) ==> Le(ByStrength(weight), c, d)
  }

  /** Each text keeps exactly its strongest copy. */
  lemma WinnersAreStrongest(norm: Norm, weight: real, chunks: seq<Chunk>, c: Chunk)
    requires UniqueIds(chunks)
    ensures c in Winners(norm, weight, chunks) <==> c in chunks && Strongest(norm, weight, Members(chunks), c)
  {
    var o := ByStrength(weight);
    var s := Sort(o, chunks);
    SortSorts(o, chunks);
    SortKeepsMembers(o, chunks);
    assert c in chunks <==> c in Members(chunks);
    assert c in s <==> c in Members(s);
    forall i | 0 <= i < |s| && s[i] == c
      ensures FirstOfText(norm, s, i) <==> Strongest(norm, weight, Members(chunks), c)
    {
      PositionTellsStrength(norm, weight, s, Members(chunks), i);
    }
  }

  /** Of two copies of a text the one with the higher score is kept, then the one in the earlier lane, then by id. */
  lemma WinnerBeatsItsCopies(norm: Norm, weight: real, chunks: seq<Chunk>, c: Chunk, d: Chunk)
    requires UniqueIds(chunks) && c in Winners(norm, weight, chunks) && d in chunks && d != c
    requires norm(c.text) != "" && norm(c.text) == norm(d.text)
    ensures var x, y := c.priority * weight + c.relevance, d.priority * weight + d.relevance;
      || x > y
      || (x == y && LaneIndex(c.lane) < LaneIndex(d.lane))
      || (x == y && c.lane == d.lane && Lex(c.id, d.id))
  {
    WinnersAreStrongest(norm, weight, chunks, c);
    assert d in Members(chunks) && SameText(norm, c, d);
    assert Le(ByStrength(weight), c, d);
    if c.id == d.id {
      SameIdSameChunk(chunks, c, d);
    }
    LaneIndexIsPlace(c.lane);
    LaneIndexIsPlace(d.lane);
    hide Winners, Strongest;
  }

  lemma PositionTellsStrength(norm: Norm, weight: real, s: seq<Chunk>, members: set<Chunk>, i: nat)
    requires SortedBy(ByStrength(weight), s) && UniqueIds(s) && Members(s) == members && i < |s|
    ensures FirstOfText(norm, s, i) <==> Strongest(norm, weight, members, s[i])
  {
    hide Le;
    var o := ByStrength(weight);
    if FirstOfText(norm, s, i) && norm(s[i].text) != "" {
      forall d | d in members && SameText(norm, s[i], d)
        ensures Le(o, s[i], d)
      {
        assert d in Members(s);
        var j :| 0 <= j < |s| && s[j] == d;
        LeTotal(o, d, d);
      }
    }
    if Strongest(norm, weight, members, s[i]) && norm(s[i].text) != "" {
      forall j | 0 <= j < i
        ensures norm(s[j].text) != norm(s[i].text)
      {
        assert s[j] in Members(s);
        LeTotal(o, s[j], s[i]);
      }
    }
  }

  lemma WinnersUnique(norm: Norm, weight: real, chunks: seq<Chunk>)
    requires UniqueIds(chunks)
    ensures UniqueIds(Winners(norm, weight, chunks)) && UniqueIds(Duplicates(norm, weight, chunks))
  {
    SortKeepsMembers(ByStrength(weight), chunks);
    var s := Sort(ByStrength(weight), chunks);
    FirstsUnique(norm, s, |s|, true);
    FirstsUnique(norm, s, |s|, false);
  }

  lemma {:induction false} FirstsUnique(norm: Norm, s: seq<Chunk>, n: nat, yes: bool)
    requires UniqueIds(s) && n <= |s|
    ensures UniqueIds(Firsts(norm, s, n, yes))
  {
    if n > 0 {
      FirstsUnique(norm, s, n - 1, yes);
      var front := Firsts(norm, s, n - 1, yes);
      forall j | 0 <= j < |front|
        ensures front[j].id != s[n - 1].id
      {
        assert front[j] in front;
      }
    }
  }

  /** What is kept and what is dropped do not depend on the order in which the chunks were collected. */
  lemma InputOrderIsIrrelevant(norm: Norm, weight: real, xs: seq<Chunk>, ys: seq<Chunk>)
    requires UniqueIds(xs) && UniqueIds(ys) && Members(xs) == Members(ys)
    ensures Winners(norm, weight, xs) == Winners(norm, weight, ys)
    ensures Duplicates(norm, weight, xs) == Duplicates(norm, weight, ys)
  {
    var o := ByStrength(weight);
    SortSorts(o, xs);
    SortSorts(o, ys);
    SortKeepsMembers(o, xs);
    SortKeepsMembers(o, ys);
    SortedIsUnique(o, Sort(o, xs), Sort(o, ys));
  }

  /** Every text that was collected is still there after dedupe. */
  lemma TextSurvives(norm: Norm, weight: real, chunks: seq<Chunk>, c: Chunk) returns (w: Chunk)
    requires UniqueIds(chunks) && c in chunks && norm(c.text) != ""
    ensures w in Winners(norm, weight, chunks) && SameText(norm, w, c)
  {
    var s := Sort(ByStrength(weight), chunks);
    SortKeepsMembers(ByStrength(weight), chunks);
    assert c in Members(s);
    var i :| 0 <= i < |s| && s[i] == c;
    var j := 0;
    while norm(s[j].text) != norm(c.text)
      invariant 0 <= j <= i && forall k :: 0 <= k < j ==> norm(s[k].text) != norm(c.text)
      decreases i - j
    {
      j := j + 1;
    }
    assert FirstOfText(norm, s, j);
    w := s[j];
  }

  /** Winners and duplicates are what was collected, split in two. */
  lemma WinnersAndDuplicates(norm: Norm, weight: real, chunks: seq<Chunk>)
    requires UniqueIds(chunks)
    ensures Members(Winners(norm, weight, chunks)) + Members(Duplicates(norm, weight, chunks)) == Members(chunks)
    ensures Members(Winners(norm, weight, chunks)) !! Members(Duplicates(norm, weight, chunks))
  {
    var s := Sort(ByStrength(weight), chunks);
    SortKeepsMembers(ByStrength(weight), chunks);
    var ws, ds := Winners(norm, weight, chunks), Duplicates(norm, weight, chunks);
    forall c
      ensures c in ws || c in ds <==> c in chunks
      ensures !(c in ws && c in ds)
    {
      assert c in chunks <==> c in Members(s);
      if c in s {
        var i :| 0 <= i < |s| && s[i] == c;
        assert FirstOfText(norm, s, i) || !FirstOfText(norm, s, i);
      }
    }
  }

  // ----- when the static chunks survive as if they were alone

  function StaticOnly(): Chunk -> bool {
    (c: Chunk) => Static(c)
  }

  /** No volatile chunk beats every static chunk that has its text. */
  ghost predicate NoStaticEvicted(norm: Norm, weight: real, chunks: seq<Chunk>) {
    forall v, s ::
      v in chunks && !Static(v) && s in chunks && Static(s) && SameText(norm, v, s) && norm(s.text) != "" ==>
      StaticBeats(norm, weight, chunks, v)
  }

  ghost predicate StaticBeats(norm: Norm, weight: real, chunks: seq<Chunk>, v: Chunk) {
    exists t :: t in chunks && Static(t) && SameText(norm, t, v) && Le(ByStrength(weight), t, v)
  }

  /** The static winners are those of the static chunks alone exactly when no volatile chunk evicts one. */
  lemma StaticWinnersIff(norm: Norm, weight: real, chunks: seq<Chunk>)
    requires UniqueIds(chunks)
    ensures NoStaticEvicted(norm, weight, chunks) <==>
      Members(Filter(Winners(norm, weight, chunks), StaticOnly())) ==
        Members(Winners(norm, weight, Filter(chunks, StaticOnly())))
  {
    hide Le;
    var statics := Filter(chunks, StaticOnly());
    FilterUnique(chunks, StaticOnly());
    var ours := Filter(Winners(norm, weight, chunks), StaticOnly());
    var alone := Winners(norm, weight, statics);
    forall c
      ensures c in ours <==> c in chunks && Static(c) && Strongest(norm, weight, Members(chunks), c)
      ensures c in alone <==> c in chunks && Static(c) && Strongest(norm, weight, Members(statics), c)
    {
      WinnersAreStrongest(norm, weight, chunks, c);
      WinnersAreStrongest(norm, weight, statics, c);
    }
    if NoStaticEvicted(norm, weight, chunks) {
      forall c
        ensures c in ours <==> c in alone
      {
        if c in alone {
          StaticChampionWins(norm, weight, chunks, c);
        }
      }
      assert Members(ours) == Members(alone);
    }
    if Members(ours) == Members(alone) {
      forall v, s | v in chunks && !Static(v) && s in chunks && Static(s) && SameText(norm, v, s) && norm(s.text) != ""
        ensures StaticBeats(norm, weight, chunks, v)
      {
        var w := TextSurvives(norm, weight, statics, s);
        assert w in Members(alone);
        assert w in ours && v in Members(chunks);
      }
    }
  }

  lemma StaticChampionWins(norm: Norm, weight: real, chunks: seq<Chunk>, c: Chunk)
    requires NoStaticEvicted(norm, weight, chunks)
    requires c in chunks && Static(c) && Strongest(norm, weight, Members(Filter(chunks, StaticOnly())), c)
    ensures Strongest(norm, weight, Members(chunks), c)
  {
    hide Le, NoStaticEvicted, Filter;
    if norm(c.text) != "" {
      forall d | d in Members(chunks) && SameText(norm, c, d)
        ensures Le(ByStrength(weight), c, d)
      {
        ChampionBeats(norm, weight, chunks, c, d);
      }
    }
  }

  lemma ChampionBeats(norm: Norm, weight: real, chunks: seq<Chunk>, c: Chunk, d: Chunk)
    requires NoStaticEvicted(norm, weight, chunks)
    requires c in chunks && Static(c) && Strongest(norm, weight, Members(Filter(chunks, StaticOnly())), c)
    requires norm(c.text) != "" && d in chunks && SameText(norm, c, d)
    ensures Le(ByStrength(weight), c, d)
  {
    hide Le, Filter;
    var t := d;
    if !Static(d) {
      assert StaticBeats(norm, weight, chunks, d);
      t :| t in chunks && Static(t) && SameText(norm, t, d) && Le(ByStrength(weight), t, d);
    }
    assert t in Filter(chunks, StaticOnly());
    if !Static(d) {
      LeTransitive(ByStrength(weight), c, t, d);
    }
  }
}
