/**
 When two runs share their static prefix (packages/context/src/engine.ts). Dropping any static chunk
 makes the rendered text strictly shorter, so a run whose static chunks are disturbed never renders
 the text of one whose are not.
 */
module PrefixStability {
  import opened Options
  import opened Strings
  import opened Chunks
  import opened Dedupe
  import opened Packing
  import opened ContextEngine

  // ----- how long the rendered prefix is

  const GAP := "\n\n"

  /** The characters of the chunks' texts, each with the gap after it. */
  function Chars(s: seq<Chunk>): nat {
    if s == [] then 0 else |s[0].text| + |GAP| + Chars(s[1..])
  }

  lemma {:induction false} TextsTake(s: seq<Chunk>)
    requires s != []
    ensures |Join(Texts(s), GAP)| + |GAP| == Chars(s)
  {
    if |s| > 1 {
      TextsTake(s[1..]);
      assert Texts(s)[1..] == Texts(s[1..]);
    } else {
      assert Texts(s) == [s[0].text];
      assert Chars(s[1..]) == 0;
    }
  }

  function Header(lane: Lane): string {
    "# " + LaneTitle(lane) + "\n"
  }

  /** What a lane takes, the gap after its section included. */
  function LaneRoom(lane: Lane, chunks: seq<Chunk>): nat {
    if chunks == [] then 0 else |Header(lane)| + Chars(chunks)
  }

  function Room(lanes: seq<Lane>, chunks: seq<Chunk>): nat {
    if lanes == [] then 0
    else Room(lanes[..|lanes| - 1], chunks) + LaneRoom(lanes[|lanes| - 1], Filter(chunks, OfLane(lanes[|lanes| - 1])))
  }

  lemma {:induction false} JoinOneMore(parts: seq<string>, part: string)
    ensures |Join(parts + [part], GAP)| == if parts == [] then |part| else |Join(parts, GAP)| + |GAP| + |part|
  {
    if parts == [] {
      assert parts + [part] == [part];
    } else {
      JoinOneMore(parts[1..], part);
      assert (parts + [part])[1..] == parts[1..] + [part];
      if |parts| == 1 {
        assert parts[1..] == [];
      }
    }
  }

  lemma {:induction false} SectionsTake(lanes: seq<Lane>, chunks: seq<Chunk>)
    ensures Room(lanes, chunks) ==
      |Join(Sections(lanes, chunks), GAP)| + if Sections(lanes, chunks) == [] then 0 else |GAP|
  {
    if lanes != [] {
      var lane := lanes[|lanes| - 1];
      var front, mine := Sections(lanes[..|lanes| - 1], chunks), Filter(chunks, OfLane(lane));
      SectionsTake(lanes[..|lanes| - 1], chunks);
      if mine != [] {
        JoinOneMore(front, Section(lane, mine));
        TextsTake(mine);
        assert |Section(lane, mine)| == |Header(lane)| + |Join(Texts(mine), GAP)|;
      }
      hide Join, LaneTitle, Chars, Texts;
    }
  }

  /** Equal texts take equal room. */
  lemma RoomIsDecided(s: seq<Chunk>, t: seq<Chunk>)
    requires SystemText(s) == SystemText(t)
    ensures Room(STATIC_LANES, s) == Room(STATIC_LANES, t)
  {
    SectionsTake(STATIC_LANES, s);
    SectionsTake(STATIC_LANES, t);
    NoSectionIsEmpty(STATIC_LANES, s);
    NoSectionIsEmpty(STATIC_LANES, t);
    hide Sections, Room, Join;
  }

  lemma {:induction false} NoSectionIsEmpty(lanes: seq<Lane>, s: seq<Chunk>)
    ensures Sections(lanes, s) != [] <==> |Join(Sections(lanes, s), GAP)| > 0
  {
    if lanes != [] {
      var lane := lanes[|lanes| - 1];
      NoSectionIsEmpty(lanes[..|lanes| - 1], s);
      JoinOneMore(Sections(lanes[..|lanes| - 1], s), Section(lane, Filter(s, OfLane(lane))));
      hide Join;
    }
  }

  // ----- dropping chunks

  lemma CharsCons(c: Chunk, s: seq<Chunk>)
    ensures Chars([c] + s) == |c.text| + |GAP| + Chars(s)
  {
    assert ([c] + s)[1..] == s;
  }

  lemma {:induction false} CharsOfFilter(s: seq<Chunk>, p: Chunk -> bool)
    ensures Chars(Filter(s, p)) <= Chars(s)
    ensures (exists c :: c in s && !p(c)) ==> Chars(Filter(s, p)) < Chars(s)
  {
    if s != [] {
      var c, rest := s[0], s[1..];
      CharsOfFilter(rest, p);
      FilterCons(c, rest, p);
      CharsCons(c, rest);
      CharsCons(c, Filter(rest, p));
      hide Filter, Chars;
      assert s == [c] + rest;
    }
  }

  lemma {:induction false} FiltersCommute(s: seq<Chunk>, p: Chunk -> bool, q: Chunk -> bool)
    ensures Filter(Filter(s, p), q) == Filter(Filter(s, q), p)
  {
    if s != [] {
      var c, rest := s[0], s[1..];
      FiltersCommute(rest, p, q);
      hide Filter;
      FilterCons(c, rest, p);
      FilterCons(c, rest, q);
      FilterCons(c, Filter(rest, p), q);
      FilterCons(c, Filter(rest, q), p);
      assert s == [c] + rest;
    }
  }

  /** `p` drops a chunk of one of the lanes. */
  ghost predicate Loses(lanes: seq<Lane>, s: seq<Chunk>, p: Chunk -> bool) {
    exists c :: c in s && c.lane in lanes && !p(c)
  }

  lemma LosesInFrontOrLast(lanes: seq<Lane>, s: seq<Chunk>, p: Chunk -> bool)
    requires lanes != [] && Loses(lanes, s, p)
    ensures var lane := lanes[|lanes| - 1];
      Loses(lanes[..|lanes| - 1], s, p) || Loses([lane], Filter(s, OfLane(lane)), p)
  {
    var c :| c in s && c.lane in lanes && !p(c);
    assert lanes == lanes[..|lanes| - 1] + [lanes[|lanes| - 1]];
  }

  lemma LaneRoomOfFilter(lane: Lane, s: seq<Chunk>, p: Chunk -> bool)
    ensures LaneRoom(lane, Filter(s, p)) <= LaneRoom(lane, s)
    ensures Loses([lane], s, p) ==> LaneRoom(lane, Filter(s, p)) < LaneRoom(lane, s)
  {
    CharsOfFilter(s, p);
    assert s == [] ==> Filter(s, p) == [];
    assert |Header(lane)| > 0;
    hide Filter, Chars, Header;
  }

  lemma {:induction false} RoomOfFilter(lanes: seq<Lane>, s: seq<Chunk>, p: Chunk -> bool)
    ensures Room(lanes, Filter(s, p)) <= Room(lanes, s)
    ensures Loses(lanes, s, p) ==> Room(lanes, Filter(s, p)) < Room(lanes, s)
  {
    hide Filter, LaneRoom;
    if lanes != [] {
      var lane := lanes[|lanes| - 1];
      RoomOfFilter(lanes[..|lanes| - 1], s, p);
      FiltersCommute(s, p, OfLane(lane));
      LaneRoomOfFilter(lane, Filter(s, OfLane(lane)), p);
      if Loses(lanes, s, p) {
        LosesInFrontOrLast(lanes, s, p);
      }
      hide Loses;
    }
  }

  /**
   Of two lists of static chunks in prompt order, one with only some of the other's chunks renders to
   another text.
   */
  lemma FewerChunksOtherText(weight: real, s: seq<Chunk>, t: seq<Chunk>)
    requires SortedBy(ForAssembly(weight), s) && SortedBy(ForAssembly(weight), t) && UniqueIds(s) && UniqueIds(t)
    requires (forall c :: c in s ==> Static(c)) && (forall c :: c in t ==> Static(c))
    requires TimelessSet(t) < TimelessSet(s)
    ensures SystemText(t) != SystemText(s)
  {
    var big, small := TimelessAll(s), TimelessAll(t);
    TimelessSorted(weight, s);
    TimelessSorted(weight, t);
    SectionsTimeless(STATIC_LANES, s);
    SectionsTimeless(STATIC_LANES, t);
    assert SystemText(s) == SystemText(big) && SystemText(t) == SystemText(small);
    var kept := Among(TimelessSet(t));
    FilterSorted(ForAssembly(weight), big, kept);
    FilterUnique(big, kept);
    forall c
      ensures c in Filter(big, kept) <==> c in small
    {
      assert c in big <==> c in Members(big);
      assert c in small <==> c in Members(small);
    }
    assert Members(Filter(big, kept)) == Members(small);
    SortedIsUnique(ForAssembly(weight), Filter(big, kept), small);
    var c :| c in TimelessSet(s) && c !in TimelessSet(t);
    assert c in Members(big);
    var d :| d in s && Timeless(d) == c;
    StaticLanesAreListed(d);
    assert Loses(STATIC_LANES, big, kept);
    RoomOfFilter(STATIC_LANES, big, kept);
    if SystemText(t) == SystemText(s) {
      RoomIsDecided(small, big);
    }
  }

  function Among(members: set<Chunk>): Chunk -> bool {
    (c: Chunk) => c in members
  }

  lemma StaticLanesAreListed(c: Chunk)
    requires Static(c)
    ensures c.lane in STATIC_LANES
  {
  }

  // ----- two runs

  /**
   No volatile chunk evicts a static one, and query, static and pinned chunks fit (or no static chunk
   could be dropped).
   */
  ghost predicate Undisturbed(o: Settings, chunks: seq<Chunk>, userTokens: nat, budget: int) {
    NoStaticEvicted(o.norm, o.weight, chunks) && StaticsFit(o, chunks, userTokens, budget)
  }

  /** Whatever happens, the prefix holds nothing but chunks of the core. */
  lemma KeptWithinCore(o: Settings, chunks: seq<Chunk>, userTokens: nat, budget: int)
    requires UniqueIds(chunks)
    ensures TimelessSet(KeptStatics(o, chunks, userTokens, budget)) <=
      Core(o, TimelessSet(Filter(chunks, StaticOnly())))
  {
    hide KeptStatics, Core, Winners, Capped, Filter;
    KeptStaticsAre(o, chunks, userTokens, budget);
    OrderedAre(o, chunks);
    forall c | c in TimelessSet(KeptStatics(o, chunks, userTokens, budget))
      ensures c in Core(o, TimelessSet(Filter(chunks, StaticOnly())))
    {
      var k :| k in KeptStatics(o, chunks, userTokens, budget) && Timeless(k) == c;
      var w :| w in Winners(o.norm, o.weight, chunks) && Capped(o, w) == k;
      CappedKeeps(o, w);
      OursAreAlone(o, chunks, w);
      CoreIs(o, chunks, c);
    }
  }

  /**
   Two runs with the same static chunks, up to time stamps, of which the first is undisturbed, render
   the same system text exactly when the second is undisturbed too, whatever their volatile chunks,
   queries, budgets and collection orders are.
   */
  lemma SamePrefixIff(o: Settings, xs: seq<Chunk>, userX: nat, budgetX: int, ys: seq<Chunk>, userY: nat, budgetY: int)
    requires UniqueIds(xs) && UniqueIds(ys)
    requires TimelessSet(Filter(xs, StaticOnly())) == TimelessSet(Filter(ys, StaticOnly()))
    requires Undisturbed(o, xs, userX, budgetX)
    ensures SystemPrompt(o, xs, userX, budgetX) == SystemPrompt(o, ys, userY, budgetY) <==>
      Undisturbed(o, ys, userY, budgetY)
  {
    hide KeptStatics, Core, NoStaticEvicted, StaticsFit, SystemText;
    if Undisturbed(o, ys, userY, budgetY) {
      PrefixStableAcrossRuns(o, xs, userX, budgetX, ys, userY, budgetY);
    } else {
      PrefixIsCoreIff(o, xs, userX, budgetX);
      PrefixIsCoreIff(o, ys, userY, budgetY);
      KeptWithinCore(o, ys, userY, budgetY);
      KeptStaticsAre(o, xs, userX, budgetX);
      KeptStaticsAre(o, ys, userY, budgetY);
      FewerChunksOtherText(o.weight, KeptStatics(o, xs, userX, budgetX), KeptStatics(o, ys, userY, budgetY));
    }
  }

  // ----- two runs with different prefixes

  const PLAIN := Settings((text: string) => text, 1.0, None, (text: string, cap: nat) => Compressed(text, 0, false))

  const RULE := Chunk("rule", "s", System, "be brief", "user", 2, 0.5, 1.0, false, 0)
  const ECHO := Chunk("echo", "v", Retrieved, "be brief", "user", 2, 0.5, 2.0, false, 0)

  lemma RuleAlone()
    ensures Undisturbed(PLAIN, [RULE], 0, 2) && !Undisturbed(PLAIN, [RULE], 0, 1)
    ensures Ordered(PLAIN, [RULE]) == [RULE]
  {
    var chunks := [RULE];
    forall c
      ensures c in Ordered(PLAIN, chunks) <==> c == RULE
    {
      OrderedAre(PLAIN, chunks);
      WinnersAreStrongest(PLAIN.norm, PLAIN.weight, chunks, RULE);
      WinnersAreStrongest(PLAIN.norm, PLAIN.weight, chunks, c);
      hide Winners, Ordered;
    }
    OrderedAre(PLAIN, chunks);
    assert Members(Ordered(PLAIN, chunks)) == Members(chunks);
    SortedIsUnique(ForAssembly(PLAIN.weight), Ordered(PLAIN, chunks), chunks);
    TokensOfCons(RULE, []);
    assert Filter(chunks, StaticOrPinned()) == [RULE] + [] by {
      assert chunks[1..] == [];
    }
    hide Ordered;
  }

  /** One token less to spend and the same static chunk gives another prefix. */
  lemma TightBudgetChangesPrefix()
    ensures SystemPrompt(PLAIN, [RULE], 0, 2) != SystemPrompt(PLAIN, [RULE], 0, 1)
  {
    RuleAlone();
    hide Undisturbed, SystemPrompt, Ordered;
    SamePrefixIff(PLAIN, [RULE], 0, 2, [RULE], 0, 1);
  }

  /** A stronger volatile chunk with the same text evicts the static one, and the prefix is another. */
  lemma VolatileCopyChangesPrefix(budget: int)
    ensures SystemPrompt(PLAIN, [RULE], 0, 2) != SystemPrompt(PLAIN, [RULE, ECHO], 0, budget)
  {
    RuleAlone();
    RuleIsTheStaticOne();
    EchoEvictsRule();
    hide Filter, SystemPrompt, StaticsFit, Ordered, NoStaticEvicted;
    SamePrefixIff(PLAIN, [RULE], 0, 2, [RULE, ECHO], 0, budget);
  }

  lemma RuleIsTheStaticOne()
    ensures Filter([RULE, ECHO], StaticOnly()) == [RULE] == Filter([RULE], StaticOnly())
  {
    FilterCons(RULE, [ECHO], StaticOnly());
    FilterCons(ECHO, [], StaticOnly());
    FilterCons(RULE, [], StaticOnly());
    assert Filter([], StaticOnly()) == [];
    hide Filter;
    assert [RULE] + [ECHO] == [RULE, ECHO] && [ECHO] + [] == [ECHO] && [RULE] + [] == [RULE];
  }

  lemma EchoEvictsRule()
    ensures !NoStaticEvicted(PLAIN.norm, PLAIN.weight, [RULE, ECHO])
  {
    var ys := [RULE, ECHO];
    assert ECHO in ys && RULE in ys;
    hide StaticsFit;
  }

  // ----- a pinned chunk

  /** A pinned chunk is evicted by a stronger chunk with its text, at any budget. */
  lemma PinnedIsEvicted(budget: int)
    ensures RULE.(pinned := true) !in Kept(PLAIN, [RULE.(pinned := true), ECHO], 0, budget)
  {
    var pinned := RULE.(pinned := true);
    var chunks := [pinned, ECHO];
    assert pinned in chunks && ECHO in chunks;
    PinnedIsKeptIff(PLAIN, chunks, 0, budget, pinned);
    hide Kept;
    assert ECHO in Members(chunks) && SameText(PLAIN.norm, pinned, ECHO);
  }
}
