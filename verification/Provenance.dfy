/**
 What an assembly shows, in terms of what its sources handed in (packages/context/src/engine.ts):
 where each chunk comes from with which defaults, which conversation turns become messages, and that
 the text of every chunk kept is in the prompt.
 */
module Provenance {
  import opened Strings
  import opened Options
  import opened Chunks
  import opened Dedupe
  import opened Packing
  import opened ContextEngine
  import opened Assemble

  // ----- defaults

  /** The chunk is the one handed in as the source's `index`-th, with what was left out filled in. */
  predicate IsOf(c: Chunk, raw: RawChunk, source: Source, index: nat, now: int, estimate: string -> nat) {
    && c.id == raw.id && c.lane == raw.lane && c.text == raw.text
    && (raw.sourceId.Some? ==> c.sourceId == raw.sourceId.value)
    && (raw.sourceId.None? ==> c.sourceId == source.id)
    && (raw.role.Some? ==> c.role == raw.role.value)
    && (raw.role.None? ==> c.role == "user")
    && (raw.tokens.Some? ==> c.tokens == raw.tokens.value)
    && (raw.tokens.None? ==> c.tokens == estimate(raw.text))
    && 0.0 <= c.relevance <= 1.0
    && (raw.relevance.None? ==> c.relevance == 0.5)
    && (raw.relevance.Some? && 0.0 <= raw.relevance.value <= 1.0 ==> c.relevance == raw.relevance.value)
    && (raw.relevance.Some? && raw.relevance.value < 0.0 ==> c.relevance == 0.0)
    && (raw.relevance.Some? && raw.relevance.value > 1.0 ==> c.relevance == 1.0)
    && (raw.priority.Some? ==> c.priority == raw.priority.value)
    && (raw.priority.None? ==> c.priority == source.priority)
    && (c.pinned <==> raw.pinned == Some(true))
    && (raw.createdAt.Some? ==> c.createdAt == raw.createdAt.value)
    && (raw.createdAt.None? ==> c.createdAt == now + index)
  }

  lemma ResolveFillsIn(raw: RawChunk, source: Source, index: nat, now: int, estimate: string -> nat)
    ensures IsOf(Resolve(raw, source, index, now, estimate), raw, source, index, now, estimate)
  {
  }

  /** How many chunks the first `n` sources handed in. */
  function Before(cs: seq<Collected>, n: nat): nat
    requires n <= |cs|
  {
    if n == 0 then 0 else Before(cs, n - 1) + |cs[n - 1].chunks|
  }

  lemma {:induction false} ResolvedOfAt(c: Collected, n: nat, now: int, estimate: string -> nat, j: nat)
    requires j < n <= |c.chunks|
    ensures var r := ResolvedOf(c, n, now, estimate);
      |r| == n && r[j] == Resolve(c.chunks[j], c.source, j, now, estimate)
  {
    if j < n - 1 {
      ResolvedOfAt(c, n - 1, now, estimate, j);
    } else if n > 1 {
      ResolvedOfAt(c, n - 1, now, estimate, 0);
    }
  }

  lemma ResolvedOfLength(c: Collected, now: int, estimate: string -> nat)
    ensures |ResolvedOf(c, |c.chunks|, now, estimate)| == |c.chunks|
  {
    if |c.chunks| > 0 {
      ResolvedOfAt(c, |c.chunks|, now, estimate, 0);
    }
  }

  lemma {:induction false} ResolvedLength(cs: seq<Collected>, n: nat, now: int, estimate: string -> nat)
    requires n <= |cs|
    ensures |ResolvedAll(cs, n, now, estimate)| == Before(cs, n)
  {
    if n > 0 {
      ResolvedLength(cs, n - 1, now, estimate);
      ResolvedOfLength(cs[n - 1], now, estimate);
    }
  }

  /** The chunks are resolved source by source, each with its own source, place and defaults. */
  lemma {:induction false} ResolvedAt(cs: seq<Collected>, n: nat, now: int, estimate: string -> nat, k: nat, j: nat)
    requires k < n <= |cs| && j < |cs[k].chunks|
    ensures var r := ResolvedAll(cs, n, now, estimate);
      && |r| == Before(cs, n) && Before(cs, k) + j < |r|
      && IsOf(r[Before(cs, k) + j], cs[k].chunks[j], cs[k].source, j, now, estimate)
  {
    hide IsOf;
    ResolvedLength(cs, n, now, estimate);
    ResolvedLength(cs, n - 1, now, estimate);
    if k < n - 1 {
      ResolvedAt(cs, n - 1, now, estimate, k, j);
    } else {
      ResolvedOfAt(cs[k], |cs[k].chunks|, now, estimate, j);
      ResolveFillsIn(cs[k].chunks[j], cs[k].source, j, now, estimate);
    }
  }

  /** The `j`-th chunk of source `k` is what `c` comes from. */
  predicate ComesFrom(c: Chunk, cs: seq<Collected>, now: int, estimate: string -> nat, k: nat, j: nat) {
    k < |cs| && j < |cs[k].chunks| && IsOf(c, cs[k].chunks[j], cs[k].source, j, now, estimate)
  }

  lemma {:induction false} PlaceOf(cs: seq<Collected>, n: nat, i: nat) returns (k: nat, j: nat)
    requires n <= |cs| && i < Before(cs, n)
    ensures k < n && j < |cs[k].chunks| && i == Before(cs, k) + j
  {
    if i < Before(cs, n - 1) {
      k, j := PlaceOf(cs, n - 1, i);
    } else {
      k, j := n - 1, i - Before(cs, n - 1);
    }
  }

  /** Every resolved chunk comes from one that a source handed in. */
  lemma EveryChunkComesFromASource(cs: seq<Collected>, now: int, estimate: string -> nat, c: Chunk)
    requires c in ResolvedAll(cs, |cs|, now, estimate)
    ensures exists k: nat, j: nat :: ComesFrom(c, cs, now, estimate, k, j)
  {
    var r := ResolvedAll(cs, |cs|, now, estimate);
    var i :| 0 <= i < |r| && r[i] == c;
    ResolvedLength(cs, |cs|, now, estimate);
    hide ResolvedAll, IsOf;
    var k, j := PlaceOf(cs, |cs|, i);
    ResolvedAt(cs, |cs|, now, estimate, k, j);
    assert ComesFrom(c, cs, now, estimate, k, j);
  }

  // ----- what is kept

  /** The chunk as kept: unchanged, or with the text and the size the compressor gave it. */
  predicate KeptAs(o: Settings, c: Chunk, w: Chunk) {
    || c == w
    || (&& !w.pinned && o.cap.Some? && w.tokens > o.cap.value
        && var short := o.compress(w.text, o.cap.value);
        short.summarized && c == w.(text := short.text, tokens := short.tokens))
  }

  /**
   Pinned chunks and those within the cap are kept as they are; one over it is, if the compressor could
   not shorten it.
   */
  lemma KeptWhole(o: Settings, w: Chunk)
    ensures KeptAs(o, Capped(o, w), w)
    ensures w.pinned || o.cap.None? || w.tokens <= o.cap.value || !o.compress(w.text, o.cap.value).summarized ==>
      Capped(o, w) == w
    ensures !w.pinned && o.cap.Some? && w.tokens > o.cap.value && o.compress(w.text, o.cap.value).summarized ==>
      Capped(o, w).text == o.compress(w.text, o.cap.value).text
      && Capped(o, w).tokens == o.compress(w.text, o.cap.value).tokens
  {
  }

  /** The report of a shortened chunk: where it comes from, and its size before and after. */
  predicate TellsShortening(o: Settings, w: Chunk, r: CompressedChunk) {
    && !w.pinned && o.cap.Some? && w.tokens > o.cap.value && o.compress(w.text, o.cap.value).summarized
    && r.id == w.id && r.sourceId == w.sourceId && r.lane == w.lane
    && r.fromTokens == w.tokens && r.toTokens == o.compress(w.text, o.cap.value).tokens
  }

  /** Exactly the shortened chunks are reported, in order. */
  lemma {:induction false} ShorteningsTell(o: Settings, s: seq<Chunk>, n: nat)
    requires n <= |s|
    ensures forall r :: r in Shortenings(o, s, n) ==> exists k :: 0 <= k < n && TellsShortening(o, s[k], r)
    ensures forall k :: 0 <= k < n && Capped(o, s[k]) != s[k] ==>
      exists r :: r in Shortenings(o, s, n) && TellsShortening(o, s[k], r)
  {
    if n > 0 {
      ShorteningsTell(o, s, n - 1);
      if Shortened(o, s[n - 1]) {
        assert TellsShortening(o, s[n - 1], ShortenedReport(o, s[n - 1]));
        assert ShortenedReport(o, s[n - 1]) in Shortenings(o, s, n);
      }
      hide TellsShortening, ShortenedReport;
    }
  }

  /** Whatever is kept was collected, and has at most its text shortened. */
  lemma KeptWasCollected(o: Settings, chunks: seq<Chunk>, userTokens: nat, budget: int, c: Chunk)
    requires UniqueIds(chunks) && c in Kept(o, chunks, userTokens, budget)
    ensures exists w :: w in chunks && KeptAs(o, c, w)
  {
    OrderedAre(o, chunks);
    assert c in Ordered(o, chunks);
    hide Ordered, Included;
    var w :| w in Winners(o.norm, o.weight, chunks) && Capped(o, w) == c;
    WinnersAreStrongest(o.norm, o.weight, chunks, w);
    KeptWhole(o, w);
  }

  // ----- the conversation

  lemma {:induction false} MessageAt(history: seq<Chunk>, n: nat, i: nat)
    requires i < n <= |history|
    ensures var ms := HistoryMessages(history, n); |ms| == n && ms[i] == Message(history[i].role, [history[i].text])
  {
    if i < n - 1 {
      MessageAt(history, n - 1, i);
    } else if n > 1 {
      MessageAt(history, n - 1, 0);
    }
  }

  /** The conversation is made of the kept history chunks, oldest first. */
  lemma ConversationIs(o: Settings, chunks: seq<Chunk>, user: nat, budget: int)
    requires UniqueIds(chunks)
    ensures var history := HistoryKept(o, chunks, user, budget);
      && |HistoryMessages(history, |history|)| == |history|
      && (forall c :: c in history <==> c in Kept(o, chunks, user, budget) && c.lane == History)
      && forall i, j :: 0 <= i < j < |history| ==>
           || history[i].createdAt < history[j].createdAt
           || (history[i].createdAt == history[j].createdAt && Lex(history[i].id, history[j].id))
  {
    var history := HistoryKept(o, chunks, user, budget);
    HistoryIsSorted(o, chunks, user, budget);
    hide HistoryKept, Kept, SortedBy;
    forall i, j | 0 <= i < j < |history|
      ensures || history[i].createdAt < history[j].createdAt
              || (history[i].createdAt == history[j].createdAt && Lex(history[i].id, history[j].id))
    {
      SortedAt(ByTime, history, i, j);
    }
    if history != [] {
      MessageAt(history, |history|, 0);
    }
  }

  lemma HistoryIsSorted(o: Settings, chunks: seq<Chunk>, user: nat, budget: int)
    requires UniqueIds(chunks)
    ensures var history := HistoryKept(o, chunks, user, budget);
      && SortedBy(ByTime, history) && UniqueIds(history)
      && forall c :: c in history <==> c in Kept(o, chunks, user, budget) && c.lane == History
  {
    hide Sort, Kept, SortedBy;
    var volatiles := VolatileKept(o, chunks, user, budget);
    KeptSorted(o, chunks, user, budget);
    FilterUnique(Kept(o, chunks, user, budget), VolatileOnly());
    FilterUnique(volatiles, OfLane(History));
    hide UniqueIds, Filter;
    SortHas(ByTime, Filter(volatiles, OfLane(History)));
  }

  /** A message shows a turn that a source handed in, under the role it was given, or as the user's if it had none. */
  ghost predicate ShowsTurn(m: Message, cs: seq<Collected>, o: Settings, k: nat, j: nat) {
    && k < |cs| && j < |cs[k].chunks|
    && var raw := cs[k].chunks[j];
    && raw.lane == History
    && m.role == (if raw.role.Some? then raw.role.value else "user")
    && |m.blocks| == 1
    && (m.blocks[0] == raw.text || (o.cap.Some? && m.blocks[0] == o.compress(raw.text, o.cap.value).text))
  }

  /** Every message before the user's own shows a turn as it was handed in. */
  lemma EveryMessageShowsATurn(o: Settings, cs: seq<Collected>, now: int, estimate: string -> nat, user: nat,
                               budget: int, i: nat)
    requires var chunks := ResolvedAll(cs, |cs|, now, estimate);
      UniqueIds(chunks) && i < |HistoryKept(o, chunks, user, budget)|
    ensures var history := HistoryKept(o, ResolvedAll(cs, |cs|, now, estimate), user, budget);
      && i < |HistoryMessages(history, |history|)|
      && exists k: nat, j: nat :: ShowsTurn(HistoryMessages(history, |history|)[i], cs, o, k, j)
  {
    hide HistoryKept, HistoryMessages, Kept, ResolvedAll, KeptAs, IsOf, ShowsTurn, UniqueIds;
    var chunks := ResolvedAll(cs, |cs|, now, estimate);
    var history := HistoryKept(o, chunks, user, budget);
    ConversationIs(o, chunks, user, budget);
    MessageAt(history, |history|, i);
    var c := history[i];
    assert c in history;
    KeptWasCollected(o, chunks, user, budget, c);
    var w :| w in chunks && KeptAs(o, c, w);
    EveryChunkComesFromASource(cs, now, estimate, w);
    var k: nat, j: nat :| ComesFrom(w, cs, now, estimate, k, j);
    TurnIsShown(o, cs, now, estimate, k, j, w, c);
  }

  lemma TurnIsShown(o: Settings, cs: seq<Collected>, now: int, estimate: string -> nat, k: nat, j: nat, w: Chunk,
                    c: Chunk)
    requires ComesFrom(w, cs, now, estimate, k, j) && KeptAs(o, c, w) && c.lane == History
    ensures ShowsTurn(Message(c.role, [c.text]), cs, o, k, j)
  {
  }

  // ----- nothing kept is left out of the prompt

  lemma {:induction false} JoinContains(parts: seq<string>, separator: string, i: nat, t: string)
    requires i < |parts| && Contains(parts[i], t)
    ensures Contains(Join(parts, separator), t)
  {
    hide Contains;
    if |parts| > 1 {
      if i == 0 {
        ContainsWithin("", parts[0], separator + Join(parts[1..], separator), t);
        assert "" + parts[0] + (separator + Join(parts[1..], separator)) == Join(parts, separator);
      } else {
        JoinContains(parts[1..], separator, i - 1, t);
        ContainsWithin(parts[0] + separator, Join(parts[1..], separator), "", t);
        assert parts[0] + separator + Join(parts[1..], separator) + "" == Join(parts, separator);
      }
    }
  }

  lemma {:induction false} TextsAt(s: seq<Chunk>, i: nat)
    requires i < |s|
    ensures |Texts(s)| == |s| && Texts(s)[i] == s[i].text
  {
    if i > 0 {
      TextsAt(s[1..], i - 1);
    } else if |s| > 1 {
      TextsAt(s[1..], 0);
    }
  }

  lemma SectionContains(lane: Lane, s: seq<Chunk>, c: Chunk)
    requires c in s
    ensures Contains(Section(lane, s), c.text)
  {
    var i :| 0 <= i < |s| && s[i] == c;
    TextsAt(s, i);
    assert c.text[0..|c.text|] == c.text;
    ContainsAt(c.text, 0, c.text);
    JoinContains(Texts(s), "\n\n", i, c.text);
    var header := "# " + LaneTitle(lane) + "\n";
    ContainsWithin(header, Join(Texts(s), "\n\n"), "", c.text);
    assert header + Join(Texts(s), "\n\n") + "" == Section(lane, s);
  }

  lemma {:induction false} SectionsContain(lanes: seq<Lane>, s: seq<Chunk>, c: Chunk) returns (i: nat)
    requires c in s && c.lane in lanes
    ensures i < |Sections(lanes, s)| && Contains(Sections(lanes, s)[i], c.text)
  {
    var lane := lanes[|lanes| - 1];
    var mine := Filter(s, OfLane(lane));
    hide Contains, Section, Filter;
    if c.lane == lane {
      assert c in mine;
      SectionContains(lane, mine, c);
      i := |Sections(lanes, s)| - 1;
    } else {
      i := SectionsContain(lanes[..|lanes| - 1], s, c);
    }
  }

  /** The text of every kept chunk is in the prompt: in the system text, as a message, or in the preamble. */
  lemma NothingKeptIsLost(o: Settings, chunks: seq<Chunk>, user: nat, budget: int, c: Chunk)
    requires UniqueIds(chunks) && c in Kept(o, chunks, user, budget)
    ensures Static(c) ==> Contains(SystemPrompt(o, chunks, user, budget), c.text)
    ensures c.lane == History ==>
      var history := HistoryKept(o, chunks, user, budget);
      Message(c.role, [c.text]) in HistoryMessages(history, |history|)
    ensures !Static(c) && c.lane != History ==>
      Contains(Join(Sections(PREAMBLE_LANES, VolatileKept(o, chunks, user, budget)), "\n\n"), c.text)
  {
    ConversationIs(o, chunks, user, budget);
    LaneIndexIsPlace(c.lane);
    hide Contains, Kept, HistoryKept;
    if Static(c) {
      var statics := KeptStatics(o, chunks, user, budget);
      var i := SectionsContain(STATIC_LANES, statics, c);
      JoinContains(Sections(STATIC_LANES, statics), "\n\n", i, c.text);
    } else if c.lane == History {
      var history := HistoryKept(o, chunks, user, budget);
      var i :| 0 <= i < |history| && history[i] == c;
      MessageAt(history, |history|, i);
      assert HistoryMessages(history, |history|)[i] == Message(c.role, [c.text]);
    } else {
      var volatiles := VolatileKept(o, chunks, user, budget);
      var i := SectionsContain(PREAMBLE_LANES, volatiles, c);
      JoinContains(Sections(PREAMBLE_LANES, volatiles), "\n\n", i, c.text);
    }
  }

  /** What one section looks like: its title on a line of its own, then the texts with a blank line between them. */
  lemma SectionOfTwo(c: Chunk, d: Chunk)
    ensures Section(System, [c, d]) == "# System\n" + c.text + "\n\n" + d.text
  {
    assert [c, d][1..] == [d] && [d][1..] == [];
    assert Texts([d]) == [d.text] + Texts([]) == [d.text];
    assert Texts([c, d]) == [c.text] + Texts([d]) == [c.text, d.text];
    assert [c.text, d.text][1..] == [d.text];
    assert Join([c.text, d.text], "\n\n") == c.text + "\n\n" + d.text;
    hide Join, Texts;
    assert "# " + "System" + "\n" == "# System\n";
    assert Section(System, [c, d]) == "# " + "System" + "\n" + (c.text + "\n\n" + d.text);
  }

  /** No two lanes share a title, so a section tells its lane. */
  lemma TitlesTellLanes(a: Lane, b: Lane)
    ensures LaneTitle(a) == LaneTitle(b) <==> a == b
  {
    assert a != b ==>
      || |LaneTitle(a)| != |LaneTitle(b)|
      || LaneTitle(a)[0] != LaneTitle(b)[0]
      || LaneTitle(a)[1] != LaneTitle(b)[1];
  }
}
