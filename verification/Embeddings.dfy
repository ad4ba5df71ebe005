/**
 The caching embedder (packages/cli/src/power.ts, `CachingEmbedder.embed`) over an embedder that
 embeds each text by itself.
 */
module Embeddings {
  import opened Options

  /** The texts among the first `n` that are not known, in order, repeats included. */
  function Misses(known: set<string>, texts: seq<string>, n: nat): seq<string>
    requires n <= |texts|
  {
    if n == 0 then [] else Misses(known, texts, n - 1) + if texts[n - 1] in known then [] else [texts[n - 1]]
  }

  /** The positions of those texts. */
  function MissIndexes(known: set<string>, texts: seq<string>, n: nat): seq<nat>
    requires n <= |texts|
  {
    if n == 0 then [] else MissIndexes(known, texts, n - 1) + if texts[n - 1] in known then [] else [n - 1]
  }

  lemma {:induction false} IndexesAre(known: set<string>, texts: seq<string>, n: nat)
    requires n <= |texts|
    ensures var indexes, misses := MissIndexes(known, texts, n), Misses(known, texts, n);
      && |indexes| == |misses|
      && (forall j :: 0 <= j < |indexes| ==> indexes[j] < n && texts[indexes[j]] == misses[j] && misses[j] !in known)
      && (forall i :: 0 <= i < n && texts[i] !in known ==> i in indexes)
  {
    if n > 0 {
      IndexesAre(known, texts, n - 1);
    }
  }

  function TextSet(texts: seq<string>): set<string> {
    set t | t in texts
  }

  class CachingEmbedder<V(!new)> {
    const inner: string -> V
    var cache: map<string, V>
    /** Everything the inner embedder was ever asked to embed. */
    ghost var asked: seq<string>

    constructor (inner: string -> V)
      ensures this.inner == inner && cache == map[] && asked == [] && Sound()
    {
      this.inner := inner;
      cache := map[];
      asked := [];
    }

    /** The cache holds nothing but what the inner embedder says. */
    ghost predicate Sound()
      reads this
    {
      forall t :: t in cache ==> cache[t] == inner(t)
    }

    method GetMany(texts: seq<string>) returns (cached: seq<Option<V>>)
      ensures |cached| == |texts|
      ensures forall i :: 0 <= i < |texts| ==>
        cached[i] == if texts[i] in cache then Some(cache[texts[i]]) else None
    {
      cached := seq(|texts|, i requires 0 <= i < |texts| reads this =>
        if texts[i] in cache then Some(cache[texts[i]]) else None);
    }

    /** Embeds the missing texts and puts each vector in its slot and in the cache. */
    method Fill(texts: seq<string>, cached: seq<Option<V>>, missIndexes: seq<nat>, missTexts: seq<string>)
        returns (slots: seq<Option<V>>)
      requires Sound() && |cached| == |texts| && |missIndexes| == |missTexts|
      requires forall i :: 0 <= i < |texts| && cached[i].Some? ==> cached[i].value == inner(texts[i])
      requires forall j :: 0 <= j < |missIndexes| ==> missIndexes[j] < |texts| && texts[missIndexes[j]] == missTexts[j]
      modifies this
      ensures Sound() && |slots| == |texts| && asked == old(asked) + missTexts
      ensures cache.Keys == old(cache.Keys) + TextSet(missTexts)
      ensures forall i :: 0 <= i < |texts| && slots[i].Some? ==> slots[i].value == inner(texts[i])
      ensures forall i :: 0 <= i < |texts| && (cached[i].Some? || i in missIndexes) ==> slots[i].Some?
    {
      hide TextSet;
      TextSetOfNone(missTexts);
      slots := cached;
      var vectors := seq(|missTexts|, j requires 0 <= j < |missTexts| => inner(missTexts[j]));
      asked := asked + missTexts;
      for j := 0 to |missIndexes|
        invariant Sound() && |slots| == |texts| && asked == old(asked) + missTexts
        invariant cache.Keys == old(cache.Keys) + TextSet(missTexts[..j])
        invariant forall i :: 0 <= i < |texts| && slots[i].Some? ==> slots[i].value == inner(texts[i])
        invariant forall i :: 0 <= i < |texts| && cached[i].Some? ==> slots[i].Some?
        invariant forall l :: 0 <= l < j ==> slots[missIndexes[l]].Some?
      {
        TextSetOfMore(missTexts, j);
        slots := slots[missIndexes[j] := Some(vectors[j])];
        cache := cache[missTexts[j] := vectors[j]];
      }
      assert missTexts[..|missTexts|] == missTexts;
    }

    /** `lost` is what the cache has given up since, by expiry or eviction. */
    method Embed(texts: seq<string>, lost: set<string>) returns (out: seq<V>)
      requires Sound()
      modifies this
      ensures Sound()
      ensures |out| == |texts| && forall i :: 0 <= i < |texts| ==> out[i] == inner(texts[i])
      ensures asked == old(asked) + Misses(old(cache.Keys) - lost, texts, |texts|)
      ensures cache.Keys == old(cache.Keys) - lost + TextSet(texts)
    {
      cache := cache - lost;
      ghost var known := old(cache.Keys) - lost;
      assert cache.Keys == known;
      var cached := GetMany(texts);
      var missIndexes: seq<nat> := [];
      var missTexts: seq<string> := [];
      for i := 0 to |texts|
        invariant missIndexes == MissIndexes(known, texts, i) && missTexts == Misses(known, texts, i)
      {
        if cached[i].None? {
          missIndexes := missIndexes + [i];
          missTexts := missTexts + [texts[i]];
        }
      }
      hide Misses, MissIndexes, TextSet;
      IndexesAre(known, texts, |texts|);
      AllTextsKnown(known, texts, missTexts, missIndexes);
      var slots := Fill(texts, cached, missIndexes, missTexts);
      assert forall i :: 0 <= i < |texts| ==> slots[i].Some?;
      out := seq(|texts|, i requires 0 <= i < |texts| && slots[i].Some? => slots[i].value);
    }
  }

  lemma TextSetOfMore(texts: seq<string>, n: nat)
    requires n < |texts|
    ensures TextSet(texts[..n + 1]) == TextSet(texts[..n]) + {texts[n]}
  {
    assert texts[..n + 1] == texts[..n] + [texts[n]];
  }

  lemma TextSetOfNone(texts: seq<string>)
    ensures TextSet(texts[..0]) == {}
  {
  }

  lemma AllTextsKnown(known: set<string>, texts: seq<string>, misses: seq<string>, indexes: seq<nat>)
    requires |indexes| == |misses|
    requires forall j :: 0 <= j < |indexes| ==> indexes[j] < |texts| && texts[indexes[j]] == misses[j]
    requires forall i :: 0 <= i < |texts| && texts[i] !in known ==> i in indexes
    ensures known + TextSet(misses) == known + TextSet(texts)
  {
    forall t | t in texts && t !in known
      ensures t in misses
    {
      var i :| 0 <= i < |texts| && texts[i] == t;
      var j :| 0 <= j < |indexes| && indexes[j] == i;
      assert misses[j] == t;
    }
  }

  // ----- how often a text is embedded

  predicate Distinct(s: seq<string>) {
    forall i, j :: 0 <= i < j < |s| ==> s[i] != s[j]
  }

  /** The texts known after the first `n` batches, if the cache loses nothing. */
  function KnownAfter(batches: seq<seq<string>>, n: nat): set<string>
    requires n <= |batches|
  {
    if n == 0 then {} else KnownAfter(batches, n - 1) + TextSet(batches[n - 1])
  }

  /** Everything the inner embedder is asked for in the first `n` batches, if the cache loses nothing. */
  function Asked(batches: seq<seq<string>>, n: nat): seq<string>
    requires n <= |batches|
  {
    if n == 0 then []
    else Asked(batches, n - 1) + Misses(KnownAfter(batches, n - 1), batches[n - 1], |batches[n - 1]|)
  }

  lemma {:induction false} AskedIsKnown(batches: seq<seq<string>>, n: nat)
    requires n <= |batches|
    ensures forall t :: t in Asked(batches, n) ==> t in KnownAfter(batches, n)
  {
    if n > 0 {
      AskedIsKnown(batches, n - 1);
      MissesAreTexts(KnownAfter(batches, n - 1), batches[n - 1], |batches[n - 1]|);
    }
  }

  lemma MissesAreTexts(known: set<string>, texts: seq<string>, n: nat)
    requires n <= |texts|
    ensures forall t :: t in Misses(known, texts, n) ==> t in texts && t !in known
  {
    IndexesAre(known, texts, n);
    forall t | t in Misses(known, texts, n)
      ensures t in texts && t !in known
    {
      var j :| 0 <= j < |Misses(known, texts, n)| && Misses(known, texts, n)[j] == t;
      assert texts[MissIndexes(known, texts, n)[j]] == t;
    }
  }

  /** The missing texts of batch `k` are distinct. */
  predicate AsksOnce(batches: seq<seq<string>>, k: nat)
    requires k < |batches|
  {
    Distinct(Misses(KnownAfter(batches, k), batches[k], |batches[k]|))
  }

  /**
   With a cache that loses nothing, no text is ever embedded twice exactly when no batch repeats a
   text it misses: a repeat within one batch is embedded each time.
   */
  lemma {:induction false} EmbeddedOnceIff(batches: seq<seq<string>>, n: nat)
    requires n <= |batches|
    ensures Distinct(Asked(batches, n)) <==> forall k :: 0 <= k < n ==> AsksOnce(batches, k)
  {
    if n > 0 {
      EmbeddedOnceIff(batches, n - 1);
      AskedIsKnown(batches, n - 1);
      var misses := Misses(KnownAfter(batches, n - 1), batches[n - 1], |batches[n - 1]|);
      MissesAreTexts(KnownAfter(batches, n - 1), batches[n - 1], |batches[n - 1]|);
      DistinctAppend(Asked(batches, n - 1), misses);
      hide Misses, KnownAfter, Distinct;
      assert Asked(batches, n) == Asked(batches, n - 1) + misses;
      assert AsksOnce(batches, n - 1) == Distinct(misses);
    }
  }

  lemma DistinctAppend(s: seq<string>, t: seq<string>)
    requires forall x :: x in t ==> x !in s
    ensures Distinct(s + t) <==> Distinct(s) && Distinct(t)
  {
    var u := s + t;
    assert forall i :: 0 <= i < |s| ==> u[i] == s[i];
    assert forall i :: 0 <= i < |t| ==> u[|s| + i] == t[i];
    if Distinct(u) {
      forall i, j | 0 <= i < j < |t|
        ensures t[i] != t[j]
      {
        assert u[|s| + i] != u[|s| + j];
      }
    }
    if Distinct(s) && Distinct(t) {
      forall i, j | 0 <= i < j < |u|
        ensures u[i] != u[j]
      {
        assert j >= |s| ==> u[j] == t[j - |s|] && u[j] in t;
        assert i >= |s| ==> u[i] == t[i - |s|];
      }
    }
  }

  lemma RepeatsAreEmbeddedAgain(text: string)
    ensures Misses({}, [text, text], 2) == [text, text]
  {
    assert Misses({}, [text, text], 1) == [text];
  }
}
