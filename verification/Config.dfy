/**
 Layered configuration: the deep merge of layers (packages/config/src/loader.ts) and dotted-path
 reads and writes (packages/cli/src/config-io.ts).
 */
module Config {
  import opened Options

  /** Objects and arrays are both their members by name; only objects are merged and written into. */
  datatype Json =
    | Undefined
    | Leaf(text: string)
    | Arr(members: map<string, Json>)
    | Obj(members: map<string, Json>)

  type Members = map<string, Json>

  predicate Given(m: Members, k: string) {
    k in m && !m[k].Undefined?
  }

  predicate BothObjects(t: Members, s: Members, k: string) {
    k in t && k in s && t[k].Obj? && s[k].Obj?
  }

  /** What the merge holds: given members of the source win, objects meeting objects are merged in turn. */
  function Merge(target: Members, source: Members): Members
    decreases Obj(source)
  {
    map k | k in target.Keys + source.Keys && (k in target || Given(source, k)) ::
      if !Given(source, k) then target[k]
      else if BothObjects(target, source, k) then Obj(Merge(target[k].members, source[k].members))
      else source[k]
  }

  /** What a given member of the source becomes. */
  function Won(target: Members, source: Members, k: string): Json
    requires Given(source, k)
  {
    if BothObjects(target, source, k) then Obj(Merge(target[k].members, source[k].members)) else source[k]
  }

  /** The target with the members of the source in `done` merged in. */
  ghost predicate IsMergedOn(out: Members, target: Members, source: Members, done: set<string>) {
    && (forall k :: k in out <==> k in target || (k in done && Given(source, k)))
    && (forall k :: k in out ==> out[k] == if k in done && Given(source, k) then Won(target, source, k) else target[k])
  }

  lemma MergedOnAll(out: Members, target: Members, source: Members)
    requires IsMergedOn(out, target, source, source.Keys)
    ensures out == Merge(target, source)
  {
    forall k
      ensures (k in out <==> k in Merge(target, source)) && (k in out ==> out[k] == Merge(target, source)[k])
    {
      MergeAt(target, source, k);
    }
    hide Merge;
    assert out.Keys == Merge(target, source).Keys;
  }

  /** Merging in one more member; until then the copy holds what the target held. */
  lemma MergedOneMore(out: Members, target: Members, source: Members, done: set<string>, k: string)
    requires IsMergedOn(out, target, source, done) && k in source && k !in done
    ensures (k in out <==> k in target) && (k in out ==> out[k] == target[k])
    ensures IsMergedOn(if Given(source, k) then out[k := Won(target, source, k)] else out, target, source, done + {k})
  {
    hide Merge;
  }

  lemma MergedNone(target: Members, source: Members)
    ensures IsMergedOn(target, target, source, {})
  {
  }

  /** The merge as the source computes it: a copy of the target, then one assignment a member of the source. */
  method DeepMerge(target: Members, source: Members) returns (out: Members)
    ensures out == Merge(target, source)
    decreases Obj(source)
  {
    hide Merge, IsMergedOn;
    out := target;
    var todo := source.Keys;
    ghost var done := {};
    MergedNone(target, source);
    while todo != {}
      invariant done + todo == source.Keys && done !! todo && IsMergedOn(out, target, source, done)
      decreases |todo|
    {
      var k :| k in todo;
      MergedOneMore(out, target, source, done, k);
      todo, done := todo - {k}, done + {k};
      if source[k].Undefined? {
        continue;
      }
      if k in out && out[k].Obj? && source[k].Obj? {
        var below := source[k];
        var inner := DeepMerge(out[k].members, below.members);
        out := out[k := Obj(inner)];
      } else {
        out := out[k := source[k]];
      }
    }
    assert done == source.Keys;
    MergedOnAll(out, target, source);
  }

  lemma MergeWithNothing(m: Members)
    ensures Merge(m, map[]) == m
    ensures Merge(map[], m) == m <==> forall k :: k in m ==> !m[k].Undefined?
  {
    if k :| k in m && m[k].Undefined? {
      assert k !in Merge(map[], m);
    }
  }

  lemma {:induction false} MergeWithItself(m: Members)
    ensures Merge(m, m) == m
    decreases Obj(m)
  {
    forall k | k in m
      ensures Merge(m, m)[k] == m[k]
    {
      if m[k].Obj? {
        MergeWithItself(m[k].members);
      }
    }
  }

  /** Merging a source again changes nothing. */
  lemma {:induction false} MergeAgain(target: Members, source: Members)
    ensures Merge(Merge(target, source), source) == Merge(target, source)
    decreases Obj(source)
  {
    var once := Merge(target, source);
    forall k | k in once
      ensures Merge(once, source)[k] == once[k]
    {
      if BothObjects(target, source, k) {
        MergeAgain(target[k].members, source[k].members);
      } else if Given(source, k) && source[k].Obj? {
        MergeWithItself(source[k].members);
      }
    }
  }

  // ----- associativity

  /** Nothing of `x` shows in a merge onto it of `y`. */
  predicate Hides(y: Members, x: Members)
    decreases Obj(y)
  {
    && (forall k :: k in x ==> k in y && (y[k].Undefined? ==> x[k].Undefined?))
    && (forall k :: k in y && y[k].Undefined? ==> k in x)
    && (forall k :: k in y && BothObjects(x, y, k) ==> Hides(y[k].members, x[k].members))
  }

  lemma {:induction false} HidesIff(x: Members, y: Members)
    ensures Merge(x, y) == y <==> Hides(y, x)
    decreases Obj(y)
  {
    forall k | k in y && BothObjects(x, y, k)
      ensures Merge(x[k].members, y[k].members) == y[k].members <==> Hides(y[k].members, x[k].members)
    {
      HidesIff(x[k].members, y[k].members);
    }
    var m := Merge(x, y);
    if m == y {
      forall k | k in x
        ensures k in y && (y[k].Undefined? ==> x[k].Undefined?)
      {
        assert k in m;
      }
      forall k | k in y && BothObjects(x, y, k)
        ensures Hides(y[k].members, x[k].members)
      {
        assert m[k] == Obj(Merge(x[k].members, y[k].members));
      }
    }
    if Hides(y, x) {
      assert m.Keys == y.Keys;
      forall k | k in y
        ensures m[k] == y[k]
      {
      }
    }
  }

  /**
   Wherever the outer layers both hold an object, the middle one holds an object too, or nothing, or
   what the lowest holds would not show anyway.
   */
  predicate Agree(a: Members, b: Members, c: Members)
    decreases Obj(c)
  {
    forall k :: k in c && BothObjects(a, c, k) && Given(b, k) ==>
      if b[k].Obj? then Agree(a[k].members, b[k].members, c[k].members) else Hides(c[k].members, a[k].members)
  }

  /** One member of the two ways to merge three layers. */
  lemma MergeAt(target: Members, source: Members, k: string)
    ensures k in Merge(target, source) <==> k in target || Given(source, k)
    ensures k in Merge(target, source) ==>
      Merge(target, source)[k] == if !Given(source, k) then target[k]
        else if BothObjects(target, source, k) then Obj(Merge(target[k].members, source[k].members)) else source[k]
  {
  }

  lemma AssociativeAt(a: Members, b: Members, c: Members, k: string)
    requires k in c && BothObjects(a, c, k) && Given(b, k) && b[k].Obj? ==>
      (Merge(Merge(a[k].members, b[k].members), c[k].members) == Merge(a[k].members, Merge(b[k].members, c[k].members))
       <==> Agree(a[k].members, b[k].members, c[k].members))
    ensures var left, right := Merge(Merge(a, b), c), Merge(a, Merge(b, c));
      && (k in left <==> k in right)
      && (k in left ==> (left[k] == right[k] <==> AgreeAt(a, b, c, k)))
  {
    MergeAt(a, b, k);
    MergeAt(b, c, k);
    MergeAt(Merge(a, b), c, k);
    MergeAt(a, Merge(b, c), k);
    if BothObjects(a, c, k) {
      HidesIff(a[k].members, c[k].members);
    }
    hide Merge, Agree, Hides;
  }

  /** Merging three layers from below or from above is the same exactly when the layers agree. */
  lemma {:induction false} AssociativeIff(a: Members, b: Members, c: Members)
    ensures Merge(Merge(a, b), c) == Merge(a, Merge(b, c)) <==> Agree(a, b, c)
    decreases Obj(c)
  {
    var left, right := Merge(Merge(a, b), c), Merge(a, Merge(b, c));
    forall k
      ensures (k in left <==> k in right) && (k in left ==> (left[k] == right[k] <==> AgreeAt(a, b, c, k)))
      ensures k !in left ==> AgreeAt(a, b, c, k)
    {
      if k in c && BothObjects(a, c, k) && Given(b, k) && b[k].Obj? {
        AssociativeIff(a[k].members, b[k].members, c[k].members);
      }
      AssociativeAt(a, b, c, k);
      MergeAt(Merge(a, b), c, k);
      MergeAt(a, b, k);
      hide Merge, Agree, Hides;
    }
    AgreeIff(a, b, c);
    hide Merge, Agree, AgreeAt;
    if forall k :: AgreeAt(a, b, c, k) {
      assert left == right;
    } else {
      var k :| !AgreeAt(a, b, c, k);
      assert k in left && left[k] != right[k];
    }
  }

  predicate AgreeAt(a: Members, b: Members, c: Members, k: string) {
    k in c && BothObjects(a, c, k) && Given(b, k) ==>
      if b[k].Obj? then Agree(a[k].members, b[k].members, c[k].members) else Hides(c[k].members, a[k].members)
  }

  lemma AgreeIff(a: Members, b: Members, c: Members)
    ensures Agree(a, b, c) <==> forall k :: AgreeAt(a, b, c, k)
  {
    forall k | k in c && BothObjects(a, c, k) && Given(b, k)
      ensures AgreeAt(a, b, c, k) <==>
        if b[k].Obj? then Agree(a[k].members, b[k].members, c[k].members) else Hides(c[k].members, a[k].members)
    {
    }
  }

  /**
   A middle layer without the object its neighbours have: merged from above it lets the lowest layer
   show, from below it does not.
   */
  lemma GroupingMatters()
    ensures var a, b, c := map["k" := Obj(map["x" := Leaf("1")])], map["k" := Leaf("2")], map["k" := Obj(map[])];
      Merge(Merge(a, b), c) != Merge(a, Merge(b, c))
  {
    var a, b, c := map["k" := Obj(map["x" := Leaf("1")])], map["k" := Leaf("2")], map["k" := Obj(map[])];
    AssociativeIff(a, b, c);
    AgreeIff(a, b, c);
    assert !Hides(c["k"].members, a["k"].members) by {
      assert "x" in a["k"].members && "x" !in c["k"].members;
    }
    assert Given(b, "k") && BothObjects(a, c, "k") && !b["k"].Obj?;
    assert !AgreeAt(a, b, c, "k");
    hide Merge, Agree;
  }

  // ----- reading a path

  /** `getPath`: own members of objects and arrays, one part at a time. */
  function Get(value: Json, path: seq<string>, i: nat): Option<Json>
    requires i <= |path|
    decreases |path| - i
  {
    if i == |path| then Some(value)
    else if (value.Obj? || value.Arr?) && path[i] in value.members then Get(value.members[path[i]], path, i + 1)
    else None
  }

  method GetPath(value: Json, path: seq<string>) returns (r: Option<Json>)
    ensures r == Get(value, path, 0)
  {
    var cur := value;
    for i := 0 to |path|
      invariant Get(value, path, 0) == Get(cur, path, i)
    {
      if (cur.Obj? || cur.Arr?) && path[i] in cur.members {
        cur := cur.members[path[i]];
      } else {
        return None;
      }
    }
    r := Some(cur);
  }

  /** A value of a higher layer that is no object wins; an array wins whole. */
  lemma {:induction false} SourceWins(target: Members, source: Members, path: seq<string>, i: nat)
    requires i < |path| && Get(Obj(source), path, i).Some?
    requires !Get(Obj(source), path, i).value.Obj? && !Get(Obj(source), path, i).value.Undefined?
    ensures Get(Obj(Merge(target, source)), path, i) == Get(Obj(source), path, i)
    decreases |path| - i
  {
    var k := path[i];
    MergeAt(target, source, k);
    if BothObjects(target, source, k) {
      SourceWins(target[k].members, source[k].members, path, i + 1);
    }
    hide Merge;
  }

  /**
   The source gives nothing on the path: not there, undefined, or an object that meets one and gives
   nothing further down.
   */
  predicate Silent(target: Members, source: Members, path: seq<string>, i: nat)
    requires i < |path|
    decreases |path| - i
  {
    !Given(source, path[i])
    || (BothObjects(target, source, path[i]) && i + 1 < |path|
        && Silent(target[path[i]].members, source[path[i]].members, path, i + 1))
  }

  lemma {:induction false} TargetShowsThrough(target: Members, source: Members, path: seq<string>, i: nat)
    requires i < |path| && Silent(target, source, path, i)
    ensures Get(Obj(Merge(target, source)), path, i) == Get(Obj(target), path, i)
    decreases |path| - i
  {
    var k := path[i];
    MergeAt(target, source, k);
    if BothObjects(target, source, k) && Given(source, k) {
      TargetShowsThrough(target[k].members, source[k].members, path, i + 1);
    }
    hide Merge;
  }

  /** The layers merged from the lowest up. */
  function Merged(layers: seq<Members>, n: nat): Members
    requires n <= |layers|
  {
    if n == 0 then map[] else Merge(Merged(layers, n - 1), layers[n - 1])
  }

  method LoadLayers(layers: seq<Members>) returns (merged: Members)
    ensures merged == Merged(layers, |layers|)
  {
    merged := map[];
    for n := 0 to |layers|
      invariant merged == Merged(layers, n)
    {
      merged := DeepMerge(merged, layers[n]);
    }
  }

  /** A path reads as the highest layer that gives a value for it, if those above it are silent. */
  lemma {:induction false} HighestLayerWins(layers: seq<Members>, n: nat, layer: nat, path: seq<string>)
    requires layer < n <= |layers| && path != []
    requires Get(Obj(layers[layer]), path, 0).Some?
    requires !Get(Obj(layers[layer]), path, 0).value.Obj? && !Get(Obj(layers[layer]), path, 0).value.Undefined?
    requires forall l :: layer < l < n ==> Silent(Merged(layers, l), layers[l], path, 0)
    ensures Get(Obj(Merged(layers, n)), path, 0) == Get(Obj(layers[layer]), path, 0)
  {
    hide Merge, Silent, Get;
    if layer == n - 1 {
      SourceWins(Merged(layers, n - 1), layers[layer], path, 0);
    } else {
      HighestLayerWins(layers, n - 1, layer, path);
      TargetShowsThrough(Merged(layers, n - 1), layers[n - 1], path, 0);
    }
  }

  // ----- writing a path

  const REFUSED := {"__proto__", "constructor", "prototype"}

  /** The object after a write, and the part that was refused, if one was. */
  datatype Written = Written(obj: Members, refused: Option<string>)

  function ObjectAt(m: Members, k: string): Members {
    if k in m && m[k].Obj? then m[k].members else map[]
  }

  /** Objects on the path are written into; anything else on it gives way to a new object. */
  function Set(m: Members, path: seq<string>, i: nat, value: Json): Written
    requires i < |path|
    decreases |path| - i
  {
    var k := path[i];
    if k in REFUSED then Written(m, Some(k))
    else if i + 1 == |path| then Written(m[k := value], None)
    else
      var inner := Set(ObjectAt(m, k), path, i + 1, value);
      Written(m[k := Obj(inner.obj)], inner.refused)
  }

  predicate FirstRefused(path: seq<string>, i: nat, j: nat)
    requires i <= j < |path|
  {
    path[j] in {"__proto__", "constructor", "prototype"}
    && forall l :: i <= l < j ==> path[l] !in {"__proto__", "constructor", "prototype"}
  }

  /** A write is refused exactly when some part of the path is; the first such part is named. */
  lemma {:induction false} RefusedIff(m: Members, path: seq<string>, i: nat, value: Json)
    requires i < |path|
    ensures var r := Set(m, path, i, value).refused;
      && (r.None? <==> forall j :: i <= j < |path| ==> path[j] !in {"__proto__", "constructor", "prototype"})
      && (r.Some? ==> exists j :: i <= j < |path| && path[j] == r.value && FirstRefused(path, i, j))
    decreases |path| - i
  {
    if path[i] !in REFUSED && i + 1 < |path| {
      RefusedIff(ObjectAt(m, path[i]), path, i + 1, value);
    }
  }

  /** What was written is what is read. */
  lemma {:induction false} GetAfterSet(m: Members, path: seq<string>, i: nat, value: Json)
    requires i < |path| && Set(m, path, i, value).refused.None?
    ensures Get(Obj(Set(m, path, i, value).obj), path, i) == Some(value)
    decreases |path| - i
  {
    if i + 1 < |path| {
      GetAfterSet(ObjectAt(m, path[i]), path, i + 1, value);
    }
  }

  /** The paths part at position `d`. */
  predicate PartAt(path: seq<string>, other: seq<string>, d: nat) {
    d < |path| && d < |other| && path[d] != other[d] && forall j :: 0 <= j < d ==> path[j] == other[j]
  }

  /** An array lies on the path above where another path leaves it. */
  predicate ArrayAbove(m: Members, path: seq<string>, i: nat, d: nat)
    requires i <= d < |path|
    decreases d - i
  {
    i < d && path[i] in m && (m[path[i]].Arr? || (m[path[i]].Obj? && ArrayAbove(m[path[i]].members, path, i + 1, d)))
  }

  /** A path that parts from the written one reads as before, unless it went through an array, which is gone. */
  lemma {:induction false} OtherPathsAfterSet(m: Members, path: seq<string>, other: seq<string>, d: nat, i: nat,
                                              value: Json)
    requires PartAt(path, other, d) && i <= d && Set(m, path, i, value).refused.None?
    ensures var after := Get(Obj(Set(m, path, i, value).obj), other, i);
      after == if ArrayAbove(m, path, i, d) then None else Get(Obj(m), other, i)
    decreases |path| - i
  {
    if i < d {
      var k := path[i];
      OtherPathsAfterSet(ObjectAt(m, k), path, other, d, i + 1, value);
      if k !in m || !m[k].Obj? {
        NothingThere(other, i + 1);
      }
    }
  }

  lemma NothingThere(path: seq<string>, i: nat)
    requires i < |path|
    ensures Get(Obj(map[]), path, i) == None
  {
  }

  /** So a write leaves another path alone exactly when it had no value, or no array was on the shared part. */
  lemma SetKeepsIff(m: Members, path: seq<string>, other: seq<string>, d: nat, value: Json)
    requires PartAt(path, other, d) && Set(m, path, 0, value).refused.None?
    ensures Get(Obj(Set(m, path, 0, value).obj), other, 0) == Get(Obj(m), other, 0) <==>
      Get(Obj(m), other, 0).None? || !ArrayAbove(m, path, 0, d)
  {
    OtherPathsAfterSet(m, path, other, d, 0, value);
    hide Set, Get;
  }

  /** Writing one member of an array loses the others: the array gives way to an object. */
  lemma ArrayGivesWay(value: Json)
    ensures var m := map["list" := Arr(map["0" := Leaf("x")])];
      Get(Obj(m), ["list", "0"], 0) == Some(Leaf("x"))
      && Get(Obj(Set(m, ["list", "1"], 0, value).obj), ["list", "0"], 0) == None
  {
    var m := map["list" := Arr(map["0" := Leaf("x")])];
    OtherPathsAfterSet(m, ["list", "1"], ["list", "0"], 1, 0, value);
    hide Set;
  }
}
