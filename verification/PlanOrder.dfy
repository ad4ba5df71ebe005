/**
 Persisting a drafted plan (packages/cli/src/commands.ts, `orderPlanForPersist` and `persistPlan`).

 A list of tasks is in creation order when every task comes after the in-plan tasks it refers to.
 The repeated splice loop finds such an order exactly when one exists, and fails to exactly when
 the plan contains a knot: tasks that all wait for each other.
 */
module PlanOrder {
  import opened Options
  import Store = TaskStores

  type Id = string

  type Task = Store.Task<Id>

  function Ids(tasks: seq<Task>): set<Id> {
    set t | t in tasks :: t.id
  }

  function Members(tasks: seq<Task>): set<Task> {
    set t | t in tasks
  }

  /** The tasks of the plan `t` refers to: its parent and its dependencies, as far as they are in `ids`. */
  function Prereqs(ids: set<Id>, t: Task): set<Id> {
    (if t.parentId.Some? && t.parentId.value in ids then {t.parentId.value} else {})
    + set d | d in t.deps && d in ids
  }

  /** Every task comes after the in-plan tasks it refers to. */
  predicate InCreationOrder(ids: set<Id>, s: seq<Task>) {
    forall k :: 0 <= k < |s| ==> Prereqs(ids, s[k]) <= Ids(s[..k])
  }

  predicate SameTasks(s: seq<Task>, tasks: seq<Task>) {
    multiset(s) == multiset(tasks)
  }

  /** Tasks that all wait for one another: each refers to an id that only tasks of the knot carry. */
  predicate IsKnot(tasks: seq<Task>, knot: set<Task>) {
    && knot != {} && (forall t :: t in knot ==> t in tasks)
    && forall t :: t in knot ==>
         exists id :: id in Prereqs(Ids(tasks), t) && forall u :: u in tasks && u.id == id ==> u in knot
  }

  /** A knot rules out every creation order of the plan. */
  lemma KnotHasNoOrder(tasks: seq<Task>, knot: set<Task>, s: seq<Task>)
    requires IsKnot(tasks, knot) && SameTasks(s, tasks)
    ensures !InCreationOrder(Ids(tasks), s)
  {
    var k := FirstIn(s, tasks, knot);
    var t := s[k];
    var id :| id in Prereqs(Ids(tasks), t) && forall u :: u in tasks && u.id == id ==> u in knot;
    forall j | 0 <= j < k
      ensures s[j].id != id
    {
      assert s[j] in multiset(s);
    }
  }

  /** The earliest task of a non-empty set. */
  lemma FirstIn(s: seq<Task>, tasks: seq<Task>, knot: set<Task>) returns (k: nat)
    requires SameTasks(s, tasks) && knot != {} && forall t :: t in knot ==> t in tasks
    ensures k < |s| && s[k] in knot && forall j :: 0 <= j < k ==> s[j] !in knot
  {
    var t :| t in knot;
    assert t in multiset(tasks);
    k := 0;
    while s[k] !in knot
      invariant k < |s| && forall j :: 0 <= j < k ==> s[j] !in knot
      invariant t in s
      decreases |s| - k
    {
      k := k + 1;
    }
  }

  // ----- knots and cycles

  predicate DistinctIds(s: seq<Task>) {
    forall i, j :: 0 <= i < j < |s| ==> s[i].id != s[j].id
  }

  /** Each task refers to the next one, and so on to the end. */
  predicate IsPath(tasks: seq<Task>, p: seq<Task>) {
    && p != [] && (forall t :: t in p ==> t in tasks)
    && forall k :: 0 <= k < |p| - 1 ==> p[k + 1].id in Prereqs(Ids(tasks), p[k])
  }

  /** A path whose last task refers to its first. */
  predicate IsCycle(tasks: seq<Task>, c: seq<Task>) {
    IsPath(tasks, c) && c[0].id in Prereqs(Ids(tasks), c[|c| - 1])
  }

  lemma CycleIsKnot(tasks: seq<Task>, c: seq<Task>)
    requires DistinctIds(tasks) && IsCycle(tasks, c)
    ensures IsKnot(tasks, Members(c))
  {
    hide Prereqs;
    var knot := Members(c);
    assert c[0] in knot;
    forall t | t in knot
      ensures exists id :: id in Prereqs(Ids(tasks), t) && forall u :: u in tasks && u.id == id ==> u in knot
    {
      var k :| 0 <= k < |c| && c[k] == t;
      var next := if k + 1 < |c| then c[k + 1] else c[0];
      assert next in c && next.id in Prereqs(Ids(tasks), t);
    }
  }

  /** Within a knot a path can be followed until it comes back to itself. */
  lemma {:induction false} CycleInKnot(tasks: seq<Task>, knot: set<Task>, p: seq<Task>) returns (c: seq<Task>)
    requires IsKnot(tasks, knot) && IsPath(tasks, p) && forall t :: t in p ==> t in knot
    ensures IsCycle(tasks, c)
    decreases knot - Members(p)
  {
    hide Prereqs;
    var t := p[|p| - 1];
    var id :| id in Prereqs(Ids(tasks), t) && forall u :: u in tasks && u.id == id ==> u in knot;
    PrereqsAreIds(Ids(tasks), t, id);
    var u :| u in tasks && u.id == id;
    if i :| 0 <= i < |p| && p[i] == u {
      c := p[i..];
      forall k | 0 <= k < |c| - 1
        ensures c[k + 1].id in Prereqs(Ids(tasks), c[k])
      {
        assert p[i + k + 1].id in Prereqs(Ids(tasks), p[i + k]);
      }
    } else {
      var q := p + [u];
      assert forall k :: 0 <= k < |p| ==> q[k] == p[k];
      assert u in Members(q) && Members(p) <= Members(q) && u in knot - Members(p);
      c := CycleInKnot(tasks, knot, q);
    }
  }

  lemma PrereqsAreIds(ids: set<Id>, t: Task, id: Id)
    requires id in Prereqs(ids, t)
    ensures id in ids
  {
  }

  /** With unique ids a plan holds a knot exactly when its references run in a circle. */
  lemma KnotIffCycle(tasks: seq<Task>)
    requires DistinctIds(tasks)
    ensures (exists knot :: IsKnot(tasks, knot)) <==> exists c :: IsCycle(tasks, c)
  {
    if knot :| IsKnot(tasks, knot) {
      var t :| t in knot;
      var c := CycleInKnot(tasks, knot, [t]);
    }
    if c :| IsCycle(tasks, c) {
      CycleIsKnot(tasks, c);
    }
  }

  /** Nothing left over is ready: the leftovers are a knot. */
  lemma LeftoversAreKnot(tasks: seq<Task>, ordered: seq<Task>, remaining: seq<Task>)
    requires SameTasks(ordered + remaining, tasks) && remaining != []
    requires forall t :: t in remaining ==> !(Prereqs(Ids(tasks), t) <= Ids(ordered))
    ensures IsKnot(tasks, Members(remaining))
  {
    var knot := Members(remaining);
    forall t | t in tasks
      ensures t in ordered || t in knot
    {
      assert t in multiset(tasks);
      assert t in ordered + remaining;
    }
    forall t | t in knot
      ensures t in tasks
      ensures exists id :: id in Prereqs(Ids(tasks), t) && forall u :: u in tasks && u.id == id ==> u in knot
    {
      assert t in multiset(ordered + remaining);
      var id :| id in Prereqs(Ids(tasks), t) && id !in Ids(ordered);
    }
    assert remaining[0] in knot;
  }

  /** The repeated splice loop. */
  method OrderPlanForPersist(tasks: seq<Task>) returns (out: seq<Task>)
    ensures SameTasks(out, tasks)
    ensures InCreationOrder(Ids(tasks), out) <==> exists s :: SameTasks(s, tasks) && InCreationOrder(Ids(tasks), s)
    ensures InCreationOrder(Ids(tasks), out) <==> !exists knot :: IsKnot(tasks, knot)
    ensures DistinctIds(tasks) ==> (InCreationOrder(Ids(tasks), out) <==> !exists c :: IsCycle(tasks, c))
  {
    hide DistinctIds, IsCycle;
    if DistinctIds(tasks) {
      KnotIffCycle(tasks);
    }
    var ids := Ids(tasks);
    var ordered: seq<Task> := [];
    var done: set<Id> := {};
    var remaining := tasks;
    var progressed := true;
    while |remaining| > 0 && progressed
      invariant SameTasks(ordered + remaining, tasks) && done == Ids(ordered) && InCreationOrder(ids, ordered)
      invariant !progressed ==> forall t :: t in remaining ==> !(Prereqs(ids, t) <= done)
      decreases |remaining|, progressed
    {
      progressed := false;
      ghost var before := |remaining|;
      var i := 0;
      while i < |remaining|
        invariant 0 <= i <= |remaining| <= before
        invariant SameTasks(ordered + remaining, tasks) && done == Ids(ordered) && InCreationOrder(ids, ordered)
        invariant progressed <==> |remaining| < before
        invariant !progressed ==> forall k :: 0 <= k < i ==> !(Prereqs(ids, remaining[k]) <= done)
        decreases |remaining| - i
      {
        var t := remaining[i];
        if Prereqs(ids, t) <= done {
          MoveOver(ids, ordered, remaining, i);
          ordered := ordered + [t];
          done := done + {t.id};
          remaining := remaining[..i] + remaining[i + 1..];
          i := i - 1;
          progressed := true;
        }
        i := i + 1;
      }
    }
    out := ordered + remaining;
    if remaining == [] {
      assert out == ordered;
      forall knot | IsKnot(tasks, knot)
        ensures false
      {
        KnotHasNoOrder(tasks, knot, out);
      }
    } else {
      LeftoversAreKnot(tasks, ordered, remaining);
      forall s | SameTasks(s, tasks)
        ensures !InCreationOrder(ids, s)
      {
        KnotHasNoOrder(tasks, Members(remaining), s);
      }
    }
  }

  /** A ready task may come next, whatever is still to come. */
  lemma MoveOver(ids: set<Id>, ordered: seq<Task>, remaining: seq<Task>, i: nat)
    requires i < |remaining| && InCreationOrder(ids, ordered) && Prereqs(ids, remaining[i]) <= Ids(ordered)
    ensures InCreationOrder(ids, ordered + [remaining[i]])
    ensures Ids(ordered + [remaining[i]]) == Ids(ordered) + {remaining[i].id}
    ensures SameTasks((ordered + [remaining[i]]) + (remaining[..i] + remaining[i + 1..]), ordered + remaining)
  {
    OrderGrows(ids, ordered, remaining[i]);
    Spliced(ordered, remaining, i);
    hide InCreationOrder, Prereqs, SameTasks;
  }

  lemma OrderGrows(ids: set<Id>, ordered: seq<Task>, t: Task)
    requires InCreationOrder(ids, ordered) && Prereqs(ids, t) <= Ids(ordered)
    ensures InCreationOrder(ids, ordered + [t])
  {
    hide Prereqs, Ids;
    var s := ordered + [t];
    forall k | 0 <= k < |s|
      ensures Prereqs(ids, s[k]) <= Ids(s[..k])
    {
      assert k < |ordered| ==> s[..k] == ordered[..k];
      assert s[..|ordered|] == ordered;
    }
  }

  lemma Spliced(ordered: seq<Task>, remaining: seq<Task>, i: nat)
    requires i < |remaining|
    ensures SameTasks((ordered + [remaining[i]]) + (remaining[..i] + remaining[i + 1..]), ordered + remaining)
  {
    assert remaining == remaining[..i] + [remaining[i]] + remaining[i + 1..];
  }

  // ----- writing the plan

  /** What `create` stores: edges to tasks it does not know are left out, repeated dependencies count once. */
  function Trimmed(t: Task, known: set<Id>): Task {
    t.(parentId := if t.parentId.Some? && t.parentId.value in known then t.parentId else None,
       deps := KnownOnce(t.deps, known))
  }

  function KnownOnce(deps: seq<Id>, known: set<Id>): (r: seq<Id>)
    ensures forall d :: d in r <==> d in deps && d in known
    ensures forall i, j :: 0 <= i < j < |r| ==> r[i] != r[j]
  {
    if deps == [] then []
    else
      var front := KnownOnce(deps[..|deps| - 1], known);
      var d := deps[|deps| - 1];
      assert deps == deps[..|deps| - 1] + [d];
      if d in known && d !in front then front + [d] else front
  }

  /** The durable store after the first `n` tasks of `order` were created on top of `store`. */
  function StoreAfter(store: map<Id, Task>, order: seq<Task>, n: nat): map<Id, Task>
    requires n <= |order|
  {
    if n == 0 then store
    else
      var before := StoreAfter(store, order, n - 1);
      before[order[n - 1].id := Trimmed(order[n - 1], before.Keys)]
  }

  /** The tasks handed back for those creations. */
  function CreatedAfter(store: map<Id, Task>, order: seq<Task>, n: nat): (created: seq<Task>)
    requires n <= |order|
    ensures |created| == n
  {
    if n == 0 then []
    else CreatedAfter(store, order, n - 1) + [Trimmed(order[n - 1], StoreAfter(store, order, n - 1).Keys)]
  }

  method PersistPlan(store: Store.TaskStore<Id>, plan: seq<Task>)
      returns (r: Store.Outcome<seq<Task>, Store.Refusal<Id>>, ghost order: seq<Task>, ghost written: nat)
    requires store.Valid()
    modifies store
    ensures store.Valid()
    ensures SameTasks(order, plan)
    ensures InCreationOrder(Ids(plan), order) <==> !exists knot :: IsKnot(plan, knot)
    ensures written <= |order| && store.tasks == StoreAfter(old(store.tasks), order, written)
    ensures r.Ok? <==> DistinctIds(order) && Ids(order) !! old(store.tasks).Keys
    ensures r.Ok? ==> written == |order| && r.value == CreatedAfter(old(store.tasks), order, written)
    ensures r.Ok? ==> (KeepsAllEdges(order, r.value, Ids(plan)) <==> !exists knot :: IsKnot(plan, knot))
    ensures r.Err? ==>
      written < |order| && r.error == Store.Taken(order[written].id) && order[written].id in store.tasks
  {
    hide InCreationOrder, IsKnot, Trimmed, Filter, KnownOnce;
    var tasks := OrderPlanForPersist(plan);
    order, written := tasks, 0;
    var created: seq<Task> := [];
    for k := 0 to |tasks|
      invariant store.Valid() && written == k
      invariant store.tasks == StoreAfter(old(store.tasks), tasks, k)
      invariant created == CreatedAfter(old(store.tasks), tasks, k)
      invariant DistinctIds(tasks[..k]) && Ids(tasks[..k]) !! old(store.tasks).Keys
    {
      var t := tasks[k];
      var parentId := if t.parentId.Some? && t.parentId.value in store.tasks then t.parentId else None;
      var deps := Filter(t.deps, store.tasks.Keys);
      FilterThenTrim(t, parentId, store.tasks.Keys);
      OnlyTakenIdsRefused(t.(parentId := parentId, deps := deps), store.tasks.Keys);
      KnownAfter(old(store.tasks), tasks, k);
      var c := store.Create(t.(parentId := parentId, deps := deps));
      if c.Err? {
        Clash(old(store.tasks).Keys, tasks, k);
        return Store.Err(c.error), order, written;
      }
      NoClash(old(store.tasks).Keys, tasks, k);
      created := created + [c.value];
      written := written + 1;
    }
    assert tasks[..|tasks|] == tasks;
    CreatedKeepsEdgesIffInOrder(old(store.tasks), plan, tasks);
    r := Store.Ok(created);
  }

  lemma Clash(taken: set<Id>, s: seq<Task>, k: nat)
    requires k < |s| && s[k].id in taken + Ids(s[..k])
    ensures !(DistinctIds(s) && Ids(s) !! taken)
  {
    assert s[k].id in Ids(s);
  }

  lemma NoClash(taken: set<Id>, s: seq<Task>, k: nat)
    requires k < |s| && s[k].id !in taken + Ids(s[..k])
    requires DistinctIds(s[..k]) && Ids(s[..k]) !! taken
    ensures DistinctIds(s[..k + 1]) && Ids(s[..k + 1]) !! taken
  {
    assert s[..k + 1] == s[..k] + [s[k]];
    forall j | 0 <= j < k
      ensures s[j].id != s[k].id
    {
      assert s[j] == s[..k][j];
    }
  }

  /** `deps.filter(d => store.get(d) !== undefined)` */
  function Filter(deps: seq<Id>, known: set<Id>): (r: seq<Id>)
    ensures forall d :: d in r ==> d in known
  {
    if deps == [] then []
    else Filter(deps[..|deps| - 1], known) + if deps[|deps| - 1] in known then [deps[|deps| - 1]] else []
  }

  /** Filtering the edges before `create`, which counts repeated ones once, keeps the known edges, each once. */
  lemma FilterThenTrim(t: Task, parentId: Option<Id>, known: set<Id>)
    requires parentId == if t.parentId.Some? && t.parentId.value in known then t.parentId else None
    ensures t.(parentId := parentId, deps := Store.Once(Filter(t.deps, known))) == Trimmed(t, known)
  {
    FilterKnownOnce(t.deps, known);
  }

  /** With every edge known, only an id in use is refused. */
  lemma OnlyTakenIdsRefused(t: Task, known: set<Id>)
    requires (t.parentId.Some? ==> t.parentId.value in known) && forall d :: d in t.deps ==> d in known
    ensures Store.Refused(known, t) == if t.id in known then Some(Store.Taken(t.id)) else None
  {
    if t.id !in known {
      Store.RefusedIff(known, t, |t.deps|);
    }
  }

  lemma {:induction false} FilterKnownOnce(deps: seq<Id>, known: set<Id>)
    ensures Store.Once(Filter(deps, known)) == KnownOnce(deps, known)
  {
    if deps != [] {
      var front, d := deps[..|deps| - 1], deps[|deps| - 1];
      FilterKnownOnce(front, known);
      var kept := Filter(front, known);
      assert (kept + [d])[..|kept + [d]| - 1] == kept;
      assert kept + [] == kept;
    }
  }

  /** The stored copy of `t` has every edge of `t` that stays inside the plan. */
  predicate KeepsEdges(t: Task, stored: Task, ids: set<Id>) {
    && (t.parentId.Some? && t.parentId.value in ids ==> stored.parentId == t.parentId)
    && (forall d :: d in t.deps && d in ids ==> d in stored.deps)
  }

  lemma {:induction false} KnownAfter(store: map<Id, Task>, order: seq<Task>, n: nat)
    requires n <= |order|
    ensures StoreAfter(store, order, n).Keys == store.Keys + Ids(order[..n])
  {
    if n > 0 {
      KnownAfter(store, order, n - 1);
      assert order[..n] == order[..n - 1] + [order[n - 1]];
    }
  }

  lemma EdgesKeptAt(store: map<Id, Task>, order: seq<Task>, k: nat)
    requires Ids(order) !! store.Keys && k < |order|
    ensures Prereqs(Ids(order), order[k]) <= Ids(order[..k]) <==>
      KeepsEdges(order[k], Trimmed(order[k], StoreAfter(store, order, k).Keys), Ids(order))
  {
    KnownAfter(store, order, k);
    assert forall id :: id in Ids(order[..k]) ==> id in Ids(order);
    hide StoreAfter, Ids;
  }

  /**
   Over a store that shares no id with the plan, no in-plan edge is lost exactly when the plan was in
   creation order.
   */
  lemma EdgesKeptIffInOrder(store: map<Id, Task>, order: seq<Task>)
    requires Ids(order) !! store.Keys
    ensures InCreationOrder(Ids(order), order) <==>
      forall k :: 0 <= k < |order| ==>
        KeepsEdges(order[k], Trimmed(order[k], StoreAfter(store, order, k).Keys), Ids(order))
  {
    hide StoreAfter, Ids, Prereqs, KeepsEdges, Trimmed;
    forall k | 0 <= k < |order|
      ensures Prereqs(Ids(order), order[k]) <= Ids(order[..k]) <==>
        KeepsEdges(order[k], Trimmed(order[k], StoreAfter(store, order, k).Keys), Ids(order))
    {
      EdgesKeptAt(store, order, k);
    }
  }

  lemma {:induction false} CreatedAt(store: map<Id, Task>, order: seq<Task>, n: nat, k: nat)
    requires k < n <= |order|
    ensures CreatedAfter(store, order, n)[k] == Trimmed(order[k], StoreAfter(store, order, k).Keys)
  {
    if k < n - 1 {
      CreatedAt(store, order, n - 1, k);
    }
  }

  /** The created tasks carry every in-plan edge. */
  predicate KeepsAllEdges(order: seq<Task>, created: seq<Task>, ids: set<Id>)
    requires |created| == |order|
  {
    forall k :: 0 <= k < |order| ==> KeepsEdges(order[k], created[k], ids)
  }

  lemma CreatedKeepsEdgesIffInOrder(store: map<Id, Task>, plan: seq<Task>, order: seq<Task>)
    requires SameTasks(order, plan) && Ids(order) !! store.Keys
    ensures KeepsAllEdges(order, CreatedAfter(store, order, |order|), Ids(plan)) <==> InCreationOrder(Ids(plan), order)
  {
    SameIds(order, plan);
    EdgesKeptIffInOrder(store, order);
    forall k | 0 <= k < |order|
      ensures CreatedAfter(store, order, |order|)[k] == Trimmed(order[k], StoreAfter(store, order, k).Keys)
    {
      CreatedAt(store, order, |order|, k);
    }
  }

  lemma SameIds(s: seq<Task>, tasks: seq<Task>)
    requires SameTasks(s, tasks)
    ensures Ids(s) == Ids(tasks)
  {
    assert forall t :: t in s <==> t in multiset(s);
    assert forall t :: t in tasks <==> t in multiset(tasks);
  }
}
