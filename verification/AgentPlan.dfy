/**
 The plan of an agent run: tasks in a shared store, changed by directives
 (packages/agent/src/runner.ts, `applyDirectives`).
 */
module AgentPlan {
  import opened Options
  import opened TaskStores

  /**
   Which run: the steps at which it was delegated, starting from the root run. It stands for the
   random identifier of a run, which no two runs share.
   */
  type RunId = seq<nat>

  datatype TaskId =
    | Root(run: RunId)
    | Criterion(run: RunId, index: nat)
    | Recovery(role: string, step: nat)
    | Other(name: string)

  type Plan = map<TaskId, Task<TaskId>>

  datatype Directive =
    | Add(id: TaskId, title: string, parent: Option<TaskId>, notes: Option<string>, status: Option<Status>)
    | Update(id: TaskId, status: Option<Status>, newNotes: Option<Option<string>>, newTitle: Option<string>)

  function Known(ts: Plan, id: Option<TaskId>): Option<TaskId> {
    if id.Some? && id.value in ts then id else None
  }

  /** Adding a task that exists and updating one that does not change nothing; an unknown parent is left off. */
  function ApplyOne(ts: Plan, d: Directive): Plan {
    match d
    case Add(id, title, parent, notes, status) =>
      if id in ts then ts else ts[id := Task(id, title, Or(status, Todo), Known(ts, parent), [], notes)]
    case Update(id, status, notes, title) =>
      if id !in ts then ts else ts[id := Patched(ts[id], status, notes, title)]
  }

  function ApplyFirst(ts: Plan, ds: seq<Directive>, n: nat): Plan
    requires n <= |ds|
  {
    if n == 0 then ts else ApplyOne(ApplyFirst(ts, ds, n - 1), ds[n - 1])
  }

  function Apply(ts: Plan, ds: seq<Directive>): Plan {
    ApplyFirst(ts, ds, |ds|)
  }

  /** Never refused: what the store would refuse is skipped or trimmed first. */
  method ApplyDirectives(store: TaskStore<TaskId>, directives: seq<Directive>)
    requires store.Valid()
    modifies store
    ensures store.Valid() && store.tasks == Apply(old(store.tasks), directives)
  {
    for i := 0 to |directives|
      invariant store.Valid() && store.tasks == ApplyFirst(old(store.tasks), directives, i)
    {
      match directives[i]
      case Add(id, title, parent, notes, status) =>
        if id in store.tasks {
          continue;
        }
        var known := if parent.Some? && parent.value in store.tasks then parent else None;
        var created := store.Create(Task(id, title, Or(status, Todo), known, [], notes));
        assert created.Ok?;
      case Update(id, status, notes, title) =>
        if id !in store.tasks {
          continue;
        }
        var ok := store.Update(id, status, notes, title);
        assert ok;
    }
  }

  // ----- what directives leave alone

  predicate SameAt(ts: Plan, us: Plan, id: TaskId) {
    (id in ts <==> id in us) && (id in ts ==> ts[id] == us[id])
  }

  /** No directive removes a task. */
  lemma {:induction false} Stays(ts: Plan, ds: seq<Directive>, n: nat, id: TaskId)
    requires n <= |ds| && id in ts
    ensures id in ApplyFirst(ts, ds, n)
  {
    if n > 0 {
      Stays(ts, ds, n - 1, id);
    }
  }

  lemma {:induction false} ApplyFirstOfMore(ts: Plan, ds: seq<Directive>, more: seq<Directive>, n: nat)
    requires n <= |ds|
    ensures ApplyFirst(ts, ds + more, n) == ApplyFirst(ts, ds, n)
  {
    if n > 0 {
      ApplyFirstOfMore(ts, ds, more, n - 1);
    }
  }
}
