/**
 The task store that plans are kept in (packages/tasks/src/store.ts, `create` and `update`): a
 table of tasks by id whose references all resolve.
 */
module TaskStores {
  import opened Options

  datatype Outcome<T, E> = Ok(value: T) | Err(error: E)

  datatype Status = Todo | InProgress | Blocked | Done | Dropped

  datatype Task<Id> = Task(id: Id, title: string, status: Status, parentId: Option<Id>, deps: seq<Id>,
                           notes: Option<string>)

  /** Why a task is not created. */
  datatype Refusal<Id> = Taken(id: Id) | NoParent(id: Id) | NoDependency(id: Id) | DependsOnItself(id: Id)

  /** A repeated dependency counts once, where it is first named. */
  function Once<Id(==, !new)>(deps: seq<Id>): (r: seq<Id>)
    ensures forall d :: d in r <==> d in deps
    ensures forall i, j :: 0 <= i < j < |r| ==> r[i] != r[j]
  {
    if deps == [] then []
    else
      var front := Once(deps[..|deps| - 1]);
      var d := deps[|deps| - 1];
      assert deps == deps[..|deps| - 1] + [d];
      if d in front then front else front + [d]
  }

  /** What is wrong with the first bad dependency among the first `n`, if one is. */
  function BadDependency<Id(==, !new)>(known: set<Id>, id: Id, deps: seq<Id>, n: nat): Option<Refusal<Id>>
    requires n <= |deps|
  {
    if n == 0 then None
    else if BadDependency(known, id, deps, n - 1).Some? then BadDependency(known, id, deps, n - 1)
    else if deps[n - 1] == id then Some(DependsOnItself(id))
    else if deps[n - 1] !in known then Some(NoDependency(deps[n - 1]))
    else None
  }

  function Refused<Id(==, !new)>(known: set<Id>, t: Task<Id>): Option<Refusal<Id>> {
    if t.id in known then Some(Taken(t.id))
    else if t.parentId.Some? && t.parentId.value !in known then Some(NoParent(t.parentId.value))
    else BadDependency(known, t.id, t.deps, |t.deps|)
  }

  /** A task is refused exactly for an id in use, or a reference, itself included, to no other task there is. */
  lemma {:induction false} RefusedIff<Id(!new)>(known: set<Id>, t: Task<Id>, n: nat)
    requires n <= |t.deps| && t.id !in known
    ensures BadDependency(known, t.id, t.deps, n).Some? <==> exists k :: 0 <= k < n && t.deps[k] !in known
  {
    if n > 0 {
      RefusedIff(known, t, n - 1);
    }
  }

  function Patched<Id>(t: Task<Id>, status: Option<Status>, notes: Option<Option<string>>,
                       title: Option<string>): Task<Id> {
    t.(title := Or(title, t.title), status := Or(status, t.status), notes := Or(notes, t.notes))
  }

  /** Every task is filed under its own id, and its parent and dependencies are in the table. */
  ghost predicate Resolves<Id(!new)>(tasks: map<Id, Task<Id>>) {
    forall id :: id in tasks ==>
      && tasks[id].id == id
      && (tasks[id].parentId.Some? ==> tasks[id].parentId.value in tasks)
      && forall d :: d in tasks[id].deps ==> d in tasks
  }

  lemma ResolvesWith<Id(!new)>(tasks: map<Id, Task<Id>>, t: Task<Id>)
    requires Resolves(tasks) && Refused(tasks.Keys, t).None?
    ensures Resolves(tasks[t.id := t.(deps := Once(t.deps))])
  {
    RefusedIff(tasks.Keys, t, |t.deps|);
  }

  lemma OnceOfMore<Id(!new)>(deps: seq<Id>, i: nat)
    requires i < |deps|
    ensures var front := Once(deps[..i]);
      Once(deps[..i + 1]) == if deps[i] in front then front else front + [deps[i]]
  {
    assert deps[..i + 1][..i] == deps[..i];
  }

  lemma OnceOfNone<Id(!new)>(deps: seq<Id>)
    ensures Once(deps[..0]) == []
  {
  }

  class TaskStore<Id(==, !new)> {
    var tasks: map<Id, Task<Id>>

    constructor ()
      ensures tasks == map[] && Valid()
    {
      tasks := map[];
    }

    ghost predicate Valid()
      reads this
    {
      Resolves(tasks)
    }

    /** The task is entered first and its dependencies are added one by one; a bad one takes it out again. */
    method Create(t: Task<Id>) returns (r: Outcome<Task<Id>, Refusal<Id>>)
      requires Valid()
      modifies this
      ensures Valid()
      ensures var refusal := Refused(old(tasks).Keys, t);
        if refusal.Some? then r == Err(refusal.value) && tasks == old(tasks)
        else r == Ok(t.(deps := Once(t.deps))) && tasks == old(tasks)[t.id := r.value]
    {
      hide Once, Resolves;
      ghost var before := tasks;
      if t.id in tasks {
        return Err(Taken(t.id));
      }
      if t.parentId.Some? && t.parentId.value !in tasks {
        return Err(NoParent(t.parentId.value));
      }
      tasks := tasks[t.id := t.(deps := [])];
      OnceOfNone(t.deps);
      for i := 0 to |t.deps|
        invariant tasks == before[t.id := t.(deps := Once(t.deps[..i]))]
        invariant BadDependency(before.Keys, t.id, t.deps, i).None?
      {
        var d := t.deps[i];
        OnceOfMore(t.deps, i);
        if d !in tasks || d == t.id {
          tasks := tasks - {t.id};
          BadOnesStay(before.Keys, t.id, t.deps, i + 1, |t.deps|);
          assert tasks == before;
          return Err(if d == t.id then DependsOnItself(d) else NoDependency(d));
        }
        if d !in tasks[t.id].deps {
          tasks := tasks[t.id := t.(deps := tasks[t.id].deps + [d])];
        }
      }
      assert t.deps[..|t.deps|] == t.deps;
      ResolvesWith(before, t);
      r := Ok(tasks[t.id]);
    }

    /** Refused for an unknown task. */
    method Update(id: Id, status: Option<Status>, notes: Option<Option<string>>, title: Option<string>)
        returns (ok: bool)
      requires Valid()
      modifies this
      ensures Valid()
      ensures ok <==> id in old(tasks)
      ensures tasks == if ok then old(tasks)[id := Patched(old(tasks)[id], status, notes, title)] else old(tasks)
    {
      if id !in tasks {
        return false;
      }
      tasks := tasks[id := Patched(tasks[id], status, notes, title)];
      return true;
    }
  }

  lemma {:induction false} BadOnesStay<Id(!new)>(known: set<Id>, id: Id, deps: seq<Id>, n: nat, m: nat)
    requires n <= m <= |deps| && BadDependency(known, id, deps, n).Some?
    ensures BadDependency(known, id, deps, m) == BadDependency(known, id, deps, n)
  {
    if n < m {
      BadOnesStay(known, id, deps, n, m - 1);
    }
  }
}
