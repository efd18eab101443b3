/** The task registry, and the flips between foreground and background that run
    through its `update` (src/task_registry.py, src/agent/foreground_promotion.py:57-116). */
module TaskRegistry {
  import opened Json
  import opened TasksCore

  /** `rest` stands for the fields that no flip touches. */
  datatype TaskState<R> = TaskState(id: string, localAgent: bool, status: Status, backgrounded: bool, rest: R)

  datatype Entry<R> = Entry(key: string, task: TaskState<R>)

  // A dict in insertion order.
  function Position<R>(es: seq<Entry<R>>, key: string): (i: nat)
    ensures i <= |es| && (forall j | 0 <= j < i :: es[j].key != key) && (i < |es| ==> es[i].key == key)
  {
    if es == [] || es[0].key == key then 0 else 1 + Position(es[1..], key)
  }

  function Get<R>(es: seq<Entry<R>>, key: string): Option<TaskState<R>> {
    if Position(es, key) < |es| then Some(es[Position(es, key)].task) else None
  }

  function KeysOf<R>(es: seq<Entry<R>>): seq<string> {
    seq(|es|, i requires 0 <= i < |es| => es[i].key)
  }

  function TasksOf<R>(es: seq<Entry<R>>): seq<TaskState<R>> {
    seq(|es|, i requires 0 <= i < |es| => es[i].task)
  }

  predicate DistinctKeys<R>(es: seq<Entry<R>>) {
    forall i, j | 0 <= i < j < |es| :: es[i].key != es[j].key
  }

  /** What a call of `update` is given: a coroutine function, or a function that
      returns a task or (by mistake) a coroutine.  `marks` says for which entries it
      sets the caller's `nonlocal` variable while it runs. */
  datatype Mutator<!R> =
    | Coroutine
    | Sync(f: TaskState<R> -> Option<TaskState<R>>, marks: TaskState<R> -> bool)

  datatype Updated = Applied | Absent | TypeError

  function Map<R>(o: Option<TaskState<R>>, f: TaskState<R> -> TaskState<R>): Option<TaskState<R>> {
    match o
    case None => None
    case Some(t) => Some(f(t))
  }

  function Demoted<R>(t: TaskState<R>): TaskState<R> {
    if t.localAgent && t.backgrounded then t.(backgrounded := false) else t
  }

  predicate CanPromote<R>(t: TaskState<R>) {
    t.localAgent && t.status == Running && !t.backgrounded
  }

  function Promoted<R>(t: TaskState<R>): TaskState<R> {
    if CanPromote(t) then t.(backgrounded := true) else t
  }

  class RuntimeTaskRegistry<R> {
    var tasks: seq<Entry<R>>

    ghost predicate Valid()
      reads this
    {
      DistinctKeys(tasks)
    }

    constructor ()
      ensures Valid() && tasks == []
    {
      tasks := [];
    }

    method Lookup(id: string) returns (r: Option<TaskState<R>>)
      ensures r == Get(tasks, id)
    {
      var i := Position(tasks, id);
      return if i < |tasks| then Some(tasks[i].task) else None;
    }

    method All() returns (r: seq<TaskState<R>>)
      ensures r == TasksOf(tasks)
    {
      return TasksOf(tasks);
    }

    method Upsert(task: TaskState<R>)
      requires Valid()
      modifies this
      ensures Valid() && Get(tasks, task.id) == Some(task)
      ensures KeysOf(tasks) == KeysOf(old(tasks)) + if Get(old(tasks), task.id).Some? then [] else [task.id]
      ensures forall id | id != task.id :: Get(tasks, id) == Get(old(tasks), id)
    {
      var i := Position(tasks, task.id);
      SetAt(tasks, i, task.id, task);
      tasks := tasks[..i] + [Entry(task.id, task)] + if i < |tasks| then tasks[i + 1..] else [];
    }

    method Remove(id: string) returns (removed: bool)
      requires Valid()
      modifies this
      ensures Valid() && Get(tasks, id) == None && removed == Get(old(tasks), id).Some?
      ensures forall other | other != id :: Get(tasks, other) == Get(old(tasks), other)
    {
      var i := Position(tasks, id);
      if i == |tasks| {
        return false;
      }
      RemoveAt(tasks, i);
      tasks := tasks[..i] + tasks[i + 1..];
      return true;
    }

    /** Replaces one entry by its image; an absent entry, or a mutator that is or
        returns a coroutine, changes nothing. */
    method Update(id: string, mutator: Mutator<R>) returns (r: Updated, marked: bool)
      requires Valid()
      modifies this
      ensures Valid() && KeysOf(tasks) == KeysOf(old(tasks))
      ensures var prev := Get(old(tasks), id);
        match r
        case TypeError =>
          tasks == old(tasks) && (mutator.Coroutine? || (prev.Some? && mutator.f(prev.value).None?))
        case Absent => tasks == old(tasks) && mutator.Sync? && prev == None
        case Applied => mutator.Sync? && prev.Some? && Get(tasks, id) == mutator.f(prev.value)
      ensures marked <==> mutator.Sync? && Get(old(tasks), id).Some? && mutator.marks(Get(old(tasks), id).value)
      ensures forall other | other != id :: Get(tasks, other) == Get(old(tasks), other)
    {
      marked := false;
      if mutator.Coroutine? {
        return TypeError, marked;
      }
      var i := Position(tasks, id);
      if i == |tasks| {
        return Absent, marked;
      }
      var next := mutator.f(tasks[i].task);
      marked := mutator.marks(tasks[i].task);
      if next.None? {
        return TypeError, marked;
      }
      SetAt(tasks, i, id, next.value);
      tasks := tasks[..i] + [Entry(id, next.value)] + tasks[i + 1..];
      return Applied, marked;
    }

    method RegisterForeground(id: string)
      requires Valid()
      modifies this
      ensures Valid() && Get(tasks, id) == Map(Get(old(tasks), id), t => Demoted(t))
      ensures match Get(old(tasks), id)
        case None => Get(tasks, id) == None
        case Some(t) => Get(tasks, id) == Some(if t.localAgent then t.(backgrounded := false) else t)
      ensures forall other | other != id :: Get(tasks, other) == Get(old(tasks), other)
    {
      var _, _ := Update(id, Sync(t => Some(Demoted(t)), _ => false));
    }

    /** True exactly when this call flipped a running foreground agent. */
    method RegisterBackground(id: string) returns (promoted: bool)
      requires Valid()
      modifies this
      ensures Valid() && Get(tasks, id) == Map(Get(old(tasks), id), t => Promoted(t))
      ensures promoted <==> Get(old(tasks), id).Some? && CanPromote(Get(old(tasks), id).value)
      ensures match Get(old(tasks), id)
        case None => !promoted && Get(tasks, id) == None
        case Some(t) =>
          && (promoted <==> t.localAgent && t.status == Running && !t.backgrounded)
          && Get(tasks, id) == Some(if promoted then t.(backgrounded := true) else t)
      ensures forall other | other != id :: Get(tasks, other) == Get(old(tasks), other)
    {
      var _, marked := Update(id, Sync(t => Some(Promoted(t)), t => CanPromote(t)));
      promoted := marked;
    }

    method UnregisterForeground(id: string)
      requires Valid()
      modifies this
      ensures Valid() && Get(tasks, id) == None
      ensures forall other | other != id :: Get(tasks, other) == Get(old(tasks), other)
    {
      var _ := Remove(id);
    }
  }

  lemma GetUnique<R>(es: seq<Entry<R>>, i: nat)
    requires DistinctKeys(es) && i < |es|
    ensures Position(es, es[i].key) == i
  {
  }

  lemma SetAt<R>(es: seq<Entry<R>>, i: nat, key: string, task: TaskState<R>)
    requires DistinctKeys(es) && i == Position(es, key)
    ensures var next := es[..i] + [Entry(key, task)] + if i < |es| then es[i + 1..] else [];
      && DistinctKeys(next) && Get(next, key) == Some(task)
      && forall other | other != key :: Get(next, other) == Get(es, other)
  {
    var next := es[..i] + [Entry(key, task)] + if i < |es| then es[i + 1..] else [];
    assert forall j | 0 <= j < |es| && j != i :: next[j] == es[j];
    assert next[i] == Entry(key, task);
    assert DistinctKeys(next);
    GetUnique(next, i);
    forall other | other != key
      ensures Get(next, other) == Get(es, other)
    {
      var j := Position(es, other);
      if j < |es| {
        GetUnique(next, j);
      } else {
        assert forall k | 0 <= k < |next| :: next[k].key != other;
      }
    }
  }

  lemma RemoveAt<R>(es: seq<Entry<R>>, i: nat)
    requires DistinctKeys(es) && i < |es|
    ensures var next := es[..i] + es[i + 1..];
      && DistinctKeys(next) && Get(next, es[i].key) == None
      && forall other | other != es[i].key :: Get(next, other) == Get(es, other)
  {
    var next := es[..i] + es[i + 1..];
    assert forall k | 0 <= k < |next| :: next[k] == if k < i then es[k] else es[k + 1];
    assert DistinctKeys(next);
    assert forall k | 0 <= k < |next| :: next[k].key != es[i].key;
    forall other | other != es[i].key
      ensures Get(next, other) == Get(es, other)
    {
      var j := Position(es, other);
      if j < |es| {
        GetUnique(next, if j < i then j else j - 1);
      } else {
        assert forall k | 0 <= k < |next| :: next[k].key != other;
      }
    }
  }
}
