/** The shared task collection and its three operations
    (`TaskProvider` in src/context/TaskContext.tsx). */
module TaskContext {
  import opened TaskModel

  /** The ids of a task list, position by position. */
  function Ids(ts: seq<Task>): (r: seq<string>)
    ensures |r| == |ts|
    ensures forall i :: 0 <= i < |ts| ==> r[i] == ts[i].id
  {
    if ts == [] then [] else [ts[0].id] + Ids(ts[1..])
  }

  /** No two positions of the list hold the same id. */
  predicate UniqueIds(ts: seq<Task>)
  {
    forall i, j :: 0 <= i < j < |ts| ==> ts[i].id != ts[j].id
  }

  /** `xs` is `ys` with some elements left out, the rest in their order. */
  predicate IsSubsequence(xs: seq<Task>, ys: seq<Task>)
    decreases |ys|
  {
    xs == [] ||
    (ys != [] &&
     (IsSubsequence(xs, ys[1..]) || (xs[0] == ys[0] && IsSubsequence(xs[1..], ys[1..]))))
  }

  // ---------------------------------------------------------------------
  // The new list each operation hands to the state setter

  /** `addTask`: the list spread with the task at its end. */
  function Added(ts: seq<Task>, task: Task): (r: seq<Task>)
    ensures |r| == |ts| + 1 && r[|ts|] == task
    ensures forall i :: 0 <= i < |ts| ==> r[i] == ts[i]
  {
    ts + [task]
  }

  /** `updateTask`: every element whose id is the updated task's id is
      replaced by it; every other element is kept, at its position. */
  function Updated(ts: seq<Task>, updated: Task): (r: seq<Task>)
    ensures |r| == |ts|
    ensures forall i :: 0 <= i < |ts| && ts[i].id == updated.id ==> r[i] == updated
    ensures forall i :: 0 <= i < |ts| && ts[i].id != updated.id ==> r[i] == ts[i]
  {
    if ts == [] then []
    else [if ts[0].id == updated.id then updated else ts[0]] + Updated(ts[1..], updated)
  }

  /** `deleteTask`: the elements whose id differs from `id`. No element
      of the result has the id. */
  function Deleted(ts: seq<Task>, id: string): (r: seq<Task>)
    ensures |r| <= |ts|
    ensures forall t :: t in r ==> t.id != id
  {
    if ts == [] then []
    else (if ts[0].id == id then [] else [ts[0]]) + Deleted(ts[1..], id)
  }

  // ---------------------------------------------------------------------
  // addTask

  /** `addTask` checks nothing: a task whose id is already present is
      appended all the same, and the list then holds the id twice. */
  lemma AddKeepsDuplicateId(ts: seq<Task>, task: Task)
    requires task.id in Ids(ts)
    ensures task in Added(ts, task)
    ensures !UniqueIds(Added(ts, task))
  {
    var i :| 0 <= i < |ts| && Ids(ts)[i] == task.id;
    assert Added(ts, task)[i].id == Added(ts, task)[|ts|].id;
  }

  /** On a list with unique ids, adding keeps the ids unique exactly when the
      new id is fresh. */
  lemma AddUniqueIff(ts: seq<Task>, task: Task)
    requires UniqueIds(ts)
    ensures UniqueIds(Added(ts, task)) <==> task.id !in Ids(ts)
  {
    if task.id in Ids(ts) {
      AddKeepsDuplicateId(ts, task);
    }
  }

  // ---------------------------------------------------------------------
  // updateTask

  /** Updating never changes which ids the list holds, nor where. */
  lemma UpdateKeepsIds(ts: seq<Task>, updated: Task)
    ensures Ids(Updated(ts, updated)) == Ids(ts)
  {
  }

  /** Updating with an id that is not in the list leaves the list as it was;
      nothing is reported. */
  lemma UpdateAbsentIsNoOp(ts: seq<Task>, updated: Task)
    requires updated.id !in Ids(ts)
    ensures Updated(ts, updated) == ts
  {
    assert forall i :: 0 <= i < |ts| ==> Ids(ts)[i] != updated.id;
  }

  /** Applying the same update twice gives the result of applying it once. */
  lemma UpdateIdempotent(ts: seq<Task>, updated: Task)
    ensures Updated(Updated(ts, updated), updated) == Updated(ts, updated)
  {
  }

  /** Updating keeps the ids unique. */
  lemma UpdateKeepsUnique(ts: seq<Task>, updated: Task)
    requires UniqueIds(ts)
    ensures UniqueIds(Updated(ts, updated))
  {
    UpdateKeepsIds(ts, updated);
    var r := Updated(ts, updated);
    forall i, j | 0 <= i < j < |r| ensures r[i].id != r[j].id {
      assert Ids(r)[i] == Ids(ts)[i] && Ids(r)[j] == Ids(ts)[j];
    }
  }

  /** On a list with unique ids, an update whose id is present changes exactly
      one position. */
  lemma UpdateChangesOnePosition(ts: seq<Task>, updated: Task, k: nat)
    requires UniqueIds(ts)
    requires k < |ts| && ts[k].id == updated.id
    ensures Updated(ts, updated) == ts[k := updated]
  {
  }

  // ---------------------------------------------------------------------
  // deleteTask

  /** Deleting keeps the surviving elements in their relative order. */
  lemma {:induction false} DeleteIsSubsequence(ts: seq<Task>, id: string)
    ensures IsSubsequence(Deleted(ts, id), ts)
  {
    if ts != [] {
      DeleteIsSubsequence(ts[1..], id);
      var r := Deleted(ts, id);
      if ts[0].id != id {
        assert r == [ts[0]] + Deleted(ts[1..], id);
        assert r[0] == ts[0] && r[1..] == Deleted(ts[1..], id);
      } else {
        assert r == Deleted(ts[1..], id);
      }
    }
  }

  /** Deleting distributes over concatenation, which pins down the order of
      the result completely. */
  lemma {:induction false} DeleteConcat(a: seq<Task>, b: seq<Task>, id: string)
    ensures Deleted(a + b, id) == Deleted(a, id) + Deleted(b, id)
  {
    if a == [] {
      assert a + b == b;
    } else {
      var ab := a + b;
      var head := if a[0].id == id then [] else [a[0]];
      assert ab[0] == a[0] && ab[1..] == a[1..] + b;
      assert Deleted(ab, id) == head + Deleted(ab[1..], id);
      assert Deleted(a, id) == head + Deleted(a[1..], id);
      DeleteConcat(a[1..], b, id);
    }
  }

  /** Deleting keeps every element with another id exactly as many times as
      it occurred before, and no element with the id. */
  lemma {:induction false} DeleteKeepsOthers(ts: seq<Task>, id: string)
    ensures forall t: Task :: multiset(Deleted(ts, id))[t] == if t.id == id then 0 else multiset(ts)[t]
  {
    if ts != [] {
      DeleteKeepsOthers(ts[1..], id);
      assert ts == [ts[0]] + ts[1..];
      assert multiset(ts) == multiset{ts[0]} + multiset(ts[1..]);
    }
  }

  /** After deleting, the id is gone from the list. */
  lemma DeleteRemovesId(ts: seq<Task>, id: string)
    ensures id !in Ids(Deleted(ts, id))
  {
    var r := Deleted(ts, id);
    forall i | 0 <= i < |r| ensures Ids(r)[i] != id {
      assert r[i] in r;
    }
  }

  /** Deleting an id that is not in the list leaves the list as it was. */
  lemma {:induction false} DeleteAbsentIsNoOp(ts: seq<Task>, id: string)
    requires id !in Ids(ts)
    ensures Deleted(ts, id) == ts
  {
    if ts != [] {
      assert Ids(ts) == [ts[0].id] + Ids(ts[1..]);
      DeleteAbsentIsNoOp(ts[1..], id);
    }
  }

  /** Deleting twice gives the result of deleting once. */
  lemma DeleteIdempotent(ts: seq<Task>, id: string)
    ensures Deleted(Deleted(ts, id), id) == Deleted(ts, id)
  {
    DeleteRemovesId(ts, id);
    DeleteAbsentIsNoOp(Deleted(ts, id), id);
  }

  /** On a list with unique ids, deleting a present id removes exactly one
      task. */
  lemma {:induction false} DeleteRemovesOne(ts: seq<Task>, id: string)
    requires UniqueIds(ts)
    requires id in Ids(ts)
    ensures |Deleted(ts, id)| == |ts| - 1
  {
    assert Ids(ts) == [ts[0].id] + Ids(ts[1..]);
    if ts[0].id == id {
      assert id !in Ids(ts[1..]) by {
        forall i | 0 <= i < |ts| - 1 ensures Ids(ts[1..])[i] != id {
          assert ts[1..][i] == ts[i + 1];
        }
      }
      DeleteAbsentIsNoOp(ts[1..], id);
    } else {
      DeleteRemovesOne(ts[1..], id);
    }
  }

  /** Deleting keeps the ids unique. */
  lemma DeleteKeepsUnique(ts: seq<Task>, id: string)
    requires UniqueIds(ts)
    ensures UniqueIds(Deleted(ts, id))
  {
    DeleteKeepsUniqueRec(ts, id);
  }

  lemma {:induction false} DeleteKeepsUniqueRec(ts: seq<Task>, id: string)
    requires UniqueIds(ts)
    ensures UniqueIds(Deleted(ts, id))
    ensures forall x :: x in Ids(Deleted(ts, id)) ==> x in Ids(ts)
  {
    if ts != [] {
      var tail := ts[1..];
      assert UniqueIds(tail) by {
        forall i, j | 0 <= i < j < |tail| ensures tail[i].id != tail[j].id {
          assert tail[i] == ts[i + 1] && tail[j] == ts[j + 1];
        }
      }
      DeleteKeepsUniqueRec(tail, id);
      var rest := Deleted(tail, id);
      if ts[0].id != id {
        var r := [ts[0]] + rest;
        assert Deleted(ts, id) == r;
        assert ts[0].id !in Ids(tail) by {
          forall i | 0 <= i < |tail| ensures Ids(tail)[i] != ts[0].id {
            assert tail[i] == ts[i + 1];
          }
        }
        forall i, j | 0 <= i < j < |r| ensures r[i].id != r[j].id {
          if i == 0 {
            assert r[j].id == Ids(rest)[j - 1];
          }
        }
        forall x | x in Ids(r) ensures x in Ids(ts) {
          assert Ids(r) == [ts[0].id] + Ids(rest);
          assert Ids(ts) == [ts[0].id] + Ids(tail);
        }
      } else {
        assert Ids(ts) == [ts[0].id] + Ids(tail);
      }
    }
  }

  /** Adding a task and then deleting its id is the same as deleting the id
      from the list before the add. */
  lemma DeleteAfterAdd(ts: seq<Task>, task: Task)
    ensures Deleted(Added(ts, task), task.id) == Deleted(ts, task.id)
  {
    DeleteConcat(ts, [task], task.id);
    assert Deleted([task], task.id) == [] + Deleted([], task.id);
  }

  /** Updating and then deleting the same id is the same as deleting it. */
  lemma {:induction false} DeleteAfterUpdate(ts: seq<Task>, updated: Task)
    ensures Deleted(Updated(ts, updated), updated.id) == Deleted(ts, updated.id)
  {
    if ts != [] {
      var u := Updated(ts, updated);
      assert u[1..] == Updated(ts[1..], updated);
      DeleteAfterUpdate(ts[1..], updated);
    }
  }

  /** The store: the ordered task list held in the provider's state, replaced
      by a new list on every operation. It starts empty. */
  class TaskProvider {
    var tasks: seq<Task>

    constructor ()
      ensures tasks == []
    {
      tasks := [];
    }

    method AddTask(task: Task)
      modifies this
      ensures tasks == Added(old(tasks), task)
    {
      tasks := Added(tasks, task);
    }

    method UpdateTask(updated: Task)
      modifies this
      ensures tasks == Updated(old(tasks), updated)
    {
      tasks := Updated(tasks, updated);
    }

    method DeleteTask(id: string)
      modifies this
      ensures tasks == Deleted(old(tasks), id)
    {
      tasks := Deleted(tasks, id);
    }
  }
}
