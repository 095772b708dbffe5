/** The home page: the dashboard statistics and the delete-confirmation
    dialog (src/pages/index.tsx). */
module Dashboard {
  import opened Wrappers
  import opened TaskModel
  import opened TaskContext
  import TaskList

  /** How many tasks carry the code of status `s`. */
  function CountStatus(ts: seq<Task>, s: TaskStatus): (n: nat)
    ensures n <= |ts|
    ensures n == 0 <==> forall i :: 0 <= i < |ts| ==> ts[i].status != Code(s)
    ensures n == |ts| <==> forall i :: 0 <= i < |ts| ==> ts[i].status == Code(s)
  {
    if ts == [] then 0
    else (if ts[0].status == Code(s) then 1 else 0) + CountStatus(ts[1..], s)
  }

  /** `Math.round(completed / total * 100)` for `total > 0`, else 0: the
      percentage rounded to the nearest integer, halves rounded up, so that
      `rate - 1/2 <= 100 * completed / total < rate + 1/2`. */
  function CompletionRate(completed: nat, total: nat): (rate: nat)
    ensures total == 0 ==> rate == 0
    ensures total > 0 ==> total * (2 * rate - 1) <= 200 * completed < total * (2 * rate + 1)
    ensures completed <= total ==> rate <= 100
  {
    if total > 0 then
      var rate := (200 * completed + total) / (2 * total);
      RoundingBounds(200 * completed + total, 2 * total, rate);
      assert completed <= total ==> rate <= 100 by {
        if completed <= total && rate > 100 {
          assert total * (2 * rate - 1) >= total * 201 by {
            MulMonotone(total, 201, 2 * rate - 1);
          }
        }
      }
      rate
    else 0
  }

  /** Euclidean division bounds the quotient from both sides. */
  lemma RoundingBounds(x: nat, d: nat, q: nat)
    requires d > 0 && q == x / d
    ensures d * q <= x < d * q + d
  {
  }

  lemma MulMonotone(k: nat, a: int, b: int)
    requires a <= b
    ensures k * a <= k * b
  {
  }

  /** The figures shown on the dashboard. */
  datatype TaskStats = TaskStats(waiting: nat, ongoing: nat, completed: nat, total: nat, completionRate: nat)

  /** `calculateTaskStats`: counts per status, the total, and the completion
      rate. */
  function CalculateTaskStats(ts: seq<Task>): (st: TaskStats)
    ensures st.total == |ts|
    ensures st.waiting + st.ongoing + st.completed <= st.total
    ensures st.completionRate <= 100
    ensures st.total == 0 ==> st.completionRate == 0
    ensures st.waiting == CountStatus(ts, Waiting) && st.ongoing == CountStatus(ts, Ongoing)
    ensures st.completed == CountStatus(ts, Completed)
    ensures st.completionRate == CompletionRate(st.completed, st.total)
  {
    var waiting := CountStatus(ts, Waiting);
    var ongoing := CountStatus(ts, Ongoing);
    var completed := CountStatus(ts, Completed);
    CountsBounded(ts);
    TaskStats(waiting, ongoing, completed, |ts|, CompletionRate(completed, |ts|))
  }

  /** The three counts together never exceed the number of tasks. */
  lemma {:induction false} CountsBounded(ts: seq<Task>)
    ensures CountStatus(ts, Waiting) + CountStatus(ts, Ongoing) + CountStatus(ts, Completed) <= |ts|
  {
    if ts != [] {
      CountsBounded(ts[1..]);
    }
  }

  /** The per-status counts add up to the number of tasks exactly when
      every task's status is one of the three enum values. */
  lemma {:induction false} CountsAddUpIff(ts: seq<Task>)
    ensures CountStatus(ts, Waiting) + CountStatus(ts, Ongoing) + CountStatus(ts, Completed) == |ts|
            <==> forall i :: 0 <= i < |ts| ==> HasKnownStatus(ts[i])
  {
    if ts != [] {
      var tail := ts[1..];
      CountsAddUpIff(tail);
      CountsBounded(tail);
      assert HasKnownStatus(ts[0]) <==>
        ts[0].status == Code(Waiting) || ts[0].status == Code(Ongoing) || ts[0].status == Code(Completed);
      assert (forall i :: 0 <= i < |ts| ==> HasKnownStatus(ts[i])) <==>
        HasKnownStatus(ts[0]) && forall i :: 0 <= i < |tail| ==> HasKnownStatus(tail[i]) by {
        assert forall i :: 0 <= i < |tail| ==> tail[i] == ts[i + 1];
      }
    }
  }

  /** The dashboard's counts add up to its total exactly when every task's
      status is one of the three enum values. */
  lemma StatsAddUpIff(ts: seq<Task>)
    ensures var st := CalculateTaskStats(ts);
            st.waiting + st.ongoing + st.completed == st.total
            <==> forall i :: 0 <= i < |ts| ==> HasKnownStatus(ts[i])
  {
    CountsAddUpIff(ts);
  }

  /** With no tasks every figure is zero; nothing is divided by zero. */
  lemma StatsOfEmpty()
    ensures CalculateTaskStats([]) == TaskStats(0, 0, 0, 0, 0)
  {
  }

  /** All of `total` tasks completed is a rate of 100. */
  lemma FullRate(total: nat)
    requires total > 0
    ensures CompletionRate(total, total) == 100
  {
    var r := CompletionRate(total, total);
    if r < 100 {
      MulMonotone(total, 2 * r + 1, 199);
    }
  }

  /** None of `total` tasks completed is a rate of 0. */
  lemma ZeroRate(total: nat)
    requires total > 0
    ensures CompletionRate(0, total) == 0
  {
    var r := CompletionRate(0, total);
    if r > 0 {
      MulMonotone(total, 1, 2 * r - 1);
    }
  }

  /** The rate is 100 when every task is completed. */
  lemma AllCompletedRate(ts: seq<Task>)
    requires |ts| > 0
    requires forall i :: 0 <= i < |ts| ==> ts[i].status == Code(Completed)
    ensures CalculateTaskStats(ts).completionRate == 100
  {
    assert CountStatus(ts, Completed) == |ts|;
    FullRate(|ts|);
  }

  /** The rate is 0 when there are tasks and none is completed. */
  lemma NoneCompletedRate(ts: seq<Task>)
    requires |ts| > 0
    requires forall i :: 0 <= i < |ts| ==> ts[i].status != Code(Completed)
    ensures CalculateTaskStats(ts).completionRate == 0
  {
    assert CountStatus(ts, Completed) == 0;
    ZeroRate(|ts|);
  }

  /** Counting splits over concatenation. */
  lemma {:induction false} CountConcat(a: seq<Task>, b: seq<Task>, s: TaskStatus)
    ensures CountStatus(a + b, s) == CountStatus(a, s) + CountStatus(b, s)
  {
    if a == [] {
      assert a + b == b;
    } else {
      assert (a + b)[0] == a[0] && (a + b)[1..] == a[1..] + b;
      CountConcat(a[1..], b, s);
    }
  }

  /** After `addTask`, the total grows by one and so does the count of the
      added task's status; the other counts stay. */
  lemma StatsAfterAdd(ts: seq<Task>, task: Task, s: TaskStatus)
    ensures CalculateTaskStats(Added(ts, task)).total == CalculateTaskStats(ts).total + 1
    ensures CountStatus(Added(ts, task), s) == CountStatus(ts, s) + (if task.status == Code(s) then 1 else 0)
  {
    CountConcat(ts, [task], s);
  }

  /** The worked example: one waiting, one ongoing and two completed tasks
      give a total of 4 and a rate of 50. */
  lemma StatsExample(a: Task, b: Task, c: Task, d: Task)
    requires a.status == Code(Waiting) && b.status == Code(Ongoing)
    requires c.status == Code(Completed) && d.status == Code(Completed)
    ensures CalculateTaskStats([a, b, c, d]) == TaskStats(1, 1, 2, 4, 50)
  {
    var ts := [a, b, c, d];
    assert ts[1..] == [b, c, d] && ts[1..][1..] == [c, d] && ts[1..][1..][1..] == [d];
    assert CountStatus(ts, Waiting) == 1 && CountStatus(ts, Ongoing) == 1;
    assert CountStatus(ts, Completed) == 2;
    assert CompletionRate(2, 4) == 404 / 8 == 50;
  }

  /** A check of the statistics on the list's sample tasks (one of each status, a third
      completed). The dashboard never shows these: it always counts the store's list. */
  lemma FixtureStats()
    ensures CalculateTaskStats(TaskList.FakeTasksData()) == TaskStats(1, 1, 1, 3, 33)
  {
    var ts := TaskList.FakeTasksData();
    assert ts[0].status == Code(Ongoing) && ts[1].status == Code(Waiting);
    assert ts[2].status == Code(Completed);
    assert ts[1..][1..][1..] == [];
    assert CountStatus(ts, Waiting) == 1 && CountStatus(ts, Ongoing) == 1;
    assert CountStatus(ts, Completed) == 1;
    assert CompletionRate(1, 3) == 203 / 6 == 33;
  }

  // ---------------------------------------------------------------------
  // The delete-confirmation dialog

  /** The home page's dialog state: whether the confirmation dialog is open
      and the id waiting to be deleted (`null` is `None`). The store is the
      provider the page reads from the context. */
  class HomePage {
    const provider: TaskProvider
    var modalIsOpen: bool
    var taskToDelete: Option<string>

    constructor (provider: TaskProvider)
      ensures this.provider == provider
      ensures !modalIsOpen && taskToDelete == None
    {
      this.provider := provider;
      modalIsOpen := false;
      taskToDelete := None;
    }

    /** `openDeleteModal`: remembers the id and opens the dialog; deletes
        nothing. */
    method OpenDeleteModal(id: string)
      modifies this
      ensures taskToDelete == Some(id) && modalIsOpen
      ensures provider.tasks == old(provider.tasks)
    {
      taskToDelete := Some(id);
      modalIsOpen := true;
    }

    /** `confirmDelete`: a truthy pending id (present and non-empty) is
        deleted from the store and cleared; a falsy one deletes nothing and
        is left as it was. The dialog closes in both cases. */
    method ConfirmDelete()
      modifies this, provider
      ensures !modalIsOpen
      ensures Truthy(old(taskToDelete)) ==>
                provider.tasks == Deleted(old(provider.tasks), old(taskToDelete).value) &&
                taskToDelete == None
      ensures !Truthy(old(taskToDelete)) ==>
                provider.tasks == old(provider.tasks) && taskToDelete == old(taskToDelete)
    {
      if taskToDelete.Some? && taskToDelete.value != "" {
        provider.DeleteTask(taskToDelete.value);
        taskToDelete := None;
      }
      modalIsOpen := false;
    }

    /** `closeDeleteModal`: forgets the pending id and closes the dialog;
        never deletes. */
    method CloseDeleteModal()
      modifies this
      ensures taskToDelete == None && !modalIsOpen
      ensures provider.tasks == old(provider.tasks)
    {
      taskToDelete := None;
      modalIsOpen := false;
    }
  }

  /** A whole pass through the dialog on a store holding one task: opening
      the dialog for the task and confirming removes it, unless its id is
      the empty string, which the truthiness test lets through undeleted. */
  method DeleteOnlyTaskThroughDialog(task: Task) returns (remaining: seq<Task>, dialogOpen: bool)
    ensures remaining == if task.id != "" then [] else [task]
    ensures !dialogOpen
  {
    var store := new TaskProvider();
    store.AddTask(task);
    var page := new HomePage(store);
    page.OpenDeleteModal(task.id);
    page.ConfirmDelete();
    remaining, dialogOpen := store.tasks, page.modalIsOpen;
  }
}
