/** The task list: how each task is shown, and the sample tasks the list
    falls back on (src/pages/list_task.tsx). */
module TaskList {
  import opened Wrappers
  import opened TaskModel
  import opened TaskContext

  /** The sample tasks: the list's default when its `tasks` prop is left
      undefined. */
  function FakeTasksData(): (ts: seq<Task>)
    ensures Ids(ts) == ["1", "2", "3"]
  {
    [FirstSample(), SecondSample(), ThirdSample()]
  }

  function FirstSample(): Task
  {
    Task("1", "Implémenter l'authentification",
         Some("Ajouter un système d'authentification JWT pour sécuriser l'API"),
         Code(Ongoing), Some("2025-03-15"),
         "2025-03-01T10:00:00Z", "2025-03-02T14:30:00Z",
         Some("2025-03-02T14:30:00Z"), None)
  }

  function SecondSample(): Task
  {
    Task("2", "Créer le dashboard",
         Some("Concevoir et implémenter le tableau de bord principal avec des statistiques"),
         Code(Waiting), Some("2025-03-20"),
         "2025-03-01T11:15:00Z", "2025-03-01T11:15:00Z",
         None, None)
  }

  function ThirdSample(): Task
  {
    Task("3", "Tester l'API RESTful",
         Some("Écrire des tests unitaires et d'intégration pour l'API"),
         Code(Completed), Some("2025-03-05"),
         "2025-02-28T09:00:00Z", "2025-03-05T16:45:00Z",
         Some("2025-02-28T10:30:00Z"), Some("2025-03-05T16:45:00Z"))
  }

  /** The sample tasks have pairwise distinct ids. */
  lemma FixtureIdsUnique()
    ensures UniqueIds(FakeTasksData())
  {
  }

  /** Every sample task has a known status and its timestamps in lifecycle
      order. */
  lemma FixtureTimestampsOrdered()
    ensures forall i :: 0 <= i < |FakeTasksData()| ==>
              HasKnownStatus(FakeTasksData()[i]) && TimestampsOrdered(FakeTasksData()[i])
  {
    FirstSampleOrdered();
    SecondSampleOrdered();
    ThirdSampleOrdered();
  }

  /** Two timestamps that first differ at position `k`, where `a` has the
      smaller character, are in order. */
  lemma TimestampLeAt(a: string, b: string, k: nat)
    requires k < |a| && k < |b| && a[..k] == b[..k] && a[k] < b[k]
    ensures TimestampLe(a, b)
  {
  }

  // The first sample was created on the 1st and updated and started on the 2nd.
  lemma FirstSampleOrdered()
    ensures HasKnownStatus(FirstSample()) && TimestampsOrdered(FirstSample())
  {
    var t := FirstSample();
    var created, started := "2025-03-01T10:00:00Z", "2025-03-02T14:30:00Z";
    assert t.createdAt == created && t.updatedAt == started && t.startedAt == Some(started);
    assert created[..9] == started[..9];
    TimestampLeAt(created, started, 9);
  }

  // The second sample was never updated.
  lemma SecondSampleOrdered()
    ensures HasKnownStatus(SecondSample()) && TimestampsOrdered(SecondSample())
  {
  }

  // The third sample was started on the day it was created, at a later hour,
  // and completed (and last updated) in the next month.
  lemma ThirdSampleOrdered()
    ensures HasKnownStatus(ThirdSample()) && TimestampsOrdered(ThirdSample())
  {
    var t := ThirdSample();
    var created, started, completed := "2025-02-28T09:00:00Z", "2025-02-28T10:30:00Z", "2025-03-05T16:45:00Z";
    assert t.createdAt == created && t.startedAt == Some(started);
    assert t.updatedAt == completed && t.completedAt == Some(completed);
    assert created[..6] == completed[..6];
    TimestampLeAt(created, completed, 6);
    assert created[..11] == started[..11];
    TimestampLeAt(created, started, 11);
    assert started[..6] == completed[..6];
    TimestampLeAt(started, completed, 6);
  }

  /** `getStatusBadgeClass`: the badge colour of a status. */
  function StatusBadgeClass(status: string): (r: string)
    ensures r == "bg-secondary" <==> ParseStatus(status).None?
  {
    if status == Code(Waiting) then "bg-warning"
    else if status == Code(Ongoing) then "bg-primary"
    else if status == Code(Completed) then "bg-success"
    else "bg-secondary"
  }

  /** `getStatusText`: the French label of a status. */
  function StatusText(status: string): (r: string)
    ensures r == "Inconnu" <==> ParseStatus(status).None?
  {
    if status == Code(Waiting) then "En attente"
    else if status == Code(Ongoing) then "En cours"
    else if status == Code(Completed) then "Terminé"
    else "Inconnu"
  }

  /** The three valid statuses get three different badges and labels. */
  lemma StatusDisplayInjective(s: TaskStatus, s': TaskStatus)
    ensures StatusBadgeClass(Code(s)) == StatusBadgeClass(Code(s')) <==> s == s'
    ensures StatusText(Code(s)) == StatusText(Code(s')) <==> s == s'
  {
  }

  /** `formatDate`: a missing or empty date reads "Non définie"; any other is
      handed to the locale formatter `localize`. */
  function FormatDate(date: Option<string>, localize: string -> string): (r: string)
    ensures !Truthy(date) ==> r == "Non définie"
    ensures Truthy(date) ==> r == localize(date.value)
  {
    if !Truthy(date) then "Non définie" else localize(date.value)
  }

  /** The "started" line is shown for an ongoing task with a start time. */
  predicate ShowsStartedLine(t: Task)
    ensures ShowsStartedLine(t) ==> t.startedAt.Some? && !ShowsFinishedLine(t)
  {
    t.status == Code(Ongoing) && Truthy(t.startedAt)
  }

  /** The "finished" line is shown for a completed task with an end time. */
  predicate ShowsFinishedLine(t: Task)
    ensures ShowsFinishedLine(t) ==> t.completedAt.Some? && t.status != Code(Ongoing)
  {
    t.status == Code(Completed) && Truthy(t.completedAt)
  }

  /** What one card of the list shows. */
  datatype TaskCard = TaskCard(
    title: string,
    badgeClass: string,
    statusText: string,
    description: string,
    dueDate: string,
    createdAt: string,
    startedAt: Option<string>,
    finishedAt: Option<string>)

  /** The card of one task: its badge, its description or a placeholder, its
      dates, and the start and end lines only where the status calls for
      them. */
  function Card(t: Task, localize: string -> string): (c: TaskCard)
    ensures c.title == t.title
    ensures c.description != ""
    ensures c.startedAt.Some? <==> ShowsStartedLine(t)
    ensures c.finishedAt.Some? <==> ShowsFinishedLine(t)
    ensures !(c.startedAt.Some? && c.finishedAt.Some?)
    ensures HasKnownStatus(t) <==> c.badgeClass != "bg-secondary" && c.statusText != "Inconnu"
  {
    TaskCard(
      t.title,
      StatusBadgeClass(t.status),
      StatusText(t.status),
      if Truthy(t.description) then t.description.value else "Aucune description",
      FormatDate(t.dueDate, localize),
      FormatDate(Some(t.createdAt), localize),
      if ShowsStartedLine(t) then Some(FormatDate(t.startedAt, localize)) else None,
      if ShowsFinishedLine(t) then Some(FormatDate(t.completedAt, localize)) else None)
  }

  /** The list: one card per task, in the store's order. */
  function Cards(ts: seq<Task>, localize: string -> string): (cs: seq<TaskCard>)
    ensures |cs| == |ts|
    ensures forall i :: 0 <= i < |ts| ==> cs[i] == Card(ts[i], localize)
  {
    if ts == [] then [] else [Card(ts[0], localize)] + Cards(ts[1..], localize)
  }

  /** The tasks the list shows: its `tasks` prop, or the sample tasks when the
      prop is undefined. An explicitly empty list stays empty. */
  function ShownTasks(tasks: Option<seq<Task>>): (ts: seq<Task>)
    ensures tasks.Some? ==> ts == tasks.value
    ensures tasks.None? ==> ts == FakeTasksData() && |ts| == 3
  {
    match tasks
    case Some(given) => given
    case None => FakeTasksData()
  }

  /** What the list renders: a "no task found" notice, or a grid of cards. */
  datatype TaskListView = NoTasksNotice | CardGrid(cards: seq<TaskCard>)

  /** The list body: the notice exactly when it is given an empty list (the
      sample tasks are never empty), otherwise one card per shown task. */
  function RenderTaskList(tasks: Option<seq<Task>>, localize: string -> string): (v: TaskListView)
    ensures v.NoTasksNotice? <==> tasks == Some([])
    ensures v.CardGrid? ==> v.cards == Cards(ShownTasks(tasks), localize) && |v.cards| > 0
  {
    var ts := ShownTasks(tasks);
    if |ts| == 0 then NoTasksNotice else CardGrid(Cards(ts, localize))
  }
}
