/** The data model of a task: the status enum and the task record
    (src/interfaces/task.tsx). */
module TaskModel {
  import opened Wrappers

  /** The three states a task can be in. */
  datatype TaskStatus = Waiting | Ongoing | Completed

  /** The string value each enum member stands for at run time. */
  function Code(s: TaskStatus): (c: string)
    ensures c == "waiting" <==> s == Waiting
    ensures c == "ongoing" <==> s == Ongoing
    ensures c == "completed" <==> s == Completed
  {
    match s
    case Waiting => "waiting"
    case Ongoing => "ongoing"
    case Completed => "completed"
  }

  /** Reads a stored status string back as an enum member, if it is one. */
  function ParseStatus(code: string): (r: Option<TaskStatus>)
    ensures r.Some? ==> Code(r.value) == code
    ensures r.None? <==> forall s: TaskStatus :: Code(s) != code
  {
    if code == "waiting" then Some(Waiting)
    else if code == "ongoing" then Some(Ongoing)
    else if code == "completed" then Some(Completed)
    else None
  }

  /** Converting a status to its code and parsing the code back is the identity. */
  lemma CodeRoundTrip(s: TaskStatus)
    ensures ParseStatus(Code(s)) == Some(s)
  {
  }

  /** The three codes are pairwise distinct. */
  lemma CodesDistinct(s: TaskStatus, s': TaskStatus)
    ensures Code(s) == Code(s') <==> s == s'
  {
    CodeRoundTrip(s);
    CodeRoundTrip(s');
  }

  /** A task as it is held by the store. `status` is the run-time string:
      the declared type is the string enum above, but nothing checks it, so
      a caller may store any string (see `HasKnownStatus`).
      `description`, `dueDate`, `startedAt` and `completedAt` may be absent;
      timestamps are ISO-8601 strings. */
  datatype Task = Task(
    id: string,
    title: string,
    description: Option<string>,
    status: string,
    dueDate: Option<string>,
    createdAt: string,
    updatedAt: string,
    startedAt: Option<string>,
    completedAt: Option<string>)

  /** The task's status is one of the three enum values. */
  predicate HasKnownStatus(t: Task)
  {
    ParseStatus(t.status).Some?
  }

  /** JavaScript truthiness of an optional string: present and non-empty. */
  predicate Truthy(o: Option<string>)
  {
    o.Some? && o.value != ""
  }

  /** String order `a <= b` as JavaScript compares strings: `a` is a prefix
      of `b`, or the two agree up to a first difference where `a` has the
      smaller character. On ISO-8601 timestamps of one format it is
      chronological order. */
  predicate TimestampLe(a: string, b: string)
  {
    a <= b ||
    exists k :: 0 <= k < |a| && k < |b| && a[..k] == b[..k] && a[k] < b[k]
  }

  /** The lifecycle order of a task's timestamps: it is created no later than
      its last update, started no earlier than created, and completed no
      earlier than started (or created, when it never started). */
  predicate TimestampsOrdered(t: Task)
  {
    TimestampLe(t.createdAt, t.updatedAt) &&
    (t.startedAt.Some? ==> TimestampLe(t.createdAt, t.startedAt.value)) &&
    (t.completedAt.Some? && t.startedAt.Some? ==> TimestampLe(t.startedAt.value, t.completedAt.value)) &&
    (t.completedAt.Some? && t.startedAt.None? ==> TimestampLe(t.createdAt, t.completedAt.value))
  }
}
