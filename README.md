# Task manager store and its rules, in Dafny

A model of the logic layer of a small single-user task manager (a Next.js
app). The store is the ordered task list held in a React context
(`TaskProvider`). It offers three operations: append a task, replace the
tasks with a given id, and remove the tasks with a given id. Around the store sit a few
small rules:

- the dashboard's statistics;
- the delete-confirmation dialog of the home page;
- the quick-create dialog, which trims the title, rejects blank titles and
  builds an ongoing task;
- the status badge and label mappings, the date placeholder, and which
  timestamp lines a task card shows;
- the sample tasks the list falls back on.

The delete dialog is modelled as written, but nothing in the code shown opens
it. The home page passes `onDeleteTask={openDeleteModal}` to the task list
(src/pages/index.tsx:123). The list's props (src/pages/list_task.tsx:40-45)
have no such entry, and its cards have no delete control. So
`openDeleteModal` is never called, and neither are `confirmDelete` and
`closeDeleteModal`: with `modalIsOpen` false the modal renders neither button
and never fires `onRequestClose` (src/pages/index.tsx:129-140).

One module per source file:

| file | module | form |
|---|---|---|
| `wrappers.dfy` | `Wrappers` | `Option`, standing for `undefined`/`null` |
| `task.dfy` | `TaskModel` | `TaskStatus` enum and its string codes, the `Task` record, JavaScript truthiness of optional strings, string order on timestamps |
| `task_context.dfy` | `TaskContext` | `Added`/`Updated`/`Deleted` (the lists handed to the state setter), lemmas about them, and the class `TaskProvider`, whose `tasks` field the three methods reassign |
| `index_page.dfy` | `Dashboard` | `CalculateTaskStats` and its lemmas; the class `HomePage` with the dialog state cells `modalIsOpen` and `taskToDelete` |
| `quick_task_modal.dfy` | `QuickTaskModal` | `Trim` (the JavaScript `trim`), `QuickTask` (the task `handleSubmit` builds), `SubmitDisabled`; the class `QuickTaskDialog` with the `title` state |
| `list_task.dfy` | `TaskList` | the sample tasks, badge class, label, `formatDate`, and the card of a task |

Modelling choices:

- `Task.status` holds the run-time string. The enum is a string enum, but
  nothing checks what a caller stores. The `default` branches of the two
  status mappings are reachable only for strings outside the enum, and the
  same holds for counts that do not add up to the total. `TaskStatus`,
  `Code` and `ParseStatus` connect the two views.
- Optional fields are `Option<string>`. A JavaScript test such as
  `if (taskToDelete)` or `task.startedAt && …` is `Truthy`: the value is
  present and not the empty string.
- `Math.round(completed / total * 100)` is computed as the integer
  `(200 * completed + total) / (2 * total)`, which rounds halves up.
- `uuidv4()`, `new Date().toISOString()` and
  `toLocaleDateString('fr-FR')` are inputs: an id, a `now` string and a
  `localize` function.
- `onClose` is the parent's callback. The dialog counts how often it asks
  to be closed (`closeRequests`).
- Each store operation acts on the current list. React's render-time
  closures are not modelled.

The model follows the code, including where it is looser than a task store
usually is:

- Update and delete report nothing for an unknown id. Both leave the list
  as it was (`UpdateAbsentIsNoOp`, `DeleteAbsentIsNoOp`).
- Nothing keeps ids unique. `addTask` appends a task whose id is already
  present (`AddKeepsDuplicateId`).
- `updateTask` stores the given record as it is. It sets no `updatedAt`,
  `startedAt` or `completedAt`.
- The list lives only in component state and is never persisted.

## Model

| member | source | states |
|---|---|---|
| TaskModel.Code | src/interfaces/task.tsx:3-5 | the string value of each enum member: each of 'waiting', 'ongoing', 'completed' is the code of exactly its own member |
| TaskModel.ParseStatus | src/interfaces/task.tsx:2-6 | a parsed status has exactly the given code; parsing fails exactly when no enum member has that code |
| TaskModel.CodeRoundTrip | src/interfaces/task.tsx:2-6 | turning a status into its code and parsing the code back gives the same status |
| TaskModel.CodesDistinct | src/interfaces/task.tsx:2-6 | two statuses have the same code if and only if they are the same status |
| TaskContext.Added | src/context/TaskContext.tsx:18 | the new list is one longer, the added task is last, and every earlier position is unchanged |
| TaskContext.Updated | src/context/TaskContext.tsx:19-20 | the length is kept; every position with the updated id holds the new record; every other position is unchanged |
| TaskContext.Deleted | src/context/TaskContext.tsx:21-22 | the list gets no longer, and no remaining element has the deleted id |
| TaskContext.AddKeepsDuplicateId | src/context/TaskContext.tsx:18 | adding a task whose id is present still appends it, so the ids are no longer unique |
| TaskContext.AddUniqueIff | src/context/TaskContext.tsx:18 | if the ids are unique, they stay unique after an add if and only if the new id is fresh |
| TaskContext.UpdateKeepsIds | src/context/TaskContext.tsx:19-20 | an update never changes the sequence of ids |
| TaskContext.UpdateAbsentIsNoOp | src/context/TaskContext.tsx:19-20 | an update whose id is absent leaves the list unchanged, with no error |
| TaskContext.UpdateIdempotent | src/context/TaskContext.tsx:19-20 | applying the same update twice equals applying it once |
| TaskContext.UpdateKeepsUnique | src/context/TaskContext.tsx:19-20 | an update keeps ids unique |
| TaskContext.UpdateChangesOnePosition | src/context/TaskContext.tsx:19-20 | with unique ids, an update of a present id changes exactly that one position |
| TaskContext.DeleteKeepsOthers | src/context/TaskContext.tsx:21-22 | every element with another id keeps its number of occurrences, and elements with the deleted id have none |
| TaskContext.DeleteIsSubsequence | src/context/TaskContext.tsx:21-22 | the remaining elements keep their relative order: the result is a subsequence of the input |
| TaskContext.DeleteConcat | src/context/TaskContext.tsx:21-22 | deleting from a concatenation concatenates the deletions, so the order of the result is fully determined |
| TaskContext.DeleteRemovesId | src/context/TaskContext.tsx:21-22 | after a delete the id is absent |
| TaskContext.DeleteAbsentIsNoOp | src/context/TaskContext.tsx:21-22 | deleting an absent id leaves the list unchanged |
| TaskContext.DeleteIdempotent | src/context/TaskContext.tsx:21-22 | deleting twice equals deleting once |
| TaskContext.DeleteRemovesOne | src/context/TaskContext.tsx:21-22 | with unique ids, deleting a present id shortens the list by exactly one |
| TaskContext.DeleteKeepsUnique | src/context/TaskContext.tsx:21-22 | a delete keeps ids unique |
| TaskContext.DeleteAfterAdd | src/context/TaskContext.tsx:18-22 | adding a task and then deleting its id equals deleting that id before the add |
| TaskContext.DeleteAfterUpdate | src/context/TaskContext.tsx:19-22 | updating and then deleting the same id equals deleting it |
| TaskContext.TaskProvider.constructor | src/context/TaskContext.tsx:16 | the store starts with an empty list |
| TaskContext.TaskProvider.AddTask | src/context/TaskContext.tsx:18 | the new list is the old list with the task appended |
| TaskContext.TaskProvider.UpdateTask | src/context/TaskContext.tsx:19-20 | the new list is the old list with matching ids replaced |
| TaskContext.TaskProvider.DeleteTask | src/context/TaskContext.tsx:21-22 | the new list is the old list without the id |
| Dashboard.CountStatus | src/pages/index.tsx:43-45 | a count is at most the number of tasks; it is 0 exactly when no task has the status, and equals the number of tasks exactly when all have it |
| Dashboard.CompletionRate | src/pages/index.tsx:53 | 0 when there are no tasks; otherwise the nearest integer to 100 * completed / total, halves rounded up; never above 100 when completed <= total |
| Dashboard.CalculateTaskStats | src/pages/index.tsx:42-55 | each figure is the count of its status, the total is the list length, and the rate is CompletionRate of completed over total; the three counts sum to at most the total; the rate lies in 0..100 and is 0 for an empty list |
| Dashboard.CountsAddUpIff | src/pages/index.tsx:43-46 | the three per-status counts sum to the number of tasks if and only if every status is one of the three enum values |
| Dashboard.StatsAddUpIff | src/pages/index.tsx:43-46 | waiting + ongoing + completed == total if and only if every task's status is one of the three enum values |
| Dashboard.StatsOfEmpty | src/pages/index.tsx:42-55 | an empty list gives all zeros, without dividing by zero |
| Dashboard.FullRate | src/pages/index.tsx:53 | all of a non-zero number of tasks completed gives a rate of exactly 100 |
| Dashboard.ZeroRate | src/pages/index.tsx:53 | none of a non-zero number of tasks completed gives a rate of exactly 0 |
| Dashboard.AllCompletedRate | src/pages/index.tsx:53 | the rate is 100 when every task is completed |
| Dashboard.NoneCompletedRate | src/pages/index.tsx:53 | the rate is 0 when there are tasks and none is completed |
| Dashboard.StatsAfterAdd | src/pages/index.tsx:43-46 | after an add, the total and the added task's status count each grow by one; the other counts stay |
| Dashboard.StatsExample | src/pages/index.tsx:42-55 | statuses waiting, ongoing, completed, completed give counts 1/1/2, total 4 and rate 50 |
| Dashboard.FixtureStats | src/pages/list_task.tsx:7-38 | a check of the statistics function on the list's sample tasks (one of each status, total 3, rate 33); the dashboard itself never counts them, it always counts the store's list (src/pages/index.tsx:43-46, 120) |
| Dashboard.HomePage.constructor | src/pages/index.tsx:18-19 | the dialog starts closed, with no pending id |
| Dashboard.HomePage.OpenDeleteModal | src/pages/index.tsx:22-25 | stores the id as pending and opens the dialog; the store is untouched |
| Dashboard.HomePage.ConfirmDelete | src/pages/index.tsx:28-34 | a truthy pending id is deleted from the store and cleared; a null or empty one deletes nothing and stays; the dialog closes either way |
| Dashboard.HomePage.CloseDeleteModal | src/pages/index.tsx:37-40 | clears the pending id and closes the dialog; never deletes |
| Dashboard.DeleteOnlyTaskThroughDialog | src/pages/index.tsx:22-34 | opening the dialog for the only task and confirming leaves an empty list, unless the task's id is empty, in which case nothing is deleted |
| QuickTaskModal.Trim | src/components/QuickTaskModal.tsx:22 | the result is a slice of the input with only whitespace around it, and it has no whitespace at either end |
| QuickTaskModal.TrimEmptyIff | src/components/QuickTaskModal.tsx:22 | the trimmed title is empty if and only if the title is all whitespace |
| QuickTaskModal.TrimIdempotent | src/components/QuickTaskModal.tsx:30 | trimming an already trimmed title changes nothing |
| QuickTaskModal.QuickTask | src/components/QuickTaskModal.tsx:22-36 | no task exactly when the trimmed title is empty; otherwise the task has the given id, the trimmed (non-empty) title, status ongoing, description "", no due or completion date, and createdAt = updatedAt = startedAt = now |
| QuickTaskModal.QuickTaskOrdered | src/components/QuickTaskModal.tsx:25-35 | a quick task has a known status and its timestamps are in lifecycle order |
| QuickTaskModal.SubmitDisabled | src/components/QuickTaskModal.tsx:92 | the button is disabled exactly when the submit guard rejects, for every id and time |
| QuickTaskModal.QuickTaskDialog.constructor | src/components/QuickTaskModal.tsx:17 | the title starts empty |
| QuickTaskModal.QuickTaskDialog.SetTitle | src/components/QuickTaskModal.tsx:64 | the title field holds what was typed |
| QuickTaskModal.QuickTaskDialog.HandleSubmit | src/components/QuickTaskModal.tsx:19-41 | a blank title changes nothing and does not close the dialog; otherwise exactly one task is appended, the title is reset to "" and the dialog asks its parent once to close |
| TaskList.FakeTasksData | src/pages/list_task.tsx:7-38 | the three sample tasks, field by field (FirstSample, SecondSample, ThirdSample); their ids are '1', '2', '3' in order |
| TaskList.ShowsStartedLine | src/pages/list_task.tsx:131 | the condition for the "started" line (status 'ongoing' and a truthy `startedAt`); whenever it holds the task has a start time and the "finished" line is not shown |
| TaskList.ShowsFinishedLine | src/pages/list_task.tsx:136 | the condition for the "finished" line (status 'completed' and a truthy `completedAt`); whenever it holds the task has an end time and is not ongoing |
| TaskList.FixtureIdsUnique | src/pages/list_task.tsx:7-38 | the sample tasks have distinct ids |
| TaskList.FixtureTimestampsOrdered | src/pages/list_task.tsx:7-38 | each sample task has a known status, and created <= updated, created <= started <= completed in string order wherever the fields are present |
| TaskList.StatusBadgeClass | src/pages/list_task.tsx:61-72 | the fallback class 'bg-secondary' is returned exactly for strings outside the enum |
| TaskList.StatusText | src/pages/list_task.tsx:75-86 | the fallback label 'Inconnu' is returned exactly for strings outside the enum |
| TaskList.StatusDisplayInjective | src/pages/list_task.tsx:61-86 | the three statuses get pairwise different badge classes and labels |
| TaskList.FormatDate | src/pages/list_task.tsx:54-58 | an absent or empty date reads 'Non définie'; any other date goes to the locale formatter |
| TaskList.Card | src/pages/list_task.tsx:116-140 | the card shows the title and a non-empty description; it shows the started line exactly for an ongoing task with a start time and the finished line exactly for a completed task with an end time, never both; its badge and label are the fallbacks exactly when the status is unknown |
| TaskList.Cards | src/pages/list_task.tsx:108-144 | one card per task, in list order |
| TaskList.ShownTasks | src/pages/list_task.tsx:47-48 | the given `tasks` prop, or the three sample tasks when it is undefined; an explicitly empty list stays empty |
| TaskList.RenderTaskList | src/pages/list_task.tsx:102-146 | the "no task" notice exactly when the list is given an empty array; otherwise a non-empty grid of the shown tasks' cards |

## Left out

- Rendering, routing (`router.push`), `react-modal`, images and the static team profiles. They carry no logic.
- `useTasks`, the context lookup that throws outside a provider. It is framework plumbing.
- React's batching, and its closures over the list as it was at render time. Every operation acts on the current list.
- `src/pages/add_task.tsx`. Its submit only logs the form and stores nothing.
- `src/pages/add-task.tsx` and `src/pages/edit-task/[id].tsx`. They are form plumbing. The record add-task stores (add-task.tsx:12-18 and 30) carries `beginDate` and `completed`, has no `createdAt` or `updatedAt`, and takes its status from a select whose default is "En cours" and whose other choices are "Terminé" and "En attente" (add-task.tsx:41-45). At run time the two timestamps are `undefined`; the model's `Task` requires both as strings, so it cannot represent such a record, and of what the list shows for one only the 'Non définie' creation date is approached, by `createdAt == ""`. Edit-task stores the existing record with the edited fields written over it (edit-task/[id].tsx:32-39 and 54; the defaults at lines 32-39 are never used, since the form renders only once the record is loaded, line 63), so it keeps `createdAt` and `updatedAt`, but its status may become any of "En cours", "Terminé" or "En attente" (lines 89-98). The model represents such a status as a string outside the enum, for which the list's fallbacks and the dashboard's counts are modelled.
- `src/interfaces/interfaces.tsx`. It repeats the task types. Its `TaskMetadata` and `TaskUpdate` are never used.
- Id generation, the clock and `toLocaleDateString('fr-FR')`. They become parameters. An unparseable date, which the browser shows as "Invalid Date", is not modelled.
- Dashboard.CompletionRate: computed with exact integer half-up rounding. The floating-point `Math.round(c / t * 100)` of the source can differ at exact .5 boundaries.
- The order on timestamps is plain string order. It equals time order only for timestamps written in one ISO-8601 format. The source never compares timestamps.
- Trimming works on Unicode scalar values, not UTF-16 code units. All characters `trim` removes lie in the Basic Multilingual Plane, so the two agree.
