# Task dashboard: the store, the delayed completion and the forms

A Dafny model of the logic inside the task-todo web client: the task store
behind the dashboard and its delayed-completion state machine, what the
dashboard shows on its two tabs, the checkbox and delete button of a task
row, the task form's due-date composition and submit, the time picker's
12-hour to 24-hour conversion, and the account registry with its session.

Everything is a pure function over immutable records and sequences:

- `Wrappers` — `Option`, for values that may be `null`.
- `Seqs` — `Array.prototype.filter` and `map` over sequences, with the facts
  about them the rest of the model uses.
- `LocalTime` — a local date-time record (day, hour, minute, second, ms).
- `Tasks` — the task record, the partial update ("patch") and the object
  spread `{ ...t, ...updates }` as `Merge`.
- `Ordering` — the two comparators the dashboard sorts by and a stable
  insertion sort standing for `Array.prototype.sort`.
- `Dashboard` — the state `(store, tasks, completing, timers)`: the `tasks`
  collection of local storage, the user's in-memory list, the
  `completingTasks` ids and the armed completion timeouts. The events are
  load, add, update, the firing of the oldest timeout, and delete.
- `DashboardView` — the two counters, the tab filter and the pending-tab
  order.
- `TaskItem` — the checkbox toggle (disabled while completing) and delete.
- `TaskForm` — `handleSubmit`: empty-title guard, due date, payload, reset.
- `DateTimePicker` — `handleTimeSelect` and the hour/minute choices.
- `Auth` — `login`, `register`, `logout`.
- `Scenarios` — concrete walks through the app: add, tick, wait, completed.

Time is explicit. Every completion timeout has the same 5000 ms delay, so
the armed timeouts fire in the order they were armed. The state keeps them
as a queue, and `Dashboard.Fire` is the event "the oldest one fires".
`Date.now()` and `new Date()` are parameters (`id`, `now`, `stamp`).

## Model

| member | source | states |
|---|---|---|
| Dashboard.OwnedBy | client/src/pages/Dashboard.jsx:20-21 | exactly the stored tasks whose `user_id` is the user's, each with its stored multiplicity |
| Dashboard.Load | client/src/pages/Dashboard.jsx:19-25 | the list becomes a permutation of the user's stored tasks, sorted by `created_at` descending; the store, completing ids and timers are untouched |
| Dashboard.Add | client/src/pages/Dashboard.jsx:27-41 | the store grows by exactly the new task at its end and the list by the same task at its head; the new task is pending, stamped now, owned by the user and carries the payload's title, description and due date |
| Dashboard.PerformUpdate | client/src/pages/Dashboard.jsx:59-67 | in store and list alike, each task with the id is the patch merged into it and every other task is unchanged, at the same position; an unknown id changes nothing |
| Dashboard.Request | client/src/pages/Dashboard.jsx:43-57 | asking for `completed` changes no task and only appends the id to completing and one timer to the queue; any other update is merged at once and leaves completing alone |
| Dashboard.Fire | client/src/pages/Dashboard.jsx:49-52 | the oldest timer's update is merged into store and list, the timer leaves the queue and every occurrence of its id leaves completing; with no timer armed nothing changes |
| Dashboard.WithoutId | client/src/pages/Dashboard.jsx:71 | the survivors are exactly the tasks with another id, each with its multiplicity; an absent id keeps the sequence as it is |
| Dashboard.Delete | client/src/pages/Dashboard.jsx:69-75 | every task with the id leaves store and list and every other task stays; an unknown id is a no-op; completing and timers are untouched |
| Dashboard.DeleteKeepsOrder | client/src/pages/Dashboard.jsx:71-74 | deleting acts on each part of a sequence separately, so the survivors keep their relative order |
| Dashboard.UpdateKeepsMirror | client/src/pages/Dashboard.jsx:59-67 | an update that does not change the owner keeps the list a permutation of the user's stored tasks |
| Dashboard.LoadMirrors | client/src/pages/Dashboard.jsx:19-25 | after a load the list is a permutation of the user's stored tasks |
| Dashboard.AddKeepsMirror | client/src/pages/Dashboard.jsx:27-41 | adding a task for the user keeps the list a permutation of the user's stored tasks |
| Dashboard.DeleteKeepsMirror | client/src/pages/Dashboard.jsx:69-75 | deleting keeps the list a permutation of the user's stored tasks |
| Dashboard.StepKeepsMirror | client/src/pages/Dashboard.jsx:19-75 | every owner-preserving event keeps that mirror, and a load establishes it |
| Dashboard.RunKeepsMirror | client/src/pages/Dashboard.jsx:19-75 | from a load on, any run of owner-preserving events keeps the list mirroring the store |
| Dashboard.FireCommitsCompletion | client/src/pages/Dashboard.jsx:45-52 | when each completing id has one timer asking for `completed`, a firing removes exactly the first completing id, keeps that bookkeeping, and sets exactly the tasks with that id to completed with no other field changed |
| Dashboard.StepKeepsCompletions | client/src/pages/Dashboard.jsx:19-75 | load, add, delete and fire keep the completion bookkeeping |
| DashboardView.PendingCount | client/src/pages/Dashboard.jsx:77 | the number of positions in the list holding a pending task; zero exactly when no task is pending |
| DashboardView.CompletedCount | client/src/pages/Dashboard.jsx:78 | the number of positions in the list holding a completed task; zero exactly when no task is completed |
| DashboardView.Displayed | client/src/pages/Dashboard.jsx:80-99 | a tab shows exactly the tasks that belong on it, each with its multiplicity; the pending tab is sorted completing-last and newest first; the completed tab keeps list order |
| DashboardView.ExactlyOneTab | client/src/pages/Dashboard.jsx:80-88 | a pending or completed task belongs on exactly one of the two tabs |
| DashboardView.TabsPartition | client/src/pages/Dashboard.jsx:80-99 | when every status is pending or completed, the two tabs together show as many tasks as the list holds |
| DashboardView.CountsPartition | client/src/pages/Dashboard.jsx:77-78 | when every status is pending or completed, the two counters add up to the list length |
| DashboardView.PendingTabOrder | client/src/pages/Dashboard.jsx:91-98 | on the pending tab no completing task precedes a non-completing one, and within each group `created_at` does not increase |
| DashboardView.CompletionRequestKeepsView | client/src/pages/Dashboard.jsx:43-52 | a completion request changes neither counter, and the task stays on the pending tab and off the completed tab |
| DashboardView.FireMovesToCompletedTab | client/src/pages/Dashboard.jsx:49-52 | once its timer fires, the task is on the completed tab only |
| Ordering.Insert | client/src/pages/Dashboard.jsx:22 | inserting into a sorted sequence gives a sorted sequence with one more copy of the task |
| Ordering.Sort | client/src/pages/Dashboard.jsx:22 | a sorted permutation of its input, under either comparator |
| Ordering.SortedCons | client/src/pages/Dashboard.jsx:92-98 | a task that may precede every element of a sorted sequence can be put in front of it |
| Ordering.BeforeTransitive | client/src/pages/Dashboard.jsx:92-98 | the pending-tab comparator and the load comparator are transitive |
| Ordering.BeforeTotal | client/src/pages/Dashboard.jsx:92-98 | any two tasks are comparable |
| Ordering.SortSameMembers | client/src/pages/Dashboard.jsx:22 | sorting keeps the same tasks |
| Ordering.SortSingleton | client/src/pages/Dashboard.jsx:22 | a one-task list is left alone |
| Tasks.Toggled | client/src/components/TaskItem.jsx:6 | the requested status is pending exactly when the task is completed, and completed otherwise |
| Tasks.StatusText | client/src/pages/Dashboard.jsx:77-78 | `"pending"` is exactly the pending status and `"completed"` exactly the completed one |
| Tasks.ParseStatus | client/src/pages/Dashboard.jsx:77-78 | every stored status string is the text of the status it is read as |
| Tasks.ParseStatusText | client/src/pages/Dashboard.jsx:77-78 | every status is read back from its own text, so strings and statuses correspond one to one |
| Tasks.Merge | client/src/pages/Dashboard.jsx:62 | each key the update carries takes the update's value, and every key it does not carry keeps the task's value |
| Tasks.MergeNoChange | client/src/pages/Dashboard.jsx:62 | merging the empty update changes nothing |
| Tasks.MergeIdempotent | client/src/pages/Dashboard.jsx:62 | merging an update twice is merging it once |
| Tasks.MergeStatusOnly | client/src/pages/Dashboard.jsx:62 | a status-only update changes the status and no other field |
| Tasks.ToggleInvolution | client/src/components/TaskItem.jsx:6 | toggling twice restores pending or completed |
| TaskItem.ToggleRequest | client/src/components/TaskItem.jsx:20 | the request carries the task's own id and only a status: pending for a completed task, completed for any other; merging it changes only the status |
| TaskItem.Click | client/src/components/TaskItem.jsx:20-21 | a request is made exactly when the task is not completing |
| TaskItem.OnClick | client/src/components/TaskItem.jsx:20-21 | a completing task's click changes nothing; a completed task goes back to pending at once in list and store; any other task joins completing with one armed timer and no task changes yet |
| TaskItem.OnDeleteClick | client/src/components/TaskItem.jsx:54 | afterwards no task with the row's id is left in list or store, and every other task stays |
| TaskItem.OnClickKeepsCompletions | client/src/components/TaskItem.jsx:21 | because the checkbox is disabled while completing, clicks never list an id twice and keep one timer per completing id |
| TaskItem.ToggleTwice | client/src/components/TaskItem.jsx:6-20 | two toggles in a row give back the task unchanged |
| TaskForm.DueDate | client/src/components/TaskForm.jsx:19-33 | none exactly when nothing is picked; the picked day or today; a picked time sets hour and minute and keeps the base's seconds and ms; a date alone gives 23:59:00.000 |
| TaskForm.DueDateValid | client/src/components/TaskForm.jsx:19-33 | composing real times of day gives a real time of day |
| TaskForm.PickedDayAndTime | client/src/components/TaskForm.jsx:21-26 | a calendar day and a picked clock time give exactly that day at that 24-hour time, to the second |
| TaskForm.Submit | client/src/components/TaskForm.jsx:15-47 | an empty title submits nothing and keeps the form; any other title submits title and description as typed with the composed due date and clears every field |
| TaskForm.SubmitToDashboard | client/src/components/TaskForm.jsx:35-39 | a non-empty submit adds exactly one pending task of the user, carrying what was typed, to store and list; an empty one changes nothing |
| DateTimePicker.To24Hour | client/src/components/DateTimePicker.jsx:27-29 | 12 AM is 0, 12 PM is 12, h AM is h and h PM is h + 12 for h in 1..11; the result is in 0..23, below 12 exactly for AM |
| DateTimePicker.From24Hour | client/src/components/DateTimePicker.jsx:27-29 | the clock-face reading of a 24-hour hour is in 1..12 |
| DateTimePicker.To24RoundTrip | client/src/components/DateTimePicker.jsx:27-29 | reading the converted hour back on a clock face gives the picked hour and period |
| DateTimePicker.From24RoundTrip | client/src/components/DateTimePicker.jsx:27-29 | every hour of the day is reached from its clock-face reading |
| DateTimePicker.To24Injective | client/src/components/DateTimePicker.jsx:27-29 | different picks give different hours, so the conversion is a bijection onto 0..23 |
| DateTimePicker.HourChoicesExactly | client/src/components/DateTimePicker.jsx:98 | the hour buttons are exactly 1..12 |
| DateTimePicker.MinuteChoicesExactly | client/src/components/DateTimePicker.jsx:112 | the minute buttons are exactly the multiples of 5 from 0 to 55 |
| DateTimePicker.TimeSelect | client/src/components/DateTimePicker.jsx:25-31 | today's date and seconds with the picked minute, and an hour whose clock-face reading is the picked hour and period |
| DateTimePicker.TimeSelectValid | client/src/components/DateTimePicker.jsx:25-31 | whatever the buttons pick is a real time of day |
| DateTimePicker.InitialIsNoon | client/src/components/DateTimePicker.jsx:11-13 | setting the time without touching the picker gives 12:00 |
| Auth.FindUser | client/src/context/AuthContext.jsx:23 | the index of the first account matching both email and password, or none when no account matches |
| Auth.Login | client/src/context/AuthContext.jsx:18-32 | succeeds exactly when an account matches; the session is then the first match without its password; a failure throws the invalid-credentials error, whose message is "Invalid email or password", and changes nothing; the accounts never change |
| Auth.Register | client/src/context/AuthContext.jsx:34-51 | a taken email throws the user-exists error, whose message is "User already exists", and changes nothing; otherwise exactly one account is appended and becomes the session without its password |
| Auth.Message | client/src/context/AuthContext.jsx:30 | the invalid-credentials error reads "Invalid email or password" and the user-exists error "User already exists", and neither message belongs to the other error |
| Auth.WithoutPassword | client/src/context/AuthContext.jsx:26 | the session record keeps the account's id, name and email |
| Auth.SessionHidesPassword | client/src/context/AuthContext.jsx:48 | accounts that differ only in their password give the same session record |
| Auth.Logout | client/src/context/AuthContext.jsx:53-56 | the session is cleared and the accounts stay |
| Auth.RegisterKeepsEmailsDistinct | client/src/context/AuthContext.jsx:40-46 | registering keeps the emails pairwise distinct |
| Auth.CallsKeepSessionOnFile | client/src/context/AuthContext.jsx:18-56 | after any call the session, if any, is an account on file without its password |
| Auth.RegisterThenLogin | client/src/context/AuthContext.jsx:34-51 | a freshly registered account can log in at once with its credentials and the session is that account |
| Scenarios.CompleteOneTask | client/src/pages/Dashboard.jsx:27-99 | adding, ticking and waiting out one task: pending and on the pending tab until the timer fires, then completed and on the completed tab only |
| Scenarios.DateOnlyEndsTheDay | client/src/components/TaskForm.jsx:31 | picking a date and no time gives that day at 23:59:00.000 |

## Left out

- Local storage and JSON: the `tasks` and `users` collections and `currentUser` are sequences and an optional record in the state.
- The 5000 ms and 500 ms `setTimeout` delays: the completion timeout is the explicit `Dashboard.Fire` event, and the simulated login/register delay is dropped. Timeouts that fire after the dashboard unmounts, and stale React closures, are not modelled.
- Timer cancellation: the client has none, so a completion cannot be withdrawn once requested.
- `Date.now()` and `new Date()` are parameters. Task ids are not assumed unique, because the client does not guarantee it.
- `toISOString`, time zones and daylight saving: dates are a local (day, hour, minute, second, ms) record, and `created_at` is an integer timestamp.
- The date-fns calendar grid, month navigation and formatting: foreign library calls.
- All rendering, animation and styling, the `loading` flags, the open/close routing of the pickers, and the Login and Register pages, which only forward to the auth calls.
- The session restore on mount in the auth provider: it only reads local storage back.
- Dashboard.Add: the payload is the form's three keys. A payload carrying `id` or `user_id` would override them through the spread, and that is not modelled.
- Ordering.Sort: stability is built into `Insert`, but it is not stated as a property. So the relative order of tasks with equal `created_at` is left open in `Dashboard.Load`, and on the pending tab of `DashboardView.Displayed` for tasks in the same group.
