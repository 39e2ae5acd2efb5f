/** The task record kept in the `tasks` collection, and the partial updates the
    dashboard merges into it with an object spread. */
module Tasks {
  import opened Wrappers
  import opened LocalTime

  /** Task ids come from `Date.now()`; nothing makes them unique. */
  type TaskId = int
  type UserId = int
  /** Milliseconds since the epoch, standing for the ISO string in `created_at`. */
  type Timestamp = int

  /** A status string other than the two the app writes. */
  type OtherName = s: string | s != "pending" && s != "completed" witness ""

  /** `status` is a string in the stored JSON; the app only ever writes
      `'pending'` and `'completed'`, and `Other` stands for any other string,
      so each string has exactly one encoding. */
  datatype Status = Pending | Completed | Other(name: OtherName)

  /** The string stored in the JSON for a status. */
  function StatusText(st: Status): (r: string)
    ensures r == "pending" <==> st == Pending
    ensures r == "completed" <==> st == Completed
  {
    match st
    case Pending => "pending"
    case Completed => "completed"
    case Other(name) => name
  }

  /** The status a stored string stands for. */
  function ParseStatus(text: string): (r: Status)
    ensures StatusText(r) == text
  {
    if text == "pending" then Pending
    else if text == "completed" then Completed
    else Other(text)
  }

  /** Every status is read back from its own string, so the strings and the
      statuses correspond one to one. */
  lemma ParseStatusText(st: Status)
    ensures ParseStatus(StatusText(st)) == st
  {
  }

  datatype Task = Task(
    id: TaskId,
    userId: UserId,
    title: string,
    description: string,
    dueDate: Option<DateTime>,
    status: Status,
    createdAt: Timestamp)

  /** The payload the task form submits: `title`, `description`, `due_date`. */
  datatype TaskData = TaskData(title: string, description: string, dueDate: Option<DateTime>)

  /** A partial task: every key an `updates` object may carry. */
  datatype Patch = Patch(
    id: Option<TaskId>,
    userId: Option<UserId>,
    title: Option<string>,
    description: Option<string>,
    dueDate: Option<Option<DateTime>>,
    status: Option<Status>,
    createdAt: Option<Timestamp>)

  /** The empty update object `{}`. */
  const NoChange: Patch := Patch(None, None, None, None, None, None, None)

  /** The update object `{ status: st }`. */
  function StatusPatch(st: Status): Patch {
    NoChange.(status := Some(st))
  }

  /** `{ ...t, ...p }`: the patch's keys win, every other key keeps its value. */
  function Merge(t: Task, p: Patch): (r: Task)
    ensures p.id.Some? ==> r.id == p.id.value
    ensures p.id.None? ==> r.id == t.id
    ensures p.userId.Some? ==> r.userId == p.userId.value
    ensures p.userId.None? ==> r.userId == t.userId
    ensures p.title.Some? ==> r.title == p.title.value
    ensures p.title.None? ==> r.title == t.title
    ensures p.description.Some? ==> r.description == p.description.value
    ensures p.description.None? ==> r.description == t.description
    ensures p.dueDate.Some? ==> r.dueDate == p.dueDate.value
    ensures p.dueDate.None? ==> r.dueDate == t.dueDate
    ensures p.status.Some? ==> r.status == p.status.value
    ensures p.status.None? ==> r.status == t.status
    ensures p.createdAt.Some? ==> r.createdAt == p.createdAt.value
    ensures p.createdAt.None? ==> r.createdAt == t.createdAt
  {
    Task(
      p.id.GetOr(t.id),
      p.userId.GetOr(t.userId),
      p.title.GetOr(t.title),
      p.description.GetOr(t.description),
      p.dueDate.GetOr(t.dueDate),
      p.status.GetOr(t.status),
      p.createdAt.GetOr(t.createdAt))
  }

  /** The status a click on the checkbox asks for: completed tasks go back to
      pending, every other task is asked to complete. */
  function Toggled(st: Status): (r: Status)
    ensures r == Pending || r == Completed
    ensures (r == Pending) <==> (st == Completed)
  {
    if st == Completed then Pending else Completed
  }

  /** Merging the empty update changes nothing. */
  lemma MergeNoChange(t: Task)
    ensures Merge(t, NoChange) == t
  {
  }

  /** Merging the same update twice is merging it once. */
  lemma MergeIdempotent(t: Task, p: Patch)
    ensures Merge(Merge(t, p), p) == Merge(t, p)
  {
  }

  /** A status-only update changes the status and no other field. */
  lemma MergeStatusOnly(t: Task, st: Status)
    ensures Merge(t, StatusPatch(st)) == t.(status := st)
  {
  }

  /** Toggling twice restores a status the app writes. */
  lemma ToggleInvolution(st: Status)
    requires st == Pending || st == Completed
    ensures Toggled(Toggled(st)) == st
  {
  }
}
