/** One row of the task list: the checkbox that toggles a task's status and
    the delete button, wired to the dashboard as the dashboard wires them. */
module TaskItem {
  import opened Wrappers
  import opened Seqs
  import opened Tasks
  import Dashboard

  /** The arguments of an `onUpdate(id, updates)` call. */
  datatype UpdateRequest = UpdateRequest(id: TaskId, patch: Patch)

  /** The checkbox's request: the task's own id and an update object that
      holds only `status`, flipped from completed to pending and from anything
      else to completed. */
  function ToggleRequest(t: Task): (r: UpdateRequest)
    ensures r.id == t.id
    ensures t.status == Completed ==> r.patch.status == Some(Pending)
    ensures t.status != Completed ==> r.patch.status == Some(Completed)
    ensures forall u: Task :: Merge(u, r.patch) == u.(status := r.patch.status.value)
  {
    var st := Toggled(t.status);
    forall u: Task
      ensures Merge(u, StatusPatch(st)) == u.(status := st)
    {
      MergeStatusOnly(u, st);
    }
    UpdateRequest(t.id, StatusPatch(st))
  }

  /** A click on the checkbox. The button is disabled while the task is
      completing, and then no request is made. */
  function Click(t: Task, isCompleting: bool): (r: Option<UpdateRequest>)
    ensures r.None? <==> isCompleting
    ensures r.Some? ==> r.value.id == t.id && r.value.patch.status == Some(Toggled(t.status))
  {
    if isCompleting then None else Some(ToggleRequest(t))
  }

  /** The arguments of an `onDelete(id)` call: the task's own id. */
  function DeleteRequest(t: Task): TaskId {
    t.id
  }

  /** A checkbox click as the dashboard routes it: `isCompleting` is whether
      the task's id is in `completingTasks`, and the request goes to
      `updateTask`. */
  function OnClick(s: Dashboard.State, t: Task): (r: Dashboard.State)
    ensures t.id in s.completing ==> r == s
    ensures t.id !in s.completing && t.status == Completed ==>
      && r.completing == s.completing && r.timers == s.timers
      && |r.tasks| == |s.tasks| && |r.store| == |s.store|
      && (forall i :: 0 <= i < |s.tasks| ==>
           r.tasks[i] == if s.tasks[i].id == t.id then s.tasks[i].(status := Pending) else s.tasks[i])
      && (forall i :: 0 <= i < |s.store| ==>
           r.store[i] == if s.store[i].id == t.id then s.store[i].(status := Pending) else s.store[i])
    ensures t.id !in s.completing && t.status != Completed ==>
      && r.store == s.store && r.tasks == s.tasks
      && r.completing == s.completing + [t.id]
      && r.timers == s.timers + [Dashboard.Timer(t.id, StatusPatch(Completed))]
  {
    match Click(t, t.id in s.completing)
    case None => s
    case Some(req) => Dashboard.Request(s, req.id, req.patch)
  }

  /** A delete click as the dashboard routes it: no task with that id is left
      in the list or the store. */
  function OnDeleteClick(s: Dashboard.State, t: Task): (r: Dashboard.State)
    ensures t !in r.tasks && t !in r.store
    ensures forall u :: u in r.tasks ==> u.id != t.id
    ensures forall u :: u in r.store ==> u.id != t.id
    ensures forall u :: u in s.tasks && u.id != t.id ==> u in r.tasks
    ensures forall u :: u in s.store && u.id != t.id ==> u in r.store
  {
    Dashboard.Delete(s, DeleteRequest(t))
  }

  /** Clicks keep the completion bookkeeping intact: because the checkbox is
      disabled while its id is completing, no id is ever listed twice. */
  lemma OnClickKeepsCompletions(s: Dashboard.State, t: Task)
    requires Dashboard.CompletionsMatchTimers(s)
    ensures Dashboard.CompletionsMatchTimers(OnClick(s, t))
  {
    var r := OnClick(s, t);
    if t.id !in s.completing && t.status != Completed {
      forall i, j | 0 <= i < j < |r.completing|
        ensures r.completing[i] != r.completing[j]
      {
        if j == |s.completing| {
          assert r.completing[i] in s.completing;
        }
      }
    }
  }

  /** Two toggles in a row give the task back unchanged, for either of the
      statuses the app writes. */
  lemma ToggleTwice(t: Task)
    requires t.status == Pending || t.status == Completed
    ensures var once := Merge(t, ToggleRequest(t).patch);
      Merge(once, ToggleRequest(once).patch) == t
  {
  }
}
