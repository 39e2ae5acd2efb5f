/** The dashboard's task store and its delayed-completion state machine.

    `store` is the `tasks` collection in local storage: every user's tasks,
    in the order they were added. `tasks` is the dashboard's in-memory list
    for the signed-in user, `completing` is its `completingTasks` list, and
    `timers` holds the completion timeouts that are armed and have not fired
    yet, oldest first. Every timeout has the same 5000 ms delay, so they fire
    in the order they were armed; the passing of time is the explicit `Fire`
    event. */
module Dashboard {
  import opened Wrappers
  import opened Seqs
  import opened Tasks
  import opened Ordering

  /** An armed timeout that will run `performUpdate(id, patch)` and then take
      `id` out of `completing`. */
  datatype Timer = Timer(id: TaskId, patch: Patch)

  datatype State = State(
    store: seq<Task>,
    tasks: seq<Task>,
    completing: seq<TaskId>,
    timers: seq<Timer>)

  /** The dashboard as it mounts over an existing store: an empty list,
      nothing completing, no timer armed. */
  function Mount(store: seq<Task>): State {
    State(store, [], [], [])
  }

  function OwnerIs(uid: UserId): Task -> bool {
    (t: Task) => t.userId == uid
  }

  function IdIsNot(id: TaskId): Task -> bool {
    (t: Task) => t.id != id
  }

  /** The per-task step of `performUpdate`: merge into tasks with this id. */
  function MergeInto(id: TaskId, p: Patch): Task -> Task {
    (t: Task) => if t.id == id then Merge(t, p) else t
  }

  /** The stored tasks that belong to user `uid`, in store order. */
  function OwnedBy(store: seq<Task>, uid: UserId): (r: seq<Task>)
    ensures forall t :: t in r <==> t in store && t.userId == uid
    ensures forall t :: multiset(r)[t] == if t.userId == uid then multiset(store)[t] else 0
  {
    FilterMultiset(OwnerIs(uid), store);
    Filter(OwnerIs(uid), store)
  }

  /** `fetchTasks`: the list becomes the user's stored tasks, newest first. */
  function Load(s: State, uid: UserId): (r: State)
    ensures r.store == s.store && r.completing == s.completing && r.timers == s.timers
    ensures forall t :: t in r.tasks <==> t in s.store && t.userId == uid
    ensures forall t :: multiset(r.tasks)[t] == if t.userId == uid then multiset(s.store)[t] else 0
    ensures Sorted(NewestFirst, r.tasks)
  {
    var owned := OwnedBy(s.store, uid);
    SortSameMembers(NewestFirst, owned);
    s.(tasks := Sort(NewestFirst, owned))
  }

  /** The record `addTask` builds. `status` and `created_at` are written after
      the payload is spread, so the payload cannot override them. */
  function NewTask(id: TaskId, uid: UserId, now: Timestamp, data: TaskData): Task {
    Task(id, uid, data.title, data.description, data.dueDate, Pending, now)
  }

  /** `addTask`: the new task is appended to the store and put at the head of
      the list. `id` stands for `Date.now()` and `now` for `new Date()`. */
  function Add(s: State, uid: UserId, id: TaskId, now: Timestamp, data: TaskData): (r: State)
    ensures |r.store| == |s.store| + 1 && r.store[..|s.store|] == s.store
    ensures |r.tasks| == |s.tasks| + 1 && r.tasks[1..] == s.tasks
    ensures r.tasks[0] == r.store[|s.store|]
    ensures r.tasks[0].id == id && r.tasks[0].userId == uid
    ensures r.tasks[0].status == Pending && r.tasks[0].createdAt == now
    ensures r.tasks[0].title == data.title && r.tasks[0].description == data.description
    ensures r.tasks[0].dueDate == data.dueDate
    ensures r.completing == s.completing && r.timers == s.timers
  {
    var t := NewTask(id, uid, now, data);
    s.(store := s.store + [t], tasks := [t] + s.tasks)
  }

  /** `performUpdate`: the patch is merged into every task with this id, in
      the store and in the list alike. */
  function PerformUpdate(s: State, id: TaskId, p: Patch): (r: State)
    ensures |r.store| == |s.store| && |r.tasks| == |s.tasks|
    ensures forall i :: 0 <= i < |s.store| ==>
      r.store[i] == if s.store[i].id == id then Merge(s.store[i], p) else s.store[i]
    ensures forall i :: 0 <= i < |s.tasks| ==>
      r.tasks[i] == if s.tasks[i].id == id then Merge(s.tasks[i], p) else s.tasks[i]
    ensures r.completing == s.completing && r.timers == s.timers
    ensures (forall t :: t in s.store ==> t.id != id) ==> r.store == s.store
    ensures (forall t :: t in s.tasks ==> t.id != id) ==> r.tasks == s.tasks
  {
    s.(store := Map(MergeInto(id, p), s.store), tasks := Map(MergeInto(id, p), s.tasks))
  }

  /** `updateTask`: a request for `status: 'completed'` only marks the id as
      completing and arms a timer; any other update is merged at once. */
  function Request(s: State, id: TaskId, p: Patch): (r: State)
    ensures p.status == Some(Completed) ==>
      && r.store == s.store && r.tasks == s.tasks
      && r.completing == s.completing + [id]
      && r.timers == s.timers + [Timer(id, p)]
    ensures p.status != Some(Completed) ==>
      r == PerformUpdate(s, id, p) && r.completing == s.completing && r.timers == s.timers
  {
    if p.status == Some(Completed) then
      s.(completing := s.completing + [id], timers := s.timers + [Timer(id, p)])
    else
      PerformUpdate(s, id, p)
  }

  /** The oldest armed timeout fires: its update is merged, then every
      occurrence of its id leaves `completing`. With nothing armed, nothing
      happens. */
  function Fire(s: State): (r: State)
    ensures s.timers == [] ==> r == s
    ensures s.timers != [] ==>
      && r.timers == s.timers[1..]
      && r.store == PerformUpdate(s, s.timers[0].id, s.timers[0].patch).store
      && r.tasks == PerformUpdate(s, s.timers[0].id, s.timers[0].patch).tasks
      && s.timers[0].id !in r.completing
      && forall x :: x in r.completing <==> x in s.completing && x != s.timers[0].id
  {
    if s.timers == [] then s
    else
      var tm := s.timers[0];
      var u := PerformUpdate(s, tm.id, tm.patch);
      u.(completing := RemoveAll(tm.id, u.completing), timers := s.timers[1..])
  }

  /** The tasks that survive `deleteTask(id)`, in their original order. */
  function WithoutId(ts: seq<Task>, id: TaskId): (r: seq<Task>)
    ensures forall t :: t in r <==> t in ts && t.id != id
    ensures forall t :: multiset(r)[t] == if t.id != id then multiset(ts)[t] else 0
    ensures (forall t :: t in ts ==> t.id != id) ==> r == ts
  {
    FilterMultiset(IdIsNot(id), ts);
    if forall t :: t in ts ==> t.id != id then
      FilterKeepsAll(IdIsNot(id), ts);
      Filter(IdIsNot(id), ts)
    else
      Filter(IdIsNot(id), ts)
  }

  /** `deleteTask`: every task with this id leaves the store and the list;
      `completing` and the armed timers are left alone. */
  function Delete(s: State, id: TaskId): (r: State)
    ensures forall t :: t in r.store <==> t in s.store && t.id != id
    ensures forall t :: t in r.tasks <==> t in s.tasks && t.id != id
    ensures forall t :: multiset(r.store)[t] == if t.id != id then multiset(s.store)[t] else 0
    ensures forall t :: multiset(r.tasks)[t] == if t.id != id then multiset(s.tasks)[t] else 0
    ensures (forall t :: t in s.store ==> t.id != id) ==> r.store == s.store
    ensures (forall t :: t in s.tasks ==> t.id != id) ==> r.tasks == s.tasks
    ensures r.completing == s.completing && r.timers == s.timers
  {
    s.(store := WithoutId(s.store, id), tasks := WithoutId(s.tasks, id))
  }

  /** Deleting keeps the survivors in order: it acts on each part of a
      sequence separately. */
  lemma DeleteKeepsOrder(a: seq<Task>, b: seq<Task>, id: TaskId)
    ensures WithoutId(a + b, id) == WithoutId(a, id) + WithoutId(b, id)
  {
    FilterConcat(IdIsNot(id), a, b);
  }

  /** The events the dashboard reacts to. */
  datatype Event =
    | LoadEvent
    | AddEvent(id: TaskId, now: Timestamp, data: TaskData)
    | UpdateEvent(id: TaskId, patch: Patch)
    | FireEvent
    | DeleteEvent(id: TaskId)

  function Step(s: State, uid: UserId, e: Event): State {
    match e
    case LoadEvent => Load(s, uid)
    case AddEvent(id, now, data) => Add(s, uid, id, now, data)
    case UpdateEvent(id, p) => Request(s, id, p)
    case FireEvent => Fire(s)
    case DeleteEvent(id) => Delete(s, id)
  }

  function Run(s: State, uid: UserId, events: seq<Event>): State
    decreases |events|
  {
    if events == [] then s else Run(Step(s, uid, events[0]), uid, events[1..])
  }

  /** The in-memory list holds exactly the user's stored tasks (as a
      multiset: the order may differ). This is the read-your-writes promise
      between the list and the store. */
  ghost predicate Mirrors(s: State, uid: UserId) {
    multiset(s.tasks) == multiset(OwnedBy(s.store, uid))
  }

  /** No update the dashboard applies moves a task to another owner. */
  ghost predicate KeepsOwner(p: Patch) {
    p.userId.None?
  }

  ghost predicate TimersKeepOwner(s: State) {
    forall i :: 0 <= i < |s.timers| ==> KeepsOwner(s.timers[i].patch)
  }

  ghost predicate EventKeepsOwner(e: Event) {
    e.UpdateEvent? ==> KeepsOwner(e.patch)
  }

  /** Merging an owner-preserving update keeps the list mirroring the store. */
  lemma UpdateKeepsMirror(s: State, uid: UserId, id: TaskId, p: Patch)
    requires Mirrors(s, uid) && KeepsOwner(p)
    ensures Mirrors(PerformUpdate(s, id, p), uid)
  {
    var f := MergeInto(id, p);
    FilterMapCommute(OwnerIs(uid), f, s.store);
    MapPreservesPermutation(f, s.tasks, OwnedBy(s.store, uid));
  }

  /** Loading makes the list mirror the store, whatever it held before. */
  lemma LoadMirrors(s: State, uid: UserId)
    ensures Mirrors(Load(s, uid), uid)
  {
  }

  lemma AddKeepsMirror(s: State, uid: UserId, id: TaskId, now: Timestamp, data: TaskData)
    requires Mirrors(s, uid)
    ensures Mirrors(Add(s, uid, id, now, data), uid)
  {
    var r := Add(s, uid, id, now, data);
    var t := r.tasks[0];
    assert r.store == s.store + [t];
    FilterConcat(OwnerIs(uid), s.store, [t]);
    assert OwnedBy([t], uid) == [t];
    assert r.tasks == [t] + s.tasks;
  }

  lemma DeleteKeepsMirror(s: State, uid: UserId, id: TaskId)
    requires Mirrors(s, uid)
    ensures Mirrors(Delete(s, id), uid)
  {
    FilterPreservesPermutation(IdIsNot(id), s.tasks, OwnedBy(s.store, uid));
    FilterSwap(IdIsNot(id), OwnerIs(uid), s.store);
  }

  lemma {:induction false} StepKeepsMirror(s: State, uid: UserId, e: Event)
    requires Mirrors(s, uid) || e.LoadEvent?
    requires TimersKeepOwner(s) && EventKeepsOwner(e)
    ensures Mirrors(Step(s, uid, e), uid)
    ensures TimersKeepOwner(Step(s, uid, e))
  {
    match e
    case LoadEvent =>
      LoadMirrors(s, uid);
    case AddEvent(id, now, data) =>
      AddKeepsMirror(s, uid, id, now, data);
    case UpdateEvent(id, p) =>
      if p.status != Some(Completed) {
        UpdateKeepsMirror(s, uid, id, p);
      }
    case FireEvent =>
      if s.timers != [] {
        UpdateKeepsMirror(s, uid, s.timers[0].id, s.timers[0].patch);
      }
    case DeleteEvent(id) =>
      DeleteKeepsMirror(s, uid, id);
  }

  /** From a load on, any run of owner-preserving events keeps the list
      mirroring the user's stored tasks. */
  lemma {:induction false} RunKeepsMirror(s: State, uid: UserId, events: seq<Event>)
    requires Mirrors(s, uid) && TimersKeepOwner(s)
    requires forall i :: 0 <= i < |events| ==> EventKeepsOwner(events[i])
    ensures Mirrors(Run(s, uid, events), uid)
    decreases |events|
  {
    if events != [] {
      StepKeepsMirror(s, uid, events[0]);
      RunKeepsMirror(Step(s, uid, events[0]), uid, events[1..]);
    }
  }

  /** The completion bookkeeping the task checkbox maintains: each completing
      id is listed once and has exactly one armed timer, in the same order,
      and every armed timer asks for `status: 'completed'` and nothing else. */
  ghost predicate CompletionsMatchTimers(s: State) {
    && NoDup(s.completing)
    && |s.timers| == |s.completing|
    && forall i :: 0 <= i < |s.timers| ==>
         s.timers[i].id == s.completing[i] && s.timers[i].patch == StatusPatch(Completed)
  }

  /** When a timer fires under that bookkeeping, exactly its id leaves
      `completing`, and every task with that id is now completed with no
      other field changed. */
  lemma FireCommitsCompletion(s: State)
    requires CompletionsMatchTimers(s) && s.timers != []
    ensures var r := Fire(s);
      && r.completing == s.completing[1..]
      && CompletionsMatchTimers(r)
      && |r.tasks| == |s.tasks| && |r.store| == |s.store|
      && (forall i :: 0 <= i < |s.tasks| ==>
            r.tasks[i] == if s.tasks[i].id == s.completing[0] then s.tasks[i].(status := Completed) else s.tasks[i])
      && (forall i :: 0 <= i < |s.store| ==>
            r.store[i] == if s.store[i].id == s.completing[0] then s.store[i].(status := Completed) else s.store[i])
  {
    RemoveHeadOfNoDup(s.completing);
    forall t: Task
      ensures Merge(t, StatusPatch(Completed)) == t.(status := Completed)
    {
      MergeStatusOnly(t, Completed);
    }
    var r := Fire(s);
    assert forall i :: 0 <= i < |r.timers| ==> r.timers[i] == s.timers[i + 1];
  }

  /** Loading, adding and deleting leave the completion bookkeeping intact. */
  lemma StepKeepsCompletions(s: State, uid: UserId, e: Event)
    requires CompletionsMatchTimers(s)
    requires e.LoadEvent? || e.AddEvent? || e.DeleteEvent? || e.FireEvent?
    ensures CompletionsMatchTimers(Step(s, uid, e))
  {
    if e.FireEvent? && s.timers != [] {
      FireCommitsCompletion(s);
    }
  }
}
