/** What the dashboard shows: the two counters on the tab buttons, and the
    list under the active tab, filtered and (on the pending tab) re-sorted. */
module DashboardView {
  import opened Wrappers
  import opened Seqs
  import opened Tasks
  import opened Ordering
  import Dashboard

  datatype Tab = PendingTab | CompletedTab

  /** The pending tab shows pending tasks and tasks waiting out their grace
      period; the completed tab shows completed tasks that are not waiting. */
  predicate OnTab(t: Task, completing: seq<TaskId>, tab: Tab) {
    match tab
    case PendingTab => t.status == Pending || t.id in completing
    case CompletedTab => t.status == Completed && t.id !in completing
  }

  function TabFilter(completing: seq<TaskId>, tab: Tab): Task -> bool {
    (t: Task) => OnTab(t, completing, tab)
  }

  function HasStatus(st: Status): Task -> bool {
    (t: Task) => t.status == st
  }

  /** The number on the "Pending Tasks" button. */
  function PendingCount(ts: seq<Task>): (n: nat)
    ensures n <= |ts|
    ensures n == 0 <==> forall t :: t in ts ==> t.status != Pending
    ensures n == |set i | 0 <= i < |ts| && ts[i].status == Pending|
  {
    var r := Filter(HasStatus(Pending), ts);
    FilterLengthCountsPositions(HasStatus(Pending), ts);
    assert Positions(HasStatus(Pending), ts) == set i | 0 <= i < |ts| && ts[i].status == Pending;
    assert r != [] ==> r[0] in r;
    |r|
  }

  /** The number on the "Completed" button. */
  function CompletedCount(ts: seq<Task>): (n: nat)
    ensures n <= |ts|
    ensures n == 0 <==> forall t :: t in ts ==> t.status != Completed
    ensures n == |set i | 0 <= i < |ts| && ts[i].status == Completed|
  {
    var r := Filter(HasStatus(Completed), ts);
    FilterLengthCountsPositions(HasStatus(Completed), ts);
    assert Positions(HasStatus(Completed), ts) == set i | 0 <= i < |ts| && ts[i].status == Completed;
    assert r != [] ==> r[0] in r;
    |r|
  }

  /** `displayedTasks`: the tasks of `ts` that belong on `tab`. The pending
      tab is re-sorted so that waiting tasks sink to the bottom; the
      completed tab keeps the list's own order. */
  function Displayed(ts: seq<Task>, completing: seq<TaskId>, tab: Tab): (r: seq<Task>)
    ensures forall t :: t in r <==> t in ts && OnTab(t, completing, tab)
    ensures forall t :: multiset(r)[t] == if OnTab(t, completing, tab) then multiset(ts)[t] else 0
    ensures tab == PendingTab ==> Sorted(CompletingLast(completing), r)
    ensures tab == CompletedTab ==> r == Filter(TabFilter(completing, tab), ts)
  {
    var shown := Filter(TabFilter(completing, tab), ts);
    FilterMultiset(TabFilter(completing, tab), ts);
    if tab == PendingTab then
      SortSameMembers(CompletingLast(completing), shown);
      Sort(CompletingLast(completing), shown)
    else
      shown
  }

  /** The app only ever writes these two statuses. */
  ghost predicate TwoValued(ts: seq<Task>) {
    forall t :: t in ts ==> t.status == Pending || t.status == Completed
  }

  /** A task with one of the two statuses shows on exactly one tab. */
  lemma ExactlyOneTab(t: Task, completing: seq<TaskId>)
    requires t.status == Pending || t.status == Completed
    ensures OnTab(t, completing, PendingTab) != OnTab(t, completing, CompletedTab)
  {
  }

  /** The two tabs split the list: together they show every task once. */
  lemma TabsPartition(ts: seq<Task>, completing: seq<TaskId>)
    requires TwoValued(ts)
    ensures |Displayed(ts, completing, PendingTab)| + |Displayed(ts, completing, CompletedTab)| == |ts|
  {
    var p, c := TabFilter(completing, PendingTab), TabFilter(completing, CompletedTab);
    FilterComplementLength(p, c, ts);
    var sorted := Displayed(ts, completing, PendingTab);
    assert multiset(sorted) == multiset(Filter(p, ts));
    assert |multiset(sorted)| == |multiset(Filter(p, ts))|;
  }

  /** The two counters add up to the length of the list. */
  lemma CountsPartition(ts: seq<Task>)
    requires TwoValued(ts)
    ensures PendingCount(ts) + CompletedCount(ts) == |ts|
  {
    FilterComplementLength(HasStatus(Pending), HasStatus(Completed), ts);
  }

  /** On the pending tab every task that is not waiting comes before every
      task that is, and each group is newest first. */
  lemma PendingTabOrder(ts: seq<Task>, completing: seq<TaskId>, i: int, j: int)
    requires var r := Displayed(ts, completing, PendingTab); 0 <= i < j < |r|
    ensures var r := Displayed(ts, completing, PendingTab);
      && (r[i].id in completing ==> r[j].id in completing)
      && ((r[i].id in completing) == (r[j].id in completing) ==> r[i].createdAt >= r[j].createdAt)
  {
  }

  /** Asking to complete a task changes neither counter, and the task stays
      on the pending tab and off the completed tab until its timer fires. */
  lemma CompletionRequestKeepsView(s: Dashboard.State, id: TaskId)
    ensures var r := Dashboard.Request(s, id, StatusPatch(Completed));
      && PendingCount(r.tasks) == PendingCount(s.tasks)
      && CompletedCount(r.tasks) == CompletedCount(s.tasks)
      && (forall t :: t in r.tasks && t.id == id ==>
            OnTab(t, r.completing, PendingTab) && !OnTab(t, r.completing, CompletedTab))
  {
  }

  /** Once its timer fires, a task whose completion was requested through the
      checkbox shows on the completed tab only. */
  lemma FireMovesToCompletedTab(s: Dashboard.State)
    requires Dashboard.CompletionsMatchTimers(s) && s.timers != []
    ensures var r := Dashboard.Fire(s);
      forall t :: t in r.tasks && t.id == s.completing[0] ==>
        OnTab(t, r.completing, CompletedTab) && !OnTab(t, r.completing, PendingTab)
  {
    Dashboard.FireCommitsCompletion(s);
    var r := Dashboard.Fire(s);
    forall t | t in r.tasks && t.id == s.completing[0]
      ensures t.status == Completed && t.id !in r.completing
    {
      var i :| 0 <= i < |r.tasks| && r.tasks[i] == t;
      assert s.tasks[i].(status := Completed).id == s.tasks[i].id;
    }
  }
}
