/** Two end-to-end walks through the app, on concrete values. */
module Scenarios {
  import opened Wrappers
  import opened Seqs
  import opened LocalTime
  import opened Tasks
  import opened Ordering
  import opened DashboardView
  import Dashboard
  import TaskItem
  import TaskForm

  /** What the two counters and the two tabs show for a one-task list. */
  lemma ViewOfOne(a: Task, completing: seq<TaskId>)
    ensures PendingCount([a]) == (if a.status == Pending then 1 else 0)
    ensures CompletedCount([a]) == (if a.status == Completed then 1 else 0)
    ensures Displayed([a], completing, PendingTab) == if OnTab(a, completing, PendingTab) then [a] else []
    ensures Displayed([a], completing, CompletedTab) == if OnTab(a, completing, CompletedTab) then [a] else []
  {
    FilterSingleton(HasStatus(Pending), a);
    FilterSingleton(HasStatus(Completed), a);
    FilterSingleton(TabFilter(completing, PendingTab), a);
    FilterSingleton(TabFilter(completing, CompletedTab), a);
    SortSingleton(CompletingLast(completing), a);
    assert Sort(CompletingLast(completing), []) == [];
  }

  const BuyMilk: Task := Task(100, 1, "Buy milk", "", None, Pending, 1000)
  const Bought: Task := BuyMilk.(status := Completed)
  const Armed: Dashboard.State :=
    Dashboard.State([BuyMilk], [BuyMilk], [100], [Dashboard.Timer(100, StatusPatch(Completed))])

  /** User 1's empty dashboard, after "Buy milk" is added. */
  lemma AddBuyMilk()
    ensures Dashboard.Add(Dashboard.Load(Dashboard.Mount([]), 1), 1, 100, 1000, TaskData("Buy milk", "", None))
         == Dashboard.State([BuyMilk], [BuyMilk], [], [])
  {
    var s0 := Dashboard.Load(Dashboard.Mount([]), 1);
    assert s0.tasks == [] by {
      assert multiset(s0.tasks) == multiset{};
    }
  }

  /** Ticking it arms one timer and marks it completing. */
  lemma TickBuyMilk()
    ensures TaskItem.OnClick(Dashboard.State([BuyMilk], [BuyMilk], [], []), BuyMilk) == Armed
  {
  }

  /** The timer fires and commits the completion. */
  lemma FireBuyMilk()
    ensures Dashboard.Fire(Armed) == Dashboard.State([Bought], [Bought], [], [])
  {
    Dashboard.FireCommitsCompletion(Armed);
  }

  /** User 1 adds "Buy milk" with no date, ticks it, and waits out the grace
      period: the task stays pending and on the pending tab until the timer
      fires, and then it is completed and on the completed tab only. */
  lemma CompleteOneTask()
    ensures
      var s1 := Dashboard.Add(Dashboard.Load(Dashboard.Mount([]), 1), 1, 100, 1000, TaskData("Buy milk", "", None));
      var s2 := TaskItem.OnClick(s1, s1.tasks[0]);
      var s3 := Dashboard.Fire(s2);
      && PendingCount(s1.tasks) == 1 && CompletedCount(s1.tasks) == 0
      && PendingCount(s2.tasks) == 1 && CompletedCount(s2.tasks) == 0
      && Displayed(s2.tasks, s2.completing, PendingTab) == [BuyMilk]
      && Displayed(s2.tasks, s2.completing, CompletedTab) == []
      && PendingCount(s3.tasks) == 0 && CompletedCount(s3.tasks) == 1
      && Displayed(s3.tasks, s3.completing, PendingTab) == []
      && Displayed(s3.tasks, s3.completing, CompletedTab) == [Bought]
      && s3.store == [Bought]
  {
    AddBuyMilk();
    TickBuyMilk();
    FireBuyMilk();
    ViewOfOne(BuyMilk, []);
    ViewOfOne(BuyMilk, [100]);
    ViewOfOne(Bought, []);
  }

  /** Picking tomorrow's date and no time gives tomorrow at 23:59:00.000. */
  lemma DateOnlyEndsTheDay(today: int, now: DateTime)
    ensures
      var f := TaskForm.Form("Pay rent", "", Some(StartOfDay(today + 1)), None, None, true);
      TaskForm.Submit(f, now).1 == Some(TaskData("Pay rent", "", Some(DateTime(today + 1, 23, 59, 0, 0))))
  {
  }
}
