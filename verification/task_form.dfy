/** The "What needs to be done?" form: its fields, the due date it composes
    from the picked date and time, and what a submit hands to the dashboard. */
module TaskForm {
  import opened Wrappers
  import opened LocalTime
  import opened Tasks
  import DateTimePicker
  import Dashboard

  datatype Picker = DatePicker | TimePicker

  /** The form's state: the two text fields, the picked date and time (each
      may be absent), which picker is open, and whether the form is expanded. */
  datatype Form = Form(
    title: string,
    description: string,
    date: Option<DateTime>,
    time: Option<DateTime>,
    picker: Option<Picker>,
    expanded: bool)

  /** The form with every field reset. */
  const Cleared: Form := Form("", "", None, None, None, false)

  /** The due date `handleSubmit` composes. With nothing picked there is none.
      Otherwise the day is the picked date's, or today's (`now`) when only a
      time was picked. A picked time sets the hour and minute and keeps the
      base's seconds and milliseconds; with no time the day ends at
      23:59:00.000. */
  function DueDate(date: Option<DateTime>, time: Option<DateTime>, now: DateTime): (r: Option<DateTime>)
    ensures r.None? <==> date.None? && time.None?
    ensures date.Some? && r.Some? ==> r.value.day == date.value.day
    ensures date.None? && r.Some? ==> r.value.day == now.day
    ensures time.Some? ==>
      && r.Some?
      && r.value.hour == time.value.hour && r.value.minute == time.value.minute
      && r.value.second == date.GetOr(now).second && r.value.ms == date.GetOr(now).ms
    ensures date.Some? && time.None? ==> r == Some(DateTime(date.value.day, 23, 59, 0, 0))
  {
    if date.None? && time.None? then None
    else
      var base := date.GetOr(now);
      match time
      case Some(t) => Some(base.(hour := t.hour, minute := t.minute))
      case None => Some(base.(hour := 23, minute := 59, second := 0, ms := 0))
  }

  /** Composing valid times gives a valid time. */
  lemma DueDateValid(date: Option<DateTime>, time: Option<DateTime>, now: DateTime)
    requires date.Some? ==> Valid(date.value)
    requires time.Some? ==> Valid(time.value)
    requires Valid(now)
    ensures DueDate(date, time, now).Some? ==> Valid(DueDate(date, time, now).value)
  {
  }

  /** The picker and the form together: a calendar day and a time set on
      the clock give exactly that day at that hour and minute, to the second. */
  lemma PickedDayAndTime(day: int, sel: DateTimePicker.Selection, pickedAt: DateTime, now: DateTime)
    requires 1 <= sel.hour <= 12
    ensures DueDate(Some(StartOfDay(day)), Some(DateTimePicker.TimeSelect(sel, pickedAt)), now)
         == Some(DateTime(day, DateTimePicker.To24Hour(sel.hour, sel.period), sel.minute, 0, 0))
  {
  }

  /** `handleSubmit`: an empty title submits nothing and leaves the form as it
      was; any other title, whitespace included, submits the title and the
      description exactly as typed with the composed due date, and resets
      the form. */
  function Submit(f: Form, now: DateTime): (r: (Form, Option<TaskData>))
    ensures r.1.None? <==> f.title == ""
    ensures f.title == "" ==> r.0 == f
    ensures f.title != "" ==>
      && r.0 == Cleared
      && r.1.value.title == f.title
      && r.1.value.description == f.description
      && r.1.value.dueDate == DueDate(f.date, f.time, now)
  {
    if f.title == "" then (f, None)
    else (Cleared, Some(TaskData(f.title, f.description, DueDate(f.date, f.time, now))))
  }

  /** A submit as the dashboard receives it through `onAddTask`: nothing
      happens to the dashboard on an empty title, and otherwise exactly one
      task, pending and owned by the signed-in user, carrying what was typed,
      is added. `id` and `stamp` stand for `Date.now()` and the creation time. */
  function SubmitToDashboard(f: Form, now: DateTime, s: Dashboard.State, uid: UserId, id: TaskId, stamp: Timestamp): (r: (Form, Dashboard.State))
    ensures f.title == "" ==> r == (f, s)
    ensures f.title != "" ==>
      && r.0 == Cleared
      && |r.1.store| == |s.store| + 1 && |r.1.tasks| == |s.tasks| + 1
      && r.1.tasks[0] == Task(id, uid, f.title, f.description, DueDate(f.date, f.time, now), Pending, stamp)
      && r.1.store == s.store + [r.1.tasks[0]]
      && r.1.tasks == [r.1.tasks[0]] + s.tasks
  {
    var (f', data) := Submit(f, now);
    match data
    case None => (f', s)
    case Some(d) =>
      var s' := Dashboard.Add(s, uid, id, stamp, d);
      assert s'.store == s'.store[..|s.store|] + [s'.store[|s.store|]];
      assert s'.tasks == [s'.tasks[0]] + s'.tasks[1..];
      (f', s')
  }
}
