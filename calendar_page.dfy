/** Due-date matching on the calendar page (src/pages/CalendarPage.tsx). */
module CalendarPage {
  import opened Wrappers
  import opened Dates
  import opened OpenProject
  import opened Seqs

  /** The class string `getDayClassNames` gives a day with tasks due. */
  const HighlightClass: string := "bg-project-100 rounded-full font-bold"

  /** A task is due on calendar day `day`. Undated tasks are due on no day. */
  predicate DueOn(task: WorkPackage, day: Day) {
    task.dueDate.Some? && task.dueDate.value == day
  }

  /** `updateSelectedDateTasks` as intended: nothing without a selected day, else the tasks due that day. */
  function SelectedDateTasks(tasks: seq<WorkPackage>, selected: Option<Day>): (r: seq<WorkPackage>)
    ensures selected.None? ==> r == []
    ensures selected.Some? ==> forall t :: t in r <==> t in tasks && t.dueDate == Some(selected.value)
    ensures IsSubsequence(r, tasks)
  {
    if selected.None? then []
    else
      FilterIsSubsequence(tasks, t => DueOn(t, selected.value));
      Filter(tasks, t => DueOn(t, selected.value))
  }

  /** `getDayClassNames(day)` as intended: the highlight when some task is due that day, else "". */
  function DayClassNames(tasks: seq<WorkPackage>, day: Day): (c: string)
    ensures c == HighlightClass || c == ""
    ensures c == HighlightClass <==> exists t :: t in tasks && DueOn(t, day)
  {
    if Any(tasks, t => DueOn(t, day)) then HighlightClass else ""
  }

  /** The calendar's `booked` modifier as intended: some task is due that day. */
  predicate Booked(tasks: seq<WorkPackage>, day: Day)
    ensures Booked(tasks, day) <==> exists t :: t in tasks && t.dueDate == Some(day)
  {
    Any(tasks, t => DueOn(t, day))
  }

  /**
   * A day is highlighted exactly when it is booked, exactly when selecting it would list
   * some task.
   */
  lemma HighlightAgreement(tasks: seq<WorkPackage>, day: Day)
    ensures DayClassNames(tasks, day) == HighlightClass <==> Booked(tasks, day)
    ensures Booked(tasks, day) <==> SelectedDateTasks(tasks, Some(day)) != []
  {
  }

  /**
   * A task without a due date is never listed, and adding one to any list changes neither the
   * highlight nor the `booked` modifier of any day.
   */
  lemma UndatedNeverShown(tasks: seq<WorkPackage>, task: WorkPackage, day: Day)
    requires task.dueDate.None?
    ensures task !in SelectedDateTasks(tasks, Some(day))
    ensures DayClassNames(tasks + [task], day) == DayClassNames(tasks, day)
    ensures Booked(tasks + [task], day) == Booked(tasks, day)
  {
    assert forall t :: t in tasks + [task] && DueOn(t, day) ==> t in tasks;
  }

  // ----- The comparison as the page writes it -----

  /**
   * The local day `new Date(dueDate).toDateString()` names: the string parses as midnight UTC
   * and is rendered in the browser's zone, `offsetMs` from UTC.
   */
  function ShownDueDay(due: Day, offsetMs: int): Day {
    LocalDay(DayStart(due), offsetMs)
  }

  predicate DueOnAsWritten(task: WorkPackage, day: Day, offsetMs: int) {
    task.dueDate.Some? && ShownDueDay(task.dueDate.value, offsetMs) == day
  }

  /** `updateSelectedDateTasks` as written: compares the rendered strings of both dates. */
  function SelectedDateTasksAsWritten(tasks: seq<WorkPackage>, selected: Option<Day>, offsetMs: int): (r: seq<WorkPackage>)
    ensures selected.None? ==> r == []
    ensures selected.Some? ==> forall t :: t in r <==> t in tasks && DueOnAsWritten(t, selected.value, offsetMs)
  {
    if selected.None? then [] else Filter(tasks, t => DueOnAsWritten(t, selected.value, offsetMs))
  }

  /** `getDayClassNames(day)` as written: the same rendered-string comparison. */
  function DayClassNamesAsWritten(tasks: seq<WorkPackage>, day: Day, offsetMs: int): (c: string)
    ensures c == HighlightClass || c == ""
    ensures c == HighlightClass <==> exists t :: t in tasks && DueOnAsWritten(t, day, offsetMs)
  {
    if Any(tasks, t => DueOnAsWritten(t, day, offsetMs)) then HighlightClass else ""
  }

  /** The `booked` modifier as written. */
  predicate BookedAsWritten(tasks: seq<WorkPackage>, day: Day, offsetMs: int)
    ensures BookedAsWritten(tasks, day, offsetMs) <==> exists t :: t in tasks && DueOnAsWritten(t, day, offsetMs)
  {
    Any(tasks, t => DueOnAsWritten(t, day, offsetMs))
  }

  /**
   * As written, in every zone, the highlight, the `booked` modifier and a non-empty list for
   * the day still agree with one another: all three are shifted alike.
   */
  lemma HighlightAgreementAsWritten(tasks: seq<WorkPackage>, day: Day, offsetMs: int)
    ensures DayClassNamesAsWritten(tasks, day, offsetMs) == HighlightClass <==> BookedAsWritten(tasks, day, offsetMs)
    ensures BookedAsWritten(tasks, day, offsetMs) <==> SelectedDateTasksAsWritten(tasks, Some(day), offsetMs) != []
  {
    if BookedAsWritten(tasks, day, offsetMs) {
      var t :| t in tasks && DueOnAsWritten(t, day, offsetMs);
      assert t in SelectedDateTasksAsWritten(tasks, Some(day), offsetMs);
    }
  }

  /** At UTC or east of it (offsets under a day), a due date is shown on its own day. */
  lemma ShownDueDayEast(due: Day, offsetMs: int)
    requires 0 <= offsetMs < MsPerDay
    ensures ShownDueDay(due, offsetMs) == due
  {
  }

  /** West of UTC, a due date is shown on the day before. */
  lemma ShownDueDayWest(due: Day, offsetMs: int)
    requires -MsPerDay < offsetMs < 0
    ensures ShownDueDay(due, offsetMs) == due - 1
  {
  }

  /** East of UTC the page's comparison selects exactly the tasks due on the chosen day. */
  lemma AsWrittenAgreesEast(tasks: seq<WorkPackage>, selected: Option<Day>, offsetMs: int)
    requires 0 <= offsetMs < MsPerDay
    ensures SelectedDateTasksAsWritten(tasks, selected, offsetMs) == SelectedDateTasks(tasks, selected)
  {
    if selected.Some? {
      forall t ensures DueOnAsWritten(t, selected.value, offsetMs) == DueOn(t, selected.value) {
        if t.dueDate.Some? {
          ShownDueDayEast(t.dueDate.value, offsetMs);
        }
      }
      FilterSame(tasks, t => DueOnAsWritten(t, selected.value, offsetMs), t => DueOn(t, selected.value));
    }
  }

  /** West of UTC, choosing a day lists the tasks due on the following day. */
  lemma AsWrittenShiftsWest(tasks: seq<WorkPackage>, day: Day, offsetMs: int)
    requires -MsPerDay < offsetMs < 0
    ensures SelectedDateTasksAsWritten(tasks, Some(day), offsetMs) == SelectedDateTasks(tasks, Some(day + 1))
  {
    forall t ensures DueOnAsWritten(t, day, offsetMs) == DueOn(t, day + 1) {
      if t.dueDate.Some? {
        ShownDueDayWest(t.dueDate.value, offsetMs);
      }
    }
    FilterSame(tasks, t => DueOnAsWritten(t, day, offsetMs), t => DueOn(t, day + 1));
  }

  /** West of UTC, as written, each day is highlighted and booked for the next day's tasks. */
  lemma HighlightShiftsWest(tasks: seq<WorkPackage>, day: Day, offsetMs: int)
    requires -MsPerDay < offsetMs < 0
    ensures DayClassNamesAsWritten(tasks, day, offsetMs) == DayClassNames(tasks, day + 1)
    ensures BookedAsWritten(tasks, day, offsetMs) == Booked(tasks, day + 1)
  {
    forall t ensures DueOnAsWritten(t, day, offsetMs) == DueOn(t, day + 1) {
      if t.dueDate.Some? {
        ShownDueDayWest(t.dueDate.value, offsetMs);
      }
    }
  }

  /** At UTC and east of it, the written highlight is the intended one. */
  lemma HighlightAgreesEast(tasks: seq<WorkPackage>, day: Day, offsetMs: int)
    requires 0 <= offsetMs < MsPerDay
    ensures DayClassNamesAsWritten(tasks, day, offsetMs) == DayClassNames(tasks, day)
    ensures BookedAsWritten(tasks, day, offsetMs) == Booked(tasks, day)
  {
    forall t ensures DueOnAsWritten(t, day, offsetMs) == DueOn(t, day) {
      if t.dueDate.Some? {
        ShownDueDayEast(t.dueDate.value, offsetMs);
      }
    }
  }

  /**
   * A concrete case: in UTC-5 a task due on 2026-10-15 (day 20741) is missing when that day is
   * chosen, and listed under 2026-10-14.
   */
  lemma DueDateMissedInUtcMinus5(task: WorkPackage)
    requires task.dueDate == Some(20741)
    ensures SelectedDateTasksAsWritten([task], Some(20741), -5 * 3600000) == []
    ensures SelectedDateTasksAsWritten([task], Some(20740), -5 * 3600000) == [task]
    ensures SelectedDateTasks([task], Some(20741)) == [task]
    ensures DayClassNamesAsWritten([task], 20741, -5 * 3600000) == ""
    ensures DayClassNamesAsWritten([task], 20740, -5 * 3600000) == HighlightClass
  {
    ShownDueDayWest(20741, -5 * 3600000);
  }
}
