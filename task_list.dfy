/** The task list's status filter, sort orders and sort-field button (src/components/TaskList.tsx). */
module TaskList {
  import opened OpenProject
  import opened Seqs
  import opened WorkItems
  import opened WorkOrder

  datatype FilterStatus = All | Completed | InProgress | NotStarted

  predicate MatchesFilter(filter: FilterStatus, task: WorkPackage) {
    match filter
    case All => true
    case Completed => IsCompleted(task)
    case InProgress => IsInProgress(task)
    case NotStarted => IsNotStarted(task)
  }

  /** `filteredTasks`: the tasks in the selected bucket, in their original order. */
  function FilteredTasks(tasks: seq<WorkPackage>, filter: FilterStatus): (r: seq<WorkPackage>)
    ensures IsSubsequence(r, tasks)
    ensures filter == All ==> r == tasks
    ensures filter == Completed ==> forall t :: t in r <==> t in tasks && t.percentageDone == 100
    ensures filter == InProgress ==> forall t :: t in r <==> t in tasks && 0 < t.percentageDone < 100
    ensures filter == NotStarted ==> forall t :: t in r <==> t in tasks && t.percentageDone == 0
  {
    FilterIsSubsequence(tasks, t => MatchesFilter(filter, t));
    if filter == All then FilterKeepsAll(tasks, t => MatchesFilter(filter, t)); Filter(tasks, t => MatchesFilter(filter, t))
    else Filter(tasks, t => MatchesFilter(filter, t))
  }

  /** `sortedTasks`: a sorted copy of the filtered tasks; the input is left as it was. */
  function VisibleTasks(tasks: seq<WorkPackage>, filter: FilterStatus, field: SortField): (r: seq<WorkPackage>)
    ensures multiset(r) == multiset(FilteredTasks(tasks, filter))
    ensures Sorted(field, r)
  {
    SortTasksSorted(field, FilteredTasks(tasks, filter));
    SortTasks(field, FilteredTasks(tasks, filter))
  }

  /** The sort button's transition: due date, then priority, then status, then due date again. */
  function NextSortField(field: SortField): (next: SortField)
    ensures next != field
  {
    match field
    case DueDate => Priority
    case Priority => StatusName
    case StatusName => DueDate
  }

  /**
   * The button cycles due date, priority, status, due date: three presses return to the start,
   * passing through all three orders.
   */
  lemma SortFieldCycle(field: SortField)
    ensures NextSortField(DueDate) == Priority && NextSortField(Priority) == StatusName
    ensures NextSortField(NextSortField(NextSortField(field))) == field
    ensures {field, NextSortField(field), NextSortField(NextSortField(field))} == {DueDate, Priority, StatusName}
  {
  }

  /** The component's state: the `sortField` and `filterStatus` hooks. */
  class TaskListState {
    var sortField: SortField
    var filterStatus: FilterStatus

    constructor()
      ensures sortField == DueDate && filterStatus == All
    {
      sortField := DueDate;
      filterStatus := All;
    }

    /** The sort button's `onClick`. */
    method CycleSortField()
      modifies this
      ensures sortField == NextSortField(old(sortField))
      ensures filterStatus == old(filterStatus)
    {
      if sortField == DueDate {
        sortField := Priority;
      } else if sortField == Priority {
        sortField := StatusName;
      } else {
        sortField := DueDate;
      }
    }

    /** The status selector's `onValueChange`. */
    method SetFilterStatus(filter: FilterStatus)
      modifies this
      ensures filterStatus == filter && sortField == old(sortField)
    {
      filterStatus := filter;
    }

    /** What the list renders for the given tasks in the current state. */
    function Rendered(tasks: seq<WorkPackage>): (r: seq<WorkPackage>)
      reads this
      ensures multiset(r) == multiset(FilteredTasks(tasks, filterStatus))
      ensures Sorted(sortField, r)
    {
      VisibleTasks(tasks, filterStatus, sortField)
    }
  }
}
