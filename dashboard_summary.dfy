/** The dashboard's summary figures (src/components/DashboardSummary.tsx). */
module DashboardSummary {
  import opened Wrappers
  import opened Dates
  import opened Strings
  import opened OpenProject
  import opened Seqs
  import opened WorkItems
  import opened WorkOrder
  import opened Rounding

  datatype Counts = Counts(totalTasks: nat, completedTasks: nat, inProgressTasks: nat, notStartedTasks: nat)

  /** The task counts by completion bucket. */
  function TaskCounts(wps: seq<WorkPackage>): (c: Counts)
    ensures c.totalTasks == |wps|
    ensures c.completedTasks <= c.totalTasks && c.inProgressTasks <= c.totalTasks && c.notStartedTasks <= c.totalTasks
    ensures PercentagesInRange(wps) ==> c.completedTasks + c.inProgressTasks + c.notStartedTasks == c.totalTasks
    ensures wps == [] ==> c == Counts(0, 0, 0, 0)
  {
    BucketCountsAddUp(wps);
    Counts(|wps|, |Filter(wps, IsCompleted)|, |Filter(wps, IsInProgress)|, |Filter(wps, IsNotStarted)|)
  }

  /**
   * One more package raises the total by one and exactly the bucket its percentage falls in.
   * With the empty case this fixes every count.
   */
  lemma TaskCountsAppend(wps: seq<WorkPackage>, wp: WorkPackage)
    ensures var before, after := TaskCounts(wps), TaskCounts(wps + [wp]);
      && after.totalTasks == before.totalTasks + 1
      && after.completedTasks == before.completedTasks + (if wp.percentageDone == 100 then 1 else 0)
      && after.inProgressTasks == before.inProgressTasks + (if 0 < wp.percentageDone < 100 then 1 else 0)
      && after.notStartedTasks == before.notStartedTasks + (if wp.percentageDone == 0 then 1 else 0)
  {
    FilterAppend(wps, wp, IsCompleted);
    FilterAppend(wps, wp, IsInProgress);
    FilterAppend(wps, wp, IsNotStarted);
  }

  /** `StatusBucketsPartition` under its range condition, so that `TaskCounts` can call it with no requires. */
  lemma BucketCountsAddUp(wps: seq<WorkPackage>)
    ensures PercentagesInRange(wps) ==>
      |Filter(wps, IsCompleted)| + |Filter(wps, IsInProgress)| + |Filter(wps, IsNotStarted)| == |wps|
  {
    if PercentagesInRange(wps) {
      StatusBucketsPartition(wps);
    }
  }

  /** `projectProgress`: the rounded share of completed tasks, 0 for an empty list. */
  function ProjectProgress(wps: seq<WorkPackage>): (p: int)
    ensures 0 <= p <= 100
    ensures wps == [] ==> p == 0
    ensures wps != [] && (forall i :: 0 <= i < |wps| ==> IsCompleted(wps[i])) ==> p == 100
    ensures wps != [] ==>
      -0.5 < p as real - (TaskCounts(wps).completedTasks as real / |wps| as real) * 100.0 <= 0.5
  {
    var total := |wps|;
    var completed := |Filter(wps, IsCompleted)|;
    if total > 0 then
      RoundedPercentInRange(completed as real, total as real);
      if forall i :: 0 <= i < |wps| ==> IsCompleted(wps[i]) then
        FilterKeepsAll(wps, IsCompleted);
        RoundedPercentOfWhole(total as real);
        Round((completed as real / total as real) * 100.0)
      else
        Round((completed as real / total as real) * 100.0)
    else 0
  }

  /** A package is overdue when it has a due date whose UTC midnight is before `now` and is not done. */
  predicate IsOverdue(wp: WorkPackage, now: int) {
    wp.dueDate.Some? && DayStart(wp.dueDate.value) < now && wp.percentageDone < 100
  }

  function OverduePackages(wps: seq<WorkPackage>, now: int): (r: seq<WorkPackage>)
    ensures forall wp :: wp in r <==> wp in wps && IsOverdue(wp, now)
    ensures IsSubsequence(r, wps)
  {
    FilterIsSubsequence(wps, wp => IsOverdue(wp, now));
    Filter(wps, wp => IsOverdue(wp, now))
  }

  /**
   * In day terms: a package due on an earlier UTC day is overdue unless done; one due on the
   * current UTC day already is from the first millisecond after midnight UTC; one due later is not.
   */
  lemma OverdueByDay(wp: WorkPackage, now: int)
    requires wp.dueDate.Some? && wp.percentageDone < 100
    ensures wp.dueDate.value < UtcDay(now) ==> IsOverdue(wp, now)
    ensures wp.dueDate.value == UtcDay(now) ==> (IsOverdue(wp, now) <==> now % MsPerDay > 0)
    ensures wp.dueDate.value > UtcDay(now) ==> !IsOverdue(wp, now)
  {
    DayStartBefore(wp.dueDate.value, now);
  }

  /** A finished package is never overdue, and neither is an undated one, whatever the list. */
  lemma NotOverdue(wps: seq<WorkPackage>, wp: WorkPackage, now: int)
    requires wp.percentageDone >= 100 || wp.dueDate.None?
    ensures wp !in OverduePackages(wps, now)
  {
  }

  /** `type.name.toLowerCase().includes('milestone')` */
  predicate IsMilestone(wp: WorkPackage) {
    Contains(ToLower(wp.kind.name), "milestone")
  }

  /** A dated package whose due date (UTC midnight) is not before `now`. */
  predicate IsUpcoming(wp: WorkPackage, now: int) {
    wp.dueDate.Some? && DayStart(wp.dueDate.value) >= now
  }

  /** The milestones sorted by due date, undated ones last. */
  function SortedMilestones(wps: seq<WorkPackage>): seq<WorkPackage> {
    SortTasks(DueDate, Filter(wps, IsMilestone))
  }

  /** `milestones.find(m => m.dueDate && new Date(m.dueDate) >= today)` */
  function NextMilestone(wps: seq<WorkPackage>, now: int): (r: Option<WorkPackage>)
    ensures r.Some? ==> r.value in wps && IsMilestone(r.value) && IsUpcoming(r.value, now)
    ensures r.None? <==> forall wp :: wp in wps && IsMilestone(wp) ==> !IsUpcoming(wp, now)
  {
    var sorted := SortedMilestones(wps);
    var k := FindIndex(sorted, m => IsUpcoming(m, now));
    assert forall m :: m in sorted <==> m in Filter(wps, IsMilestone) by {
      forall m ensures m in sorted <==> m in Filter(wps, IsMilestone) {
        assert m in sorted <==> m in multiset(sorted);
      }
    }
    if k.None? then
      assert forall wp :: wp in wps && IsMilestone(wp) ==> !IsUpcoming(wp, now) by {
        forall wp | wp in wps && IsMilestone(wp) ensures !IsUpcoming(wp, now) {
          assert wp in sorted;
        }
      }
      None
    else Some(sorted[k.value])
  }

  /** The next milestone is due no later than any other upcoming milestone. */
  lemma NextMilestoneIsEarliest(wps: seq<WorkPackage>, now: int, m: WorkPackage)
    requires m in wps && IsMilestone(m) && IsUpcoming(m, now)
    ensures NextMilestone(wps, now).Some?
    ensures NextMilestone(wps, now).value.dueDate.value <= m.dueDate.value
  {
    var sorted := SortedMilestones(wps);
    SortTasksSorted(DueDate, Filter(wps, IsMilestone));
    var k := FindIndex(sorted, x => IsUpcoming(x, now));
    assert m in multiset(sorted);
    var j :| 0 <= j < |sorted| && sorted[j] == m;
    assert k.Some?;
    assert k.value <= j;
    if k.value < j {
      SortedByDueDate(sorted, k.value, j);
    }
  }
}
