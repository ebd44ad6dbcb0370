/**
 * Predicates and sums over work packages that the analytics service and the dashboard
 * components all compute the same way.
 */
module WorkItems {
  import opened OpenProject
  import opened Seqs

  /** `percentageDone === 100` */
  predicate IsCompleted(wp: WorkPackage) {
    wp.percentageDone == 100
  }

  /** `percentageDone > 0 && percentageDone < 100` */
  predicate IsInProgress(wp: WorkPackage) {
    0 < wp.percentageDone < 100
  }

  /** `percentageDone === 0` */
  predicate IsNotStarted(wp: WorkPackage) {
    wp.percentageDone == 0
  }

  /** The invariant the data model promises: a completion percentage in [0, 100]. */
  predicate PercentagesInRange(wps: seq<WorkPackage>) {
    forall i :: 0 <= i < |wps| ==> 0 <= wps[i].percentageDone <= 100
  }

  /** `wp.assignedTo?.id === userId`: false for an unassigned package. */
  predicate IsAssignedTo(wp: WorkPackage, userId: string) {
    wp.assignedTo.Some? && wp.assignedTo.value.id == userId
  }

  /** The callback `wp => wp.assignedTo?.id === userId`. */
  function AssignedTo(userId: string): WorkPackage -> bool {
    wp => IsAssignedTo(wp, userId)
  }

  /** `workPackages.filter(wp => wp.assignedTo?.id === userId)` */
  function AssignedTasks(wps: seq<WorkPackage>, userId: string): (r: seq<WorkPackage>)
    ensures forall wp :: wp in r <==> wp in wps && IsAssignedTo(wp, userId)
    ensures forall wp :: wp in r ==> wp.assignedTo.Some?
  {
    Filter(wps, AssignedTo(userId))
  }

  /** One more package joins a member's tasks exactly when it is assigned to that member. */
  lemma AssignedTasksAppend(wps: seq<WorkPackage>, wp: WorkPackage, userId: string)
    ensures AssignedTasks(wps + [wp], userId)
         == AssignedTasks(wps, userId) + (if IsAssignedTo(wp, userId) then [wp] else [])
  {
    FilterAppend(wps, wp, AssignedTo(userId));
  }

  /** `wp.estimatedTime || 0`: a missing estimate counts as zero hours. */
  function EstimateOrZero(wp: WorkPackage): real {
    if wp.estimatedTime.Some? then wp.estimatedTime.value else 0.0
  }

  predicate EstimatesNonNegative(wps: seq<WorkPackage>) {
    forall wp :: wp in wps ==> EstimateOrZero(wp) >= 0.0
  }

  /**
   * `wps.reduce((sum, wp) => sum + (wp.estimatedTime || 0), 0)`: the total hours, never negative
   * when no estimate is.
   */
  function SumEstimates(wps: seq<WorkPackage>): (total: real)
    ensures wps == [] ==> total == 0.0
    ensures EstimatesNonNegative(wps) ==> total >= 0.0
  {
    if wps == [] then 0.0
    else
      assert EstimatesNonNegative(wps) ==> EstimateOrZero(wps[0]) >= 0.0 && EstimatesNonNegative(wps[1..]) by {
        assert wps[0] in wps;
        assert forall wp :: wp in wps[1..] ==> wp in wps;
      }
      EstimateOrZero(wps[0]) + SumEstimates(wps[1..])
  }

  /** The reduce runs left to right: one more package at the end adds its hours (0 if missing). */
  lemma {:induction false} SumEstimatesAppend(wps: seq<WorkPackage>, wp: WorkPackage)
    ensures SumEstimates(wps + [wp]) == SumEstimates(wps) + EstimateOrZero(wp)
  {
    if wps != [] {
      assert (wps + [wp])[1..] == wps[1..] + [wp];
      SumEstimatesAppend(wps[1..], wp);
    }
  }

  /** With non-negative estimates, the hours of any filtered part are at most the hours of the whole. */
  lemma {:induction false} SumEstimatesOfFilter(wps: seq<WorkPackage>, p: WorkPackage -> bool)
    requires EstimatesNonNegative(wps)
    ensures 0.0 <= SumEstimates(Filter(wps, p)) <= SumEstimates(wps)
  {
    if wps != [] {
      assert wps[0] in wps;
      SumEstimatesOfFilter(wps[1..], p);
    }
  }

  /** With percentages in [0, 100], the three completion buckets split a list exactly. */
  lemma StatusBucketsPartition(wps: seq<WorkPackage>)
    requires PercentagesInRange(wps)
    ensures |Filter(wps, IsCompleted)| + |Filter(wps, IsInProgress)| + |Filter(wps, IsNotStarted)| == |wps|
  {
    FilterPartition(wps, IsCompleted, IsInProgress, IsNotStarted);
  }

  /** Without the range invariant the buckets can miss items: a percentage outside [0, 100] is in no bucket. */
  lemma OutOfRangeEscapesBuckets(wp: WorkPackage)
    requires wp.percentageDone < 0 || wp.percentageDone > 100
    ensures |Filter([wp], IsCompleted)| + |Filter([wp], IsInProgress)| + |Filter([wp], IsNotStarted)| == 0
  {
  }
}
