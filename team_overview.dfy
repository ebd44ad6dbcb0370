/** Per-member statistics of the team view (`teamStats` in src/components/TeamOverview.tsx). */
module TeamOverview {
  import opened OpenProject
  import opened Seqs
  import opened WorkItems
  import opened Rounding

  datatype MemberStats = MemberStats(
    member: User,
    assignedTasksCount: nat,
    completedTasksCount: nat,
    inProgressTasksCount: nat,
    notStartedTasksCount: nat,
    totalEstimatedHours: real,
    completedEstimatedHours: real,
    completionPercent: int)

  /** `completionPercent`: rounded share of completed hours, 0 when no hours are estimated. */
  function CompletionPercent(completedHours: real, totalHours: real): (p: int)
    ensures totalHours <= 0.0 ==> p == 0
    ensures 0.0 <= completedHours <= totalHours ==> 0 <= p <= 100
    ensures totalHours > 0.0 ==> -0.5 < p as real - completedHours / totalHours * 100.0 <= 0.5
  {
    if totalHours > 0.0 then
      assert 0.0 <= completedHours <= totalHours ==> 0 <= Round((completedHours / totalHours) * 100.0) <= 100 by {
        if 0.0 <= completedHours <= totalHours {
          RoundedPercentInRange(completedHours, totalHours);
        }
      }
      Round((completedHours / totalHours) * 100.0)
    else 0
  }

  /** The statistics computed from one member's own task list. */
  function Tally(member: User, tasks: seq<WorkPackage>): MemberStats {
    var completed := Filter(tasks, IsCompleted);
    MemberStats(member, |tasks|, |completed|, |Filter(tasks, IsInProgress)|, |Filter(tasks, IsNotStarted)|,
                SumEstimates(tasks), SumEstimates(completed),
                CompletionPercent(SumEstimates(completed), SumEstimates(tasks)))
  }

  /** The statistics of one member. */
  function StatsFor(member: User, wps: seq<WorkPackage>): (s: MemberStats)
    ensures s.member == member
    ensures s.assignedTasksCount == |AssignedTasks(wps, member.id)|
    ensures s.completedTasksCount <= s.assignedTasksCount
    ensures PercentagesInRange(wps) ==>
      s.completedTasksCount + s.inProgressTasksCount + s.notStartedTasksCount == s.assignedTasksCount
    ensures EstimatesNonNegative(wps) ==>
      0.0 <= s.completedEstimatedHours <= s.totalEstimatedHours && 0 <= s.completionPercent <= 100
    ensures s.completionPercent == CompletionPercent(s.completedEstimatedHours, s.totalEstimatedHours)
    ensures wps == [] ==> s == MemberStats(member, 0, 0, 0, 0, 0.0, 0.0, 0)
  {
    var userTasks := AssignedTasks(wps, member.id);
    var completed := Filter(userTasks, IsCompleted);
    var inProgress := Filter(userTasks, IsInProgress);
    var notStarted := Filter(userTasks, IsNotStarted);
    var totalHours := SumEstimates(userTasks);
    var completedHours := SumEstimates(completed);
    assert PercentagesInRange(wps) ==> |completed| + |inProgress| + |notStarted| == |userTasks| by {
      if PercentagesInRange(wps) {
        assert PercentagesInRange(userTasks) by {
          forall i | 0 <= i < |userTasks| ensures 0 <= userTasks[i].percentageDone <= 100 {
            assert userTasks[i] in wps;
          }
        }
        StatusBucketsPartition(userTasks);
      }
    }
    assert EstimatesNonNegative(wps) ==> 0.0 <= completedHours <= totalHours by {
      if EstimatesNonNegative(wps) {
        SumEstimatesOfFilter(userTasks, IsCompleted);
      }
    }
    Tally(member, userTasks)
  }

  /**
   * How one more package changes a member's statistics: nothing unless it is assigned to the
   * member; otherwise one more task in its bucket, its hours (0 if unestimated) in the total,
   * and in the completed hours too when it is at 100%. With the empty case this fixes every
   * count and hour total.
   */
  lemma StatsForAppend(member: User, wps: seq<WorkPackage>, wp: WorkPackage)
    ensures var before, after := StatsFor(member, wps), StatsFor(member, wps + [wp]);
      if IsAssignedTo(wp, member.id) then
        && after.member == member
        && after.assignedTasksCount == before.assignedTasksCount + 1
        && after.completedTasksCount == before.completedTasksCount + (if IsCompleted(wp) then 1 else 0)
        && after.inProgressTasksCount == before.inProgressTasksCount + (if IsInProgress(wp) then 1 else 0)
        && after.notStartedTasksCount == before.notStartedTasksCount + (if IsNotStarted(wp) then 1 else 0)
        && after.totalEstimatedHours == before.totalEstimatedHours + EstimateOrZero(wp)
        && after.completedEstimatedHours
           == before.completedEstimatedHours + (if IsCompleted(wp) then EstimateOrZero(wp) else 0.0)
      else after == before
  {
    var userTasks := AssignedTasks(wps, member.id);
    AssignedTasksAppend(wps, wp, member.id);
    assert StatsFor(member, wps) == Tally(member, userTasks);
    if IsAssignedTo(wp, member.id) {
      assert StatsFor(member, wps + [wp]) == Tally(member, userTasks + [wp]);
      TallyAppend(member, userTasks, wp);
    } else {
      assert AssignedTasks(wps + [wp], member.id) == userTasks;
      assert StatsFor(member, wps + [wp]) == Tally(member, userTasks);
    }
  }

  lemma TallyAppend(member: User, tasks: seq<WorkPackage>, wp: WorkPackage)
    ensures var before, after := Tally(member, tasks), Tally(member, tasks + [wp]);
      && after.member == member
      && after.assignedTasksCount == before.assignedTasksCount + 1
      && after.completedTasksCount == before.completedTasksCount + (if IsCompleted(wp) then 1 else 0)
      && after.inProgressTasksCount == before.inProgressTasksCount + (if IsInProgress(wp) then 1 else 0)
      && after.notStartedTasksCount == before.notStartedTasksCount + (if IsNotStarted(wp) then 1 else 0)
      && after.totalEstimatedHours == before.totalEstimatedHours + EstimateOrZero(wp)
      && after.completedEstimatedHours
         == before.completedEstimatedHours + (if IsCompleted(wp) then EstimateOrZero(wp) else 0.0)
  {
    FilterAppend(tasks, wp, IsCompleted);
    FilterAppend(tasks, wp, IsInProgress);
    FilterAppend(tasks, wp, IsNotStarted);
    SumEstimatesAppend(tasks, wp);
    if IsCompleted(wp) {
      SumEstimatesAppend(Filter(tasks, IsCompleted), wp);
    } else {
      assert Filter(tasks + [wp], IsCompleted) == Filter(tasks, IsCompleted);
    }
  }

  /** `members.map(...)`: one entry per member, in member order. */
  function TeamStats(members: seq<User>, wps: seq<WorkPackage>): (r: seq<MemberStats>)
    ensures |r| == |members|
    ensures forall i :: 0 <= i < |r| ==> r[i].member == members[i] && r[i] == StatsFor(members[i], wps)
  {
    if members == [] then [] else [StatsFor(members[0], wps)] + TeamStats(members[1..], wps)
  }

  /** With no work packages every count, hour total and percentage is zero. */
  lemma EmptyTeamStats(members: seq<User>, i: int)
    requires 0 <= i < |members|
    ensures var s := TeamStats(members, [])[i];
      && s.assignedTasksCount == 0 && s.completedTasksCount == 0
      && s.inProgressTasksCount == 0 && s.notStartedTasksCount == 0
      && s.totalEstimatedHours == 0.0 && s.completedEstimatedHours == 0.0
      && s.completionPercent == 0
  {
  }

  /** A package with no assignee is in no member's statistics. */
  lemma UnassignedCountedNowhere(members: seq<User>, wps: seq<WorkPackage>, wp: WorkPackage)
    requires wp.assignedTo.None?
    ensures forall i :: 0 <= i < |members| ==> wp !in AssignedTasks(wps, members[i].id)
  {
  }
}
