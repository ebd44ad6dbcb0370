/**
 * The analytics service: the synthetic 14-day burndown series and the per-member workload
 * roll-up (src/lib/api/analytics.ts, duplicated in src/lib/api.ts).
 */
module Analytics {
  import opened Wrappers
  import opened Dates
  import opened OpenProject
  import opened Seqs
  import opened WorkItems

  const TotalPoints: real := 100.0
  const SeriesLength: nat := 14
  const IdealPerDay: real := TotalPoints / 14.0

  /** `Math.max(0, x)` */
  function Max0(x: real): real {
    if x > 0.0 then x else 0.0
  }

  /** The straight-line ideal value on day `i` of the series. */
  function IdealAt(i: int): real {
    Max0(TotalPoints - IdealPerDay * (i as real))
  }

  /** The sample "actual" curve: 0.8 of the ideal rate for the first seven days, 1.1 after. */
  function ActualAt(i: int): real {
    if i < 7 then Max0(TotalPoints - IdealPerDay * (i as real) * 0.8)
    else Max0(TotalPoints - IdealPerDay * (i as real) * 1.1)
  }

  /**
   * The series `getBurndownData` returns on UTC day `today`: four series of 14 entries over
   * consecutive days ending today, with `remaining` a copy of `actual`.
   */
  function SyntheticSeries(today: Day): (b: BurndownData)
    ensures |b.dates| == |b.ideal| == |b.actual| == |b.remaining| == 14
    ensures b.dates[13] == today
    ensures forall k :: 0 <= k < 13 ==> b.dates[k + 1] == b.dates[k] + 1
    ensures b.remaining == b.actual
  {
    BurndownData(
      seq(SeriesLength, k => today - 13 + k),
      seq(SeriesLength, k => IdealAt(k)),
      seq(SeriesLength, k => ActualAt(k)),
      seq(SeriesLength, k => ActualAt(k)))
  }

  /**
   * `getBurndownData(projectId, sprintId)`: pushes one entry per day into four arrays.
   * `today` is the UTC day of the current instant; both identifiers are ignored.
   */
  method GetBurndownData(projectId: string, sprintId: Option<string>, today: Day) returns (data: BurndownData)
    ensures data == SyntheticSeries(today)
  {
    var dates: seq<Day> := [];
    var ideal: seq<real> := [];
    var actual: seq<real> := [];
    var remaining: seq<real> := [];
    var totalPoints := 100.0;
    var idealPerDay := totalPoints / 14.0;
    var i := 0;
    while i < 14
      invariant 0 <= i <= 14
      invariant |dates| == |ideal| == |actual| == |remaining| == i
      invariant forall k :: 0 <= k < i ==> dates[k] == today - 13 + k
      invariant forall k :: 0 <= k < i ==> ideal[k] == IdealAt(k)
      invariant forall k :: 0 <= k < i ==> actual[k] == ActualAt(k)
      invariant forall k :: 0 <= k < i ==> remaining[k] == actual[k]
    {
      dates := dates + [today - 13 + i];
      ideal := ideal + [Max0(totalPoints - idealPerDay * (i as real))];
      if i < 7 {
        actual := actual + [Max0(totalPoints - idealPerDay * (i as real) * 0.8)];
      } else {
        actual := actual + [Max0(totalPoints - idealPerDay * (i as real) * 1.1)];
      }
      remaining := remaining + [actual[i]];
      i := i + 1;
    }
    data := BurndownData(dates, ideal, actual, remaining);
  }

  /** The ideal line starts at 100, falls strictly every day and ends at 100/14, not at 0. */
  lemma IdealLine(today: Day)
    ensures var b := SyntheticSeries(today);
      && b.ideal[0] == 100.0
      && b.ideal[13] == 100.0 / 14.0
      && (forall i, j :: 0 <= i < j < 14 ==> b.ideal[j] < b.ideal[i])
  {
  }

  /**
   * The actual curve lies above the ideal line in the first week and below it in the second,
   * never rises, and reaches 0 on the last day.
   */
  lemma ActualCurve(today: Day)
    ensures var b := SyntheticSeries(today);
      && (forall i :: 0 <= i < 7 ==> b.actual[i] >= b.ideal[i])
      && (forall i :: 7 <= i < 14 ==> b.actual[i] <= b.ideal[i])
      && (forall i, j :: 0 <= i < j < 14 ==> b.actual[j] <= b.actual[i])
      && b.actual[0] == 100.0
      && b.actual[13] == 0.0
  {
  }

  /** One member's roll-up: assigned count, completed count and summed estimates. */
  function WorkloadFor(user: User, wps: seq<WorkPackage>): (w: WorkloadData)
    ensures w.user == user
    ensures w.assignedTasks == |AssignedTasks(wps, user.id)|
    ensures w.completedTasks <= w.assignedTasks
    ensures EstimatesNonNegative(wps) ==> w.estimatedHours >= 0.0
    ensures wps == [] ==> w == WorkloadData(user, 0, 0.0, 0)
  {
    var userTasks := AssignedTasks(wps, user.id);
    var completed := Filter(userTasks, IsCompleted);
    assert EstimatesNonNegative(wps) ==> EstimatesNonNegative(userTasks);
    WorkloadData(user, |userTasks|, SumEstimates(userTasks), |completed|)
  }

  /**
   * How one more package changes a member's entry: nothing unless it is assigned to the member;
   * otherwise one more task, one more completed task if it is at 100%, and its hours (0 if
   * unestimated). With the empty case this fixes every field of the entry.
   */
  lemma WorkloadForAppend(user: User, wps: seq<WorkPackage>, wp: WorkPackage)
    ensures var before, after := WorkloadFor(user, wps), WorkloadFor(user, wps + [wp]);
      if IsAssignedTo(wp, user.id) then
        && after.user == user
        && after.assignedTasks == before.assignedTasks + 1
        && after.completedTasks == before.completedTasks + (if IsCompleted(wp) then 1 else 0)
        && after.estimatedHours == before.estimatedHours + EstimateOrZero(wp)
      else after == before
  {
    var userTasks := AssignedTasks(wps, user.id);
    AssignedTasksAppend(wps, wp, user.id);
    if IsAssignedTo(wp, user.id) {
      FilterAppend(userTasks, wp, IsCompleted);
      SumEstimatesAppend(userTasks, wp);
    } else {
      assert AssignedTasks(wps + [wp], user.id) == userTasks;
    }
  }

  /** `getWorkloadData`: `members.map(...)`, one entry per member in member order. */
  function GetWorkloadData(members: seq<User>, wps: seq<WorkPackage>): (r: seq<WorkloadData>)
    ensures |r| == |members|
    ensures forall i :: 0 <= i < |r| ==> r[i].user == members[i] && r[i] == WorkloadFor(members[i], wps)
  {
    if members == [] then [] else [WorkloadFor(members[0], wps)] + GetWorkloadData(members[1..], wps)
  }

  function TotalAssigned(entries: seq<WorkloadData>): nat {
    if entries == [] then 0 else entries[0].assignedTasks + TotalAssigned(entries[1..])
  }

  predicate DistinctIds(members: seq<User>) {
    forall i, j :: 0 <= i < j < |members| ==> members[i].id != members[j].id
  }

  /** Number of members a single package is assigned to. */
  function Hits(members: seq<User>, wp: WorkPackage): nat {
    if members == [] then 0
    else (if IsAssignedTo(wp, members[0].id) then 1 else 0) + Hits(members[1..], wp)
  }

  /** Helper for `HitsExactlyOne`: a package assigned to no member is counted for none. */
  lemma {:induction false} NoHits(members: seq<User>, wp: WorkPackage)
    requires forall i :: 0 <= i < |members| ==> !IsAssignedTo(wp, members[i].id)
    ensures Hits(members, wp) == 0
  {
    if members != [] {
      NoHits(members[1..], wp);
    }
  }

  /** Some member's id is the package's assignee id. */
  predicate AssignedToMember(members: seq<User>, wp: WorkPackage) {
    exists i :: 0 <= i < |members| && IsAssignedTo(wp, members[i].id)
  }

  function AssignedToMembers(members: seq<User>): WorkPackage -> bool {
    wp => AssignedToMember(members, wp)
  }

  /**
   * With distinct member ids a package counts for exactly one member when its assignee is a
   * member, and for none otherwise (in particular when it is unassigned).
   */
  lemma {:induction false} HitsExactlyOne(members: seq<User>, wp: WorkPackage)
    requires DistinctIds(members)
    ensures Hits(members, wp) == if AssignedToMember(members, wp) then 1 else 0
  {
    if members != [] {
      var rest := members[1..];
      assert DistinctIds(rest);
      HitsExactlyOne(rest, wp);
      if IsAssignedTo(wp, members[0].id) {
        forall i | 0 <= i < |rest| ensures !IsAssignedTo(wp, rest[i].id) {
          assert rest[i] == members[i + 1];
        }
        NoHits(rest, wp);
        assert AssignedToMember(members, wp) by {
          assert IsAssignedTo(wp, members[0].id);
        }
      } else {
        assert AssignedToMember(members, wp) <==> AssignedToMember(rest, wp) by {
          if AssignedToMember(members, wp) {
            var i :| 0 <= i < |members| && IsAssignedTo(wp, members[i].id);
            assert i > 0 && rest[i - 1] == members[i];
          }
          if AssignedToMember(rest, wp) {
            var i :| 0 <= i < |rest| && IsAssignedTo(wp, rest[i].id);
            assert members[i + 1] == rest[i];
          }
        }
      }
    }
  }

  /** Adding one package in front adds its hits to the members' total. */
  lemma {:induction false} TotalAssignedCons(members: seq<User>, wp: WorkPackage, wps: seq<WorkPackage>)
    ensures TotalAssigned(GetWorkloadData(members, [wp] + wps))
         == TotalAssigned(GetWorkloadData(members, wps)) + Hits(members, wp)
  {
    if members != [] {
      TotalAssignedCons(members[1..], wp, wps);
      assert ([wp] + wps)[1..] == wps;
    }
  }

  /**
   * Nobody is double-counted and nothing is lost: with distinct member ids, the members'
   * assigned counts add up to the number of packages whose assignee is a member.
   */
  lemma {:induction false} WorkloadTotalExact(members: seq<User>, wps: seq<WorkPackage>)
    requires DistinctIds(members)
    ensures TotalAssigned(GetWorkloadData(members, wps)) == |Filter(wps, AssignedToMembers(members))|
  {
    if wps == [] {
      ZeroWithoutPackages(members);
    } else {
      assert wps == [wps[0]] + wps[1..];
      TotalAssignedCons(members, wps[0], wps[1..]);
      HitsExactlyOne(members, wps[0]);
      WorkloadTotalExact(members, wps[1..]);
    }
  }

  /** Base case of `WorkloadTotalExact`: with no packages the members' total is 0. */
  lemma {:induction false} ZeroWithoutPackages(members: seq<User>)
    ensures TotalAssigned(GetWorkloadData(members, [])) == 0
  {
    if members != [] {
      ZeroWithoutPackages(members[1..]);
    }
  }
}
