/** The tasks page's search and filters and its filter choices (src/pages/TasksPage.tsx). */
module TasksPage {
  import opened Wrappers
  import opened Strings
  import opened OpenProject
  import opened Seqs

  /** A filter value is in force when it is set and not empty (both `null` and "" are falsy). */
  predicate Active(filter: Option<string>) {
    filter.Some? && filter.value != ""
  }

  /** The search hit: lower-cased subject contains the lower-cased term, or the id contains the term. */
  predicate SearchHit(wp: WorkPackage, term: string) {
    Contains(ToLower(wp.subject), ToLower(term)) || Contains(wp.id, term)
  }

  /** All three criteria at once. */
  predicate Matches(wp: WorkPackage, term: string, statusFilter: Option<string>, typeFilter: Option<string>) {
    && (term == "" || SearchHit(wp, term))
    && (!Active(statusFilter) || wp.status.name == statusFilter.value)
    && (!Active(typeFilter) || wp.kind.name == typeFilter.value)
  }

  /** The packages the page lists for the current criteria. */
  function MatchingPackages(wps: seq<WorkPackage>, term: string, statusFilter: Option<string>,
                            typeFilter: Option<string>): (r: seq<WorkPackage>)
    ensures IsSubsequence(r, wps)
    ensures forall wp :: wp in r <==> wp in wps && Matches(wp, term, statusFilter, typeFilter)
    ensures term == "" && !Active(statusFilter) && !Active(typeFilter) ==> r == wps
  {
    FilterIsSubsequence(wps, wp => Matches(wp, term, statusFilter, typeFilter));
    if term == "" && !Active(statusFilter) && !Active(typeFilter) then
      FilterKeepsAll(wps, wp => Matches(wp, term, statusFilter, typeFilter));
      Filter(wps, wp => Matches(wp, term, statusFilter, typeFilter))
    else
      Filter(wps, wp => Matches(wp, term, statusFilter, typeFilter))
  }

  /** The filter effect: narrows `filtered` by search, then status, then type. */
  method ApplyFilters(workPackages: seq<WorkPackage>, searchTerm: string, statusFilter: Option<string>,
                      typeFilter: Option<string>) returns (filtered: seq<WorkPackage>)
    ensures filtered == MatchingPackages(workPackages, searchTerm, statusFilter, typeFilter)
  {
    ghost var all := (wp: WorkPackage) => Matches(wp, searchTerm, statusFilter, typeFilter);
    // `done` is the conjunction of the criteria applied so far: filtered == Filter(workPackages, done)
    ghost var done := (wp: WorkPackage) => true;
    filtered := workPackages;
    FilterKeepsAll(workPackages, done);
    if searchTerm != "" {
      var hit := (wp: WorkPackage) => SearchHit(wp, searchTerm);
      ghost var step := (wp: WorkPackage) => done(wp) && hit(wp);
      FilterFilter(workPackages, done, hit, step);
      filtered := Filter(filtered, hit);
      done := step;
    }
    if Active(statusFilter) {
      var sameStatus := (wp: WorkPackage) => wp.status.name == statusFilter.value;
      ghost var step := (wp: WorkPackage) => done(wp) && sameStatus(wp);
      FilterFilter(workPackages, done, sameStatus, step);
      filtered := Filter(filtered, sameStatus);
      done := step;
    }
    if Active(typeFilter) {
      var sameType := (wp: WorkPackage) => wp.kind.name == typeFilter.value;
      ghost var step := (wp: WorkPackage) => done(wp) && sameType(wp);
      FilterFilter(workPackages, done, sameType, step);
      filtered := Filter(filtered, sameType);
      done := step;
    }
    FilterSame(workPackages, done, all);
  }

  function StatusNames(wps: seq<WorkPackage>): (r: seq<string>)
    ensures |r| == |wps| && forall i :: 0 <= i < |wps| ==> r[i] == wps[i].status.name
  {
    seq(|wps|, i requires 0 <= i < |wps| => wps[i].status.name)
  }

  function TypeNames(wps: seq<WorkPackage>): (r: seq<string>)
    ensures |r| == |wps| && forall i :: 0 <= i < |wps| ==> r[i] == wps[i].kind.name
  {
    seq(|wps|, i requires 0 <= i < |wps| => wps[i].kind.name)
  }

  /** `uniqueStatuses`: each status name once, in order of first appearance. */
  function UniqueStatuses(wps: seq<WorkPackage>): (r: seq<string>)
    ensures NoDuplicates(r)
    ensures forall name :: name in r <==> name in StatusNames(wps)
    ensures forall name :: name in r <==> exists wp :: wp in wps && wp.status.name == name
    ensures forall i, j :: 0 <= i < j < |r| ==>
      FirstIndex(StatusNames(wps), r[i]) < FirstIndex(StatusNames(wps), r[j])
  {
    var names := StatusNames(wps);
    DistinctFirstOccurrenceOrder(names);
    assert forall name :: name in names <==> exists wp :: wp in wps && wp.status.name == name by {
      forall name ensures name in names <==> exists wp :: wp in wps && wp.status.name == name {
        if name in names {
          var i :| 0 <= i < |names| && names[i] == name;
          assert wps[i] in wps;
        }
      }
    }
    Distinct(names)
  }

  /** `uniqueTypes`: each type name once, in order of first appearance. */
  function UniqueTypes(wps: seq<WorkPackage>): (r: seq<string>)
    ensures NoDuplicates(r)
    ensures forall name :: name in r <==> name in TypeNames(wps)
    ensures forall name :: name in r <==> exists wp :: wp in wps && wp.kind.name == name
    ensures forall i, j :: 0 <= i < j < |r| ==>
      FirstIndex(TypeNames(wps), r[i]) < FirstIndex(TypeNames(wps), r[j])
  {
    var names := TypeNames(wps);
    DistinctFirstOccurrenceOrder(names);
    assert forall name :: name in names <==> exists wp :: wp in wps && wp.kind.name == name by {
      forall name ensures name in names <==> exists wp :: wp in wps && wp.kind.name == name {
        if name in names {
          var i :| 0 <= i < |names| && names[i] == name;
          assert wps[i] in wps;
        }
      }
    }
    Distinct(names)
  }
}
