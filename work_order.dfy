/**
 * The orders in which the dashboard lists work packages: by due date (undated last), by
 * numeric priority id and by status name. The due-date order is shared by the task list and
 * the dashboard's milestone search.
 */
module WorkOrder {
  import opened Wrappers
  import opened OpenProject
  import opened Strings
  import opened Dates

  datatype SortField = DueDate | Priority | StatusName

  /** Number of leading decimal digits of `s`. */
  function LeadingDigitCount(s: string): (k: nat)
    ensures k <= |s|
    ensures forall i :: 0 <= i < k ==> '0' <= s[i] <= '9'
    ensures k < |s| ==> !('0' <= s[k] <= '9')
  {
    if s != [] && '0' <= s[0] <= '9' then 1 + LeadingDigitCount(s[1..]) else 0
  }

  predicate IsDigit(c: char) {
    '0' <= c <= '9'
  }

  /**
   * `parseInt(s)` on a decimal string with an optional sign; `None` stands for `NaN`. It is NaN
   * exactly when no digit follows the optional sign; a string of digits reads as its value,
   * and a minus sign gives a value that is not positive.
   */
  function ParseInt(s: string): (r: Option<int>)
    ensures r.None? <==>
      s == [] || (!IsDigit(s[0]) && !((s[0] == '-' || s[0] == '+') && |s| > 1 && IsDigit(s[1])))
    ensures s != [] && (forall i :: 0 <= i < |s| ==> IsDigit(s[i])) ==> r == Some(DigitsValue(s))
    ensures r.Some? && s[0] == '-' ==> r.value <= 0
  {
    if s != [] && (s[0] == '-' || s[0] == '+') then
      var k := LeadingDigitCount(s[1..]);
      var magnitude: int := if k == 0 then 0 else DigitsValue(s[1..][..k]);
      if k == 0 then None
      else if s[0] == '-' then Some(-magnitude)
      else Some(magnitude)
    else
      var k := LeadingDigitCount(s);
      assert (s != [] && forall i :: 0 <= i < |s| ==> IsDigit(s[i])) ==> s[..k] == s by {
        if s != [] && forall i :: 0 <= i < |s| ==> IsDigit(s[i]) {
          AllDigitsCounted(s);
        }
      }
      if k == 0 then None else Some(DigitsValue(s[..k]))
  }

  /** Numeric ids written in decimal parse back to themselves. */
  lemma ParseIntOfDecimal(n: nat)
    ensures ParseInt(NatToString(n)) == Some(n)
  {
    var s := NatToString(n);
    AllDigitsCounted(s);
    assert s[..|s|] == s;
    NatToStringRoundTrip(n);
  }

  /**
   * `parseInt` reads the longest run of digits after an optional sign and ignores whatever
   * follows it: "+7" is 7, "-7" is -7 and "12abc" is 12.
   */
  lemma ParseIntPrefix(sign: string, d: string, rest: string)
    requires sign == "" || sign == "+" || sign == "-"
    requires d != [] && forall i :: 0 <= i < |d| ==> '0' <= d[i] <= '9'
    requires rest == [] || !IsDigit(rest[0])
    ensures sign != "-" ==> ParseInt(sign + d + rest) == Some(DigitsValue(d))
    ensures sign == "-" ==> ParseInt(sign + d + rest) == Some(-(DigitsValue(d) as int))
  {
    DigitRun(d, rest);
    if sign == "" {
      ParseIntUnsignedPrefix(d, rest);
    } else if sign == "+" {
      ParseIntSignedPrefix('+', d, rest);
    } else {
      ParseIntSignedPrefix('-', d, rest);
    }
  }

  /** `ParseIntPrefix` without a sign. */
  lemma ParseIntUnsignedPrefix(d: string, rest: string)
    requires d != [] && forall i :: 0 <= i < |d| ==> '0' <= d[i] <= '9'
    requires (d + rest)[..LeadingDigitCount(d + rest)] == d
    ensures ParseInt("" + d + rest) == Some(DigitsValue(d))
  {
    assert "" + d + rest == d + rest;
    ParseIntDigitRun(d + rest, d);
  }

  /** `ParseIntPrefix` with the sign `c`. */
  lemma ParseIntSignedPrefix(c: char, d: string, rest: string)
    requires c == '+' || c == '-'
    requires d != [] && forall i :: 0 <= i < |d| ==> '0' <= d[i] <= '9'
    requires (d + rest)[..LeadingDigitCount(d + rest)] == d
    ensures c == '+' ==> ParseInt([c] + d + rest) == Some(DigitsValue(d))
    ensures c == '-' ==> ParseInt([c] + d + rest) == Some(-(DigitsValue(d) as int))
  {
    var s := [c] + d + rest;
    assert s[0] == c && s[1..] == d + rest;
    ParseIntSignedRun(s, d);
  }

  /** The leading digits of `d + rest` are `d` when `rest` does not start with a digit. */
  lemma DigitRun(d: string, rest: string)
    requires forall i :: 0 <= i < |d| ==> '0' <= d[i] <= '9'
    requires rest == [] || !IsDigit(rest[0])
    ensures (d + rest)[..LeadingDigitCount(d + rest)] == d
  {
    DigitsThenStop(d, rest);
    assert (d + rest)[..|d|] == d;
  }

  /** Without a sign, `parseInt` reads the leading digits `d`. */
  lemma ParseIntDigitRun(s: string, d: string)
    requires d != [] && forall i :: 0 <= i < |d| ==> '0' <= d[i] <= '9'
    requires s[..LeadingDigitCount(s)] == d
    ensures ParseInt(s) == Some(DigitsValue(d))
  {
  }

  /** After a sign, `parseInt` reads the leading digits `d`, negated after '-'. */
  lemma ParseIntSignedRun(s: string, d: string)
    requires s != [] && (s[0] == '-' || s[0] == '+')
    requires d != [] && forall i :: 0 <= i < |d| ==> '0' <= d[i] <= '9'
    requires s[1..][..LeadingDigitCount(s[1..])] == d
    ensures s[0] == '-' ==> ParseInt(s) == Some(-(DigitsValue(d) as int))
    ensures s[0] == '+' ==> ParseInt(s) == Some(DigitsValue(d))
  {
  }

  lemma {:induction false} DigitsThenStop(d: string, rest: string)
    requires forall i :: 0 <= i < |d| ==> '0' <= d[i] <= '9'
    requires rest == [] || !IsDigit(rest[0])
    ensures LeadingDigitCount(d + rest) == |d|
  {
    if d == [] {
      assert d + rest == rest;
    } else {
      assert (d + rest)[1..] == d[1..] + rest;
      DigitsThenStop(d[1..], rest);
    }
  }

  lemma {:induction false} AllDigitsCounted(s: string)
    requires forall i :: 0 <= i < |s| ==> '0' <= s[i] <= '9'
    ensures LeadingDigitCount(s) == |s|
  {
    if s != [] {
      AllDigitsCounted(s[1..]);
    }
  }

  function PriorityRank(wp: WorkPackage): Option<int> {
    ParseInt(wp.priority.id)
  }

  /**
   * The comparator `sortedTasks` passes to `sort`, as written: `Some(n)` for a number, `None`
   * for NaN. Due dates compare by their UTC midnights in milliseconds.
   */
  function Compare(field: SortField, a: WorkPackage, b: WorkPackage): Option<int> {
    match field
    case DueDate =>
      if a.dueDate.None? then Some(1)
      else if b.dueDate.None? then Some(-1)
      else Some(DayStart(a.dueDate.value) - DayStart(b.dueDate.value))
    case Priority =>
      if PriorityRank(a).None? || PriorityRank(b).None? then None
      else Some(PriorityRank(a).value - PriorityRank(b).value)
    case StatusName =>
      Some(if LexLess(a.status.name, b.status.name) then -1
           else if LexLess(b.status.name, a.status.name) then 1 else 0)
  }

  /**
   * `compare(a, b) < 0` for the comparator the field selects: the due-date comparator returns
   * 1 for an undated `a`, -1 for an undated `b`, else the difference of the dates; the priority
   * comparator subtracts the parsed ids (NaN is never negative); the status comparator is
   * `localeCompare`, taken here as code-point order.
   */
  predicate Before(field: SortField, a: WorkPackage, b: WorkPackage) {
    match field
    case DueDate => a.dueDate.Some? && (b.dueDate.None? || a.dueDate.value < b.dueDate.value)
    case Priority =>
      PriorityRank(a).Some? && PriorityRank(b).Some? && PriorityRank(a).value < PriorityRank(b).value
    case StatusName => LexLess(a.status.name, b.status.name)
  }

  /** `Before` is exactly "the comparator returns a negative number" (NaN is not negative). */
  lemma BeforeMatchesCompare(field: SortField, a: WorkPackage, b: WorkPackage)
    ensures Before(field, a, b) <==> Compare(field, a, b).Some? && Compare(field, a, b).value < 0
  {
    if field == StatusName && LexLess(b.status.name, a.status.name) {
      LexLessIrreflexive(a.status.name);
      if LexLess(a.status.name, b.status.name) {
        LexLessTransitive(a.status.name, b.status.name, a.status.name);
      }
    }
  }

  lemma BeforeIrreflexive(field: SortField, a: WorkPackage)
    ensures !Before(field, a, a)
  {
    if field == StatusName {
      LexLessIrreflexive(a.status.name);
    }
  }

  lemma BeforeTransitive(field: SortField, a: WorkPackage, b: WorkPackage, c: WorkPackage)
    requires Before(field, a, b) && Before(field, b, c)
    ensures Before(field, a, c)
  {
    if field == StatusName {
      LexLessTransitive(a.status.name, b.status.name, c.status.name);
    }
  }

  /** No later element is strictly before an earlier one. */
  predicate Sorted(field: SortField, s: seq<WorkPackage>) {
    forall i, j :: 0 <= i < j < |s| ==> !Before(field, s[j], s[i])
  }

  /** Inserts `x` after every element it is not strictly before (so ties keep their order). */
  function Insert(field: SortField, x: WorkPackage, s: seq<WorkPackage>): (r: seq<WorkPackage>)
    ensures multiset(r) == multiset(s) + multiset{x}
    ensures |r| == |s| + 1
  {
    if s == [] then [x]
    else if Before(field, x, s[0]) then [x] + s
    else
      assert s == [s[0]] + s[1..];
      [s[0]] + Insert(field, x, s[1..])
  }

  /** `[...s].sort(compare)`: a stable sort of a copy of `s`. */
  function SortTasks(field: SortField, s: seq<WorkPackage>): (r: seq<WorkPackage>)
    ensures multiset(r) == multiset(s)
    ensures |r| == |s|
  {
    if s == [] then []
    else
      assert s == s[..|s| - 1] + [s[|s| - 1]];
      Insert(field, s[|s| - 1], SortTasks(field, s[..|s| - 1]))
  }

  lemma {:induction false} InsertKeepsSorted(field: SortField, x: WorkPackage, s: seq<WorkPackage>)
    requires Sorted(field, s)
    ensures Sorted(field, Insert(field, x, s))
  {
    if s != [] {
      var r := Insert(field, x, s);
      if Before(field, x, s[0]) {
        forall i, j | 0 <= i < j < |r|
          ensures !Before(field, r[j], r[i])
        {
          if i == 0 && Before(field, r[j], x) {
            BeforeTransitive(field, r[j], x, s[0]);
            if j == 1 {
              BeforeIrreflexive(field, s[0]);
            }
            assert false;
          }
        }
      } else {
        InsertKeepsSorted(field, x, s[1..]);
        var t := Insert(field, x, s[1..]);
        assert r == [s[0]] + t;
        forall i, j | 0 <= i < j < |r|
          ensures !Before(field, r[j], r[i])
        {
          if i == 0 {
            var y := t[j - 1];
            assert y in multiset(t);
            if y != x {
              assert y in multiset(s[1..]);
              var k :| 0 <= k < |s[1..]| && s[1..][k] == y;
              assert s[k + 1] == y;
            }
          }
        }
      }
    }
  }

  /** The sorted copy is in order. */
  lemma {:induction false} SortTasksSorted(field: SortField, s: seq<WorkPackage>)
    ensures Sorted(field, SortTasks(field, s))
  {
    if s != [] {
      SortTasksSorted(field, s[..|s| - 1]);
      InsertKeepsSorted(field, s[|s| - 1], SortTasks(field, s[..|s| - 1]));
    }
  }

  /** By due date: dated packages ascend by date and every undated one comes after them. */
  lemma SortedByDueDate(s: seq<WorkPackage>, i: int, j: int)
    requires Sorted(DueDate, s) && 0 <= i < j < |s|
    ensures s[i].dueDate.None? ==> s[j].dueDate.None?
    ensures s[i].dueDate.Some? && s[j].dueDate.Some? ==> s[i].dueDate.value <= s[j].dueDate.value
  {
  }

  /** By priority: when every id is numeric, ranks ascend. */
  lemma SortedByPriority(s: seq<WorkPackage>, i: int, j: int)
    requires Sorted(Priority, s) && 0 <= i < j < |s|
    requires PriorityRank(s[i]).Some? && PriorityRank(s[j]).Some?
    ensures PriorityRank(s[i]).value <= PriorityRank(s[j]).value
  {
  }
}
