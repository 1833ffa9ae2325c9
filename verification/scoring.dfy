/**
  The vendor reputation score: a 60/40 blend of average employee tenure
  (capped at one year) and the share of employees still active.
  Dates are day numbers, the current date is the parameter `today`, and the
  score is an exact `real` rather than a rounded string.
*/
module Scoring {
  import opened Wrappers
  import opened Models

  /** The score, or the sentinel for a vendor with no employees to judge by. */
  datatype Reputation = NA | Score(value: real)

  /** The two running totals the scoring loop keeps. */
  datatype Tally = Tally(totalTenure: int, active: nat)

  /** An employee with no leaving day is active. */
  predicate IsActive(e: Employee) {
    e.leaving.None?
  }

  /** The last day of employment: the leaving day, or `today` when there is none. */
  function EndDay(e: Employee, today: Day): Day {
    match e.leaving
    case Some(d) => d
    case None => today
  }

  /** Days between joining and the end day; negative when leaving precedes joining. */
  function Tenure(e: Employee, today: Day): int {
    EndDay(e, today) - e.joining
  }

  /** Every employee's end day is on or after the joining day. */
  predicate NoNegativeTenure(emps: seq<Employee>, today: Day) {
    forall i :: 0 <= i < |emps| ==> Tenure(emps[i], today) >= 0
  }

  /** Total tenure and active count over a sequence of employees, one at a time from the front. */
  function TallyOf(emps: seq<Employee>, today: Day): (t: Tally)
    ensures t.active <= |emps|
    ensures NoNegativeTenure(emps, today) ==> t.totalTenure >= 0
    decreases |emps|
  {
    if |emps| == 0 then Tally(0, 0)
    else
      var init := emps[..|emps| - 1];
      var last := emps[|emps| - 1];
      assert forall i :: 0 <= i < |init| ==> init[i] == emps[i];
      var t := TallyOf(init, today);
      Tally(t.totalTenure + Tenure(last, today), if IsActive(last) then t.active + 1 else t.active)
  }

  /** The active count reaches the head count exactly when every employee is active. */
  lemma {:induction false} AllActiveIff(emps: seq<Employee>, today: Day)
    ensures TallyOf(emps, today).active == |emps| <==> forall i :: 0 <= i < |emps| ==> IsActive(emps[i])
    decreases |emps|
  {
    if |emps| > 0 {
      var init := emps[..|emps| - 1];
      assert forall i :: 0 <= i < |init| ==> init[i] == emps[i];
      AllActiveIff(init, today);
    }
  }

  /** The active count is zero exactly when every employee has a leaving day. */
  lemma {:induction false} NoneActiveIff(emps: seq<Employee>, today: Day)
    ensures TallyOf(emps, today).active == 0 <==> forall i :: 0 <= i < |emps| ==> !IsActive(emps[i])
    decreases |emps|
  {
    if |emps| > 0 {
      var init := emps[..|emps| - 1];
      assert forall i :: 0 <= i < |init| ==> init[i] == emps[i];
      NoneActiveIff(init, today);
    }
  }

  /** The smaller of two reals, as Python's `min`. */
  function Min(x: real, y: real): (m: real)
    ensures m <= x && m <= y
    ensures m == x || m == y
  {
    if y < x then y else x
  }

  /** The longevity part: average tenure against a one-year yardstick, worth at most 60 points. */
  function Longevity(avgTenure: real): (r: real)
    ensures r <= 60.0
    ensures r == 60.0 <==> avgTenure >= 365.0
    ensures avgTenure >= 0.0 ==> r >= 0.0
    ensures r == 0.0 <==> avgTenure == 0.0
  {
    Min(avgTenure / 365.0, 1.0) * 60.0
  }

  /** The retention part: the active percentage scaled back to at most 40 points. */
  function Retention(active: nat, total: nat): (r: real)
    requires total > 0
    ensures active <= total ==> 0.0 <= r <= 40.0
    ensures r == 40.0 <==> active == total
    ensures r == 0.0 <==> active == 0
  {
    var rate := (active as real / total as real) * 100.0;
    rate / 100.0 * 40.0
  }

  /** The reputation score of a vendor whose employees are `emps`, on day `today`. */
  function ReputationScore(emps: seq<Employee>, today: Day): (r: Reputation)
    ensures r.NA? <==> |emps| == 0
    ensures r.Score? ==> r.value <= 100.0
    ensures r.Score? && NoNegativeTenure(emps, today) ==> 0.0 <= r.value
  {
    if |emps| == 0 then NA
    else
      var t := TallyOf(emps, today);
      var avgTenure := t.totalTenure as real / |emps| as real;
      Score(Longevity(avgTenure) + Retention(t.active, |emps|))
  }

  /** The scoring loop as written: one pass accumulating tenure and the active count. */
  method ComputeReputation(emps: seq<Employee>, today: Day) returns (r: Reputation)
    ensures r == ReputationScore(emps, today)
  {
    if |emps| == 0 {
      return NA;
    }
    var totalTenure := 0;
    var active := 0;
    var i := 0;
    while i < |emps|
      invariant 0 <= i <= |emps|
      invariant TallyOf(emps[..i], today) == Tally(totalTenure, active)
    {
      var e := emps[i];
      totalTenure := totalTenure + Tenure(e, today);
      if e.leaving.None? {
        active := active + 1;
      }
      assert emps[..i + 1][..i] == emps[..i];
      i := i + 1;
    }
    assert emps[..i] == emps;
    var avgTenure := totalTenure as real / |emps| as real;
    var retentionRate := (active as real / |emps| as real) * 100.0;
    r := Score(Min(avgTenure / 365.0, 1.0) * 60.0 + retentionRate / 100.0 * 40.0);
  }

  // ---------------------------------------------------------------------------
  // Tallies do not depend on the order of the employees.

  /** Tallying a concatenation adds the tallies of the parts. */
  lemma {:induction false} TallyAppend(a: seq<Employee>, b: seq<Employee>, today: Day)
    ensures TallyOf(a + b, today).totalTenure == TallyOf(a, today).totalTenure + TallyOf(b, today).totalTenure
    ensures TallyOf(a + b, today).active == TallyOf(a, today).active + TallyOf(b, today).active
    decreases |b|
  {
    if |b| == 0 {
      assert a + b == a;
    } else {
      var b' := b[..|b| - 1];
      assert (a + b)[..|a + b| - 1] == a + b';
      assert (a + b)[|a + b| - 1] == b[|b| - 1];
      TallyAppend(a, b', today);
    }
  }

  /** The sequence with the element at index `j` taken out. */
  function Without(b: seq<Employee>, j: nat): (r: seq<Employee>)
    requires j < |b|
    ensures |r| == |b| - 1
  {
    b[..j] + b[j + 1..]
  }

  /** Removing the employee at index `j` takes exactly that employee's share out of the tally. */
  lemma TallyRemoveAt(b: seq<Employee>, j: nat, today: Day)
    requires j < |b|
    ensures TallyOf(b, today).totalTenure == TallyOf(Without(b, j), today).totalTenure + Tenure(b[j], today)
    ensures TallyOf(b, today).active == TallyOf(Without(b, j), today).active + (if IsActive(b[j]) then 1 else 0)
  {
    assert b == (b[..j] + [b[j]]) + b[j + 1..];
    assert ([] + [b[j]])[..0] == [];
    TallyAppend(b[..j], [b[j]], today);
    TallyAppend(b[..j] + [b[j]], b[j + 1..], today);
    TallyAppend(b[..j], b[j + 1..], today);
  }

  /** Taking out the element at index `j` takes one copy of it out of the multiset. */
  lemma MultisetRemoveAt(b: seq<Employee>, j: nat)
    requires j < |b|
    ensures multiset(Without(b, j)) == multiset(b) - multiset{b[j]}
  {
    assert b == b[..j] + [b[j]] + b[j + 1..];
  }

  /** An element of a sequence's multiset sits at some index. */
  lemma IndexOf(b: seq<Employee>, x: Employee) returns (j: nat)
    requires x in multiset(b)
    ensures j < |b| && b[j] == x
  {
    assert x in b;
    j :| j < |b| && b[j] == x;
  }

  /** Any reordering of the same employees gives the same tally. */
  lemma {:induction false} TallyPermutation(a: seq<Employee>, b: seq<Employee>, today: Day)
    requires multiset(a) == multiset(b)
    ensures TallyOf(a, today) == TallyOf(b, today)
    decreases |a|
  {
    if |a| == 0 {
      assert |b| == |multiset(b)| == 0;
    } else {
      var n := |a| - 1;
      var j := IndexOf(b, a[n]);
      MultisetRemoveAt(a, n);
      MultisetRemoveAt(b, j);
      TallyPermutation(Without(a, n), Without(b, j), today);
      TallyRemoveAt(a, n, today);
      TallyRemoveAt(b, j, today);
    }
  }

  /** The score depends on the vendor's employees, not on the order the query returns them in. */
  lemma ScoreOrderIndependent(a: seq<Employee>, b: seq<Employee>, today: Day)
    requires multiset(a) == multiset(b)
    ensures ReputationScore(a, today) == ReputationScore(b, today)
  {
    assert |a| == |multiset(a)| == |multiset(b)| == |b|;
    TallyPermutation(a, b, today);
  }

  /** No employee appears twice. */
  predicate Distinct(emps: seq<Employee>) {
    forall i, j :: 0 <= i < j < |emps| ==> emps[i] != emps[j]
  }

  /** `emps` lists, once each, exactly the stored employees recruited through vendor `v`. */
  ghost predicate IsRoster(emps: seq<Employee>, s: Store, v: nat) {
    && Distinct(emps)
    && forall e :: e in emps <==> e in s.employees.Values && e.vendor == Some(v)
  }

  /** In a list without repeats every listed employee occurs exactly once. */
  lemma {:induction false} DistinctOccursOnce(emps: seq<Employee>, x: Employee)
    requires Distinct(emps)
    ensures multiset(emps)[x] == if x in emps then 1 else 0
    decreases |emps|
  {
    if |emps| > 0 {
      var rest := emps[1..];
      assert emps == [emps[0]] + rest;
      assert forall i :: 0 <= i < |rest| ==> rest[i] == emps[i + 1];
      assert emps[0] !in rest;
      DistinctOccursOnce(rest, x);
    }
  }

  /** Any two listings of a vendor's employees give the same score: the score is a property of the vendor. */
  lemma RosterScoreWellDefined(a: seq<Employee>, b: seq<Employee>, s: Store, v: nat, today: Day)
    requires IsRoster(a, s, v) && IsRoster(b, s, v)
    ensures ReputationScore(a, today) == ReputationScore(b, today)
  {
    forall x | true
      ensures multiset(a)[x] == multiset(b)[x]
    {
      DistinctOccursOnce(a, x);
      DistinctOccursOnce(b, x);
    }
    assert multiset(a) == multiset(b);
    ScoreOrderIndependent(a, b, today);
  }

  // ---------------------------------------------------------------------------
  // Dependence on the current date.

  /** Moving `today` adds the shift once for every active employee. */
  lemma {:induction false} TallyShift(emps: seq<Employee>, t1: Day, t2: Day)
    ensures TallyOf(emps, t2).active == TallyOf(emps, t1).active
    ensures TallyOf(emps, t2).totalTenure
         == TallyOf(emps, t1).totalTenure + TallyOf(emps, t1).active * (t2 - t1)
    decreases |emps|
  {
    if |emps| > 0 {
      var init := emps[..|emps| - 1];
      var last := emps[|emps| - 1];
      TallyShift(init, t1, t2);
      var p1 := TallyOf(init, t1);
      var p2 := TallyOf(init, t2);
      var step := if IsActive(last) then 1 else 0;
      assert TallyOf(emps, t1) == Tally(p1.totalTenure + Tenure(last, t1), p1.active + step);
      assert TallyOf(emps, t2) == Tally(p2.totalTenure + Tenure(last, t2), p2.active + step);
      assert Tenure(last, t2) == Tenure(last, t1) + step * (t2 - t1);
      ShiftStep(p1.active, step, t2 - t1);
    }
  }

  /** Distributing the shift over one more employee's share. */
  lemma ShiftStep(a: int, step: int, d: int)
    ensures (a + step) * d == a * d + step * d
  {
  }

  /** Once every employee has left, the score no longer depends on the current date. */
  lemma ScoreIgnoresTodayWhenNoneActive(emps: seq<Employee>, t1: Day, t2: Day)
    requires forall i :: 0 <= i < |emps| ==> !IsActive(emps[i])
    ensures ReputationScore(emps, t1) == ReputationScore(emps, t2)
  {
    NoneActiveIff(emps, t1);
    TallyShift(emps, t1, t2);
  }

  /** Total tenure never falls as the current date advances. */
  lemma TenureGrowsWithToday(emps: seq<Employee>, t1: Day, t2: Day)
    requires t1 <= t2
    ensures TallyOf(emps, t1).totalTenure <= TallyOf(emps, t2).totalTenure
    ensures TallyOf(emps, t1).active == TallyOf(emps, t2).active
  {
    TallyShift(emps, t1, t2);
    var a := TallyOf(emps, t1).active;
    assert 0 <= a * (t2 - t1);
  }

  /** Longevity never decreases as average tenure grows. */
  lemma LongevityMonotone(x: real, y: real)
    requires x <= y
    ensures Longevity(x) <= Longevity(y)
  {
  }

  /** Dividing by the same positive head count keeps the order of two totals. */
  lemma AverageMonotone(x: int, y: int, n: nat)
    requires x <= y && n > 0
    ensures x as real / n as real <= y as real / n as real
  {
  }

  /** With the employees fixed, the score never falls as the current date advances. */
  lemma ScoreMonotoneInToday(emps: seq<Employee>, t1: Day, t2: Day)
    requires |emps| > 0
    requires t1 <= t2
    ensures ReputationScore(emps, t1).value <= ReputationScore(emps, t2).value
  {
    TenureGrowsWithToday(emps, t1, t2);
    var t := TallyOf(emps, t1);
    var t' := TallyOf(emps, t2);
    var x := t.totalTenure as real / |emps| as real;
    var y := t'.totalTenure as real / |emps| as real;
    AverageMonotone(t.totalTenure, t'.totalTenure, |emps|);
    LongevityMonotone(x, y);
    assert ReputationScore(emps, t1).value == Longevity(x) + Retention(t.active, |emps|);
    assert ReputationScore(emps, t2).value == Longevity(y) + Retention(t.active, |emps|);
  }

  // ---------------------------------------------------------------------------
  // The full score.

  /** A perfect 100 needs an average tenure of at least a year and every employee active, and these suffice. */
  lemma PerfectScoreIff(emps: seq<Employee>, today: Day)
    requires |emps| > 0
    ensures ReputationScore(emps, today).value == 100.0
        <==> (TallyOf(emps, today).totalTenure as real / |emps| as real >= 365.0
              && forall i :: 0 <= i < |emps| ==> IsActive(emps[i]))
  {
    var t := TallyOf(emps, today);
    var avg := t.totalTenure as real / |emps| as real;
    assert ReputationScore(emps, today).value == Longevity(avg) + Retention(t.active, |emps|);
    AllActiveIff(emps, today);
  }

  // ---------------------------------------------------------------------------
  // Worked examples.

  /** An employee who joined on `joining` and left on `leaving`, all other fields blank. */
  function Hire(joining: Day, leaving: Option<Day>): Employee {
    Employee("", "", "", "", "", "", "", "", "", joining, leaving, 0, None)
  }

  /** One employee, still active, who joined exactly 365 days ago: the full 100. */
  lemma ExampleOneYearActive(today: Day)
    ensures ReputationScore([Hire(today - 365, None)], today) == Score(100.0)
  {
  }

  /** One employee, still active, who joined 182 days ago: 69.92 after rounding to two places. */
  lemma ExampleHalfYearActive(today: Day)
    ensures ReputationScore([Hire(today - 182, None)], today) == Score(182.0 / 365.0 * 60.0 + 40.0)
    ensures 69.915 <= ReputationScore([Hire(today - 182, None)], today).value < 69.925
  {
    var emps := [Hire(today - 182, None)];
    assert emps[..0] == [];
    assert TallyOf(emps, today) == Tally(182, 1);
  }

  /** Two employees with no tenure, one of whom has left: retention alone gives 20. */
  lemma ExampleTwoWithoutTenure(today: Day)
    ensures ReputationScore([Hire(today, None), Hire(today, Some(today))], today) == Score(20.0)
  {
    var emps := [Hire(today, None), Hire(today, Some(today))];
    assert emps[..1] == [Hire(today, None)];
    assert emps[..1][..0] == [];
    assert TallyOf(emps[..1], today) == Tally(0, 1);
    assert TallyOf(emps, today) == Tally(0, 1);
  }

  /** Nothing guards against a leaving day before the joining day: one such employee drives the score to -60. */
  lemma ExampleNegativeTenure(today: Day)
    ensures ReputationScore([Hire(365, Some(0))], today) == Score(-60.0)
  {
    var emps := [Hire(365, Some(0))];
    assert emps[..0] == [];
    assert TallyOf(emps, today) == Tally(-365, 0);
  }
}
