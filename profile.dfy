/** The student's profile figures (components/Profile.tsx): completed count,
    completion rate, graded records and the average-grade label. */
module Profile {
  import opened Types
  import opened Lists
  import MockApi

  /** Graded or submitted; exemption alone does not complete a record. */
  function IsCompleted(a: StudentAssignment): bool {
    a.status == Graded || a.status == Submitted
  }

  /** `completedCount`. */
  function CompletedCount(assignments: seq<StudentAssignment>): (n: nat)
    ensures n <= |assignments|
    ensures n == |assignments| <==> forall a :: a in assignments ==> IsCompleted(a)
    ensures n == 0 <==> forall a :: a in assignments ==> !IsCompleted(a)
  {
    CountFacts(assignments);
    |Filter(IsCompleted, assignments)|
  }

  lemma {:induction false} CountFacts(s: seq<StudentAssignment>)
    ensures |Filter(IsCompleted, s)| == |s| <==> forall a :: a in s ==> IsCompleted(a)
    ensures |Filter(IsCompleted, s)| == 0 <==> forall a :: a in s ==> !IsCompleted(a)
  {
    if s != [] {
      CountFacts(s[1..]);
      assert forall a :: a in s <==> a == s[0] || a in s[1..];
    }
  }

  /** Exempting a record leaves the completed count as it was. */
  lemma ExemptionDoesNotComplete(assignments: seq<StudentAssignment>, i: nat, reason: string)
    requires i < |assignments|
    ensures CompletedCount(assignments[i := MockApi.ExemptRecord(assignments[i], reason)]) == CompletedCount(assignments)
  {
    FilterLengthUpdate(IsCompleted, assignments, i, MockApi.ExemptRecord(assignments[i], reason));
  }

  /** `Math.round(completed / total * 100)`, in integers: halves round up. */
  function CompletionRate(assignments: seq<StudentAssignment>): (r: int)
    ensures assignments == [] ==> r == 0
    ensures 0 <= r <= 100
    ensures assignments != [] ==>
      -|assignments| <= 2 * (100 * CompletedCount(assignments) - r * |assignments|) < |assignments|
  {
    var n := |assignments|;
    if n > 0 then RoundPercent(CompletedCount(assignments), n) else 0
  }

  /** The nearest whole percentage to `c / n`, halves rounded up. */
  function RoundPercent(c: int, n: int): (r: int)
    requires 0 < n && 0 <= c <= n
    ensures 0 <= r <= 100
    ensures -n <= 2 * (100 * c - r * n) < n
  {
    RoundPercentBounds(c, n);
    (200 * c + n) / (2 * n)
  }

  lemma MulLe(a: int, b: int, d: int)
    requires a <= b && d > 0
    ensures a * d <= b * d
  {
    assert b * d - a * d == (b - a) * d;
  }

  lemma RoundPercentBounds(c: int, n: int)
    requires 0 < n && 0 <= c <= n
    ensures var r := (200 * c + n) / (2 * n);
      0 <= r <= 100 && -n <= 2 * (100 * c - r * n) < n
  {
    var d := 2 * n;
    var x := 200 * c + n;
    var r := x / d;
    assert r * d <= x < r * d + d;
    assert 0 < x <= 201 * n;
    if r < 0 {
      MulLe(r + 1, 0, d);
    }
    if r > 100 {
      MulLe(101, r, d);
    }
    assert r * d == 2 * (r * n);
  }

  /** All completed gives 100; none completed gives 0. */
  lemma CompletionRateExtremes(assignments: seq<StudentAssignment>)
    requires assignments != []
    ensures (forall a :: a in assignments ==> IsCompleted(a)) ==> CompletionRate(assignments) == 100
    ensures (forall a :: a in assignments ==> !IsCompleted(a)) ==> CompletionRate(assignments) == 0
  {
    var n := |assignments|;
    var r := CompletionRate(assignments);
    if forall a :: a in assignments ==> IsCompleted(a) {
      assert -n <= 2 * (100 * n - r * n) < n;
      RateFromBounds(100, r, n);
    }
    if forall a :: a in assignments ==> !IsCompleted(a) {
      assert -n <= 2 * (0 - r * n) < n;
      RateFromBounds(0, r, n);
    }
  }

  lemma RateFromBounds(p: int, r: int, n: int)
    requires n > 0 && -n <= 2 * (p * n - r * n) < n
    ensures r == p
  {
    var k := p - r;
    assert p * n - r * n == k * n;
    if k > 0 {
      MulLe(1, k, n);
    }
    if k < 0 {
      MulLe(k, -1, n);
    }
  }

  /** A grade is present when it is a non-empty string. */
  function HasGrade(a: StudentAssignment): bool {
    a.grade.Some? && a.grade.value != ""
  }

  /** `gradedAssignments`: the records carrying a non-empty grade, in order. */
  function GradedAssignments(assignments: seq<StudentAssignment>): (r: seq<StudentAssignment>)
    ensures forall a :: a in r <==> a in assignments && a.grade.Some? && a.grade.value != ""
  {
    Filter(HasGrade, assignments)
  }

  /** `averageGrade`: the fixed label 'A-' once anything is graded, else 'N/A'. */
  function AverageGrade(assignments: seq<StudentAssignment>): (avg: string)
    ensures avg == "A-" <==> exists a :: a in assignments && HasGrade(a)
    ensures avg != "A-" ==> avg == "N/A"
  {
    var g := GradedAssignments(assignments);
    assert g != [] ==> g[0] in g;
    if |g| > 0 then "A-" else "N/A"
  }

  /** Grading a record with a non-empty grade makes the label 'A-'. */
  lemma GradingSetsAverageLabel(assignments: seq<StudentAssignment>, i: nat, grade: string, feedback: Option<string>)
    requires i < |assignments| && grade != ""
    ensures AverageGrade(assignments[i := MockApi.GradeRecord(assignments[i], grade, feedback)]) == "A-"
  {
    var t := assignments[i := MockApi.GradeRecord(assignments[i], grade, feedback)];
    assert t[i] in t && HasGrade(t[i]);
  }
}
