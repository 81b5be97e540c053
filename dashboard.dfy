/** The dashboards' summaries (components/Dashboard.tsx): a student's next
    three deadlines and two latest grades, and a teacher's count of work to grade.
    Due dates are integer timestamps and `now` is a parameter. */
module Dashboard {
  import opened Types
  import opened Lists
  import MockApi

  /** Due in the future, neither submitted nor graded, and not exempt. */
  predicate Qualifies(now: int, a: StudentAssignment) {
    a.dueDate > now && a.status != Submitted && a.status != Graded && !a.isExempt
  }

  function QualifiesAt(now: int): StudentAssignment -> bool {
    (a: StudentAssignment) => Qualifies(now, a)
  }

  predicate SortedByDue(s: seq<StudentAssignment>) {
    forall i, j :: 0 <= i < j < |s| ==> s[i].dueDate <= s[j].dueDate
  }

  /** Places `x` before the first element due no earlier than it. */
  function InsertByDue(x: StudentAssignment, s: seq<StudentAssignment>): (r: seq<StudentAssignment>)
    ensures multiset(r) == multiset(s) + multiset{x}
    ensures forall y :: y in r <==> y in s || y == x
  {
    if s == [] || x.dueDate <= s[0].dueDate then [x] + s
    else
      assert s == [s[0]] + s[1..];
      [s[0]] + InsertByDue(x, s[1..])
  }

  /** A record due no later than everything in a sorted list can go in front. */
  lemma ConsSortedByDue(h: StudentAssignment, rest: seq<StudentAssignment>)
    requires SortedByDue(rest)
    requires forall y :: y in rest ==> h.dueDate <= y.dueDate
    ensures SortedByDue([h] + rest)
  {
    var r := [h] + rest;
    forall i, j | 0 <= i < j < |r| ensures r[i].dueDate <= r[j].dueDate {
      assert r[j] == rest[j - 1];
      if i > 0 {
        assert r[i] == rest[i - 1];
      }
    }
  }

  lemma {:induction false} InsertByDueSorted(x: StudentAssignment, s: seq<StudentAssignment>)
    requires SortedByDue(s)
    ensures SortedByDue(InsertByDue(x, s))
  {
    if s == [] || x.dueDate <= s[0].dueDate {
      forall y | y in s ensures x.dueDate <= y.dueDate {
        var m :| 0 <= m < |s| && s[m] == y;
        assert s[0].dueDate <= s[m].dueDate;
      }
      ConsSortedByDue(x, s);
    } else {
      assert SortedByDue(s[1..]);
      InsertByDueSorted(x, s[1..]);
      var rest := InsertByDue(x, s[1..]);
      forall y | y in rest ensures s[0].dueDate <= y.dueDate {
        if y != x {
          var m :| 0 <= m < |s[1..]| && s[1..][m] == y;
          assert s[m + 1] == y;
        }
      }
      ConsSortedByDue(s[0], rest);
    }
  }

  /** `sort` by ascending due date: an ordered permutation of the input. */
  function SortByDue(s: seq<StudentAssignment>): (r: seq<StudentAssignment>)
    ensures multiset(r) == multiset(s)
    ensures SortedByDue(r)
  {
    if s == [] then []
    else
      assert s == [s[0]] + s[1..];
      InsertByDueSorted(s[0], SortByDue(s[1..]));
      InsertByDue(s[0], SortByDue(s[1..]))
  }

  /** `upcomingAssignments`: the first three qualifying records by due date. */
  function Upcoming(assignments: seq<StudentAssignment>, now: int): seq<StudentAssignment> {
    Slice(SortByDue(Filter(QualifiesAt(now), assignments)), 0, 3)
  }

  /** Every upcoming item is one of the student's records and qualifies, and the items are in due-date order. */
  lemma UpcomingQualify(assignments: seq<StudentAssignment>, now: int)
    ensures forall a :: a in Upcoming(assignments, now) ==> a in assignments && Qualifies(now, a)
    ensures SortedByDue(Upcoming(assignments, now))
  {
    var sorted := SortByDue(Filter(QualifiesAt(now), assignments));
    SliceFrom(sorted, 0, 3);
    forall a | a in Upcoming(assignments, now) ensures a in assignments && Qualifies(now, a) {
      assert a in multiset(sorted);
    }
  }

  /** There are three upcoming items, or every qualifying record when fewer qualify. */
  lemma UpcomingLength(assignments: seq<StudentAssignment>, now: int)
    ensures var n := |Filter(QualifiesAt(now), assignments)|;
      |Upcoming(assignments, now)| == if n < 3 then n else 3
  {
    var q := Filter(QualifiesAt(now), assignments);
    assert |multiset(SortByDue(q))| == |multiset(q)|;
    SliceFrom(SortByDue(q), 0, 3);
  }

  /** No qualifying record is left out while one due strictly later is shown. */
  lemma UpcomingNoneSkipped(assignments: seq<StudentAssignment>, now: int, q: StudentAssignment, u: StudentAssignment)
    requires q in assignments && Qualifies(now, q)
    requires u in Upcoming(assignments, now) && q.dueDate < u.dueDate
    ensures q in Upcoming(assignments, now)
  {
    var sorted := SortByDue(Filter(QualifiesAt(now), assignments));
    var shown := Upcoming(assignments, now);
    SliceFrom(sorted, 0, 3);
    assert q in multiset(sorted);
    var k :| 0 <= k < |sorted| && sorted[k] == q;
    var j :| 0 <= j < |shown| && shown[j] == u;
    assert sorted[j] == u;
    assert shown[k] == q;
  }

  function IsGraded(a: StudentAssignment): bool {
    a.status == Graded
  }

  /** `recentlyGraded`: the first two graded records in list order. */
  function RecentlyGraded(assignments: seq<StudentAssignment>): seq<StudentAssignment> {
    Slice(Filter(IsGraded, assignments), 0, 2)
  }

  /** The recently graded items are graded records, a prefix of the graded
      records in list order, two of them or all when fewer are graded. */
  lemma RecentlyGradedFirstTwo(assignments: seq<StudentAssignment>)
    ensures var g, r := Filter(IsGraded, assignments), RecentlyGraded(assignments);
      && r <= g
      && |r| == (if |g| < 2 then |g| else 2)
      && forall a :: a in r ==> a in assignments && a.status == Graded
  {
    var g := Filter(IsGraded, assignments);
    SliceFrom(g, 0, 2);
    assert forall a :: a in RecentlyGraded(assignments) ==> a in g;
  }

  function IsSubmitted(sa: StudentAssignment): bool {
    sa.status == Submitted
  }

  /** `toGradeCount`: how many records are submitted, exempt ones included. */
  function ToGradeCount(sas: seq<StudentAssignment>): (n: nat)
    ensures n <= |sas|
    ensures n == 0 <==> forall sa :: sa in sas ==> sa.status != Submitted
  {
    var f := Filter(IsSubmitted, sas);
    assert f != [] ==> f[0] in f;
    |f|
  }

  /** Exempting a record does not change the count: exempt submissions still count. */
  lemma ExemptKeepsToGradeCount(sas: seq<StudentAssignment>, i: nat, reason: string)
    requires i < |sas|
    ensures ToGradeCount(sas[i := MockApi.ExemptRecord(sas[i], reason)]) == ToGradeCount(sas)
  {
    FilterLengthUpdate(IsSubmitted, sas, i, MockApi.ExemptRecord(sas[i], reason));
  }

  /** Nothing in the store ever submits a record, so a table that keeps the
      store's invariant never has anything to grade. */
  lemma NothingToGradeInStore(sas: seq<StudentAssignment>)
    requires MockApi.OnlySeededStatuses(sas)
    ensures ToGradeCount(sas) == 0
  {
  }
}
