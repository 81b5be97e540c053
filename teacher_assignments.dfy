/** The teacher's assignment list (components/TeacherAssignments.tsx): each
    master's student records, paged ten at a time with a page remembered per
    master, their labels, and which actions each record offers. */
module TeacherAssignments {
  import opened Types
  import opened Lists
  import Paging
  import MockApi

  const StudentsPerPage: nat := 10
  const UnknownStudent: string := "Unknown Student"

  /** `assignedStudentsData`: the records of one master, in table order. */
  function StudentsFor(sas: seq<StudentAssignment>, maId: string): (r: seq<StudentAssignment>)
    ensures forall sa :: sa in r <==> sa in sas && sa.masterAssignmentId == maId
  {
    Filter(MockApi.MasterIs(maId), sas)
  }

  /** In the seeded table (master ids distinct), a master's list is exactly its
      own fan-out: one record per assigned id that names a user, in assignment order. */
  lemma SeededStudentList(masters: seq<MasterAssignment>, users: seq<User>, k: nat)
    requires MockApi.DistinctMasterIds(masters) && k < |masters|
    ensures StudentsFor(MockApi.FanOut(masters, users), masters[k].id) ==
            MockApi.FanOutMaster(masters[k], masters[k].assignedStudentIds, users)
  {
    MockApi.FanOutOfMaster(masters, users, k);
  }

  /** `totalAssignedStudents`: the stored count unless it is absent or zero,
      then the number of records actually present. */
  function TotalAssigned(ma: MasterAssignment, sas: seq<StudentAssignment>): (n: int)
    ensures ma.assignedStudentCount == Some(n) || n == |StudentsFor(sas, ma.id)|
    ensures ma.assignedStudentCount.Some? && ma.assignedStudentCount.value != 0 ==> n == ma.assignedStudentCount.value
    ensures ma.assignedStudentCount.None? || ma.assignedStudentCount == Some(0) ==> n == |StudentsFor(sas, ma.id)|
  {
    match ma.assignedStudentCount
    case Some(c) => if c != 0 then c else |StudentsFor(sas, ma.id)|
    case None => |StudentsFor(sas, ma.id)|
  }

  /** `totalStudentPages`: `Math.ceil(total / 10)`. */
  function TotalStudentPages(ma: MasterAssignment, sas: seq<StudentAssignment>): (r: int)
    ensures (r - 1) * StudentsPerPage < TotalAssigned(ma, sas) <= r * StudentsPerPage
  {
    Paging.PageCount(TotalAssigned(ma, sas), StudentsPerPage)
  }

  /** `studentListCurrentPage[ma.id] || 1`: a master without an entry, or with
      entry 0, is on page 1. */
  function CurrentPage(pages: map<string, int>, maId: string): (p: int)
    ensures p != 0
    ensures maId !in pages ==> p == 1
    ensures maId in pages && pages[maId] == 0 ==> p == 1
    ensures maId in pages && pages[maId] != 0 ==> p == pages[maId]
  {
    if maId in pages && pages[maId] != 0 then pages[maId] else 1
  }

  /** The page change handler writes one entry; every other master's page stays as it was. */
  lemma PageChangeIsLocal(pages: map<string, int>, maId: string, page: int, other: string)
    requires other != maId
    ensures CurrentPage(pages[maId := page], other) == CurrentPage(pages, other)
  {
  }

  /** `paginatedStudentAssignments`: the slice of the master's records for its current page. */
  function ShownStudents(ma: MasterAssignment, sas: seq<StudentAssignment>, pages: map<string, int>): seq<StudentAssignment> {
    Paging.PageOf(StudentsFor(sas, ma.id), CurrentPage(pages, ma.id), StudentsPerPage)
  }

  /** The shown slice is at most ten consecutive records of the master's list,
      starting at `(page - 1) * 10`. */
  lemma ShownStudentsWindow(ma: MasterAssignment, sas: seq<StudentAssignment>, pages: map<string, int>)
    requires CurrentPage(pages, ma.id) >= 1
    ensures var shown, all, start := ShownStudents(ma, sas, pages), StudentsFor(sas, ma.id),
                                     (CurrentPage(pages, ma.id) - 1) * StudentsPerPage;
      && |shown| <= StudentsPerPage
      && (forall k :: 0 <= k < |shown| ==> shown[k] == all[start + k])
      && (start + StudentsPerPage <= |all| ==> |shown| == StudentsPerPage)
  {
    Paging.PageWindow(StudentsFor(sas, ma.id), CurrentPage(pages, ma.id), StudentsPerPage);
  }

  /** What the status badge says. */
  datatype Label = ExemptLabel | StatusLabel(status: Status)

  /** 'Exempt' exactly for exempt records, otherwise the record's status. */
  function LabelOf(sa: StudentAssignment): (l: Label)
    ensures l == ExemptLabel <==> sa.isExempt
    ensures l.StatusLabel? ==> l.status == sa.status
  {
    if sa.isExempt then ExemptLabel else StatusLabel(sa.status)
  }

  /** The grade button is shown only for submitted records. */
  predicate CanGrade(sa: StudentAssignment) {
    sa.status == Submitted
  }

  /** The exempt button is shown only for records not yet exempt. */
  predicate CanExempt(sa: StudentAssignment) {
    !sa.isExempt
  }

  /** Once exempted, a record no longer offers exemption and shows 'Exempt'. */
  lemma ExemptedRecordOffersNoExemption(sa: StudentAssignment, reason: string)
    ensures !CanExempt(MockApi.ExemptRecord(sa, reason))
    ensures LabelOf(MockApi.ExemptRecord(sa, reason)) == ExemptLabel
  {
  }

  /** Once graded, a record no longer offers grading; exempting leaves the grade offer as it was. */
  lemma GradeOfferAfterUpdates(sa: StudentAssignment, grade: string, feedback: Option<string>, reason: string)
    ensures !CanGrade(MockApi.GradeRecord(sa, grade, feedback))
    ensures CanGrade(MockApi.ExemptRecord(sa, reason)) == CanGrade(sa)
  {
  }

  /** The store never moves a record to Submitted, so in a table that keeps
      its invariant no record ever offers grading. */
  lemma GradingNeverOfferedInStore(sas: seq<StudentAssignment>)
    requires MockApi.OnlySeededStatuses(sas)
    ensures forall sa :: sa in sas ==> !CanGrade(sa)
  {
  }

  /** `getStudentName`: the name of the first student with the id, or
      'Unknown Student' when there is none or the name is empty. */
  function StudentName(students: seq<User>, studentId: string): (name: string)
    ensures (forall u :: u in students ==> u.id != studentId) ==> name == UnknownStudent
    ensures name != UnknownStudent ==> exists u :: u in students && u.id == studentId && u.name == name
    ensures name != ""
    ensures MockApi.FindUser(students, studentId).Some? && MockApi.FindUser(students, studentId).value.name != "" ==>
      name == MockApi.FindUser(students, studentId).value.name
  {
    match MockApi.FindUser(students, studentId)
    case None => UnknownStudent
    case Some(u) => if u.name != "" then u.name else UnknownStudent
  }

  /** The list's view state: which master is expanded, the open modals, the
      record picked for a modal, and each master's page. */
  class TeacherAssignmentsView {
    var expandedId: Option<string>
    var isFormModalOpen: bool
    var isGradeModalOpen: bool
    var isExemptModalOpen: bool
    var selected: Option<StudentAssignment>
    var studentListCurrentPage: map<string, int>

    constructor ()
      ensures expandedId == None && selected == None && studentListCurrentPage == map[]
      ensures !isFormModalOpen && !isGradeModalOpen && !isExemptModalOpen
    {
      expandedId := None;
      isFormModalOpen := false;
      isGradeModalOpen := false;
      isExemptModalOpen := false;
      selected := None;
      studentListCurrentPage := map[];
    }

    /** `handleGradeClick`: picks the record and opens the grade modal. */
    method HandleGradeClick(sa: StudentAssignment)
      modifies this
      ensures selected == Some(sa) && isGradeModalOpen
      ensures isExemptModalOpen == old(isExemptModalOpen) && isFormModalOpen == old(isFormModalOpen)
      ensures expandedId == old(expandedId) && studentListCurrentPage == old(studentListCurrentPage)
    {
      selected := Some(sa);
      isGradeModalOpen := true;
    }

    /** `handleExemptClick`: picks the record and opens the exempt modal. */
    method HandleExemptClick(sa: StudentAssignment)
      modifies this
      ensures selected == Some(sa) && isExemptModalOpen
      ensures isGradeModalOpen == old(isGradeModalOpen) && isFormModalOpen == old(isFormModalOpen)
      ensures expandedId == old(expandedId) && studentListCurrentPage == old(studentListCurrentPage)
    {
      selected := Some(sa);
      isExemptModalOpen := true;
    }

    /** The master's header button: expands it, or collapses it when it is the expanded one. */
    method ToggleExpanded(maId: string)
      modifies this
      ensures old(expandedId) == Some(maId) ==> expandedId == None
      ensures old(expandedId) != Some(maId) ==> expandedId == Some(maId)
      ensures selected == old(selected) && studentListCurrentPage == old(studentListCurrentPage)
      ensures isGradeModalOpen == old(isGradeModalOpen) && isExemptModalOpen == old(isExemptModalOpen)
      ensures isFormModalOpen == old(isFormModalOpen)
    {
      expandedId := if expandedId == Some(maId) then None else Some(maId);
    }

    /** A master's pagination control: records the new page for that master only. */
    method SetStudentPage(maId: string, page: int)
      modifies this
      ensures studentListCurrentPage == old(studentListCurrentPage)[maId := page]
      ensures expandedId == old(expandedId) && selected == old(selected)
      ensures isGradeModalOpen == old(isGradeModalOpen) && isExemptModalOpen == old(isExemptModalOpen)
      ensures isFormModalOpen == old(isFormModalOpen)
    {
      studentListCurrentPage := studentListCurrentPage[maId := page];
    }

    /** The 'Create Assignment' button and the form's close callback. */
    method SetFormOpen(open: bool)
      modifies this
      ensures isFormModalOpen == open
      ensures expandedId == old(expandedId) && selected == old(selected)
      ensures isGradeModalOpen == old(isGradeModalOpen) && isExemptModalOpen == old(isExemptModalOpen)
      ensures studentListCurrentPage == old(studentListCurrentPage)
    {
      isFormModalOpen := open;
    }

    /** The grade modal's close callback; the picked record stays picked. */
    method CloseGradeModal()
      modifies this
      ensures !isGradeModalOpen && isExemptModalOpen == old(isExemptModalOpen)
      ensures selected == old(selected) && expandedId == old(expandedId)
      ensures isFormModalOpen == old(isFormModalOpen) && studentListCurrentPage == old(studentListCurrentPage)
    {
      isGradeModalOpen := false;
    }

    /** The exempt modal's close callback; the picked record stays picked. */
    method CloseExemptModal()
      modifies this
      ensures !isExemptModalOpen && isGradeModalOpen == old(isGradeModalOpen)
      ensures selected == old(selected) && expandedId == old(expandedId)
      ensures isFormModalOpen == old(isFormModalOpen) && studentListCurrentPage == old(studentListCurrentPage)
    {
      isExemptModalOpen := false;
    }

    /** A record modal is rendered only while it is open and a record is picked. */
    predicate GradeModalShown()
      reads this
    {
      isGradeModalOpen && selected.Some?
    }

    predicate ExemptModalShown()
      reads this
    {
      isExemptModalOpen && selected.Some?
    }
  }
}
