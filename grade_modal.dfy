/** The grading dialog (components/GradeModal.tsx): a guarded submit that
    grades through the cache, raises a toast, and closes only on success. */
module GradeModal {
  import opened Types
  import opened MockApi
  import DataContext
  import Notifications
  import Text

  /** `student?.name` in a template string: the name of the first student with
      the id, or the text "undefined" when there is none. */
  function NameInMessage(students: seq<User>, studentId: string): (s: string)
    ensures (forall u :: u in students ==> u.id != studentId) ==> s == "undefined"
    ensures FindUser(students, studentId).Some? ==> s == FindUser(students, studentId).value.name
  {
    match FindUser(students, studentId)
    case None => "undefined"
    case Some(u) => u.name
  }

  const GradeFailed: string := "Failed to grade assignment."

  function GradedMessage(name: string): string {
    "Assignment graded for " + name + "."
  }

  /** Only an empty grade is refused; a grade of spaces goes through. */
  predicate AcceptsGrade(grade: string) {
    grade != ""
  }

  /** Unlike the exemption reason, any non-empty grade made only of
      whitespace, which `trim()` would leave empty, is accepted. This unfolds
      the definitions: which grades are blank is decided by `Text.IsWhitespace`. */
  lemma WhitespaceGradeAccepted(grade: string)
    requires grade != ""
    requires forall i :: 0 <= i < |grade| ==> Text.IsWhitespace(grade[i])
    ensures AcceptsGrade(grade) && Text.IsBlank(grade)
  {
  }

  /** The empty grade is the one grade refused. */
  lemma OnlyEmptyGradeRefused(grade: string)
    ensures !AcceptsGrade(grade) <==> |grade| == 0
  {
  }

  class GradeModalState {
    const studentAssignment: StudentAssignment
    var grade: string
    var feedback: string
    var isLoading: bool
    var closed: bool

    /** Grade and feedback start from the record, or empty when it has none. */
    constructor (sa: StudentAssignment)
      ensures studentAssignment == sa && !isLoading && !closed
      ensures grade == (if sa.grade.Some? then sa.grade.value else "")
      ensures feedback == (if sa.feedback.Some? then sa.feedback.value else "")
    {
      studentAssignment := sa;
      grade := if sa.grade.Some? then sa.grade.value else "";
      feedback := if sa.feedback.Some? then sa.feedback.value else "";
      isLoading := false;
      closed := false;
    }

    method SetGrade(g: string)
      modifies this
      ensures grade == g && feedback == old(feedback) && isLoading == old(isLoading) && closed == old(closed)
    {
      grade := g;
    }

    method SetFeedback(f: string)
      modifies this
      ensures feedback == f && grade == old(grade) && isLoading == old(isLoading) && closed == old(closed)
    {
      feedback := f;
    }

    /** `handleSubmit`: nothing for an empty grade. Otherwise the record is
        graded with the typed grade and feedback; on success a success toast is
        raised and the dialog closes, on failure an error toast is raised and it
        stays open; loading is off again after either. */
    method HandleSubmit(data: DataContext.DataCache, api: Db, notes: Notifications.NotificationQueue, stamp: string)
      requires api.Valid()
      modifies this, data, api, notes
      ensures api.Valid()
      ensures grade == old(grade) && feedback == old(feedback)
      ensures data.loading == old(data.loading) && data.usersShared == old(data.usersShared)
      ensures !AcceptsGrade(grade) ==>
        && isLoading == old(isLoading) && closed == old(closed)
        && data.View() == old(data.View()) && api.studentAssignments == old(api.studentAssignments)
        && notes.notifications == old(notes.notifications)
      ensures AcceptsGrade(grade) ==> !isLoading
      ensures AcceptsGrade(grade) && AssignmentIndex(old(api.studentAssignments), studentAssignment.id).Some? ==>
        var i := AssignmentIndex(old(api.studentAssignments), studentAssignment.id).value;
        var graded := GradeRecord(old(api.studentAssignments)[i], grade, Some(feedback));
        && api.studentAssignments == old(api.studentAssignments)[i := graded]
        && data.View() == old(data.View()).(
             assignments := Lists.MapReplace(old(data.assignments), DataContext.SameRecordId(studentAssignment.id), graded),
             studentAssignments :=
               Lists.MapReplace(old(data.studentAssignments), DataContext.SameRecordId(studentAssignment.id), graded))
        && closed
        && notes.notifications == old(notes.notifications) +
             [Notification(stamp, Success, GradedMessage(NameInMessage(old(data.students), studentAssignment.studentId)))]
      ensures AcceptsGrade(grade) && AssignmentIndex(old(api.studentAssignments), studentAssignment.id).None? ==>
        && api.studentAssignments == old(api.studentAssignments) && data.View() == old(data.View())
        && closed == old(closed)
        && notes.notifications == old(notes.notifications) + [Notification(stamp, Error, GradeFailed)]
      ensures api.users == old(api.users) && api.masterAssignments == old(api.masterAssignments)
      ensures api.forumPosts == old(api.forumPosts) && api.conversations == old(api.conversations)
    {
      if !AcceptsGrade(grade) {
        return;
      }
      isLoading := true;
      var name := NameInMessage(data.students, studentAssignment.studentId);
      var r := data.GradeStudentAssignment(api, studentAssignment.id, grade, Some(feedback));
      if r.Ok? {
        notes.Add(Success, GradedMessage(name), stamp);
        closed := true;
      } else {
        notes.Add(Error, GradeFailed, stamp);
      }
      isLoading := false;
    }
  }
}
