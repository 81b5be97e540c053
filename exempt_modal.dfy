/** The exemption dialog (components/ExemptModal.tsx): a reason that must not
    be blank, passed on untrimmed; closes only on success. */
module ExemptModal {
  import opened Types
  import opened MockApi
  import opened Text
  import DataContext
  import Notifications
  import GradeModal

  const ExemptFailed: string := "Failed to exempt student."

  function ExemptedMessage(name: string): string {
    name + " has been exempted."
  }

  /** A reason is accepted when something other than whitespace remains after trimming. */
  predicate AcceptsReason(reason: string) {
    !IsBlank(reason)
  }

  /** Empty, all-space and tab-and-newline reasons are refused; one letter
      among spaces is accepted and kept with its spaces. */
  lemma ReasonGuardExamples()
    ensures !AcceptsReason("") && !AcceptsReason("   ") && !AcceptsReason(" \t\n")
    ensures AcceptsReason(" x ")
  {
    assert !IsWhitespace(" x "[1]);
  }

  /** Every reason made only of whitespace is refused, however long. This
      unfolds the definitions: the substance is the character set of
      `Text.IsWhitespace`. */
  lemma BlankReasonRefused(reason: string)
    requires forall i :: 0 <= i < |reason| ==> IsWhitespace(reason[i])
    ensures !AcceptsReason(reason)
  {
  }

  /** A reason is accepted exactly when it holds a character `trim()` keeps,
      that is, one outside `Text.IsWhitespace`'s set. */
  lemma AcceptsReasonIffVisible(reason: string)
    ensures AcceptsReason(reason) <==> exists i :: 0 <= i < |reason| && !IsWhitespace(reason[i])
  {
  }

  class ExemptModalState {
    const studentAssignment: StudentAssignment
    var reason: string
    var isLoading: bool
    var closed: bool

    /** The reason starts from the record's, or empty. */
    constructor (sa: StudentAssignment)
      ensures studentAssignment == sa && !isLoading && !closed
      ensures reason == (if sa.exemptionReason.Some? then sa.exemptionReason.value else "")
    {
      studentAssignment := sa;
      reason := if sa.exemptionReason.Some? then sa.exemptionReason.value else "";
      isLoading := false;
      closed := false;
    }

    method SetReason(r: string)
      modifies this
      ensures reason == r && isLoading == old(isLoading) && closed == old(closed)
    {
      reason := r;
    }

    /** `handleSubmit`: nothing for a blank reason. Otherwise the record is
        exempted with the reason as typed; on success a toast and the dialog
        closes, on failure an error toast and it stays open; loading is off
        again after either. */
    method HandleSubmit(data: DataContext.DataCache, api: Db, notes: Notifications.NotificationQueue, stamp: string)
      requires api.Valid()
      modifies this, data, api, notes
      ensures api.Valid()
      ensures reason == old(reason)
      ensures data.loading == old(data.loading) && data.usersShared == old(data.usersShared)
      ensures !AcceptsReason(reason) ==>
        && isLoading == old(isLoading) && closed == old(closed)
        && data.View() == old(data.View()) && api.studentAssignments == old(api.studentAssignments)
        && notes.notifications == old(notes.notifications)
      ensures AcceptsReason(reason) ==> !isLoading
      ensures AcceptsReason(reason) && AssignmentIndex(old(api.studentAssignments), studentAssignment.id).Some? ==>
        var i := AssignmentIndex(old(api.studentAssignments), studentAssignment.id).value;
        var exempted := ExemptRecord(old(api.studentAssignments)[i], reason);
        && api.studentAssignments == old(api.studentAssignments)[i := exempted]
        && data.View() == old(data.View()).(
             assignments := Lists.MapReplace(old(data.assignments), DataContext.SameRecordId(studentAssignment.id), exempted),
             studentAssignments :=
               Lists.MapReplace(old(data.studentAssignments), DataContext.SameRecordId(studentAssignment.id), exempted))
        && closed
        && notes.notifications == old(notes.notifications) +
             [Notification(stamp, Success,
                ExemptedMessage(GradeModal.NameInMessage(old(data.students), studentAssignment.studentId)))]
      ensures AcceptsReason(reason) && AssignmentIndex(old(api.studentAssignments), studentAssignment.id).None? ==>
        && api.studentAssignments == old(api.studentAssignments) && data.View() == old(data.View())
        && closed == old(closed)
        && notes.notifications == old(notes.notifications) + [Notification(stamp, Error, ExemptFailed)]
      ensures api.users == old(api.users) && api.masterAssignments == old(api.masterAssignments)
      ensures api.forumPosts == old(api.forumPosts) && api.conversations == old(api.conversations)
    {
      if !AcceptsReason(reason) {
        return;
      }
      isLoading := true;
      var name := GradeModal.NameInMessage(data.students, studentAssignment.studentId);
      var r := data.ExemptStudentAssignment(api, studentAssignment.id, reason);
      if r.Ok? {
        notes.Add(Success, ExemptedMessage(name), stamp);
        closed := true;
      } else {
        notes.Add(Error, ExemptFailed, stamp);
      }
      isLoading := false;
    }
  }
}
