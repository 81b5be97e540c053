/** The create/edit assignment form (components/AssignmentFormModal.tsx): the
    student checkboxes and the submit handler. The due date is the parsed
    timestamp of the date field, `None` when the field does not parse. */
module AssignmentForm {
  import opened Types
  import opened Lists
  import MockApi
  import DataContext

  const DraftSubject: string := "History"
  const DraftTeacherId: string := "user-teacher-aryan"

  function IsNot(id: string): string -> bool {
    (x: string) => x != id
  }

  /** `handleStudentSelect`'s updater: drops every occurrence of a checked id,
      appends an unchecked one. */
  function Toggle(ids: seq<string>, id: string): seq<string> {
    if id in ids then Filter(IsNot(id), ids) else ids + [id]
  }

  /** Checking an unchecked student appends it at the end. */
  lemma ToggleAbsentAppends(ids: seq<string>, id: string)
    requires id !in ids
    ensures Toggle(ids, id) == ids + [id]
  {
  }

  /** Unchecking removes every occurrence and keeps the other ids in order. */
  lemma TogglePresentRemoves(ids: seq<string>, id: string, a: seq<string>, b: seq<string>)
    requires id in ids && ids == a + b
    ensures id !in Toggle(ids, id)
    ensures forall x :: x in Toggle(ids, id) <==> x in ids && x != id
    ensures Toggle(ids, id) == Filter(IsNot(id), a) + Filter(IsNot(id), b)
  {
    FilterAppend(IsNot(id), a, b);
  }

  /** Checking and then unchecking the same student restores the list. */
  lemma ToggleTwiceRestores(ids: seq<string>, id: string)
    requires id !in ids
    ensures Toggle(Toggle(ids, id), id) == ids
  {
    FilterAppend(IsNot(id), ids, [id]);
    FilterAll(IsNot(id), ids);
    assert Filter(IsNot(id), [id]) == [];
  }

  /** A list without duplicates keeps none under any toggle. */
  lemma ToggleKeepsNoDuplicates(ids: seq<string>, id: string)
    requires NoDuplicates(ids)
    ensures NoDuplicates(Toggle(ids, id))
  {
    if id in ids {
      FilterNoDuplicates(IsNot(id), ids);
    }
  }

  /** The data the submit handler builds for `createMasterAssignment`. */
  datatype AssignmentDraft = AssignmentDraft(
    title: string,
    instructions: string,
    dueDate: int,
    assignedStudentIds: seq<string>,
    subject: string,
    teacherId: string)

  class AssignmentFormModal {
    const editing: Option<MasterAssignment>
    var title: string
    var instructions: string
    var dueDate: Option<int>
    var assignedStudentIds: seq<string>
    var isLoading: bool
    var closed: bool

    /** The fields start from the edited master, or empty when creating. */
    constructor (master: Option<MasterAssignment>)
      ensures editing == master && !isLoading && !closed
      ensures master.Some? ==>
        && title == master.value.title && instructions == master.value.instructions
        && dueDate == Some(master.value.dueDate) && assignedStudentIds == master.value.assignedStudentIds
      ensures master.None? ==> title == "" && instructions == "" && dueDate == None && assignedStudentIds == []
    {
      editing := master;
      if master.Some? {
        title := master.value.title;
        instructions := master.value.instructions;
        dueDate := Some(master.value.dueDate);
        assignedStudentIds := master.value.assignedStudentIds;
      } else {
        title := "";
        instructions := "";
        dueDate := None;
        assignedStudentIds := [];
      }
      isLoading := false;
      closed := false;
    }

    /** A student checkbox. */
    method HandleStudentSelect(studentId: string)
      modifies this
      ensures assignedStudentIds == Toggle(old(assignedStudentIds), studentId)
      ensures title == old(title) && instructions == old(instructions) && dueDate == old(dueDate)
      ensures isLoading == old(isLoading) && closed == old(closed)
    {
      assignedStudentIds := Toggle(assignedStudentIds, studentId);
    }

    /** The title input: the typed text replaces the title, nothing else moves. */
    method SetTitle(text: string)
      modifies this
      ensures title == text && instructions == old(instructions) && dueDate == old(dueDate)
      ensures assignedStudentIds == old(assignedStudentIds)
      ensures isLoading == old(isLoading) && closed == old(closed)
    {
      title := text;
    }

    /** The instructions textarea. */
    method SetInstructions(text: string)
      modifies this
      ensures instructions == text && title == old(title) && dueDate == old(dueDate)
      ensures assignedStudentIds == old(assignedStudentIds)
      ensures isLoading == old(isLoading) && closed == old(closed)
    {
      instructions := text;
    }

    /** The date input, already parsed: `None` stands for a value that is no date. */
    method SetDueDate(date: Option<int>)
      modifies this
      ensures dueDate == date && title == old(title) && instructions == old(instructions)
      ensures assignedStudentIds == old(assignedStudentIds)
      ensures isLoading == old(isLoading) && closed == old(closed)
    {
      dueDate := date;
    }

    /** `handleSubmit`: loading on; a due date that does not parse throws
        before the `try`, leaving the form open and loading. Otherwise the
        draft (subject and teacher fixed) goes to `createMasterAssignment` only
        when creating, which refetches the cache as the store's create is
        empty; editing saves nothing. Either way the form closes and loading ends. */
    method HandleSubmit(data: DataContext.DataCache, api: MockApi.Db, authUser: Option<User>)
      returns (sent: Option<AssignmentDraft>)
      modifies this, data
      ensures old(dueDate).None? ==>
        sent == None && isLoading && closed == old(closed) && data.View() == old(data.View())
        && data.loading == old(data.loading)
      ensures old(dueDate).Some? ==> !isLoading && closed
      ensures old(dueDate).Some? && editing.Some? ==>
        sent == None && data.View() == old(data.View()) && data.loading == old(data.loading)
      ensures old(dueDate).Some? && editing.None? ==>
        && sent == Some(AssignmentDraft(title, instructions, old(dueDate).value, assignedStudentIds,
                                        DraftSubject, DraftTeacherId))
        && (authUser.None? ==> data.View() == old(data.View()))
        && (authUser.Some? ==>
              var r := api.GetData(authUser.value.id, authUser.value.role);
              data.View() == (if r.Ok? then DataContext.FromPackage(r.value) else old(data.View())))
      ensures sent.Some? ==> sent.value.subject == DraftSubject && sent.value.teacherId == DraftTeacherId
      ensures sent.None? ==> data.usersShared == old(data.usersShared)
      ensures old(dueDate).Some? && editing.None? ==>
        data.loading == (if authUser.Some? then false else old(data.loading))
      ensures sent.Some? ==>
        var r := if authUser.Some? then Some(api.GetData(authUser.value.id, authUser.value.role)) else None;
        data.usersShared == if r.Some? && r.value.Ok? then authUser.value.role == Admin else old(data.usersShared)
      ensures title == old(title) && instructions == old(instructions) && dueDate == old(dueDate)
      ensures assignedStudentIds == old(assignedStudentIds)
    {
      isLoading := true;
      if dueDate.None? {
        return None;
      }
      var draft := AssignmentDraft(title, instructions, dueDate.value, assignedStudentIds,
                                   DraftSubject, DraftTeacherId);
      if editing.Some? {
        sent := None;
      } else {
        data.FetchData(api, authUser);
        sent := Some(draft);
      }
      closed := true;
      isLoading := false;
    }
  }
}
