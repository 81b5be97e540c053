/** The admin's user list (components/UserManagement.tsx): the role filter
    and the add, edit and staged-delete handlers. */
module UserManagement {
  import opened Types
  import opened Lists
  import MockApi
  import DataContext

  /** The filter select: 'all', or one role. */
  datatype RoleFilter = All | Only(role: Role)

  function RoleIs(role: Role): User -> bool {
    (u: User) => u.role == role
  }

  /** `filteredUsers`: everyone for 'all', otherwise the users with the role. */
  function FilteredUsers(users: seq<User>, filter: RoleFilter): (r: seq<User>)
    ensures filter == All ==> r == users
    ensures filter.Only? ==> forall u :: u in r <==> u in users && u.role == filter.role
  {
    match filter
    case All => users
    case Only(role) => Filter(RoleIs(role), users)
  }

  /** The role filter keeps list order. */
  lemma FilteredUsersKeepOrder(a: seq<User>, b: seq<User>, filter: RoleFilter)
    ensures FilteredUsers(a + b, filter) == FilteredUsers(a, filter) + FilteredUsers(b, filter)
  {
    if filter.Only? {
      FilterAppend(RoleIs(filter.role), a, b);
    }
  }

  /** The three role filters split a list without loss: every user is in
      exactly one role's list. */
  lemma {:induction false} RolesPartitionUsers(users: seq<User>)
    ensures |FilteredUsers(users, Only(Student))| + |FilteredUsers(users, Only(Teacher))|
          + |FilteredUsers(users, Only(Admin))| == |users|
  {
    if users != [] {
      RolesPartitionUsers(users[1..]);
    }
  }

  class UserManagementView {
    var isFormModalOpen: bool
    var isConfirmModalOpen: bool
    var selectedUser: Option<User>
    var userToDelete: Option<User>
    var filter: RoleFilter

    constructor ()
      ensures !isFormModalOpen && !isConfirmModalOpen
      ensures selectedUser == None && userToDelete == None && filter == All
    {
      isFormModalOpen := false;
      isConfirmModalOpen := false;
      selectedUser := None;
      userToDelete := None;
      filter := All;
    }

    method SetFilter(f: RoleFilter)
      modifies this
      ensures filter == f
      ensures isFormModalOpen == old(isFormModalOpen) && isConfirmModalOpen == old(isConfirmModalOpen)
      ensures selectedUser == old(selectedUser) && userToDelete == old(userToDelete)
    {
      filter := f;
    }

    /** `handleAddUser`: the form opens with no user selected. */
    method HandleAddUser()
      modifies this
      ensures selectedUser == None && isFormModalOpen
      ensures isConfirmModalOpen == old(isConfirmModalOpen) && userToDelete == old(userToDelete) && filter == old(filter)
    {
      selectedUser := None;
      isFormModalOpen := true;
    }

    /** `handleEditUser`: the form opens on the given user. */
    method HandleEditUser(u: User)
      modifies this
      ensures selectedUser == Some(u) && isFormModalOpen
      ensures isConfirmModalOpen == old(isConfirmModalOpen) && userToDelete == old(userToDelete) && filter == old(filter)
    {
      selectedUser := Some(u);
      isFormModalOpen := true;
    }

    /** `handleDeleteUser`: stages the user and asks for confirmation. */
    method HandleDeleteUser(u: User)
      modifies this
      ensures userToDelete == Some(u) && isConfirmModalOpen
      ensures isFormModalOpen == old(isFormModalOpen) && selectedUser == old(selectedUser) && filter == old(filter)
    {
      userToDelete := Some(u);
      isConfirmModalOpen := true;
    }

    /** `confirmDelete`: deletes the staged user, if any, through the cache;
        then the confirmation closes and nothing stays staged. */
    method ConfirmDelete(data: DataContext.DataCache, api: MockApi.Db)
      requires api.Valid()
      modifies this, data, api
      ensures api.Valid()
      ensures old(userToDelete).None? ==> data.View() == old(data.View()) && api.users == old(api.users)
      ensures old(userToDelete).Some? ==>
        var id := old(userToDelete).value.id;
        && api.users == MockApi.WithoutUser(old(api.users), id)
        && data.View() == (if MockApi.HasUser(old(api.users), id)
                           then old(data.View()).(users := MockApi.WithoutUser(
                                  if old(data.usersShared) then old(api.users) else old(data.users), id))
                           else old(data.View()).(users :=
                                  if old(data.usersShared) then old(api.users) else old(data.users)))
      ensures api.studentAssignments == old(api.studentAssignments) && api.masterAssignments == old(api.masterAssignments)
      ensures api.forumPosts == old(api.forumPosts) && api.conversations == old(api.conversations)
      ensures old(userToDelete).None? ==> data.usersShared == old(data.usersShared)
      ensures old(userToDelete).Some? ==> !data.usersShared
      ensures data.loading == old(data.loading)
      ensures !isConfirmModalOpen && userToDelete == None
      ensures isFormModalOpen == old(isFormModalOpen) && selectedUser == old(selectedUser) && filter == old(filter)
    {
      if userToDelete.Some? {
        var _ := data.DeleteUser(api, userToDelete.value.id);
      }
      isConfirmModalOpen := false;
      userToDelete := None;
    }

    /** The confirmation's cancel: it closes, the staged user stays staged. */
    method CancelDelete()
      modifies this
      ensures !isConfirmModalOpen && userToDelete == old(userToDelete)
      ensures isFormModalOpen == old(isFormModalOpen) && selectedUser == old(selectedUser) && filter == old(filter)
    {
      isConfirmModalOpen := false;
    }

    /** The user form's close callback. */
    method CloseForm()
      modifies this
      ensures !isFormModalOpen && selectedUser == old(selectedUser)
      ensures isConfirmModalOpen == old(isConfirmModalOpen) && userToDelete == old(userToDelete) && filter == old(filter)
    {
      isFormModalOpen := false;
    }
  }
}
