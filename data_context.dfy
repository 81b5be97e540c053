/** The client-side cache (contexts/DataContext.tsx): nine lists and a loading
    flag, filled from the store by a fetch and patched after each store call.
    Each store call is one atomic step; a call that fails leaves the lists as
    they were, since the patch after it is never reached. */
module DataContext {
  import opened Types
  import opened Lists
  import opened MockApi

  /** The nine lists the context hands to the views. */
  datatype CacheView = CacheView(
    user: Option<User>,
    users: seq<User>,
    students: seq<User>,
    teachers: seq<User>,
    assignments: seq<StudentAssignment>,
    studentAssignments: seq<StudentAssignment>,
    masterAssignments: seq<MasterAssignment>,
    forumPosts: seq<ForumPost>,
    conversations: seq<Conversation>)

  /** What a fetch stores: the package as it came, its records under both
      the student-view and the teacher-view name. */
  function FromPackage(d: DataPackage): (v: CacheView)
    ensures v.assignments == v.studentAssignments == d.studentAssignments
    ensures v.user == Some(d.user) && v.users == d.users && v.forumPosts == d.forumPosts
  {
    CacheView(Some(d.user), d.users, d.students, d.teachers, d.studentAssignments,
              d.studentAssignments, d.masterAssignments, d.forumPosts, d.conversations)
  }

  function SameUserId(id: string): User -> bool {
    (u: User) => u.id == id
  }

  function SameRecordId(id: string): StudentAssignment -> bool {
    (sa: StudentAssignment) => sa.id == id
  }

  function SamePostId(id: string): ForumPost -> bool {
    (p: ForumPost) => p.id == id
  }

  predicate UniqueUserIds(users: seq<User>) {
    forall i, j :: 0 <= i < j < |users| ==> users[i].id != users[j].id
  }

  predicate UniqueRecordIds(sas: seq<StudentAssignment>) {
    forall i, j :: 0 <= i < j < |sas| ==> sas[i].id != sas[j].id
  }

  /** With unique ids, the cache's replace-by-id patch after `updateUser`
      changes the list exactly as the store's write at the first match did. */
  lemma UserPatchMirrorsStore(users: seq<User>, data: User, i: nat)
    requires UniqueUserIds(users) && UserIndex(users, data.id) == Some(i)
    ensures var merged := MergeUser(users[i], data);
      MapReplace(users, SameUserId(merged.id), merged) == users[i := merged]
  {
    var merged := MergeUser(users[i], data);
    var patched := MapReplace(users, SameUserId(merged.id), merged);
    forall j | 0 <= j < |users| ensures patched[j] == users[i := merged][j] {
      if j != i {
        assert users[j].id != users[i].id;
      }
    }
  }

  /** With unique ids, the cache's replace-by-id patch after grading or
      exempting changes the list exactly as the store's write at the first match did. */
  lemma RecordPatchMirrorsStore(sas: seq<StudentAssignment>, id: string, i: nat, updated: StudentAssignment)
    requires UniqueRecordIds(sas) && AssignmentIndex(sas, id) == Some(i)
    ensures MapReplace(sas, SameRecordId(id), updated) == sas[i := updated]
  {
    var patched := MapReplace(sas, SameRecordId(id), updated);
    forall j | 0 <= j < |sas| ensures patched[j] == sas[i := updated][j] {
      if j != i {
        assert sas[j].id != sas[i].id;
      }
    }
  }

  class DataCache {
    var loading: bool
    var user: Option<User>
    var users: seq<User>
    var students: seq<User>
    var teachers: seq<User>
    var assignments: seq<StudentAssignment>
    var studentAssignments: seq<StudentAssignment>
    var masterAssignments: seq<MasterAssignment>
    var forumPosts: seq<ForumPost>
    var conversations: seq<Conversation>
    /** Whether the cached user list is the store's own array rather than a
        copy: an admin's fetch hands the store's array over as it is, and the
        spread, `map` and `filter` of the user patches each make a new one.
        While it is shared, the list the cache holds is the store's list. */
    var usersShared: bool

    function View(): CacheView
      reads this
    {
      CacheView(user, users, students, teachers, assignments, studentAssignments,
                masterAssignments, forumPosts, conversations)
    }

    /** Before the first fetch: loading, and every list empty. */
    constructor ()
      ensures loading && View() == CacheView(None, [], [], [], [], [], [], [], [])
      ensures !usersShared
    {
      loading := true;
      usersShared := false;
      user := None;
      users := [];
      students := [];
      teachers := [];
      assignments := [];
      studentAssignments := [];
      masterAssignments := [];
      forumPosts := [];
      conversations := [];
    }

    /** The nine setters of a successful fetch. */
    method SetLists(v: CacheView)
      modifies this
      ensures View() == v && loading == old(loading) && usersShared == old(usersShared)
    {
      user := v.user;
      users := v.users;
      students := v.students;
      teachers := v.teachers;
      assignments := v.assignments;
      studentAssignments := v.studentAssignments;
      masterAssignments := v.masterAssignments;
      forumPosts := v.forumPosts;
      conversations := v.conversations;
    }

    /** `fetchData`: nothing without a signed-in user; otherwise the package for
        that user's id and role replaces the lists, and loading ends false
        whether the read succeeded or not. Only an admin's package hands over
        the store's user array itself. */
    method FetchData(api: Db, authUser: Option<User>)
      modifies this
      ensures authUser.None? ==> View() == old(View()) && loading == old(loading)
      ensures authUser.Some? ==> !loading
      ensures authUser.Some? ==>
        var r := api.GetData(authUser.value.id, authUser.value.role);
        View() == if r.Ok? then FromPackage(r.value) else old(View())
      ensures authUser.None? ==> usersShared == old(usersShared)
      ensures authUser.Some? ==>
        var r := api.GetData(authUser.value.id, authUser.value.role);
        usersShared == if r.Ok? then authUser.value.role == Admin else old(usersShared)
      ensures usersShared && !old(usersShared) ==> users == api.users
    {
      if authUser.None? {
        return;
      }
      loading := true;
      var r := api.GetData(authUser.value.id, authUser.value.role);
      if r.Ok? {
        SetLists(FromPackage(r.value));
        usersShared := authUser.value.role == Admin;
      }
      loading := false;
    }

    /** `updateForumPost`: replaces every post with the id. The optimistic path
        writes before the (empty) store call and the other after it; as each
        call is one atomic step here, the two orders come to the same write. */
    method UpdateForumPost(post: ForumPost, optimistic: bool)
      modifies this
      ensures View() == old(View()).(forumPosts := MapReplace(old(forumPosts), SamePostId(post.id), post))
      ensures loading == old(loading) && usersShared == old(usersShared)
    {
      forumPosts := MapReplace(forumPosts, SamePostId(post.id), post);
    }

    /** `deleteUser`: after the store drops the user, so does the local list.
        The store reassigns its list to a filtered copy even when the call then
        fails, so afterwards the cache never shares it. */
    method DeleteUser(api: Db, userId: string) returns (r: Result<(), ApiError>)
      requires api.Valid()
      modifies this, api
      ensures api.Valid()
      ensures r.Ok? <==> HasUser(old(api.users), userId)
      ensures api.users == WithoutUser(old(api.users), userId)
      ensures api.studentAssignments == old(api.studentAssignments) && api.masterAssignments == old(api.masterAssignments)
      ensures api.forumPosts == old(api.forumPosts) && api.conversations == old(api.conversations)
      ensures r.Ok? ==>
        View() == old(View()).(users := WithoutUser(if old(usersShared) then old(api.users) else old(users), userId))
      ensures r.Err? ==> View() == old(View()).(users := if old(usersShared) then old(api.users) else old(users))
      ensures loading == old(loading) && !usersShared
    {
      var before := api.users;
      r := api.DeleteUser(userId);
      if r.Ok? {
        users := WithoutUser(if usersShared then before else users, userId);
      } else if usersShared {
        // The cache keeps the array the store has just let go of.
        users := before;
      }
      usersShared := false;
    }

    /** `addUser`: after the store accepts the user, it is appended locally too.
        When the cache shares the store's array, the store's push has already
        put the user there, so the spread copy holds the new user twice. */
    method AddUser(api: Db, data: UserInput, freshId: string) returns (r: Result<User, ApiError>)
      requires api.Valid()
      modifies this, api
      ensures api.Valid()
      ensures r.Ok? <==> forall u :: u in old(api.users) ==> u.email != data.email
      ensures r.Ok? ==> r.value == NewUser(freshId, data) && api.users == old(api.users) + [r.value]
      ensures r.Err? ==> api.users == old(api.users)
      ensures api.studentAssignments == old(api.studentAssignments) && api.masterAssignments == old(api.masterAssignments)
      ensures api.forumPosts == old(api.forumPosts) && api.conversations == old(api.conversations)
      ensures r.Ok? && !old(usersShared) ==> View() == old(View()).(users := old(users) + [r.value])
      ensures r.Ok? && old(usersShared) ==> View() == old(View()).(users := old(api.users) + [r.value, r.value])
      ensures r.Ok? ==> !usersShared
      ensures r.Err? ==> View() == old(View()) && usersShared == old(usersShared)
      ensures loading == old(loading)
    {
      r := api.AddUser(data, freshId);
      if r.Ok? {
        users := (if usersShared then api.users else users) + [r.value];
        usersShared := false;
      }
    }

    /** `updateUser`: after the store merges the record, every local user with
        its id is replaced by the merged record; a shared list already holds
        the store's write when the replacement runs. */
    method UpdateUser(api: Db, data: User) returns (r: Result<User, ApiError>)
      requires api.Valid()
      modifies this, api
      ensures api.Valid()
      ensures r.Ok? <==> UserIndex(old(api.users), data.id).Some?
      ensures r.Ok? ==>
        var i := UserIndex(old(api.users), data.id).value;
        r.value == MergeUser(old(api.users)[i], data) && api.users == old(api.users)[i := r.value]
      ensures r.Err? ==> api.users == old(api.users)
      ensures api.studentAssignments == old(api.studentAssignments) && api.masterAssignments == old(api.masterAssignments)
      ensures api.forumPosts == old(api.forumPosts) && api.conversations == old(api.conversations)
      ensures r.Ok? ==>
        View() == old(View()).(users := MapReplace(if old(usersShared) then api.users else old(users), SameUserId(r.value.id), r.value))
      ensures r.Ok? ==> !usersShared
      ensures r.Err? ==> View() == old(View()) && usersShared == old(usersShared)
      ensures loading == old(loading)
    {
      r := api.UpdateUser(data);
      if r.Ok? {
        users := MapReplace(if usersShared then api.users else users, SameUserId(r.value.id), r.value);
        usersShared := false;
      }
    }

    /** `gradeStudentAssignment`: the store grades its record object in place,
        and both cached lists hold that same object, so each shows the graded
        record under its id; the teacher-view list is also rebuilt by a
        replace-by-id patch. */
    method GradeStudentAssignment(api: Db, id: string, grade: string, feedback: Option<string>)
      returns (r: Result<StudentAssignment, ApiError>)
      requires api.Valid()
      modifies this, api
      ensures api.Valid()
      ensures r.Ok? <==> AssignmentIndex(old(api.studentAssignments), id).Some?
      ensures r.Ok? ==>
        var i := AssignmentIndex(old(api.studentAssignments), id).value;
        r.value == GradeRecord(old(api.studentAssignments)[i], grade, feedback)
        && api.studentAssignments == old(api.studentAssignments)[i := r.value]
      ensures r.Err? ==> api.studentAssignments == old(api.studentAssignments)
      ensures api.users == old(api.users) && api.masterAssignments == old(api.masterAssignments)
      ensures api.forumPosts == old(api.forumPosts) && api.conversations == old(api.conversations)
      ensures r.Ok? ==>
        View() == old(View()).(assignments := MapReplace(old(assignments), SameRecordId(id), r.value),
                               studentAssignments := MapReplace(old(studentAssignments), SameRecordId(id), r.value))
      ensures r.Err? ==> View() == old(View())
      ensures loading == old(loading) && usersShared == old(usersShared)
    {
      r := api.GradeStudentAssignment(id, grade, feedback);
      if r.Ok? {
        assignments := MapReplace(assignments, SameRecordId(id), r.value);
        studentAssignments := MapReplace(studentAssignments, SameRecordId(id), r.value);
      }
    }

    /** `exemptStudentAssignment`: as grading, with the exempted record. */
    method ExemptStudentAssignment(api: Db, id: string, reason: string) returns (r: Result<StudentAssignment, ApiError>)
      requires api.Valid()
      modifies this, api
      ensures api.Valid()
      ensures r.Ok? <==> AssignmentIndex(old(api.studentAssignments), id).Some?
      ensures r.Ok? ==>
        var i := AssignmentIndex(old(api.studentAssignments), id).value;
        r.value == ExemptRecord(old(api.studentAssignments)[i], reason)
        && api.studentAssignments == old(api.studentAssignments)[i := r.value]
      ensures r.Err? ==> api.studentAssignments == old(api.studentAssignments)
      ensures api.users == old(api.users) && api.masterAssignments == old(api.masterAssignments)
      ensures api.forumPosts == old(api.forumPosts) && api.conversations == old(api.conversations)
      ensures r.Ok? ==>
        View() == old(View()).(assignments := MapReplace(old(assignments), SameRecordId(id), r.value),
                               studentAssignments := MapReplace(old(studentAssignments), SameRecordId(id), r.value))
      ensures r.Err? ==> View() == old(View())
      ensures loading == old(loading) && usersShared == old(usersShared)
    {
      r := api.ExemptStudentAssignment(id, reason);
      if r.Ok? {
        assignments := MapReplace(assignments, SameRecordId(id), r.value);
        studentAssignments := MapReplace(studentAssignments, SameRecordId(id), r.value);
      }
    }
  }
}
