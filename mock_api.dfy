/** The in-memory school store (services/mockApi.ts): the `db` tables, the
    seed fan-out of master assignments into per-student records, and the API
    calls over them. Latency timers are left out: every call is one atomic step. */
module MockApi {
  import opened Types
  import opened Lists

  /** The password given to every user the admin creates. */
  const DefaultPassword := "password"

  /** The one seed record created already graded. */
  const SeedGradedStudent := "user-student-aryan"
  const SeedGradedMaster := "ma-2"
  const SeedGrade := "A+"
  const SeedFeedback := "Excellent work, Aryan! Your presentation was well-researched and clearly presented. One of the best I've seen."

  // ---------------------------------------------------------------------------
  // Lookups

  function UserIdIs(id: string): User -> bool {
    (u: User) => u.id == id
  }

  function AssignmentIdIs(id: string): StudentAssignment -> bool {
    (sa: StudentAssignment) => sa.id == id
  }

  function MasterIs(maId: string): StudentAssignment -> bool {
    (sa: StudentAssignment) => sa.masterAssignmentId == maId
  }

  function UserIndex(users: seq<User>, id: string): Option<nat> {
    FirstIndex(UserIdIs(id), users)
  }

  function FindUser(users: seq<User>, id: string): Option<User> {
    Find(UserIdIs(id), users)
  }

  function AssignmentIndex(sas: seq<StudentAssignment>, id: string): Option<nat> {
    FirstIndex(AssignmentIdIs(id), sas)
  }

  /** The users left once every user with the id is filtered out. */
  function WithoutUser(users: seq<User>, id: string): seq<User> {
    Filter((u: User) => u.id != id, users)
  }

  predicate HasUser(users: seq<User>, id: string) {
    exists u :: u in users && u.id == id
  }

  // ---------------------------------------------------------------------------
  // Seed fan-out

  /** The record the seed makes for `student` from master `ma`. */
  function SeedRecord(ma: MasterAssignment, student: User): StudentAssignment {
    var graded := student.id == SeedGradedStudent && ma.id == SeedGradedMaster;
    StudentAssignment(
      id := "sa-" + ma.id + "-" + student.id,
      studentId := student.id,
      masterAssignmentId := ma.id,
      title := ma.title,
      subject := ma.subject,
      instructions := ma.instructions,
      dueDate := ma.dueDate,
      status := if graded then Graded else NotStarted,
      grade := if graded then Some(SeedGrade) else None,
      feedback := if graded then Some(SeedFeedback) else None,
      submittedAt := None,
      isExempt := false,
      exemptionReason := None)
  }

  /** What every seed record made from `ma` for the student `studentId` looks like. */
  predicate IsSeedRecord(sa: StudentAssignment, ma: MasterAssignment, studentId: string) {
    var graded := studentId == SeedGradedStudent && ma.id == SeedGradedMaster;
    && sa.id == "sa-" + ma.id + "-" + studentId
    && sa.studentId == studentId
    && sa.masterAssignmentId == ma.id
    && sa.title == ma.title && sa.subject == ma.subject
    && sa.instructions == ma.instructions && sa.dueDate == ma.dueDate
    && sa.submittedAt == None && !sa.isExempt && sa.exemptionReason == None
    && (graded ==> sa.status == Graded && sa.grade == Some(SeedGrade) && sa.feedback == Some(SeedFeedback))
    && (!graded ==> sa.status == NotStarted && sa.grade == None && sa.feedback == None)
  }

  /** The records for master `ma` over the assigned ids `ids`: one per id that
      resolves to a user, in the order of `ids`; ids that do not resolve are skipped. */
  function FanOutMaster(ma: MasterAssignment, ids: seq<string>, users: seq<User>): (r: seq<StudentAssignment>)
    ensures |r| == |Filter((id: string) => HasUser(users, id), ids)|
    ensures forall sa :: sa in r ==> sa.studentId in ids && HasUser(users, sa.studentId)
    ensures forall sa :: sa in r ==> IsSeedRecord(sa, ma, sa.studentId)
    ensures forall id :: id in ids && HasUser(users, id) ==> exists sa :: sa in r && sa.studentId == id
  {
    if ids == [] then []
    else
      var rest := FanOutMaster(ma, ids[1..], users);
      match FindUser(users, ids[0])
      case None => rest
      case Some(student) => [SeedRecord(ma, student)] + rest
  }

  /** `db.masterAssignments.flatMap(...)`: the per-student records of every master, master by master. */
  function FanOut(masters: seq<MasterAssignment>, users: seq<User>): (r: seq<StudentAssignment>)
    ensures forall sa :: sa in r ==> exists k :: 0 <= k < |masters| && IsSeedRecord(sa, masters[k], sa.studentId)
  {
    if masters == [] then []
    else
      var first := FanOutMaster(masters[0], masters[0].assignedStudentIds, users);
      var rest := FanOut(masters[1..], users);
      assert forall sa :: sa in rest ==> exists k :: 0 <= k < |masters| && IsSeedRecord(sa, masters[k], sa.studentId) by {
        forall sa | sa in rest
          ensures exists k :: 0 <= k < |masters| && IsSeedRecord(sa, masters[k], sa.studentId)
        {
          var k :| 0 <= k < |masters[1..]| && IsSeedRecord(sa, masters[1..][k], sa.studentId);
          assert masters[1..][k] == masters[k + 1];
        }
      }
      first + rest
  }

  predicate DistinctMasterIds(masters: seq<MasterAssignment>) {
    forall i, j :: 0 <= i < j < |masters| ==> masters[i].id != masters[j].id
  }

  /** Every record of `FanOut(masters, users)` belongs to one of `masters`. */
  lemma FanOutOwners(masters: seq<MasterAssignment>, users: seq<User>, sa: StudentAssignment)
    requires sa in FanOut(masters, users)
    ensures exists k :: 0 <= k < |masters| && masters[k].id == sa.masterAssignmentId
  {
  }

  /** With distinct master ids, the records of master `k` in the seeded table
      are exactly its own fan-out, in order. */
  lemma {:induction false} FanOutOfMaster(masters: seq<MasterAssignment>, users: seq<User>, k: nat)
    requires DistinctMasterIds(masters) && k < |masters|
    ensures Filter(MasterIs(masters[k].id), FanOut(masters, users)) ==
            FanOutMaster(masters[k], masters[k].assignedStudentIds, users)
  {
    var p := MasterIs(masters[k].id);
    var first := FanOutMaster(masters[0], masters[0].assignedStudentIds, users);
    var rest := FanOut(masters[1..], users);
    FilterAppend(p, first, rest);
    if k == 0 {
      FilterAll(p, first);
      forall sa | sa in rest ensures !p(sa) {
        FanOutOwners(masters[1..], users, sa);
      }
      FilterNone(p, rest);
    } else {
      FilterNone(p, first);
      assert masters[1..][k - 1] == masters[k];
      FanOutOfMaster(masters[1..], users, k - 1);
    }
  }

  predicate DistinctStudents(r: seq<StudentAssignment>) {
    forall i, j :: 0 <= i < j < |r| ==> r[i].studentId != r[j].studentId
  }

  lemma ConsDistinctStudents(x: StudentAssignment, rest: seq<StudentAssignment>)
    requires DistinctStudents(rest)
    requires forall sa :: sa in rest ==> sa.studentId != x.studentId
    ensures DistinctStudents([x] + rest)
  {
    var r := [x] + rest;
    forall i, j | 0 <= i < j < |r| ensures r[i].studentId != r[j].studentId {
      assert r[j] == rest[j - 1];
      if i > 0 {
        assert r[i] == rest[i - 1];
      }
    }
  }

  /** Distinct assigned ids give records for distinct students. */
  lemma {:induction false} FanOutMasterDistinctStudents(ma: MasterAssignment, ids: seq<string>, users: seq<User>)
    requires NoDuplicates(ids)
    ensures DistinctStudents(FanOutMaster(ma, ids, users))
  {
    if ids != [] {
      assert NoDuplicates(ids[1..]) by {
        forall i, j | 0 <= i < j < |ids[1..]| ensures ids[1..][i] != ids[1..][j] {
          assert ids[1..][i] == ids[i + 1] && ids[1..][j] == ids[j + 1];
        }
      }
      FanOutMasterDistinctStudents(ma, ids[1..], users);
      var rest := FanOutMaster(ma, ids[1..], users);
      forall sa | sa in rest ensures sa.studentId != ids[0] {
        var m :| 0 <= m < |ids[1..]| && ids[1..][m] == sa.studentId;
        assert ids[m + 1] == sa.studentId;
      }
      match FindUser(users, ids[0])
      case None =>
      case Some(student) =>
        assert student.id == ids[0];
        ConsDistinctStudents(SeedRecord(ma, student), rest);
    }
  }

  /** No two records share both master and student. */
  predicate PairsUnique(r: seq<StudentAssignment>) {
    forall i, j :: 0 <= i < j < |r| ==>
      r[i].masterAssignmentId != r[j].masterAssignmentId || r[i].studentId != r[j].studentId
  }

  lemma PairsUniqueAppend(a: seq<StudentAssignment>, b: seq<StudentAssignment>)
    requires PairsUnique(a) && PairsUnique(b)
    requires forall x, y :: x in a && y in b ==> x.masterAssignmentId != y.masterAssignmentId
    ensures PairsUnique(a + b)
  {
    var r := a + b;
    forall i, j | 0 <= i < j < |r|
      ensures r[i].masterAssignmentId != r[j].masterAssignmentId || r[i].studentId != r[j].studentId
    {
      if j < |a| {
        assert r[i] == a[i] && r[j] == a[j];
      } else if i < |a| {
        assert r[i] in a && r[j] in b;
      } else {
        assert r[i] == b[i - |a|] && r[j] == b[j - |a|];
      }
    }
  }

  /** The first master's records and the later masters' records belong to
      different masters. */
  lemma FirstMasterApart(masters: seq<MasterAssignment>, users: seq<User>)
    requires DistinctMasterIds(masters) && masters != []
    ensures var first, rest := FanOutMaster(masters[0], masters[0].assignedStudentIds, users), FanOut(masters[1..], users);
      forall x, y :: x in first && y in rest ==> x.masterAssignmentId != y.masterAssignmentId
  {
    forall x, y | x in FanOutMaster(masters[0], masters[0].assignedStudentIds, users) && y in FanOut(masters[1..], users)
      ensures x.masterAssignmentId != y.masterAssignmentId
    {
      FanOutOwners(masters[1..], users, y);
      var k :| 0 <= k < |masters[1..]| && masters[1..][k].id == y.masterAssignmentId;
      assert masters[k + 1].id == y.masterAssignmentId;
    }
  }

  /** With distinct master ids and no id assigned twice to one master, the
      seed makes at most one record per (master, student) pair. */
  lemma {:induction false} SeedPairsUnique(masters: seq<MasterAssignment>, users: seq<User>)
    requires DistinctMasterIds(masters)
    requires forall k :: 0 <= k < |masters| ==> NoDuplicates(masters[k].assignedStudentIds)
    ensures PairsUnique(FanOut(masters, users))
  {
    if masters != [] {
      var first := FanOutMaster(masters[0], masters[0].assignedStudentIds, users);
      var rest := FanOut(masters[1..], users);
      FanOutMasterDistinctStudents(masters[0], masters[0].assignedStudentIds, users);
      assert PairsUnique(first);
      assert DistinctMasterIds(masters[1..]) by {
        forall i, j | 0 <= i < j < |masters[1..]| ensures masters[1..][i].id != masters[1..][j].id {
          assert masters[1..][i] == masters[i + 1] && masters[1..][j] == masters[j + 1];
        }
      }
      assert forall k :: 0 <= k < |masters[1..]| ==> NoDuplicates(masters[1..][k].assignedStudentIds) by {
        forall k | 0 <= k < |masters[1..]| ensures NoDuplicates(masters[1..][k].assignedStudentIds) {
          assert masters[1..][k] == masters[k + 1];
        }
      }
      SeedPairsUnique(masters[1..], users);
      FirstMasterApart(masters, users);
      PairsUniqueAppend(first, rest);
    }
  }

  // ---------------------------------------------------------------------------
  // Record updates

  /** `addUser`'s new record: the submitted fields, the fresh id and the default password. */
  function NewUser(id: string, data: UserInput): User {
    User(id, data.name, data.email, data.role, data.avatarUrl, Some(DefaultPassword), data.profile)
  }

  function Overlay<T>(old_: Option<T>, new_: Option<T>): Option<T> {
    if new_.Some? then new_ else old_
  }

  /** `{ ...existing, ...data }`: the submitted fields, with optional ones the
      submission does not carry kept from the existing record. */
  function MergeUser(existing: User, data: User): User {
    var p, q := existing.profile, data.profile;
    User(data.id, data.name, data.email, data.role, data.avatarUrl,
         Overlay(existing.password, data.password),
         Profile(Overlay(p.grade, q.grade), Overlay(p.studentId, q.studentId),
                 Overlay(p.enrollmentDate, q.enrollmentDate), Overlay(p.loginStreak, q.loginStreak),
                 Overlay(p.achievements, q.achievements), Overlay(p.subject, q.subject)))
  }

  /** Grading sets the grade, the feedback and the Graded status, whatever the
      record's status was, and leaves every other field, exemption included, alone. */
  function GradeRecord(sa: StudentAssignment, grade: string, feedback: Option<string>): (r: StudentAssignment)
    ensures r.status == Graded && r.grade == Some(grade) && r.feedback == feedback
    ensures r.(status := sa.status, grade := sa.grade, feedback := sa.feedback) == sa
  {
    sa.(grade := Some(grade), feedback := feedback, status := Graded)
  }

  /** Exempting sets the flag and the reason and leaves every other field,
      status and grade included, alone. */
  function ExemptRecord(sa: StudentAssignment, reason: string): (r: StudentAssignment)
    ensures r.isExempt && r.exemptionReason == Some(reason)
    ensures r.(isExempt := sa.isExempt, exemptionReason := sa.exemptionReason) == sa
  {
    sa.(isExempt := true, exemptionReason := Some(reason))
  }

  // ---------------------------------------------------------------------------
  // Invariants of the record table

  /** Every graded record carries a grade. */
  predicate GradesRecorded(sas: seq<StudentAssignment>) {
    forall sa :: sa in sas && sa.status == Graded ==> sa.grade.Some?
  }

  /** Every exempt record carries a reason. */
  predicate ReasonsRecorded(sas: seq<StudentAssignment>) {
    forall sa :: sa in sas && sa.isExempt ==> sa.exemptionReason.Some?
  }

  /** No record is ever in progress, submitted, late or missing: nothing in
      the store moves a record into those states. */
  predicate OnlySeededStatuses(sas: seq<StudentAssignment>) {
    forall sa :: sa in sas ==> sa.status == NotStarted || sa.status == Graded
  }

  predicate TableValid(sas: seq<StudentAssignment>) {
    GradesRecorded(sas) && ReasonsRecorded(sas) && OnlySeededStatuses(sas)
  }

  /** The seeded table satisfies the record invariants. */
  lemma FanOutValid(masters: seq<MasterAssignment>, users: seq<User>)
    ensures TableValid(FanOut(masters, users))
  {
  }

  // ---------------------------------------------------------------------------
  // getData

  datatype DataPackage = DataPackage(
    user: User,
    users: seq<User>,
    students: seq<User>,
    teachers: seq<User>,
    studentAssignments: seq<StudentAssignment>,
    masterAssignments: seq<MasterAssignment>,
    forumPosts: seq<ForumPost>,
    conversations: seq<Conversation>)

  predicate OwnedBy(sa: StudentAssignment, masters: seq<MasterAssignment>) {
    exists ma :: ma in masters && ma.id == sa.masterAssignmentId
  }

  // ---------------------------------------------------------------------------
  // The store

  class Db {
    var users: seq<User>
    var masterAssignments: seq<MasterAssignment>
    var studentAssignments: seq<StudentAssignment>
    var forumPosts: seq<ForumPost>
    var conversations: seq<Conversation>

    ghost predicate Valid()
      reads this
    {
      TableValid(studentAssignments)
    }

    /** The start-up state: the given users and masters, their fanned-out
        per-student records, and no forum posts or conversations. */
    constructor (initialUsers: seq<User>, masters: seq<MasterAssignment>)
      ensures Valid()
      ensures users == initialUsers && masterAssignments == masters
      ensures studentAssignments == FanOut(masters, initialUsers)
      ensures forumPosts == [] && conversations == []
    {
      users := initialUsers;
      masterAssignments := masters;
      studentAssignments := FanOut(masters, initialUsers);
      forumPosts := [];
      conversations := [];
      FanOutValid(masters, initialUsers);
    }

    /** `authenticate`: the users whose email and password both match, in store order. */
    function Authenticate(email: string, password: string): (r: seq<User>)
      reads this
      ensures forall u :: u in r <==> u in users && u.email == email && u.password == Some(password)
    {
      Filter((u: User) => u.email == email && u.password == Some(password), users)
    }

    /** `getData`: the requesting user and the tables their role may see. */
    function GetData(userId: string, role: Role): (r: Result<DataPackage, ApiError>)
      reads this
      ensures r.Err? <==> !HasUser(users, userId)
      ensures r.Err? ==> r.error == UserNotFound
      ensures r.Ok? ==> FindUser(users, userId) == Some(r.value.user)
      ensures r.Ok? ==> r.value.forumPosts == forumPosts && r.value.conversations == conversations
      ensures r.Ok? && role == Admin ==>
        && r.value.users == users && r.value.students == [] && r.value.teachers == []
        && r.value.studentAssignments == [] && r.value.masterAssignments == []
      ensures r.Ok? && role == Teacher ==>
        && r.value.users == [] && r.value.teachers == []
        && (forall u :: u in r.value.students <==> u in users && u.role == Student)
        && (forall ma :: ma in r.value.masterAssignments <==> ma in masterAssignments && ma.teacherId == userId)
        && (forall sa :: sa in r.value.studentAssignments <==>
              sa in studentAssignments && OwnedBy(sa, r.value.masterAssignments))
      ensures r.Ok? && role == Student ==>
        && r.value.users == [] && r.value.students == [] && r.value.masterAssignments == []
        && (forall u :: u in r.value.teachers <==> u in users && u.role == Teacher)
        && (forall sa :: sa in r.value.studentAssignments <==> sa in studentAssignments && sa.studentId == userId)
    {
      match FindUser(users, userId)
      case None => Err(UserNotFound)
      case Some(user) =>
        var empty := DataPackage(user, [], [], [], [], [], forumPosts, conversations);
        match role
        case Admin => Ok(empty.(users := users))
        case Teacher =>
          var mine := Filter((ma: MasterAssignment) => ma.teacherId == userId, masterAssignments);
          Ok(empty.(
            students := Filter((u: User) => u.role == Student, users),
            masterAssignments := mine,
            studentAssignments := Filter((sa: StudentAssignment) => OwnedBy(sa, mine), studentAssignments)))
        case Student =>
          Ok(empty.(
            studentAssignments := Filter((sa: StudentAssignment) => sa.studentId == userId, studentAssignments),
            teachers := Filter((u: User) => u.role == Teacher, users)))
    }

    /** `addUser`: refuses an email any user already has; otherwise appends the new user. */
    method AddUser(data: UserInput, freshId: string) returns (r: Result<User, ApiError>)
      requires Valid()
      modifies this
      ensures Valid()
      ensures (exists u :: u in old(users) && u.email == data.email) ==>
        r == Err(EmailExists) && users == old(users)
      ensures (forall u :: u in old(users) ==> u.email != data.email) ==>
        r == Ok(NewUser(freshId, data)) && users == old(users) + [NewUser(freshId, data)]
      ensures masterAssignments == old(masterAssignments) && studentAssignments == old(studentAssignments)
      ensures forumPosts == old(forumPosts) && conversations == old(conversations)
    {
      if exists u :: u in users && u.email == data.email {
        return Err(EmailExists);
      }
      var user := NewUser(freshId, data);
      users := users + [user];
      r := Ok(user);
    }

    /** `updateUser`: overlays the submission on the first user with its id. */
    method UpdateUser(data: User) returns (r: Result<User, ApiError>)
      requires Valid()
      modifies this
      ensures Valid()
      ensures UserIndex(old(users), data.id).None? ==> r == Err(UserNotFound) && users == old(users)
      ensures UserIndex(old(users), data.id).Some? ==>
        var i := UserIndex(old(users), data.id).value;
        r == Ok(MergeUser(old(users)[i], data)) && users == old(users)[i := MergeUser(old(users)[i], data)]
      ensures masterAssignments == old(masterAssignments) && studentAssignments == old(studentAssignments)
      ensures forumPosts == old(forumPosts) && conversations == old(conversations)
    {
      match UserIndex(users, data.id)
      case None =>
        r := Err(UserNotFound);
      case Some(i) =>
        users := users[i := MergeUser(users[i], data)];
        r := Ok(users[i]);
    }

    /** `deleteUser`: drops every user with the id; fails when none had it. */
    method DeleteUser(userId: string) returns (r: Result<(), ApiError>)
      requires Valid()
      modifies this
      ensures Valid()
      ensures r.Ok? <==> HasUser(old(users), userId)
      ensures r.Err? ==> r.error == UserNotFound
      ensures users == WithoutUser(old(users), userId)
      ensures masterAssignments == old(masterAssignments) && studentAssignments == old(studentAssignments)
      ensures forumPosts == old(forumPosts) && conversations == old(conversations)
    {
      FilterLengthDrops(users, userId);
      var originalLength := |users|;
      users := WithoutUser(users, userId);
      if |users| == originalLength {
        return Err(UserNotFound);
      }
      r := Ok(());
    }

    /** `gradeStudentAssignment`: writes grade, feedback and Graded on the first
        record with the id, whatever its status. */
    method GradeStudentAssignment(id: string, grade: string, feedback: Option<string>)
      returns (r: Result<StudentAssignment, ApiError>)
      requires Valid()
      modifies this
      ensures Valid()
      ensures AssignmentIndex(old(studentAssignments), id).None? ==>
        r == Err(AssignmentNotFound) && studentAssignments == old(studentAssignments)
      ensures AssignmentIndex(old(studentAssignments), id).Some? ==>
        var i := AssignmentIndex(old(studentAssignments), id).value;
        var graded := GradeRecord(old(studentAssignments)[i], grade, feedback);
        r == Ok(graded) && studentAssignments == old(studentAssignments)[i := graded]
      ensures users == old(users) && masterAssignments == old(masterAssignments)
      ensures forumPosts == old(forumPosts) && conversations == old(conversations)
    {
      match AssignmentIndex(studentAssignments, id)
      case None =>
        r := Err(AssignmentNotFound);
      case Some(i) =>
        var graded := GradeRecord(studentAssignments[i], grade, feedback);
        studentAssignments := studentAssignments[i := graded];
        r := Ok(graded);
    }

    /** `exemptStudentAssignment`: marks the first record with the id exempt, with the reason. */
    method ExemptStudentAssignment(id: string, reason: string) returns (r: Result<StudentAssignment, ApiError>)
      requires Valid()
      modifies this
      ensures Valid()
      ensures AssignmentIndex(old(studentAssignments), id).None? ==>
        r == Err(AssignmentNotFound) && studentAssignments == old(studentAssignments)
      ensures AssignmentIndex(old(studentAssignments), id).Some? ==>
        var i := AssignmentIndex(old(studentAssignments), id).value;
        var exempted := ExemptRecord(old(studentAssignments)[i], reason);
        r == Ok(exempted) && studentAssignments == old(studentAssignments)[i := exempted]
      ensures users == old(users) && masterAssignments == old(masterAssignments)
      ensures forumPosts == old(forumPosts) && conversations == old(conversations)
    {
      match AssignmentIndex(studentAssignments, id)
      case None =>
        r := Err(AssignmentNotFound);
      case Some(i) =>
        var exempted := ExemptRecord(studentAssignments[i], reason);
        studentAssignments := studentAssignments[i := exempted];
        r := Ok(exempted);
    }
  }

  /** Exempting a record a second time with the same reason finds the same
      record and leaves the table as the first exemption left it. */
  lemma ExemptIdempotent(sas: seq<StudentAssignment>, id: string, reason: string, i: nat)
    requires AssignmentIndex(sas, id) == Some(i)
    ensures var once := sas[i := ExemptRecord(sas[i], reason)];
      AssignmentIndex(once, id) == Some(i) && once[i := ExemptRecord(once[i], reason)] == once
  {
    FirstIndexAfterUpdate(AssignmentIdIs(id), sas, i, ExemptRecord(sas[i], reason));
  }

  /** Grading a record a second time with the same grade and feedback finds
      the same record and leaves the table as the first grading left it. */
  lemma GradeIdempotent(sas: seq<StudentAssignment>, id: string, grade: string, feedback: Option<string>, i: nat)
    requires AssignmentIndex(sas, id) == Some(i)
    ensures var once := sas[i := GradeRecord(sas[i], grade, feedback)];
      AssignmentIndex(once, id) == Some(i) && once[i := GradeRecord(once[i], grade, feedback)] == once
  {
    FirstIndexAfterUpdate(AssignmentIdIs(id), sas, i, GradeRecord(sas[i], grade, feedback));
  }

  /** Filtering out an id present in the list makes it strictly shorter. */
  lemma {:induction false} FilterLengthDrops(users: seq<User>, userId: string)
    ensures HasUser(users, userId) <==> |WithoutUser(users, userId)| < |users|
  {
    if users != [] {
      FilterLengthDrops(users[1..], userId);
      assert HasUser(users, userId) <==> users[0].id == userId || HasUser(users[1..], userId) by {
        if HasUser(users, userId) {
          var u :| u in users && u.id == userId;
          if u != users[0] {
            assert u in users[1..];
          }
        }
      }
    }
  }
}
