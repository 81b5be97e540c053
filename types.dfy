/** Record shapes of the school portal (types.ts): users, master and per-student
    assignments, forum posts, conversations and notifications. Dates are integer
    timestamps; optional TypeScript properties are `Option`s. */
module Types {

  datatype Option<+T> = None | Some(value: T)

  /** The outcome of an operation that the source lets throw. */
  datatype Result<+T, +E> = Ok(value: T) | Err(error: E)

  /** The errors the mock API throws. */
  datatype ApiError =
    | EmailExists         // "Email already exists"
    | UserNotFound        // "User not found" / "User not found for deletion"
    | AssignmentNotFound  // "Assignment not found"

  datatype Role = Student | Teacher | Admin

  datatype Status = NotStarted | InProgress | Submitted | Graded | Late | Missing

  datatype Icon = Trophy | Star | Target

  datatype Achievement = Achievement(id: string, name: string, description: string, icon: Icon)

  /** The optional, role-specific properties of a user. */
  datatype Profile = Profile(
    grade: Option<int>,
    studentId: Option<string>,
    enrollmentDate: Option<string>,
    loginStreak: Option<int>,
    achievements: Option<seq<Achievement>>,
    subject: Option<string>)

  datatype User = User(
    id: string,
    name: string,
    email: string,
    role: Role,
    avatarUrl: string,
    password: Option<string>,
    profile: Profile)

  /** A user as the admin form submits it: everything but the id. */
  datatype UserInput = UserInput(
    name: string,
    email: string,
    role: Role,
    avatarUrl: string,
    password: Option<string>,
    profile: Profile)

  datatype StudentAssignment = StudentAssignment(
    id: string,
    studentId: string,
    masterAssignmentId: string,
    title: string,
    subject: string,
    instructions: string,
    dueDate: int,
    status: Status,
    grade: Option<string>,
    feedback: Option<string>,
    submittedAt: Option<int>,
    isExempt: bool,
    exemptionReason: Option<string>)

  datatype MasterAssignment = MasterAssignment(
    id: string,
    teacherId: string,
    title: string,
    subject: string,
    instructions: string,
    dueDate: int,
    assignedStudentIds: seq<string>,
    assignedStudentCount: Option<int>)

  /** `isRead` is optional because the messages view builds messages without it. */
  datatype Message = Message(id: string, sender: string, text: string, timestamp: string, isRead: Option<bool>)

  datatype Conversation = Conversation(teacherId: string, messages: seq<Message>)

  datatype ForumReply = ForumReply(id: string, author: User, content: string, timestamp: string, upvotes: int)

  datatype ForumPost = ForumPost(
    id: string,
    title: string,
    content: string,
    author: User,
    timestamp: string,
    tags: seq<string>,
    replies: seq<ForumReply>)

  datatype NotificationType = Success | Error | Info | Warning

  datatype Notification = Notification(id: string, kind: NotificationType, message: string)
}
