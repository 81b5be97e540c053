# Student Hub school store, modelled in Dafny

This project models the core of the Student Hub school portal. Two layers are modelled:

- The in-memory store in `services/mockApi.ts`:
  - the `db` tables;
  - the seed fan-out of master assignments into per-student records;
  - the API calls that read and change the tables.
- The client-side computations layered on the store:
  - the local data cache (`contexts/DataContext.tsx`);
  - the login session (`contexts/AuthContext.tsx`);
  - the notification queue (`contexts/NotificationContext.tsx`);
  - the list and view logic of the components: pagination, roster search, the dashboard, the teacher's assignment lists, forums, the assignment form, the grade and exempt modals, messages, user management and the profile figures.

Each source file has its own Dafny module. Three modules are shared:

- `Types` holds the record shapes of `types.ts`.
- `Lists` holds the generic JavaScript array operations used throughout: filter, `find`, `findIndex`, `slice`, `new Set` and map-replace.
- `Text` and `Paging` hold lower-casing, substring search, blank-test and the page-window arithmetic.

Each piece takes the source's own form:

- The store is a class `MockApi.Db` whose methods change its tables.
- The context providers and stateful components are classes whose handlers are methods with `modifies` clauses.
- The pure computations are functions with lemmas about them.
- The in-place reply sort of `Forums.tsx` is a method over an array.

Every API call is one atomic step.

Three things become parameters:

- Clock-derived ids and timestamps (`freshId`, `stamp`).
- The current time (`now`).
- Due dates, which are integer timestamps. The form's date field is `Option<int>`, where `None` stands for a string that does not parse as a date.

The code as written has these behaviours, and the model keeps them:

- Grading is not gated by status in the store. Only the teacher view restricts it, to `Submitted` records, and no code moves a record into `Submitted`.
- `authenticate` may return several accounts that share an email. `addUser` rejects only new collisions.
- The assignment form converts the due date before its `try` block. A date that does not parse therefore leaves the form loading and open.
- `GradeModal` rejects only the empty grade, so a whitespace-only grade is sent.
- After grading or exempting, the cache's patch rebuilds only `studentAssignments`. The store changes the record object itself, and `assignments` holds that same object, so the student-view list shows the change as well.
- An admin's fetch gives the cache the store's own user array. The store's `addUser` pushes the new user into that array, and the cache then appends it again, so the first user added after such a fetch appears twice in the cached list.
- The detail view sorts the post's stored replies in place while rendering. Upvotes and new replies are then built from that sorted order.

## Model

| member | source | states |
|---|---|---|
| MockApi.Db.constructor | services/mockApi.ts:62-100 | The store starts with the given users and masters, their fanned-out records, no forum posts and no conversations, and the record invariant holds |
| MockApi.FanOutMaster | services/mockApi.ts:69-99 | One record per assigned id that resolves to a user; ids that do not resolve are skipped; every record is the seed record for that master and student |
| MockApi.FanOut | services/mockApi.ts:68-100 | Every fanned-out record is the seed record of some master for its student: id `sa-<master>-<student>`, fields copied from the master, not submitted, not exempt, Not Started except the one graded pair |
| MockApi.FanOutOwners | services/mockApi.ts:68-100 | Every fanned-out record belongs to one of the masters |
| MockApi.FanOutOfMaster | services/mockApi.ts:68-100 | The records of master k within the whole fan-out are exactly that master's own fan-out, in order |
| MockApi.FanOutMasterDistinctStudents | services/mockApi.ts:69-99 | A master whose assigned ids are distinct yields at most one record per student |
| MockApi.SeedPairsUnique | services/mockApi.ts:68-100 | With distinct master ids and distinct assigned ids, no two seed records share both master and student |
| MockApi.FanOutValid | services/mockApi.ts:73-96 | The seeded table satisfies the record invariant: graded records carry a grade, exempt ones a reason, and every status is Not Started or Graded |
| MockApi.Db.Authenticate | services/mockApi.ts:105-109 | Exactly the users whose email and password both equal the inputs, in store order; several when accounts share credentials |
| MockApi.Db.GetData | services/mockApi.ts:111-139 | Unknown user id fails with not-found; admin gets all users; teacher gets the students, only own masters, and the records of those masters; student gets only own records and the teachers; posts and conversations always |
| MockApi.Db.AddUser | services/mockApi.ts:141-153 | An existing email fails with users unchanged; otherwise exactly one user, with the input fields, the fresh id and password `password`, is appended at the end; other tables unchanged |
| MockApi.Db.UpdateUser | services/mockApi.ts:155-161 | Absent id fails with the store unchanged; otherwise only the first user with the id changes, overlaid by the input, and the length is kept |
| MockApi.Db.DeleteUser | services/mockApi.ts:163-171 | Every user with the id is removed and the rest keep their order; it fails exactly when no user had the id, and the users are then unchanged |
| MockApi.FilterLengthDrops | services/mockApi.ts:165-167 | The length comparison `deleteUser` uses detects exactly whether a user had the id |
| MockApi.GradeRecord | services/mockApi.ts:179-181 | Grading sets the grade, the feedback and Graded and changes no other field, exemption included |
| MockApi.Db.GradeStudentAssignment | services/mockApi.ts:176-185 | Writes the graded record over the first record with the id whatever its status; all other records and tables are untouched; an absent id fails with nothing changed |
| MockApi.GradeIdempotent | services/mockApi.ts:176-185 | Grading the same record twice with the same grade and feedback leaves the table as after the first grading |
| MockApi.ExemptRecord | services/mockApi.ts:189-190 | Exempting sets the flag and the reason and changes no other field, status and grade included |
| MockApi.Db.ExemptStudentAssignment | services/mockApi.ts:186-194 | Marks the first record with the id exempt with the reason; all else is untouched; an absent id fails with nothing changed |
| MockApi.ExemptIdempotent | services/mockApi.ts:186-194 | Exempting the same record twice with the same reason leaves the table as after the first exemption |
| Pagination.GetPageNumbers | components/Pagination.tsx:10-33 | The loops build exactly the page list specified by `PageList` |
| Pagination.PushRange | components/Pagination.tsx:11-27 | Each of the two `for` loops appends exactly the pages lo..hi, in order, after what was already pushed |
| Pagination.FewPagesAllListed | components/Pagination.tsx:10-19 | With at most 5 pages the list is exactly 1..totalPages ascending |
| Pagination.ManyPagesCases | components/Pagination.tsx:20-31 | With more than 5 pages the list is one of seven shapes, determined by where the current page lies |
| Pagination.ManyPagesEnds | components/Pagination.tsx:20-31 | 4 to 7 entries; first is page 1, last is totalPages; an ellipsis follows the first entry iff cp > 3 and precedes the last iff cp < tp - 2 |
| Pagination.ManyPagesAscending | components/Pagination.tsx:20-31 | Numeric entries lie in 1..totalPages and are strictly ascending |
| Pagination.ManyPagesAdjacent | components/Pagination.tsx:20-31 | Adjacent numeric entries differ by exactly one |
| Pagination.ManyPagesEllipsisGaps | components/Pagination.tsx:23-29 | Every ellipsis stands between two numbers that are more than one apart |
| Pagination.ManyPagesWindow | components/Pagination.tsx:25-27 | The current page and every page of max(1, cp-1)..min(tp, cp+1) is listed |
| Pagination.SelectorPagesInRange | components/Pagination.tsx:16-33 | Whatever the page count, every page number offered lies in 1..totalPages |
| Pagination.NavigationStaysInRange | components/Pagination.tsx:39-70 | `PrevTarget` is enabled iff cp > 1 and `NextTarget` iff cp < tp; they target cp-1 and cp+1, both within 1..tp |
| Text.Lower | components/StudentRoster.tsx:16-17 | Lower-casing keeps the length and maps every character |
| Paging.PageCount | components/StudentRoster.tsx:20 | The page count is the ceiling of total over page size, and zero iff the total is zero |
| Paging.PageWindow | components/StudentRoster.tsx:21-24 | Page p holds at most pageSize items, item k being the item at (p-1)*pageSize + k |
| Paging.PagesCoverAll | components/StudentRoster.tsx:21-24 | Concatenating pages 1..pageCount gives back the whole list |
| StudentRoster.FilteredStudents | components/StudentRoster.tsx:14-18 | Keeps exactly the students whose lower-cased name or email contains the lower-cased term |
| StudentRoster.FilteredStudentsKeepOrder | components/StudentRoster.tsx:14-18 | The search keeps the students' original order |
| StudentRoster.EmptyTermKeepsAll | components/StudentRoster.tsx:14-18 | An empty search term keeps every student |
| StudentRoster.TotalPages | components/StudentRoster.tsx:7-20 | totalPages = ceil(matches / 10), zero iff nothing matches |
| StudentRoster.PageContents | components/StudentRoster.tsx:21-24 | The shown page is at most 10 consecutive matches starting at (page-1)*10 |
| StudentRoster.PagesCoverFiltered | components/StudentRoster.tsx:20-24 | Pages 1..totalPages together are exactly the matches |
| StudentRoster.ShownEmptyOnlyWithoutMatches | components/StudentRoster.tsx:20-24 | A page within range is empty only when nothing matches |
| StudentRoster.RosterView.constructor | components/StudentRoster.tsx:11-12 | Starts on page 1 with an empty term |
| StudentRoster.RosterView.HandlePageChange | components/StudentRoster.tsx:26-30 | A page in 1..totalPages is accepted; any other leaves the current page unchanged |
| StudentRoster.RosterView.SetSearchTerm | components/StudentRoster.tsx:43-46 | Changing the term resets the page to 1 |
| StudentRoster.RosterView.ShowsPagination | components/StudentRoster.tsx:87 | The pagination control is shown exactly when the search matches more than ten students |
| Dashboard.SortByDue | components/Dashboard.tsx:11 | The result is a permutation of the input, sorted ascending by due date |
| Dashboard.UpcomingQualify | components/Dashboard.tsx:9-12 | Every item of `Upcoming` is due after now, neither Submitted nor Graded, not exempt, and the items are sorted by due date |
| Dashboard.UpcomingLength | components/Dashboard.tsx:12 | `Upcoming` has min(3, qualifying) items |
| Dashboard.UpcomingNoneSkipped | components/Dashboard.tsx:9-12 | `Upcoming` leaves out no qualifying record while one due strictly later is shown |
| Dashboard.RecentlyGradedFirstTwo | components/Dashboard.tsx:14-16 | `RecentlyGraded` is the first at most two Graded records, in list order |
| Dashboard.ToGradeCount | components/Dashboard.tsx:131 | Counts the Submitted records, exempt ones included; zero iff none is Submitted |
| Dashboard.ExemptKeepsToGradeCount | components/Dashboard.tsx:131 | Exempting a record does not change the to-grade count |
| Dashboard.NothingToGradeInStore | components/Dashboard.tsx:131 | Over a table that satisfies the store's record invariant, the to-grade count is zero |
| TeacherAssignments.StudentsFor | components/TeacherAssignments.tsx:64 | Exactly the records whose master is the given one |
| TeacherAssignments.SeededStudentList | components/TeacherAssignments.tsx:64 | Over the seeded table, a master's student list is exactly that master's fan-out, in order |
| TeacherAssignments.TotalAssigned | components/TeacherAssignments.tsx:65 | A non-zero stored count wins; an absent or zero count gives the number of the master's records |
| TeacherAssignments.TotalStudentPages | components/TeacherAssignments.tsx:66 | ceil(total / 10) |
| TeacherAssignments.CurrentPage | components/TeacherAssignments.tsx:67 | A master with no entry, or entry 0, is on page 1; otherwise it is on its entry |
| TeacherAssignments.PageChangeIsLocal | components/TeacherAssignments.tsx:110 | Changing one master's page leaves every other master's page as it was |
| TeacherAssignments.ShownStudentsWindow | components/TeacherAssignments.tsx:70-73 | The shown slice is at most 10 consecutive records starting at (page-1)*10 |
| TeacherAssignments.LabelOf | components/TeacherAssignments.tsx:97 | The label is Exempt iff the record is exempt, otherwise its status |
| TeacherAssignments.ExemptedRecordOffersNoExemption | components/TeacherAssignments.tsx:97-100 | After exemption the record is labelled Exempt and offers no exemption |
| TeacherAssignments.GradeOfferAfterUpdates | components/TeacherAssignments.tsx:99 | Grading takes away the grade action; exempting does not change whether it is offered |
| TeacherAssignments.GradingNeverOfferedInStore | components/TeacherAssignments.tsx:99 | Over a table satisfying the store invariant no record offers grading, as no record is ever Submitted |
| TeacherAssignments.StudentName | components/TeacherAssignments.tsx:47 | The first student with the id shows by name when that name is non-empty; an unknown id or an empty name shows as `Unknown Student` |
| TeacherAssignments.TeacherAssignmentsView.HandleGradeClick | components/TeacherAssignments.tsx:37-40 | Selects the record and opens the grade modal, nothing else |
| TeacherAssignments.TeacherAssignmentsView.constructor | components/TeacherAssignments.tsx:28-34 | Nothing expanded or selected, every modal closed, no page entries |
| TeacherAssignments.TeacherAssignmentsView.HandleExemptClick | components/TeacherAssignments.tsx:42-45 | Selects the record and opens the exempt modal, nothing else |
| TeacherAssignments.TeacherAssignmentsView.ToggleExpanded | components/TeacherAssignments.tsx:77 | Collapses the expanded master or expands another one |
| TeacherAssignments.TeacherAssignmentsView.SetStudentPage | components/TeacherAssignments.tsx:110 | Sets only that master's entry in the page map |
| TeacherAssignments.TeacherAssignmentsView.SetFormOpen | components/TeacherAssignments.tsx:53 | Opens or closes the assignment form, nothing else |
| TeacherAssignments.TeacherAssignmentsView.CloseGradeModal | components/TeacherAssignments.tsx:123 | Closes the grade modal and keeps the selection |
| TeacherAssignments.TeacherAssignmentsView.CloseExemptModal | components/TeacherAssignments.tsx:124 | Closes the exempt modal and keeps the selection |
| Forums.AllTagsSpec | components/Forums.tsx:116 | `AllTags` has no duplicates, holds exactly the tags of all posts, and keeps first-occurrence order |
| Lists.DistinctFirstOccurrenceOrder | components/Forums.tsx:116 | `new Set` keeps values in the order of their first occurrence |
| Forums.FilteredPosts | components/Forums.tsx:117 | No active tag (or the empty tag) keeps all posts; otherwise exactly the posts carrying the tag |
| Forums.FilteredPostsKeepOrder | components/Forums.tsx:117 | The tag filter keeps the posts' order |
| Forums.Upvote | components/Forums.tsx:39 | Same number of replies; only upvotes change, by one, on the replies with the id |
| Forums.UpvoteTotal | components/Forums.tsx:39 | Total upvotes grow by the number of replies carrying the id |
| Forums.NewReply | components/Forums.tsx:46-52 | The new reply has the given id, author and content, and no upvotes |
| Forums.SortReplies | components/Forums.tsx:79 | Sorts the replies in place into non-increasing upvote order, as a permutation of the original |
| Forums.ForumsView.SetActiveTag | components/Forums.tsx:132-134 | Sets the active tag and keeps the selection |
| Forums.ForumsView.constructor | components/Forums.tsx:113-114 | No post selected and no tag active |
| Forums.ForumsView.SelectPost | components/Forums.tsx:155 | Selects the post and keeps the tag |
| Forums.ForumsView.Back | components/Forums.tsx:120 | Clears the selection and keeps the tag |
| Forums.ForumPostDetail.ShowReplies | components/Forums.tsx:79 | The first cached post with the id now holds its own replies, permuted into non-increasing upvote order; nothing else in the cache changes |
| Forums.ForumPostDetail.constructor | components/Forums.tsx:33 | Shows the given post id with an empty reply input |
| Forums.ForumPostDetail.SetNewReply | components/Forums.tsx:101 | Replaces the reply input |
| Forums.ForumPostDetail.HandleUpvote | components/Forums.tsx:38-42 | The cached post gets its replies, in the order the last render left them, with the reply upvoted, written optimistically; nothing else in the cache changes |
| Forums.ForumPostDetail.HandlePostReply | components/Forums.tsx:44-57 | A blank reply, or no signed-in user in the cache, changes nothing; otherwise one reply is appended after the replies in the order the last render left them, the input clears, and one success notification is queued |
| AssignmentForm.ToggleAbsentAppends | components/AssignmentFormModal.tsx:20-23 | `Toggle` of an absent id appends it at the end |
| AssignmentForm.TogglePresentRemoves | components/AssignmentFormModal.tsx:21-22 | `Toggle` of a present id removes every occurrence and keeps the others in order |
| AssignmentForm.ToggleTwiceRestores | components/AssignmentFormModal.tsx:19-25 | `Toggle` of the same absent id twice restores the list |
| AssignmentForm.ToggleKeepsNoDuplicates | components/AssignmentFormModal.tsx:19-25 | `Toggle` keeps a duplicate-free list duplicate-free |
| AssignmentForm.AssignmentFormModal.constructor | components/AssignmentFormModal.tsx:13-17 | Fields start from the master being edited, or empty |
| AssignmentForm.AssignmentFormModal.HandleStudentSelect | components/AssignmentFormModal.tsx:19-25 | The selection becomes the toggle of the old one; nothing else changes |
| AssignmentForm.AssignmentFormModal.SetTitle | components/AssignmentFormModal.tsx:64 | Typing replaces the title and leaves every other field as it was |
| AssignmentForm.AssignmentFormModal.SetInstructions | components/AssignmentFormModal.tsx:68 | Typing replaces the instructions and leaves every other field as it was |
| AssignmentForm.AssignmentFormModal.SetDueDate | components/AssignmentFormModal.tsx:72 | Picking a date replaces the due date and leaves every other field as it was |
| AssignmentForm.AssignmentFormModal.HandleSubmit | components/AssignmentFormModal.tsx:27-51 | A due date that does not parse leaves the form loading and open; otherwise create sends the draft with subject History and teacher `user-teacher-aryan` and refetches; edit sends nothing; the form closes and stops loading |
| GradeModal.NameInMessage | components/GradeModal.tsx:20-28 | The name in the success message is `undefined` when no student matches |
| GradeModal.WhitespaceGradeAccepted | components/GradeModal.tsx:24 | Every non-empty grade made only of whitespace is accepted, although it is blank after trimming |
| GradeModal.OnlyEmptyGradeRefused | components/GradeModal.tsx:24 | A grade is refused exactly when it is empty |
| GradeModal.GradeModalState.constructor | components/GradeModal.tsx:16-18 | Grade and feedback start from the record, or empty |
| GradeModal.GradeModalState.SetGrade | components/GradeModal.tsx:51 | Replaces the grade; feedback, loading and closed are unchanged |
| GradeModal.GradeModalState.SetFeedback | components/GradeModal.tsx:55 | Replaces the feedback; grade, loading and closed are unchanged |
| GradeModal.GradeModalState.HandleSubmit | components/GradeModal.tsx:22-35 | Empty grade: nothing happens; otherwise the record is graded in store and cache with the current grade and feedback, closing and notifying success, or on failure staying open with an error notification; loading ends false either way |
| ExemptModal.ReasonGuardExamples | components/ExemptModal.tsx:22 | Examples: the empty reason, spaces, and tab-newline are refused; ` x ` is accepted |
| ExemptModal.BlankReasonRefused | components/ExemptModal.tsx:22 | Every reason made only of whitespace, of any length, is refused |
| ExemptModal.AcceptsReasonIffVisible | components/ExemptModal.tsx:22 | A reason is accepted exactly when it holds a character that trimming keeps |
| ExemptModal.ExemptModalState.constructor | components/ExemptModal.tsx:15-16 | The reason starts from the record's reason, or empty |
| ExemptModal.ExemptModalState.SetReason | components/ExemptModal.tsx:48 | Replaces the reason; loading and closed are unchanged |
| ExemptModal.ExemptModalState.HandleSubmit | components/ExemptModal.tsx:20-33 | Blank reason: nothing happens; otherwise the untrimmed reason is passed and the record exempted, closing with success, or staying open with an error; loading ends false either way |
| Messages.AppendToTeacher | components/Messages.tsx:34-39 | Same number of conversations; the message is appended at the end of each conversation with the teacher; the others are unchanged |
| Messages.AppendToAbsentTeacher | components/Messages.tsx:34-39 | With no conversation for the teacher nothing is appended |
| Messages.SelectedAfterSend | components/Messages.tsx:17-39 | After sending, the selected conversation ends with the new message |
| Messages.SendAddsOnePerConversation | components/Messages.tsx:34-39 | Total messages grow by the number of conversations with the teacher |
| Messages.InitialSelection | components/Messages.tsx:13 | The first teacher's id when there are teachers and that id is non-empty; otherwise none |
| Messages.StudentMessage | components/Messages.tsx:27-32 | The new message is from `student` with the untrimmed text |
| Messages.MessagesView.SelectedConversation | components/Messages.tsx:17 | No selection gives none; otherwise exactly the first conversation with the selected teacher, none when there is none |
| Messages.MessagesView.HandleSendMessage | components/Messages.tsx:23-43 | Blank text or no teacher changes nothing; otherwise the message is appended to the teacher's conversation and the input clears |
| Messages.MessagesView.constructor | components/Messages.tsx:12-14 | Starts from the given conversations, the initial selection and an empty input |
| Messages.MessagesView.SelectTeacher | components/Messages.tsx:58 | Selects the teacher; the conversations and the input are unchanged |
| Messages.MessagesView.SetNewMessage | components/Messages.tsx:100 | Replaces the input; the conversations and the selection are unchanged |
| DataContext.FromPackage | contexts/DataContext.tsx:49-57 | A fetched package sets both assignment lists to the same records |
| DataContext.DataCache.constructor | contexts/DataContext.tsx:33-42 | Loading, with every list empty |
| DataContext.DataCache.FetchData | contexts/DataContext.tsx:44-63 | No user: nothing; otherwise the lists take the package on success, are kept on failure, and loading ends false; after a successful fetch the user list is the store's own exactly when the role is admin |
| DataContext.DataCache.UpdateForumPost | contexts/DataContext.tsx:69-77 | Every cached post with the id is replaced, before or after the store call |
| DataContext.DataCache.DeleteUser | contexts/DataContext.tsx:79-82 | The local users lose the id only after the store succeeds, filtered from the store's old list when it was shared; a failure leaves the local list as it was, or holding the store's old list when it was shared; either way the list is no longer shared |
| DataContext.DataCache.AddUser | contexts/DataContext.tsx:84-87 | The returned user is appended locally only after the store succeeds; if the list was the store's own, it holds the store's old users and then the new user twice; a failure changes nothing |
| DataContext.DataCache.UpdateUser | contexts/DataContext.tsx:89-92 | After success, the local users with the id, taken from the store's updated list when shared, are replaced by the merged record; a failure changes nothing |
| DataContext.DataCache.GradeStudentAssignment | contexts/DataContext.tsx:99-102 | The graded record replaces the records with the id in both the teacher-view and the student-view list; a failure changes nothing |
| DataContext.DataCache.ExemptStudentAssignment | contexts/DataContext.tsx:104-107 | The exempted record replaces the records with the id in both the teacher-view and the student-view list; a failure changes nothing |
| DataContext.UserPatchMirrorsStore | contexts/DataContext.tsx:89-92 | With unique ids, the local replace and the store update give the same list |
| DataContext.RecordPatchMirrorsStore | contexts/DataContext.tsx:99-107 | With unique ids, the local replace and the store update give the same records |
| AuthContext.LoginPicksMatchingAccount | contexts/AuthContext.tsx:25-35 | `PickForRole` picks an account with the email, the password and the role, and finds none only when no such account exists |
| AuthContext.Session.constructor | contexts/AuthContext.tsx:16-18 | Signed out and loading |
| AuthContext.Session.Mount | contexts/AuthContext.tsx:20-23 | Loading ends; the session is unchanged |
| AuthContext.Session.Login | contexts/AuthContext.tsx:25-35 | Succeeds iff some matching account has the role, and then signs in the first one; otherwise the state is unchanged; authenticated iff a user is set |
| AuthContext.Session.Logout | contexts/AuthContext.tsx:37-40 | Clears the user and the authenticated flag |
| UserManagement.FilteredUsers | components/UserManagement.tsx:17-20 | Filter All keeps the list; a role keeps exactly the users with it |
| UserManagement.FilteredUsersKeepOrder | components/UserManagement.tsx:19 | The role filter keeps order |
| UserManagement.RolesPartitionUsers | components/UserManagement.tsx:56-59 | The three role filters split the users with no overlap or loss |
| UserManagement.UserManagementView.HandleAddUser | components/UserManagement.tsx:22-25 | Clears the selection and opens the form |
| UserManagement.UserManagementView.HandleEditUser | components/UserManagement.tsx:27-30 | Selects the user and opens the form |
| UserManagement.UserManagementView.HandleDeleteUser | components/UserManagement.tsx:32-35 | Stages the user and opens the confirmation |
| UserManagement.UserManagementView.ConfirmDelete | components/UserManagement.tsx:37-43 | Deletes the staged user's id only when one is staged; then closes the confirmation and clears the staged user |
| UserManagement.UserManagementView.CancelDelete | components/UserManagement.tsx:105 | Closes the confirmation but keeps the staged user |
| UserManagement.UserManagementView.CloseForm | components/UserManagement.tsx:99 | Closes the user form |
| UserManagement.UserManagementView.constructor | components/UserManagement.tsx:11-15 | Both modals closed, nothing selected or staged, filter `all` |
| UserManagement.UserManagementView.SetFilter | components/UserManagement.tsx:56-59 | Sets the filter; the modals, the selection and the staged user are unchanged |
| Profile.CompletedCount | components/Profile.tsx:58 | Counts Graded or Submitted records; all iff every record completes, zero iff none does |
| Profile.ExemptionDoesNotComplete | components/Profile.tsx:58 | Exempting a record does not change the completed count |
| Profile.CompletionRate | components/Profile.tsx:59 | 0 when there are no assignments; otherwise the whole percentage within half a unit of 100 * completed / total, in 0..100 |
| Profile.RoundPercent | components/Profile.tsx:59 | Within 0..100 and within half a unit of 100*completed/total |
| Profile.RateFromBounds | components/Profile.tsx:59 | Only one integer is within half a unit of the percentage, so the rounding is the half-up one |
| Profile.CompletionRateExtremes | components/Profile.tsx:59 | All completed gives 100, none completed gives 0 |
| Profile.GradedAssignments | components/Profile.tsx:61 | Exactly the records with a non-empty grade |
| Profile.AverageGrade | components/Profile.tsx:62 | `A-` iff some record has a non-empty grade, else `N/A` |
| Profile.GradingSetsAverageLabel | components/Profile.tsx:62 | Grading any record with a non-empty grade makes the average `A-` |
| Notifications.WithoutId | contexts/NotificationContext.tsx:21 | Keeps exactly the entries with another id |
| Notifications.RemoveAbsentUnchanged | contexts/NotificationContext.tsx:20-22 | Removing an absent id leaves the queue unchanged |
| Notifications.RemoveKeepsOrder | contexts/NotificationContext.tsx:20-22 | Removal keeps the remaining entries in order |
| Notifications.AddThenRemoveRestores | contexts/NotificationContext.tsx:15-22 | Adding an entry with a fresh id and removing that id restores the queue |
| Notifications.NotificationQueue.Add | contexts/NotificationContext.tsx:15-18 | Appends exactly one entry with the type and message at the end |
| Notifications.NotificationQueue.constructor | contexts/NotificationContext.tsx:13 | The queue starts empty |
| Notifications.NotificationQueue.Remove | contexts/NotificationContext.tsx:20-22 | Drops every entry with the id, so entries sharing a timestamp id all go |

## Left out

- Latency: the `setTimeout` delays and async interleaving are not modelled. Each API call and each handler is one atomic step.
- The seed's random names and streaks, and its concrete sample-student and master tables, are not modelled. The store starts from arbitrary users and masters, and only the fan-out over them is modelled.
- Clock values are not computed: `Date.now()` and ISO-timestamp ids are parameters. Date parsing, formatting and `toLocaleDateString` are not modelled; dates are integer timestamps.
- Gaps in the API:
  - `createMasterAssignment` and `updateForumPost` are empty stubs in the store and change nothing.
  - The form's create path is modelled as the cache's refetch.
  - The form's edit path does nothing, as in the source.
- MockApi.Db.GradeStudentAssignment: the source writes fields on the record object, and the model replaces the record in the table instead. The effect on the cache's two lists, which hold the same object, is modelled in the cache's own grading method.
- MockApi.Db.ExemptStudentAssignment: modelled as a replacement in the table, for the same reason as grading.
- DataContext.DataCache.GradeStudentAssignment: the write through the shared record object is modelled as replacing every cached record with that id in both lists. This matches the source when record ids are unique in the store. With duplicate ids, only the first record's object is written.
- DataContext.DataCache.ExemptStudentAssignment: this is modelled like grading, with the same caveat about duplicate record ids.
- Sharing between the cache and the store is tracked only for the user list. The store's forum posts and conversations are handed over as shared arrays too, but the store never changes them.
- MockApi.Db.Authenticate: the ensures states membership only. Store order follows from its definition as a filter but is not stated separately.
- Forums.SortReplies: stability for equal upvotes is not proved.
- Forums.ForumPostDetail.ShowReplies: the sorted replies are written back to the first cached post with the id. While the store still shares that post object, the source reorders the store's copy as well, and the model leaves the store's posts unchanged.
- Dashboard.SortByDue: stability for equal due dates is not proved. Each record is inserted ahead of the sorted rest of the list, before the first record due no earlier than it, so records with equal dates keep their input order. The order is therefore in fact stable, as the JavaScript sort is.
- Text.Lower: lower-cases ASCII only; full Unicode case mapping is not modelled.
- Profile.RoundPercent: uses integer half-up rounding in place of `Math.round` on a floating-point quotient.
- AssignmentForm.AssignmentFormModal.HandleSubmit: the refetch after create is treated as finished before the form closes, although the source does not await it.
- UserManagement.UserManagementView.ConfirmDelete: the unawaited store delete is treated as finished before the modal closes. Its unhandled failure is modelled as leaving the cache unchanged.
- Presentation is not modelled: `getStatusClasses`, loading skeletons, JSX, animations and the Toast auto-dismiss timers.
- The generative-text service and its callers (`services/geminiService.ts`, `components/AIPlanner.tsx`, `components/StudyBuddy.tsx`) are foreign network calls and are not part of this model.
- Routing and presentation-only files are not part of this model: Login, Sidebar, Header, MainApp, App, ConfirmationModal, SkeletonLoader, AdminDashboard and StudentAssignments.
