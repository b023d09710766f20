# Role-based access in a learning-management app, in Dafny

This project models the authorization and visibility logic of a Next.js
learning-management application with three roles: ADMIN, TRAINER and STUDENT.
The application keeps users, courses, videos and enrollments in a Prisma
database. The model covers the following parts:

- **API routes.** The course, video and user routes: who may create what, which
  records each role sees, in what order and with which fields.
- **Server actions.** `createCourse`, `getMyCourses`, `registerUser`,
  `getAllUsers` and `deleteUser`.
- **The client route guard and `isLoading` cell.** These live in the auth provider.
- **Three client list pages.** Each has a role gate, a case-insensitive search
  and tab or section splits.

The database is an in-memory `EntityStore.Store`. It is a class holding one
sequence per table, an id counter and a clock for `createdAt`. Its methods
`InsertCourse`, `InsertVideo`, `InsertUser` and `DeleteUser` are the Prisma
`create` and `delete` calls. The handlers that create something are
module-level methods that take the store as a parameter: the course, video and
user POSTs, `createCourse` and `registerUser`. Each of them is proved against a
pure "plan" function that decides the outcome, such as `VideosRoute.PostPlan`
or `UserActions.RegisterPlan`. The plan functions' properties are stated and
proved separately. `UserActions.DeleteUser` has no plan: its contract states
directly which users remain. Listings are pure functions over a `Tables` snapshot.
`orderBy: { createdAt: "desc" }` is a verified insertion sort, `Seqs.SortDesc`.

The session is `Option<Actor(id, role)>`. Query and form values are `Option`s.
For strings, absent and `""` both count as not given, following JavaScript
truthiness. What `Number.parseFloat` and `Number.parseInt` produce is an input
`Option` (None for NaN), with `|| 0` as the default. bcrypt's `hash` is a
function parameter.

## Model

| member | source | states |
|---|---|---|
| Common.FindCourse | app/api/videos/route.ts:18-22 | a course is found only if it is stored with that id; none is found exactly when no stored course has it |
| Common.FindUserByEmail | lib/actions/user-actions.ts:19-21 | a user is found only by an exact email match; none is found exactly when no stored user has that email |
| Common.FindUser | app/api/courses/route.ts:52-58 | the instructor include and the `user.delete` lookup by id: a user is found only if stored with that id; none is found exactly when no stored user has it |
| Common.Given | lib/actions/course-actions.ts:21 | definition of JavaScript truthiness for an optional string: present and not empty; `CourseActions.CreatePlan`, `CoursesRoute.StatusOrDraft` and `VideosRoute.MatchesQuery` state its effect |
| Common.OrZero | app/api/courses/route.ts:21 | definition of the "or 0" default after `Number.parseFloat(price)`, and after `Number.parseInt(duration)` at app/api/videos/route.ts:38: the parsed number, or 0 for NaN; `CoursesRoute.PostPlan` and `VideosRoute.PostPlan` state its use |
| Common.CourseOwnedBy | app/api/videos/route.ts:28 | definition of "the video's course exists and has this instructor", the ownership test of the POST and the `course: { instructorId }` filter at app/api/videos/route.ts:93-95; `VideosRoute.PostPlan` and `VideosRoute.Rows` state its use |
| Common.CanAuthor | app/api/courses/route.ts:10-12 | definition of the ADMIN-or-TRAINER gate shared with app/api/videos/route.ts:10-12 and lib/actions/course-actions.ts:12-14; its use is stated in `CoursesRoute.PostPlan`, `VideosRoute.PostPlan` and `CourseActions.CreatePlan` |
| Seqs.FilterBy | app/admin/courses/page.tsx:74-78 | `filter` keeps exactly the elements satisfying the predicate, never more copies than the input; `Seqs.FilterCount` gives the exact number of copies |
| Seqs.FilterCount | app/admin/courses/page.tsx:74-78 | `filter` keeps every copy of a satisfying element and no copy of any other |
| Seqs.FilterIsSubsequence | app/admin/courses/page.tsx:74-78 | a filtered list is an order-preserving subsequence of its input |
| Seqs.FilterAll | app/admin/courses/page.tsx:74-78 | a predicate true of every element keeps the whole list |
| Seqs.FilterNone | app/student/courses/page.tsx:132-134 | a filter is empty exactly when no element satisfies the predicate |
| Seqs.FilterSplit | app/admin/courses/page.tsx:80-81 | two filters with exclusive predicates keep at most all elements between them, and exactly all of them when every element satisfies one |
| Seqs.InsertDesc | app/api/courses/route.ts:63 | inserting into a list sorted by descending `createdAt` keeps it sorted and adds exactly the new element |
| Seqs.SortDesc | app/api/courses/route.ts:63 | `orderBy: { createdAt: "desc" }` yields a sorted permutation of its input |
| Seqs.SortedFirst | app/api/courses/route.ts:77 | in a descending listing, an element newer than all others comes first |
| Text.StartsWith | components/auth-provider.tsx:55-59 | definition of `startsWith`: the prefix is the string's first characters; `AuthProvider.EntryPagesHaveNoArea` and `AuthProvider.DashboardArea` state its values on the guard's paths |
| Text.Lower | app/admin/courses/page.tsx:76 | `toLowerCase` keeps the length and lower-cases each character; it is a definition, and what the search promises with it is proved in `Text.EmptyQueryHits` and the pages' `Filtered` members |
| Text.Contains | app/admin/courses/page.tsx:76-77 | definition of `includes` as a scan of the haystack's suffixes; `Text.ContainsIffOccurs` proves it agrees with "occurs at some position" |
| Text.SearchHit | app/admin/courses/page.tsx:74-78 | definition of the pages' search test, the lower-cased query included in one of two lower-cased fields; its consequences are `Text.EmptyQueryHits` and the pages' `Filtered` members |
| Text.ContainsIffOccurs | app/admin/courses/page.tsx:76-77 | `includes` succeeds exactly when the needle occurs at some position of the haystack |
| Text.ContainsEmpty | app/admin/courses/page.tsx:76-77 | every string includes the empty string |
| Text.EmptyQueryHits | app/admin/courses/page.tsx:74-78 | the empty search query matches every record |
| EntityStore.Store.InsertCourse | app/api/courses/route.ts:17-25 | `course.create` appends one course with a fresh id and the current time, keeps the store valid and changes no other table |
| EntityStore.Store.InsertVideo | app/api/videos/route.ts:32-41 | `video.create` appends one video with a fresh id and the current time and changes no other table |
| EntityStore.Store.InsertUser | lib/actions/user-actions.ts:31-38 | `user.create` with an unused email appends one user and keeps ids and emails unique |
| EntityStore.Store.DeleteUser | lib/actions/user-actions.ts:76-78 | `user.delete` removes exactly the users with that id, reports whether there was one, and touches no other table |
| EntityStore.RemoveUnique | lib/actions/user-actions.ts:76-78 | removing the one user with an id keeps the table unique and shortens it by one |
| EntityStore.EnrollmentCount | app/api/courses/route.ts:59-61 | `_count.enrollments` of a course: the number of enrollments naming it, never more than the table holds |
| EntityStore.VideoCount | app/api/courses/route.ts:59-61 | `_count.videos` of a course: the number of videos naming it, never more than the table holds |
| EntityStore.LessonCount | lib/actions/course-actions.ts:97-99 | `_count.lessons` of a course: the number of lessons naming it, never more than the table holds |
| EntityStore.CoursesTaught | lib/actions/user-actions.ts:57-62 | `_count.courses` of a user: the number of courses they teach, never more than the table holds |
| EntityStore.EnrollmentsHeld | lib/actions/user-actions.ts:57-62 | `_count.enrollments` of a user: the number of their enrollments, never more than the table holds |
| CoursesRoute.StatusOrDraft | app/api/courses/route.ts:22 | a given status is kept, while an absent or empty one becomes "draft"; the result is never empty |
| CoursesRoute.PostPlan | app/api/courses/route.ts:10-25 | 401 exactly when the caller is not ADMIN or TRAINER; otherwise the body's title and description, price or 0, status or "draft", and the caller as instructor |
| CoursesRoute.Post | app/api/courses/route.ts:6-27 | on 401 nothing changes; otherwise exactly the planned course is appended and returned |
| CoursesRoute.EmptyTitleAccepted | app/api/courses/route.ts:15-25 | as written, a course with empty title and description and a negative price is accepted, which `createCourse` refuses |
| CoursesRoute.PostPlanValidated | app/api/courses/route.ts:15-25 | corrected: after the role gate, an empty title or description is a 400, and otherwise the as-written plan applies |
| CoursesRoute.ValidatedRouteMatchesAction | lib/actions/course-actions.ts:16-33 | the corrected route accepts exactly when `createCourse` does, and then inserts the same data |
| CoursesRoute.Visible | app/api/courses/route.ts:47-84 | definition of each role's `where` clause; `CoursesRoute.Rows` and `CoursesRoute.RowsCount` state what it selects |
| CoursesRoute.Rows | app/api/courses/route.ts:47-98 | sorted newest first; ADMIN sees the courses matching the status filter, TRAINER only their own, STUDENT exactly the published ones |
| CoursesRoute.RowsCount | app/api/courses/route.ts:47-98 | each course the role's `where` clause admits is listed exactly as often as it is stored, and no other course is listed |
| CoursesRoute.Shape | app/api/courses/route.ts:51-95 | ADMIN gets the stored instructor's id, name and email, and STUDENT their id and name; TRAINER gets no instructor; only STUDENT lacks the video count, and the others get the course's video count |
| CoursesRoute.Get | app/api/courses/route.ts:34-100 | 401 exactly when there is no session; otherwise each listed row shaped for the caller's role |
| CoursesRoute.StudentIgnoresStatus | app/api/courses/route.ts:79-84 | a student's listing is the same whatever status parameter is given |
| CoursesRoute.AdminSeesAll | app/api/courses/route.ts:47-50 | without a status parameter an admin gets every course, as often as it is stored |
| CoursesRoute.NewCourseListedFirst | app/api/courses/route.ts:65-78 | a trainer's newest course heads their listing |
| CourseActions.CreatePlan | lib/actions/course-actions.ts:12-33 | "Unauthorized" before "Missing required fields"; insert exactly when the caller may author and title and description are given, with price 0 and status "draft" as defaults and the caller as instructor |
| CourseActions.CreateCourse | lib/actions/course-actions.ts:8-38 | on an error nothing changes; otherwise exactly one course is added and its id returned |
| CourseActions.OwnEnrollments | lib/actions/course-actions.ts:84-104 | exactly the student's own enrollments, newest first, one per enrollment held |
| CourseActions.OwnEnrollmentsCount | lib/actions/course-actions.ts:84-104 | each of the student's enrollments is listed once per stored copy, and no other enrollment is listed |
| CourseActions.ListedCourses | lib/actions/course-actions.ts:55-81 | sorted newest first; ADMIN gets every course, TRAINER exactly the courses they teach |
| CourseActions.ListedCoursesCount | lib/actions/course-actions.ts:55-81 | each course the caller may list appears exactly as often as it is stored, and no other course appears |
| CourseActions.InstructorOf | lib/actions/course-actions.ts:58-63 | the included instructor is the stored user's id and name, without email, and absent when no user has the course's instructor id |
| CourseActions.EnrolledEntry | lib/actions/course-actions.ts:88-110 | an enrolled entry carries its enrollment's progress and id, that enrollment's course, the course's instructor id and name, and its lesson count; an enrollment naming no stored course has neither |
| CourseActions.EntriesOf | lib/actions/course-actions.ts:55-81 | one entry per course, in order, with the course's enrollment and video counts, and with the stored instructor's id and name exactly when requested |
| CourseActions.ListedEntries | lib/actions/course-actions.ts:55-81 | the entries follow the listed courses; an admin's carry each course's instructor id and name, and a trainer's carry no instructor |
| CourseActions.StudentEntries | lib/actions/course-actions.ts:84-110 | one entry per own enrollment, newest enrollment first |
| CourseActions.StudentEntriesAreOwn | lib/actions/course-actions.ts:84-110 | every student entry carries the progress and id of one of that student's own enrollments |
| CourseActions.GetMyCourses | lib/actions/course-actions.ts:45-113 | nothing without a session; otherwise the entries of the caller's role |
| UserActions.RoleOrStudent | lib/actions/user-actions.ts:12 | a supplied role, ADMIN included, is kept; none means STUDENT. This is a definition; its consequence is proved in `UsersRoute.AnyoneCanCreateAdmin` |
| UserActions.RegisterPlan | lib/actions/user-actions.ts:9-38 | "Missing required fields" before "User already exists"; insert exactly when all fields are given and the email is unused, storing the hash of the password |
| UserActions.RegisterUser | lib/actions/user-actions.ts:7-41 | on an error nothing changes; otherwise exactly one user is appended and the store stays unique |
| UserActions.SecondRegistrationConflicts | lib/actions/user-actions.ts:19-25 | after a successful registration, another with the same email fails with "User already exists" |
| UserActions.Summary | lib/actions/user-actions.ts:50-63 | a summary carries the user's public fields and their course and enrollment counts, and no password. This is a definition; `UsersRoute.GetAgreesWithGetAllUsers` relates it to the users GET |
| UserActions.Summaries | lib/actions/user-actions.ts:49-65 | the i-th summary is the i-th stored user's, so there is one summary per user and only users' summaries |
| UserActions.GetAllUsers | lib/actions/user-actions.ts:49-65 | a permutation of the users' summaries, one per stored user, sorted newest first |
| UserActions.DeleteUser | lib/actions/user-actions.ts:74-85 | success exactly when a user has that id; removes only that user, with no authorization check and no cascade |
| UsersRoute.PostPlan | app/api/users/route.ts:7-31 | 400 "User already exists" exactly when the email is taken; otherwise the hashed password and the given role or STUDENT |
| UsersRoute.Post | app/api/users/route.ts:5-40 | on 400 nothing changes; otherwise one user is appended and only id, name, email and role are returned |
| UsersRoute.AnyoneCanCreateAdmin | app/api/users/route.ts:5-30 | as written, a request with a fresh email and role ADMIN creates an administrator, with no session at all |
| UsersRoute.PostPlanCorrected | app/api/users/route.ts:5-30 | corrected: a role other than STUDENT is honoured only for an administrator's session; the name, email and hashed password are always the request's, and an administrator's request gets the as-written plan |
| UsersRoute.Get | app/api/users/route.ts:47-59 | one row per stored user with its id, name, email, role and createdAt, and no password; the row order is the store's, which is a modelling choice |
| UsersRoute.GetAgreesWithGetAllUsers | app/api/users/route.ts:49-57 | each row of the users GET matches a `getAllUsers` summary field for field |
| VideosRoute.PostPlan | app/api/videos/route.ts:10-41 | 401 for non-authors, then 404 for a missing course, then 401 for a trainer who does not teach it; otherwise the given course and the parsed duration or 0 |
| VideosRoute.GateBeforeLookup | app/api/videos/route.ts:10-22 | for an unauthorised caller the answer does not depend on the store |
| VideosRoute.Post | app/api/videos/route.ts:6-43 | on an error nothing changes; otherwise exactly the planned video is appended and returned |
| VideosRoute.MatchesQuery | app/api/videos/route.ts:67-70 | definition of the optional `courseId` and `source` filters, conjoined; `VideosRoute.Rows` states what they select |
| VideosRoute.Visible | app/api/videos/route.ts:64-127 | definition of each role's `where` clause as written; `VideosRoute.Rows`, `VideosRoute.RowsCount` and `VideosRoute.StudentCourseIdBypass` state what it selects |
| VideosRoute.VisibleCorrected | app/api/videos/route.ts:107-127 | definition of the student clause with the enrollment restriction and the filters conjoined; `VideosRoute.RowsCorrected` and `VideosRoute.StudentSeesOnlyEnrolled` state what it selects |
| VideosRoute.EnrolledCourseIds | app/api/videos/route.ts:109-118 | exactly the ids of courses the student holds an enrollment in. This is a definition; `VideosRoute.StudentSeesOnlyEnrolled` proves what it guarantees |
| VideosRoute.Rows | app/api/videos/route.ts:64-143 | sorted newest first; ADMIN sees what matches the filters, TRAINER only videos of their courses, STUDENT enrolled courses only without `courseId` but the whole named course with it |
| VideosRoute.RowsCount | app/api/videos/route.ts:64-143 | each video the as-written `where` clause admits is listed exactly as often as it is stored, and no other video is listed |
| VideosRoute.StudentCourseIdBypass | app/api/videos/route.ts:120-127 | as written, a student naming any course in `courseId` gets each of its videos |
| VideosRoute.StudentBypassWitness | app/api/videos/route.ts:120-127 | a student with no enrollments receives a video of a course they are not enrolled in |
| VideosRoute.RowsCorrected | app/api/videos/route.ts:107-127 | corrected: a student sees only videos of enrolled courses that match the filters; other roles are unchanged |
| VideosRoute.RowsCorrectedCount | app/api/videos/route.ts:107-127 | under the corrected clause, each admitted video is listed exactly as often as it is stored, and no other video is listed |
| VideosRoute.StudentSeesOnlyEnrolled | app/api/videos/route.ts:107-127 | under the corrected query every video a student receives belongs to one of their enrollments |
| VideosRoute.CorrectedAgreesWithoutCourseId | app/api/videos/route.ts:120-127 | without a `courseId` parameter the as-written and corrected queries agree |
| VideosRoute.Shape | app/api/videos/route.ts:71-141 | the video is kept; the course tag exists exactly when the course does and carries its id and title; ADMIN and STUDENT get the stored instructor's id and name; TRAINER gets no instructor, and nobody gets an email |
| VideosRoute.ShapeAll | app/api/videos/route.ts:64-143 | each row shaped in order, and every shaped video comes from the rows |
| VideosRoute.Get | app/api/videos/route.ts:50-146 | 401 exactly when there is no session; otherwise the shaped rows |
| VideosRoute.GetCorrected | app/api/videos/route.ts:107-146 | corrected: the shaped rows of the corrected query, so a student's response holds only videos of enrolled courses, and other roles get the as-written response |
| AuthProvider.Redirects | components/auth-provider.tsx:30-63 | definition of the `router.push` calls of one run of the guard; its properties are `AuthProvider.NoRedirectWhileLoading`, `AnonymousGuard`, `SignedInLeavesEntryPages`, `AreaGuard`, `AtMostOneRedirect` and `RedirectTargetIsStable` |
| AuthProvider.LoginTarget | components/auth-provider.tsx:41-51 | definition of the role `switch` on the entry pages; `AuthProvider.LoginTargetIsDashboard` proves it equals `Dashboard` |
| AuthProvider.Dashboard | components/auth-provider.tsx:56-60 | definition of `/${role.toLowerCase()}/dashboard`; `AuthProvider.DashboardPaths` spells out its three values |
| AuthProvider.AreaOf | components/auth-provider.tsx:55-60 | definition of the area tests in the order the guard makes them; `AuthProvider.EntryPagesHaveNoArea` and `DashboardArea` state its values |
| AuthProvider.LoginTargetIsDashboard | components/auth-provider.tsx:40-60 | the literal targets of the login-page switch equal `/<role in lower case>/dashboard` |
| AuthProvider.DashboardPaths | components/auth-provider.tsx:56-60 | each role's dashboard path, spelled out |
| AuthProvider.NoRedirectWhileLoading | components/auth-provider.tsx:30-31 | while the session is loading the guard issues no redirect |
| AuthProvider.AnonymousGuard | components/auth-provider.tsx:33-37 | without a session, the public routes stay and every other path goes to "/login" |
| AuthProvider.EntryPagesHaveNoArea | components/auth-provider.tsx:40-61 | "/login" and "/register" lie in no role's area |
| AuthProvider.AtMostOneRedirect | components/auth-provider.tsx:40-61 | one run of the guard pushes at most one route |
| AuthProvider.SignedInLeavesEntryPages | components/auth-provider.tsx:40-52 | a signed-in user on the login or register page goes to their own dashboard |
| AuthProvider.AreaGuard | components/auth-provider.tsx:54-61 | elsewhere, a signed-in user is redirected exactly when the path lies in another role's area, and then to their own dashboard |
| AuthProvider.DashboardArea | components/auth-provider.tsx:55-60 | a role's dashboard lies in that role's area |
| AuthProvider.RedirectTargetIsStable | components/auth-provider.tsx:38-61 | the page a signed-in user is sent to triggers no further redirect |
| AuthProvider.AuthState.constructor | components/auth-provider.tsx:18 | the provider starts with `isLoading` true |
| AuthProvider.AuthContextValue.User | components/auth-provider.tsx:9-13 | definition of the `user` a page reads from the context value built at line 90: always absent; `AuthProvider.PagesNeverShowContent` states the consequence |
| AuthProvider.AuthState.Context | components/auth-provider.tsx:90 | definition of the provider's value `{ login, logout, isLoading }` built from the current flag; `AuthProvider.PagesNeverShowContent` states that it carries no user |
| AuthProvider.AuthState.StatusChanged | components/auth-provider.tsx:23-27 | `isLoading` clears once the status leaves loading, and then stays clear |
| AuthProvider.AuthState.Login | components/auth-provider.tsx:66-84 | `login` always ends with `isLoading` false; it resolves exactly when sign-in returned no error, and otherwise rethrows that error |
| AuthProvider.PageGate | app/admin/courses/page.tsx:66-72 | loading first; content exactly when not loading and a user with the page's role string is present |
| AuthProvider.PagesNeverShowContent | components/auth-provider.tsx:9-13 | as written, no page gate ever shows content: the context has no user, and the session's role names are upper case |
| AuthProvider.PageGateCorrected | components/auth-provider.tsx:17-21 | corrected: content exactly when not loading and the provider's session has the page's role |
| AuthProvider.GuardAndGateAgree | components/auth-provider.tsx:54-61 | on a page of a role's area that the guard leaves alone, the corrected gate shows the content |
| AdminCoursesPage.Filtered | app/admin/courses/page.tsx:74-78 | a course is kept exactly when its lower-cased title or instructor includes the lower-cased query, in order |
| AdminCoursesPage.FilteredCount | app/admin/courses/page.tsx:74-78 | a matching course is kept exactly as often as it occurs, and no other course is kept |
| AdminCoursesPage.EmptyQueryKeepsAll | app/admin/courses/page.tsx:74-78 | the empty query keeps every course |
| AdminCoursesPage.TabsFor | app/admin/courses/page.tsx:80-81 | the Published and Drafts tabs are the "published" and "draft" sub-lists of the filtered list |
| AdminCoursesPage.TabsCount | app/admin/courses/page.tsx:80-81 | the Published tab keeps every copy of a published course in the filtered list and no other course; the Drafts tab likewise for "draft" |
| AdminCoursesPage.TabCounts | app/admin/courses/page.tsx:110-112 | the tabs are disjoint, and their counts add up to the All count when every status is one of the two |
| AdminCoursesPage.Render | app/admin/courses/page.tsx:66-81 | "Loading..." while loading; the tabs exactly when the gate passes |
| AdminCoursesPage.NeverRendersCourses | app/admin/courses/page.tsx:70-72 | as written the page never renders its course list |
| AdminCoursesPage.RenderCorrected | app/admin/courses/page.tsx:66-81 | corrected: an administrator's settled session sees the tabs |
| AdminVideosPage.Filtered | app/admin/videos/page.tsx:74-78 | a video is kept exactly when its lower-cased title or course includes the lower-cased query, in order |
| AdminVideosPage.FilteredCount | app/admin/videos/page.tsx:74-78 | a matching video is kept exactly as often as it occurs, and no other video is kept |
| AdminVideosPage.EmptyQueryKeepsAll | app/admin/videos/page.tsx:74-78 | the empty query keeps every video |
| AdminVideosPage.TabsFor | app/admin/videos/page.tsx:80-81 | the Vimeo and Zoom tabs are the exact-source sub-lists of the filtered list, and other sources appear in neither |
| AdminVideosPage.TabsCount | app/admin/videos/page.tsx:80-81 | the Vimeo tab keeps every copy of a "Vimeo" video in the filtered list and no other video; the Zoom tab likewise for "Zoom Recording" |
| AdminVideosPage.TabCounts | app/admin/videos/page.tsx:110-112 | the tabs are disjoint, and their counts add up to the All count when every source is one of the two |
| AdminVideosPage.Render | app/admin/videos/page.tsx:66-81 | "Loading..." while loading; the tabs exactly when the gate passes |
| AdminVideosPage.NeverRendersVideos | app/admin/videos/page.tsx:70-72 | as written the page never renders its video list |
| AdminVideosPage.RenderCorrected | app/admin/videos/page.tsx:66-81 | corrected: an administrator's settled session sees the tabs |
| StudentCoursesPage.SectionOf | app/student/courses/page.tsx:132-134 | the "none found" line exactly when the list is empty, otherwise the cards in order. This is a definition; `StudentCoursesPage.EnrolledNoneFound` states what it means for the search |
| StudentCoursesPage.FilteredEnrolled | app/student/courses/page.tsx:101-105 | an enrolled course is kept exactly when its lower-cased title or instructor includes the lower-cased query, in order |
| StudentCoursesPage.FilteredAvailable | app/student/courses/page.tsx:107-111 | an available course is kept exactly when its lower-cased title or instructor includes the lower-cased query, in order |
| StudentCoursesPage.FilteredEnrolledCount | app/student/courses/page.tsx:101-105 | a matching enrolled course is kept exactly as often as it occurs, and no other is kept |
| StudentCoursesPage.FilteredAvailableCount | app/student/courses/page.tsx:107-111 | a matching available course is kept exactly as often as it occurs, and no other is kept |
| StudentCoursesPage.Render | app/student/courses/page.tsx:93-111 | loading before the role check; both sections filtered by the same query exactly when the gate passes |
| StudentCoursesPage.EnrolledNoneFound | app/student/courses/page.tsx:132-133 | "No enrolled courses found" shows exactly when no enrolled course matches the query |
| StudentCoursesPage.EmptyQueryKeepsAll | app/student/courses/page.tsx:101-111 | the empty query keeps both lists whole |
| StudentCoursesPage.NeverRendersCourses | app/student/courses/page.tsx:97-99 | as written the page never renders its sections |
| StudentCoursesPage.RenderCorrected | app/student/courses/page.tsx:93-111 | corrected: a student's settled session sees the sections |

## Left out

- The store's clock is strictly increasing: every insert gets a `createdAt` later than all stored rows. Prisma's `@default(now())` can give two rows the same timestamp, so ties under `orderBy: { createdAt: "desc" }` are not modelled, and `CoursesRoute.NewCourseListedFirst` relies on the strict order.
- Datastore failures are not modelled: the `catch` branches returning 500, `{ error: "Failed to ..." }` or `[]`. The one exception is deleting a user id that does not exist, which is the failure `deleteUser` reports.
- Concurrency is not modelled. The check-then-insert on email races under concurrent requests; the model is sequential.
- bcrypt `hash` is an arbitrary function parameter, so nothing is assumed about it.
- `Number.parseFloat`, `Number.parseInt` and floating-point prices are not modelled. Prices are `real`, and the parse result is an input.
- `toLowerCase` covers ASCII letters only, with no Unicode case mapping.
- The framework calls are I/O and are not modelled: `NextResponse`, `router.push`, `revalidatePath`, `signIn` and `signOut`. Redirects are returned as a list of paths, and a sign-in result is an input.
- The `logout` callback only calls `signOut`, so it is not modelled.
- Ids are numbers rather than generated strings; only their equality matters here.
- Relations are looked up, not enforced. A dangling `courseId` or `instructorId` yields an absent course or instructor rather than a precondition.
- The database schema is not part of this model: an enum check on `role`, foreign keys, and cascades on user deletion are not modelled.
- A JSON body or form value that is missing or of the wrong type is not modelled, with two exceptions: the optional fields the code tests and the parsed numbers. The route bodies' strings are plain strings.
- `getMyCourses` and the list functions do not state the per-course `_count` values beyond their definition as the size of a filter of the related table.
- UsersRoute.Get: lists the users in the order the store holds them. The `findMany` call has no `orderBy`, so the database promises no order; only the set of rows and their fields are the source's promise.
- AuthProvider.AuthState.Login: the intermediate `isLoading := true` during the sign-in call is not observable in the model.

## Findings

| source | as written | input that shows it | evidently intended | confidence | as-written member | corrected member |
|---|---|---|---|---|---|---|
| app/api/videos/route.ts:120-127 | the spread `...(courseId ? { courseId } : {})` replaces the `courseId: { in: enrolled }` key, so a `courseId` parameter lifts the enrollment restriction | a student with no enrollments requests `?courseId=1`; course 1 has a video | students see only videos of courses they are enrolled in (the branch's own comment), with the parameters conjoined | not executed | VideosRoute.StudentBypassWitness | VideosRoute.RowsCorrected |
| components/auth-provider.tsx:9-13 | the context value has no `user`, and pages compare against lower-case role names while sessions carry upper-case ones | any page load with a signed-in administrator on /admin/courses | a signed-in user of the page's role sees the page | not executed | AuthProvider.PagesNeverShowContent | AuthProvider.PageGateCorrected |
| app/api/courses/route.ts:15-25 | the POST inserts whatever title and description the body holds | a trainer posts `{ title: "", description: "", price: "-5" }`; the course is created | the required-field check that `createCourse` applies to the same data | not executed | CoursesRoute.EmptyTitleAccepted | CoursesRoute.PostPlanValidated |
| app/api/users/route.ts:5-30 | the POST reads no session and stores the role the body gives | an anonymous request `{ email: "new@x", role: "ADMIN", ... }` creates an administrator | only an administrator may create users with a role other than STUDENT | not executed | UsersRoute.AnyoneCanCreateAdmin | UsersRoute.PostPlanCorrected |
