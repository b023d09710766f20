/** `lib/actions/course-actions.ts`: the `createCourse` and `getMyCourses` server actions. */
module CourseActions {
  import opened Common
  import opened Seqs
  import opened EntityStore

  /** The submitted form. Each field is `formData.get(...)`: absent or a string;
      `price` is what `Number.parseFloat` made of the field (None for NaN). */
  datatype CourseForm = CourseForm(title: Option<string>, description: Option<string>, price: Option<real>,
                                   status: Option<string>)

  /** What the action returns: `{ success: true, courseId }` or `{ error }`. */
  datatype CreateResult = Created(courseId: Id) | Failed(error: string)

  /** What `createCourse` does before touching the store: the role gate, the
      defaults, the required-field check, then the data to insert. */
  function CreatePlan(session: Session, form: CourseForm): (r: Plan<CourseData>)
    ensures !CanAuthor(session) ==> r == Reject("Unauthorized")
    ensures CanAuthor(session) && (!Given(form.title) || !Given(form.description)) ==>
              r == Reject("Missing required fields")
    ensures r.Insert? <==> CanAuthor(session) && Given(form.title) && Given(form.description)
    ensures r.Insert? ==> r.data == CourseData(form.title.value, form.description.value, OrZero(form.price, 0.0),
                                                if Given(form.status) then form.status.value else "draft",
                                                session.value.id)
  {
    if !CanAuthor(session) then Reject("Unauthorized")
    else
      var price := OrZero(form.price, 0.0);
      var status := if Given(form.status) then form.status.value else "draft";
      if !Given(form.title) || !Given(form.description) then Reject("Missing required fields")
      else Insert(CourseData(form.title.value, form.description.value, price, status, session.value.id))
  }

  /** The `createCourse` action: on success exactly one course is added and its id returned. */
  method CreateCourse(db: Store, session: Session, form: CourseForm) returns (r: CreateResult)
    requires db.Valid()
    modifies db
    ensures db.Valid()
    ensures CreatePlan(session, form).Reject? ==>
              r == Failed(CreatePlan(session, form).error) && db.Snapshot() == old(db.Snapshot())
    ensures CreatePlan(session, form).Insert? ==>
              var d := CreatePlan(session, form).data;
              var c := Course(old(db.nextId), d.title, d.description, d.price, d.status, d.instructorId, old(db.clock));
              && r == Created(c.id)
              && db.Snapshot() == old(db.Snapshot()).(courses := old(db.courses) + [c])
  {
    if session.None? || (session.value.role != Admin && session.value.role != Trainer) {
      return Failed("Unauthorized");
    }
    var price := if form.price.Some? then form.price.value else 0.0;
    var status := if form.status.Some? && form.status.value != "" then form.status.value else "draft";
    if form.title.None? || form.title.value == "" || form.description.None? || form.description.value == "" {
      return Failed("Missing required fields");
    }
    var course := db.InsertCourse(CourseData(form.title.value, form.description.value, price, status, session.value.id));
    r := Created(course.id);
  }

  /** An entry of `getMyCourses`: a course with its counts (admin, trainer), or a
      student's enrollment spread over its course with `progress` and `enrollmentId`.
      `enrolledIn` is None when the enrollment names no stored course. */
  datatype MyCourse =
    | Listed(course: Course, instructor: Option<Contact>, enrollmentCount: nat, videoCount: nat)
    | Enrolled(enrolledIn: Option<Course>, instructor: Option<Contact>, lessonCount: nat, progress: int, enrollmentId: Id)

  /** The student's own enrollments, newest first. */
  function OwnEnrollments(t: Tables, studentId: Id): (r: seq<Enrollment>)
    ensures SortedDesc(r, EnrollmentCreated)
    ensures forall e :: e in r <==> e in t.enrollments && e.userId == studentId
    ensures |r| == EnrollmentsHeld(t, studentId)
  {
    var own := FilterBy(t.enrollments, (e: Enrollment) => e.userId == studentId);
    var r := SortDesc(own, EnrollmentCreated);
    SameMembers(r, own);
    r
  }

  /** Each of the student's enrollments is listed once per stored copy; no other is listed. */
  lemma OwnEnrollmentsCount(t: Tables, studentId: Id, e: Enrollment)
    ensures multiset(OwnEnrollments(t, studentId))[e] == if e.userId == studentId then multiset(t.enrollments)[e] else 0
  {
    FilterCount(t.enrollments, (f: Enrollment) => f.userId == studentId, e);
  }

  /** The courses an admin (all) or a trainer (their own) gets, newest first. */
  function ListedCourses(t: Tables, a: Actor): (r: seq<Course>)
    requires a.role != Student
    ensures SortedDesc(r, CourseCreated)
    ensures multiset(r) <= multiset(t.courses)
    ensures a.role == Admin ==> multiset(r) == multiset(t.courses)
    ensures a.role == Trainer ==> forall c :: c in r <==> c in t.courses && c.instructorId == a.id
  {
    var kept := FilterBy(t.courses, (c: Course) => a.role == Admin || c.instructorId == a.id);
    assert a.role == Admin ==> kept == t.courses by {
      if a.role == Admin {
        FilterAll(t.courses, (c: Course) => a.role == Admin || c.instructorId == a.id);
      }
    }
    var r := SortDesc(kept, CourseCreated);
    SameMembers(r, kept);
    r
  }

  /** Each course the caller may list appears as often as it is stored; no other appears. */
  lemma ListedCoursesCount(t: Tables, a: Actor, c: Course)
    requires a.role != Student
    ensures multiset(ListedCourses(t, a))[c] ==
              if a.role == Admin || c.instructorId == a.id then multiset(t.courses)[c] else 0
  {
    FilterCount(t.courses, (d: Course) => a.role == Admin || d.instructorId == a.id, c);
  }

  /** `instructor: { select: { id, name } }` of a course: the stored instructor's
      id and name, or nothing when no user has the course's `instructorId`. */
  function InstructorOf(t: Tables, c: Course): (r: Option<Contact>)
    ensures FindUser(t.users, c.instructorId).None? ==> r.None?
    ensures FindUser(t.users, c.instructorId).Some? ==>
              var u := FindUser(t.users, c.instructorId).value;
              r == Some(Contact(u.id, u.name, None))
  {
    var u := FindUser(t.users, c.instructorId);
    if u.Some? then Some(Contact(c.instructorId, u.value.name, None)) else None
  }

  /** `{ ...enrollment.course, progress, enrollmentId }`. */
  function EnrolledEntry(t: Tables, e: Enrollment): (m: MyCourse)
    ensures m.Enrolled? && m.progress == e.progress && m.enrollmentId == e.id
    ensures m.enrolledIn == FindCourse(t.courses, e.courseId)
    ensures m.enrolledIn.Some? ==>
              m.instructor == InstructorOf(t, m.enrolledIn.value) && m.lessonCount == LessonCount(t, m.enrolledIn.value.id)
    ensures m.enrolledIn.None? ==> m.instructor.None? && m.lessonCount == 0
  {
    var c := FindCourse(t.courses, e.courseId);
    Enrolled(c, if c.Some? then InstructorOf(t, c.value) else None,
             if c.Some? then LessonCount(t, c.value.id) else 0, e.progress, e.id)
  }

  /** Each course with its counts; the instructor only when `withInstructor`. */
  function EntriesOf(t: Tables, rows: seq<Course>, withInstructor: bool): (r: seq<MyCourse>)
    ensures |r| == |rows|
    ensures forall i :: 0 <= i < |r| ==> r[i].Listed? && r[i].course == rows[i]
    ensures !withInstructor ==> forall i :: 0 <= i < |r| ==> r[i].instructor.None?
    ensures withInstructor ==> forall i :: 0 <= i < |r| ==> r[i].instructor == InstructorOf(t, rows[i])
    ensures forall i :: 0 <= i < |r| ==>
              r[i].enrollmentCount == EnrollmentCount(t, rows[i].id) && r[i].videoCount == VideoCount(t, rows[i].id)
  {
    seq(|rows|, i requires 0 <= i < |rows| =>
      Listed(rows[i], if withInstructor then InstructorOf(t, rows[i]) else None,
             EnrollmentCount(t, rows[i].id), VideoCount(t, rows[i].id)))
  }

  /** The admin and trainer entries: each listed course with its counts; only
      the admin's carry the instructor. */
  function ListedEntries(t: Tables, a: Actor): (r: seq<MyCourse>)
    requires a.role != Student
    ensures |r| == |ListedCourses(t, a)|
    ensures forall i :: 0 <= i < |r| ==> r[i].Listed? && r[i].course == ListedCourses(t, a)[i]
    ensures a.role == Trainer ==> forall i :: 0 <= i < |r| ==> r[i].instructor.None?
    ensures a.role == Admin ==> forall i :: 0 <= i < |r| ==> r[i].instructor == InstructorOf(t, ListedCourses(t, a)[i])
  {
    EntriesOf(t, ListedCourses(t, a), a.role == Admin)
  }

  /** The student entries: one per own enrollment, newest enrollment first. */
  function StudentEntries(t: Tables, studentId: Id): (r: seq<MyCourse>)
    ensures |r| == EnrollmentsHeld(t, studentId)
    ensures forall i :: 0 <= i < |r| ==> r[i] == EnrolledEntry(t, OwnEnrollments(t, studentId)[i])
  {
    var own := OwnEnrollments(t, studentId);
    seq(|own|, i requires 0 <= i < |own| => EnrolledEntry(t, own[i]))
  }

  /** Every student entry carries the progress and id of one of that student's
      own enrollments, and nothing of another student's. */
  lemma {:induction false} StudentEntriesAreOwn(t: Tables, studentId: Id, m: MyCourse)
    requires m in StudentEntries(t, studentId)
    ensures m.Enrolled?
    ensures exists e :: e in t.enrollments && e.userId == studentId && e.id == m.enrollmentId && e.progress == m.progress
  {
    var r := StudentEntries(t, studentId);
    var i :| 0 <= i < |r| && r[i] == m;
    var e := OwnEnrollments(t, studentId)[i];
    assert e in OwnEnrollments(t, studentId);
  }

  /** The `getMyCourses` action: nothing without a session, else the role's entries. */
  function GetMyCourses(t: Tables, session: Session): (r: seq<MyCourse>)
    ensures session.None? ==> r == []
    ensures session.Some? && session.value.role != Student ==> r == ListedEntries(t, session.value)
    ensures session.Some? && session.value.role == Student ==> r == StudentEntries(t, session.value.id)
  {
    if session.None? then []
    else if session.value.role == Student then StudentEntries(t, session.value.id)
    else ListedEntries(t, session.value)
  }
}
