/** `app/api/courses/route.ts`: creating a course (POST) and the role-narrowed
    course listing (GET). */
module CoursesRoute {
  import opened Common
  import opened Seqs
  import opened EntityStore
  import CourseActions

  /** The JSON body of a POST. `price` is what `Number.parseFloat` made of the
      field (None for NaN); `status` is absent, empty or a status string. */
  datatype CourseBody = CourseBody(title: string, description: string, price: Option<real>, status: Option<string>)

  /** `status || "draft"`. */
  function StatusOrDraft(status: Option<string>): (s: string)
    ensures Given(status) ==> s == status.value
    ensures !Given(status) ==> s == "draft"
    ensures s != ""
  {
    if Given(status) then status.value else "draft"
  }

  /** What a POST does before touching the store: the role gate, then the data
      to insert. Nothing in the body is validated. */
  function PostPlan(session: Session, body: CourseBody): (r: Response<CourseData>)
    ensures r.Error? <==> !CanAuthor(session)
    ensures r.Error? ==> r == Error(401, "Unauthorized")
    ensures r.Ok? ==> r.body.instructorId == session.value.id
    ensures r.Ok? ==> r.body.title == body.title && r.body.description == body.description
    ensures r.Ok? ==> r.body.price == OrZero(body.price, 0.0) && r.body.status == StatusOrDraft(body.status)
  {
    if !CanAuthor(session) then Error(401, "Unauthorized")
    else Ok(CourseData(body.title, body.description, OrZero(body.price, 0.0), StatusOrDraft(body.status), session.value.id))
  }

  /** The course POST handler: on success exactly one course is appended. */
  method Post(db: Store, session: Session, body: CourseBody) returns (r: Response<Course>)
    requires db.Valid()
    modifies db
    ensures db.Valid()
    ensures PostPlan(session, body).Error? ==>
              r == Error(401, "Unauthorized") && db.Snapshot() == old(db.Snapshot())
    ensures PostPlan(session, body).Ok? ==>
              var d := PostPlan(session, body).body;
              && r == Ok(Course(old(db.nextId), d.title, d.description, d.price, d.status, d.instructorId, old(db.clock)))
              && db.Snapshot() == old(db.Snapshot()).(courses := old(db.courses) + [r.body])
  {
    if session.None? || (session.value.role != Admin && session.value.role != Trainer) {
      return Error(401, "Unauthorized");
    }
    var price := if body.price.Some? then body.price.value else 0.0;
    var status := if body.status.Some? && body.status.value != "" then body.status.value else "draft";
    var course := db.InsertCourse(CourseData(body.title, body.description, price, status, session.value.id));
    r := Ok(course);
  }

  /** The body as the `createCourse` form would carry it. */
  function AsForm(body: CourseBody): CourseActions.CourseForm
  {
    CourseActions.CourseForm(Some(body.title), Some(body.description), body.price, body.status)
  }

  /** The route accepts a course with an empty title and description, which the
      `createCourse` action refuses as missing required fields; a negative price
      is stored as given. */
  lemma EmptyTitleAccepted()
    ensures var session := Some(Actor(1, Trainer));
            var body := CourseBody("", "", Some(-5.0), None);
            && PostPlan(session, body) == Ok(CourseData("", "", -5.0, "draft", 1))
            && CourseActions.CreatePlan(session, AsForm(body)) == Reject("Missing required fields")
  {
  }

  /** The POST with the required-field check of `createCourse`: after the role
      gate, an empty title or description is a 400. */
  function PostPlanValidated(session: Session, body: CourseBody): (r: Response<CourseData>)
    ensures !CanAuthor(session) ==> r == Error(401, "Unauthorized")
    ensures CanAuthor(session) && (body.title == "" || body.description == "") ==>
              r == Error(400, "Missing required fields")
    ensures r.Ok? <==> CanAuthor(session) && body.title != "" && body.description != ""
    ensures r.Ok? ==> r == PostPlan(session, body)
  {
    if !CanAuthor(session) then Error(401, "Unauthorized")
    else if body.title == "" || body.description == "" then Error(400, "Missing required fields")
    else PostPlan(session, body)
  }

  /** The validated route and the action decide alike: one accepts exactly when
      the other does, and then both insert the same course. */
  lemma {:induction false} ValidatedRouteMatchesAction(session: Session, body: CourseBody)
    ensures PostPlanValidated(session, body).Ok? <==> CourseActions.CreatePlan(session, AsForm(body)).Insert?
    ensures PostPlanValidated(session, body).Ok? ==>
              PostPlanValidated(session, body).body == CourseActions.CreatePlan(session, AsForm(body)).data
  {
    var f := AsForm(body);
    assert Given(f.title) <==> body.title != "";
    assert Given(f.description) <==> body.description != "";
  }

  /** The `where` clause of GET, role by role. */
  predicate Visible(a: Actor, status: Option<string>, c: Course)
  {
    match a.role
    case Admin => Given(status) ==> c.status == status.value
    case Trainer => c.instructorId == a.id && (Given(status) ==> c.status == status.value)
    case Student => c.status == "published"
  }

  /** The rows GET returns, newest first. */
  function Rows(t: Tables, a: Actor, status: Option<string>): (r: seq<Course>)
    ensures SortedDesc(r, CourseCreated)
    ensures multiset(r) <= multiset(t.courses)
    ensures a.role == Admin ==>
              forall c :: c in r <==> c in t.courses && (Given(status) ==> c.status == status.value)
    ensures a.role == Trainer ==>
              forall c :: c in r <==> c in t.courses && c.instructorId == a.id && (Given(status) ==> c.status == status.value)
    ensures a.role == Student ==>
              forall c :: c in r <==> c in t.courses && c.status == "published"
  {
    var kept := FilterBy(t.courses, (c: Course) => Visible(a, status, c));
    var r := SortDesc(kept, CourseCreated);
    SameMembers(r, kept);
    r
  }

  /** Each course the `where` clause admits is listed as often as it is stored;
      no other course is listed. */
  lemma RowsCount(t: Tables, a: Actor, status: Option<string>, c: Course)
    ensures multiset(Rows(t, a, status))[c] == if Visible(a, status, c) then multiset(t.courses)[c] else 0
  {
    FilterCount(t.courses, (d: Course) => Visible(a, status, d), c);
  }

  /** One course of the GET response with its included relations and `_count`s. */
  datatype CourseView = CourseView(course: Course, instructor: Option<Contact>, enrollmentCount: nat,
                                   videoCount: Option<nat>)

  /** The fields each role's query selects for one course. */
  function Shape(t: Tables, role: Role, c: Course): (v: CourseView)
    ensures v.course == c
    ensures v.enrollmentCount == EnrollmentCount(t, c.id)
    ensures v.instructor.Some? ==> role != Trainer && v.instructor.value.id == c.instructorId
    ensures v.instructor.Some? && v.instructor.value.email.Some? ==> role == Admin
    ensures v.videoCount.Some? <==> role != Student
    ensures role != Student ==> v.videoCount == Some(VideoCount(t, c.id))
    ensures FindUser(t.users, c.instructorId).None? ==> v.instructor.None?
    ensures role != Trainer && FindUser(t.users, c.instructorId).Some? ==>
              var u := FindUser(t.users, c.instructorId).value;
              v.instructor == Some(Contact(u.id, u.name, if role == Admin then Some(u.email) else None))
  {
    var instructor := FindUser(t.users, c.instructorId);
    match role
    case Admin =>
      CourseView(c, if instructor.Some? then Some(Contact(c.instructorId, instructor.value.name, Some(instructor.value.email))) else None,
                 EnrollmentCount(t, c.id), Some(VideoCount(t, c.id)))
    case Trainer =>
      CourseView(c, None, EnrollmentCount(t, c.id), Some(VideoCount(t, c.id)))
    case Student =>
      CourseView(c, if instructor.Some? then Some(Contact(c.instructorId, instructor.value.name, None)) else None,
                 EnrollmentCount(t, c.id), None)
  }

  /** The course GET handler: 401 without a session, else the shaped rows. */
  function Get(t: Tables, session: Session, status: Option<string>): (r: Response<seq<CourseView>>)
    ensures session.None? <==> r.Error?
    ensures r.Error? ==> r == Error(401, "Unauthorized")
    ensures r.Ok? ==> |r.body| == |Rows(t, session.value, status)|
    ensures r.Ok? ==> forall i :: 0 <= i < |r.body| ==> r.body[i] == Shape(t, session.value.role, Rows(t, session.value, status)[i])
  {
    if session.None? then Error(401, "Unauthorized")
    else
      var rows := Rows(t, session.value, status);
      Ok(seq(|rows|, i requires 0 <= i < |rows| => Shape(t, session.value.role, rows[i])))
  }

  /** A student's listing does not depend on the `status` parameter. */
  lemma StudentIgnoresStatus(t: Tables, a: Actor, s1: Option<string>, s2: Option<string>)
    requires a.role == Student
    ensures Get(t, Some(a), s1) == Get(t, Some(a), s2)
  {
    FilterByAgree(t.courses, (c: Course) => Visible(a, s1, c), (c: Course) => Visible(a, s2, c));
  }

  /** Without a status parameter an admin gets every course, each as often as it is stored. */
  lemma AdminSeesAll(t: Tables, a: Actor)
    requires a.role == Admin
    ensures multiset(Rows(t, a, None)) == multiset(t.courses)
  {
    FilterAll(t.courses, (c: Course) => Visible(a, None, c));
  }

  /** A course created after every stored one comes first in its trainer's listing. */
  lemma {:induction false} NewCourseListedFirst(t: Tables, a: Actor, c: Course)
    requires a.role == Trainer && c.instructorId == a.id
    requires forall d :: d in t.courses ==> d.createdAt < c.createdAt
    ensures var r := Rows(t.(courses := t.courses + [c]), a, None); |r| > 0 && r[0] == c
  {
    var t' := t.(courses := t.courses + [c]);
    var r := Rows(t', a, None);
    assert c in t'.courses;
    assert forall d :: d in r && d != c ==> d in t.courses by {
      forall d | d in r && d != c ensures d in t.courses {
        assert d in t.courses + [c];
      }
    }
    SortedFirst(r, CourseCreated, c);
  }
}
