/** Entities, sessions and responses shared by the route handlers, the server
    actions and the client components of the learning-management application. */
module Common {

  datatype Option<T> = None | Some(value: T)

  /** Record identifiers. The application uses generated string ids; only their
      equality matters to the authorization logic, so they are numbers here. */
  type Id = nat

  /** The closed set of roles a session or a user record can carry. */
  datatype Role = Admin | Trainer | Student

  /** The role as the session and the database spell it. */
  function RoleName(r: Role): string
  {
    match r
    case Admin => "ADMIN"
    case Trainer => "TRAINER"
    case Student => "STUDENT"
  }

  /** The signed-in caller, as the session gives it: an id and a role. */
  datatype Actor = Actor(id: Id, role: Role)

  /** `getServerSession`: no session, or a session for one actor. */
  type Session = Option<Actor>

  /** The role gate shared by every create operation: a session whose role is
      ADMIN or TRAINER. */
  predicate CanAuthor(session: Session)
  {
    session.Some? && session.value.role != Student
  }

  datatype User = User(id: Id, name: string, email: string, password: string, role: Role, createdAt: int)

  datatype Course = Course(id: Id, title: string, description: string, price: real, status: string,
                           instructorId: Id, createdAt: int)

  datatype Video = Video(id: Id, title: string, description: string, url: string, source: string,
                         duration: int, courseId: Id, createdAt: int)

  datatype Enrollment = Enrollment(id: Id, userId: Id, courseId: Id, progress: int, createdAt: int)

  /** A user as an `include: { instructor: { select } }` gives it; `email` only where selected. */
  datatype Contact = Contact(id: Id, name: string, email: Option<string>)

  /** Only a lesson's course matters here: lessons are counted per course. */
  datatype Lesson = Lesson(id: Id, courseId: Id)

  /** The `createdAt` sort keys of `orderBy: { createdAt: "desc" }`. */
  function UserCreated(u: User): int { u.createdAt }
  function CourseCreated(c: Course): int { c.createdAt }
  function VideoCreated(v: Video): int { v.createdAt }
  function EnrollmentCreated(e: Enrollment): int { e.createdAt }

  /** A snapshot of the entity store. */
  datatype Tables = Tables(users: seq<User>, courses: seq<Course>, videos: seq<Video>,
                           enrollments: seq<Enrollment>, lessons: seq<Lesson>)

  /** An HTTP response of a route handler: a JSON body, or an error status with a message. */
  datatype Response<T> = Ok(body: T) | Error(status: int, message: string)

  /** What a server action decides before touching the store: an error to
      return, or the data of the one record to insert. */
  datatype Plan<D> = Reject(error: string) | Insert(data: D)

  /** JavaScript truthiness of an optional query or form string: absent and "" are both false. */
  predicate Given(s: Option<string>)
  {
    s.Some? && s.value != ""
  }

  /** `Number.parseX(raw) || 0`: the parsed number, or 0 when parsing gave NaN (None). */
  function OrZero<N>(parsed: Option<N>, zero: N): N
  {
    match parsed
    case Some(n) => n
    case None => zero
  }

  /** `findUnique({ where: { id } })` on the course table. */
  function FindCourse(courses: seq<Course>, id: Id): (r: Option<Course>)
    ensures r.Some? ==> r.value in courses && r.value.id == id
    ensures r.None? <==> forall c :: c in courses ==> c.id != id
  {
    if courses == [] then None
    else if courses[0].id == id then Some(courses[0])
    else FindCourse(courses[1..], id)
  }

  /** `findUnique({ where: { id } })` on the user table. */
  function FindUser(users: seq<User>, id: Id): (r: Option<User>)
    ensures r.Some? ==> r.value in users && r.value.id == id
    ensures r.None? <==> forall u :: u in users ==> u.id != id
  {
    if users == [] then None
    else if users[0].id == id then Some(users[0])
    else FindUser(users[1..], id)
  }

  /** `findUnique({ where: { email } })`: exact, case-sensitive match. */
  function FindUserByEmail(users: seq<User>, email: string): (r: Option<User>)
    ensures r.Some? ==> r.value in users && r.value.email == email
    ensures r.None? <==> forall u :: u in users ==> u.email != email
  {
    if users == [] then None
    else if users[0].email == email then Some(users[0])
    else FindUserByEmail(users[1..], email)
  }

  /** The course with the given id exists and is taught by `instructor`
      (the relation filter `course: { instructorId }`). */
  predicate CourseOwnedBy(courses: seq<Course>, courseId: Id, instructor: Id)
  {
    var c := FindCourse(courses, courseId);
    c.Some? && c.value.instructorId == instructor
  }
}
