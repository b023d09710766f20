/** The entity store behind the Prisma client: one table per entity, an id
    generator and a clock for `createdAt`. Handlers read it through `Snapshot`
    and change it only through the inserts and the delete below. */
module EntityStore {
  import opened Common
  import Seqs

  /** No two users share an id, and no two share an email (the unique constraints). */
  ghost predicate UniqueUsers(users: seq<User>)
  {
    forall i, j :: 0 <= i < j < |users| ==> users[i].id != users[j].id && users[i].email != users[j].email
  }

  /** The `data` object handed to `prisma.course.create`. */
  datatype CourseData = CourseData(title: string, description: string, price: real, status: string, instructorId: Id)

  /** The `data` object handed to `prisma.video.create`. */
  datatype VideoData = VideoData(title: string, description: string, url: string, source: string, duration: int,
                                 courseId: Id)

  /** The `data` object handed to `prisma.user.create`; `password` is already hashed. */
  datatype UserData = UserData(name: string, email: string, password: string, role: Role)

  /** `_count: { enrollments }` of a course. */
  function EnrollmentCount(t: Tables, courseId: Id): (n: nat)
    ensures n <= |t.enrollments|
  {
    |Seqs.FilterBy(t.enrollments, (e: Enrollment) => e.courseId == courseId)|
  }

  /** `_count: { videos }` of a course. */
  function VideoCount(t: Tables, courseId: Id): (n: nat)
    ensures n <= |t.videos|
  {
    |Seqs.FilterBy(t.videos, (v: Video) => v.courseId == courseId)|
  }

  /** `_count: { lessons }` of a course. */
  function LessonCount(t: Tables, courseId: Id): (n: nat)
    ensures n <= |t.lessons|
  {
    |Seqs.FilterBy(t.lessons, (l: Lesson) => l.courseId == courseId)|
  }

  /** `_count: { courses }` of a user: the courses they teach. */
  function CoursesTaught(t: Tables, userId: Id): (n: nat)
    ensures n <= |t.courses|
  {
    |Seqs.FilterBy(t.courses, (c: Course) => c.instructorId == userId)|
  }

  /** `_count: { enrollments }` of a user. */
  function EnrollmentsHeld(t: Tables, userId: Id): (n: nat)
    ensures n <= |t.enrollments|
  {
    |Seqs.FilterBy(t.enrollments, (e: Enrollment) => e.userId == userId)|
  }

  class Store {
    var users: seq<User>
    var courses: seq<Course>
    var videos: seq<Video>
    var enrollments: seq<Enrollment>
    var lessons: seq<Lesson>
    /** The next generated id: larger than every id in use. */
    var nextId: nat
    /** `now()`: later than every `createdAt` in the store. */
    var clock: int

    ghost predicate Valid()
      reads this
    {
      && UniqueUsers(users)
      && (forall u :: u in users ==> u.id < nextId && u.createdAt < clock)
      && (forall c :: c in courses ==> c.id < nextId && c.createdAt < clock)
      && (forall v :: v in videos ==> v.id < nextId && v.createdAt < clock)
      && (forall e :: e in enrollments ==> e.id < nextId && e.createdAt < clock)
      && (forall l :: l in lessons ==> l.id < nextId)
    }

    function Snapshot(): Tables
      reads this
    {
      Tables(users, courses, videos, enrollments, lessons)
    }

    constructor ()
      ensures Valid()
      ensures Snapshot() == Tables([], [], [], [], [])
    {
      users, courses, videos, enrollments, lessons := [], [], [], [], [];
      nextId, clock := 0, 0;
    }

    /** `prisma.course.create`: appends one course with a fresh id and the current time. */
    method InsertCourse(d: CourseData) returns (c: Course)
      requires Valid()
      modifies this
      ensures Valid()
      ensures c == Course(old(nextId), d.title, d.description, d.price, d.status, d.instructorId, old(clock))
      ensures forall e :: e in old(courses) ==> e.id != c.id && e.createdAt < c.createdAt
      ensures Snapshot() == old(Snapshot()).(courses := old(courses) + [c])
    {
      c := Course(nextId, d.title, d.description, d.price, d.status, d.instructorId, clock);
      courses := courses + [c];
      nextId, clock := nextId + 1, clock + 1;
    }

    /** `prisma.video.create`: appends one video with a fresh id and the current time. */
    method InsertVideo(d: VideoData) returns (v: Video)
      requires Valid()
      modifies this
      ensures Valid()
      ensures v == Video(old(nextId), d.title, d.description, d.url, d.source, d.duration, d.courseId, old(clock))
      ensures forall w :: w in old(videos) ==> w.id != v.id && w.createdAt < v.createdAt
      ensures Snapshot() == old(Snapshot()).(videos := old(videos) + [v])
    {
      v := Video(nextId, d.title, d.description, d.url, d.source, d.duration, d.courseId, clock);
      videos := videos + [v];
      nextId, clock := nextId + 1, clock + 1;
    }

    /** `prisma.user.create`. The unique constraint on email is the caller's to meet. */
    method InsertUser(d: UserData) returns (u: User)
      requires Valid()
      requires FindUserByEmail(users, d.email).None?
      modifies this
      ensures Valid()
      ensures u == User(old(nextId), d.name, d.email, d.password, d.role, old(clock))
      ensures forall w :: w in old(users) ==> w.id != u.id && w.email != u.email
      ensures Snapshot() == old(Snapshot()).(users := old(users) + [u])
    {
      u := User(nextId, d.name, d.email, d.password, d.role, clock);
      users := users + [u];
      nextId, clock := nextId + 1, clock + 1;
    }

    /** `prisma.user.delete({ where: { id } })`: removes the user with that id and
        reports whether there was one. Nothing that refers to the user is touched. */
    method DeleteUser(id: Id) returns (found: bool)
      requires Valid()
      modifies this`users
      ensures Valid()
      ensures found <==> FindUser(old(users), id).Some?
      ensures users == Seqs.FilterBy(old(users), (u: User) => u.id != id)
      ensures found ==> |users| == |old(users)| - 1
      ensures !found ==> users == old(users)
    {
      var before := users;
      found := FindUser(before, id).Some?;
      var kept := Seqs.FilterBy(before, (u: User) => u.id != id);
      if found {
        RemoveUnique(before, id);
      } else {
        Seqs.FilterAll(before, (u: User) => u.id != id);
      }
      users := kept;
    }
  }

  /** The tail of a unique table is unique, and shares no id or email with the head. */
  lemma UniqueTail(users: seq<User>)
    requires UniqueUsers(users) && users != []
    ensures UniqueUsers(users[1..])
    ensures forall u :: u in users[1..] ==> u.id != users[0].id && u.email != users[0].email
  {
    var rest := users[1..];
    forall i, j | 0 <= i < j < |rest|
      ensures rest[i].id != rest[j].id && rest[i].email != rest[j].email
    {
      assert rest[i] == users[i + 1] && rest[j] == users[j + 1];
    }
    forall u | u in rest ensures u.id != users[0].id && u.email != users[0].email {
      var k :| 0 <= k < |rest| && rest[k] == u;
      assert users[k + 1] == u;
    }
  }

  /** A head sharing no id or email with a unique table keeps it unique. */
  lemma ConsUnique(h: User, r: seq<User>)
    requires UniqueUsers(r)
    requires forall u :: u in r ==> u.id != h.id && u.email != h.email
    ensures UniqueUsers([h] + r)
  {
    var s := [h] + r;
    forall i, j | 0 <= i < j < |s| ensures s[i].id != s[j].id && s[i].email != s[j].email {
      assert s[j] == r[j - 1];
      if i > 0 {
        assert s[i] == r[i - 1];
      } else {
        assert s[j] in r;
      }
    }
  }

  /** Removing the one user with a given id keeps the rest unique and shortens the table by one. */
  lemma {:induction false} RemoveUnique(users: seq<User>, id: Id)
    requires UniqueUsers(users)
    requires FindUser(users, id).Some?
    ensures UniqueUsers(Seqs.FilterBy(users, (u: User) => u.id != id))
    ensures |Seqs.FilterBy(users, (u: User) => u.id != id)| == |users| - 1
  {
    var rest := users[1..];
    UniqueTail(users);
    if users[0].id == id {
      Seqs.FilterAll(rest, (u: User) => u.id != id);
    } else {
      RemoveUnique(rest, id);
      var r := Seqs.FilterBy(rest, (u: User) => u.id != id);
      ConsUnique(users[0], r);
    }
  }
}
