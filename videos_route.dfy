/** `app/api/videos/route.ts`: adding a video to a course (POST) and the
    role-narrowed video listing (GET). */
module VideosRoute {
  import opened Common
  import opened Seqs
  import opened EntityStore

  /** The JSON body of a POST. `duration` is what `Number.parseInt` made of the
      field (None for NaN). */
  datatype VideoBody = VideoBody(title: string, description: string, url: string, source: string,
                                 duration: Option<int>, courseId: Id)

  /** What a POST does before inserting: the role gate, the course lookup, the
      ownership check, then the data to insert. */
  function PostPlan(t: Tables, session: Session, body: VideoBody): (r: Response<VideoData>)
    ensures !CanAuthor(session) ==> r == Error(401, "Unauthorized")
    ensures CanAuthor(session) && FindCourse(t.courses, body.courseId).None? ==> r == Error(404, "Course not found")
    ensures CanAuthor(session) && session.value.role == Trainer && FindCourse(t.courses, body.courseId).Some?
            && !CourseOwnedBy(t.courses, body.courseId, session.value.id) ==>
              r == Error(401, "Unauthorized to add videos to this course")
    ensures r.Ok? <==> CanAuthor(session) && FindCourse(t.courses, body.courseId).Some?
                       && (session.value.role == Admin || CourseOwnedBy(t.courses, body.courseId, session.value.id))
    ensures r.Ok? ==> r.body == VideoData(body.title, body.description, body.url, body.source,
                                          OrZero(body.duration, 0), body.courseId)
  {
    if !CanAuthor(session) then Error(401, "Unauthorized")
    else
      var course := FindCourse(t.courses, body.courseId);
      if course.None? then Error(404, "Course not found")
      else if session.value.role != Admin && course.value.instructorId != session.value.id then
        Error(401, "Unauthorized to add videos to this course")
      else Ok(VideoData(body.title, body.description, body.url, body.source, OrZero(body.duration, 0), body.courseId))
  }

  /** The role gate comes before the course lookup: an unauthorised caller learns
      nothing about which courses exist. */
  lemma GateBeforeLookup(t1: Tables, t2: Tables, session: Session, body: VideoBody)
    requires !CanAuthor(session)
    ensures PostPlan(t1, session, body) == PostPlan(t2, session, body)
  {
  }

  /** The video POST handler: on success exactly one video is appended. */
  method Post(db: Store, session: Session, body: VideoBody) returns (r: Response<Video>)
    requires db.Valid()
    modifies db
    ensures db.Valid()
    ensures PostPlan(old(db.Snapshot()), session, body).Error? ==>
              var e := PostPlan(old(db.Snapshot()), session, body);
              r == Error(e.status, e.message) && db.Snapshot() == old(db.Snapshot())
    ensures PostPlan(old(db.Snapshot()), session, body).Ok? ==>
              var d := PostPlan(old(db.Snapshot()), session, body).body;
              && r == Ok(Video(old(db.nextId), d.title, d.description, d.url, d.source, d.duration, d.courseId, old(db.clock)))
              && db.Snapshot() == old(db.Snapshot()).(videos := old(db.videos) + [r.body])
  {
    if session.None? || (session.value.role != Admin && session.value.role != Trainer) {
      return Error(401, "Unauthorized");
    }
    var course := FindCourse(db.courses, body.courseId);
    if course.None? {
      return Error(404, "Course not found");
    }
    if session.value.role != Admin && course.value.instructorId != session.value.id {
      return Error(401, "Unauthorized to add videos to this course");
    }
    var duration := if body.duration.Some? then body.duration.value else 0;
    var video := db.InsertVideo(VideoData(body.title, body.description, body.url, body.source, duration, body.courseId));
    r := Ok(video);
  }

  /** The query parameters of GET; `courseId` is None when absent or empty. */
  datatype VideoQuery = VideoQuery(courseId: Option<Id>, source: Option<string>)

  /** The optional `courseId` and `source` filters, conjoined. */
  predicate MatchesQuery(q: VideoQuery, v: Video)
  {
    (q.courseId.Some? ==> v.courseId == q.courseId.value) && (Given(q.source) ==> v.source == q.source.value)
  }

  /** The ids of the courses a student holds an enrollment in. */
  function EnrolledCourseIds(t: Tables, studentId: Id): (ids: set<Id>)
    ensures forall id :: id in ids <==> exists e :: e in t.enrollments && e.userId == studentId && e.courseId == id
  {
    set e | e in t.enrollments && e.userId == studentId :: e.courseId
  }

  /** The `where` clause of GET as written. In the student query the spread
      `...(courseId ? { courseId } : {})` replaces the key `courseId: { in: enrolled }`,
      so a `courseId` parameter lifts the enrollment restriction. */
  predicate Visible(t: Tables, a: Actor, q: VideoQuery, v: Video)
  {
    match a.role
    case Admin => MatchesQuery(q, v)
    case Trainer => MatchesQuery(q, v) && CourseOwnedBy(t.courses, v.courseId, a.id)
    case Student =>
      (if q.courseId.Some? then v.courseId == q.courseId.value else v.courseId in EnrolledCourseIds(t, a.id))
      && (Given(q.source) ==> v.source == q.source.value)
  }

  /** The `where` clause the student branch's comment describes: the enrollment
      restriction and the parameters conjoined. */
  predicate VisibleCorrected(t: Tables, a: Actor, q: VideoQuery, v: Video)
  {
    if a.role == Student then v.courseId in EnrolledCourseIds(t, a.id) && MatchesQuery(q, v)
    else Visible(t, a, q, v)
  }

  /** The rows GET returns as written, newest first. */
  function Rows(t: Tables, a: Actor, q: VideoQuery): (r: seq<Video>)
    ensures SortedDesc(r, VideoCreated)
    ensures multiset(r) <= multiset(t.videos)
    ensures a.role == Admin ==> forall v :: v in r <==> v in t.videos && MatchesQuery(q, v)
    ensures a.role == Trainer ==>
              forall v :: v in r <==> v in t.videos && MatchesQuery(q, v) && CourseOwnedBy(t.courses, v.courseId, a.id)
    ensures a.role == Student && q.courseId.None? ==>
              forall v :: v in r <==> v in t.videos && MatchesQuery(q, v) && v.courseId in EnrolledCourseIds(t, a.id)
    ensures a.role == Student && q.courseId.Some? ==>
              forall v :: v in r <==> v in t.videos && MatchesQuery(q, v)
  {
    var kept := FilterBy(t.videos, (v: Video) => Visible(t, a, q, v));
    var r := SortDesc(kept, VideoCreated);
    SameMembers(r, kept);
    r
  }

  /** Each video the `where` clause admits is listed as often as it is stored;
      no other video is listed. */
  lemma RowsCount(t: Tables, a: Actor, q: VideoQuery, v: Video)
    ensures multiset(Rows(t, a, q))[v] == if Visible(t, a, q, v) then multiset(t.videos)[v] else 0
  {
    FilterCount(t.videos, (w: Video) => Visible(t, a, q, w), v);
  }

  /** The rows with the student restriction conjoined, newest first. */
  function RowsCorrected(t: Tables, a: Actor, q: VideoQuery): (r: seq<Video>)
    ensures SortedDesc(r, VideoCreated)
    ensures multiset(r) <= multiset(t.videos)
    ensures a.role != Student ==> r == Rows(t, a, q)
    ensures a.role == Student ==>
              forall v :: v in r <==> v in t.videos && MatchesQuery(q, v) && v.courseId in EnrolledCourseIds(t, a.id)
  {
    var kept := FilterBy(t.videos, (v: Video) => VisibleCorrected(t, a, q, v));
    assert a.role != Student ==> kept == FilterBy(t.videos, (v: Video) => Visible(t, a, q, v)) by {
      if a.role != Student {
        FilterByAgree(t.videos, (v: Video) => VisibleCorrected(t, a, q, v), (v: Video) => Visible(t, a, q, v));
      }
    }
    var r := SortDesc(kept, VideoCreated);
    SameMembers(r, kept);
    r
  }

  /** Under the corrected clause, too, each admitted video is listed as often as
      it is stored and no other video is listed. */
  lemma RowsCorrectedCount(t: Tables, a: Actor, q: VideoQuery, v: Video)
    ensures multiset(RowsCorrected(t, a, q))[v] == if VisibleCorrected(t, a, q, v) then multiset(t.videos)[v] else 0
  {
    FilterCount(t.videos, (w: Video) => VisibleCorrected(t, a, q, w), v);
  }

  /** A student may name any course in `courseId` and receives every video of it,
      enrolled or not. */
  lemma StudentCourseIdBypass(t: Tables, a: Actor, v: Video)
    requires a.role == Student && v in t.videos
    ensures v in Rows(t, a, VideoQuery(Some(v.courseId), None))
  {
  }

  /** A concrete instance: a student with no enrollments at all sees a video. */
  lemma StudentBypassWitness()
    ensures var v := Video(2, "Intro", "", "", "Vimeo", 0, 1, 0);
            var t := Tables([], [Course(1, "Course", "", 0.0, "draft", 3, 0)], [v], [], []);
            var a := Actor(4, Student);
            EnrolledCourseIds(t, a.id) == {} && Rows(t, a, VideoQuery(Some(1), None)) == [v]
  {
    var v := Video(2, "Intro", "", "", "Vimeo", 0, 1, 0);
    var t := Tables([], [Course(1, "Course", "", 0.0, "draft", 3, 0)], [v], [], []);
    var a := Actor(4, Student);
    var q := VideoQuery(Some(1), None);
    assert MatchesQuery(q, v);
    var r := Rows(t, a, q);
    assert v in r;
    SingleMember(r, v);
  }

  /** The corrected query never shows a student a video of a course they are not enrolled in. */
  lemma StudentSeesOnlyEnrolled(t: Tables, a: Actor, q: VideoQuery, v: Video)
    requires a.role == Student && v in RowsCorrected(t, a, q)
    ensures exists e :: e in t.enrollments && e.userId == a.id && e.courseId == v.courseId
  {
  }

  /** Without a `courseId` parameter the query as written and the corrected one agree. */
  lemma {:induction false} CorrectedAgreesWithoutCourseId(t: Tables, a: Actor, q: VideoQuery)
    requires q.courseId.None?
    ensures RowsCorrected(t, a, q) == Rows(t, a, q)
  {
    FilterByAgree(t.videos, (v: Video) => VisibleCorrected(t, a, q, v), (v: Video) => Visible(t, a, q, v));
  }

  /** `course: { select: { id, title, instructor? } }` of one video. */
  datatype CourseTag = CourseTag(id: Id, title: string, instructor: Option<Contact>)

  datatype VideoView = VideoView(video: Video, course: Option<CourseTag>)

  /** The fields each role's query selects for one video: trainers get the course's
      id and title only, admins and students also its instructor's id and name. */
  function Shape(t: Tables, role: Role, v: Video): (w: VideoView)
    ensures w.video == v
    ensures w.course.Some? <==> FindCourse(t.courses, v.courseId).Some?
    ensures w.course.Some? ==> w.course.value.id == v.courseId
    ensures role == Trainer && w.course.Some? ==> w.course.value.instructor.None?
    ensures w.course.Some? && w.course.value.instructor.Some? ==> w.course.value.instructor.value.email.None?
    ensures FindCourse(t.courses, v.courseId).Some? ==>
              var c := FindCourse(t.courses, v.courseId).value;
              var u := FindUser(t.users, c.instructorId);
              && w.course.value.title == c.title
              && (role != Trainer && u.Some? ==> w.course.value.instructor == Some(Contact(u.value.id, u.value.name, None)))
              && (u.None? ==> w.course.value.instructor.None?)
  {
    var c := FindCourse(t.courses, v.courseId);
    if c.None? then VideoView(v, None)
    else
      var u := FindUser(t.users, c.value.instructorId);
      var instructor := if role != Trainer && u.Some? then Some(Contact(u.value.id, u.value.name, None)) else None;
      VideoView(v, Some(CourseTag(c.value.id, c.value.title, instructor)))
  }

  /** Each row shaped for the role, in order. */
  function ShapeAll(t: Tables, role: Role, rows: seq<Video>): (r: seq<VideoView>)
    ensures |r| == |rows|
    ensures forall i :: 0 <= i < |r| ==> r[i] == Shape(t, role, rows[i])
    ensures forall w :: w in r ==> w.video in rows
  {
    var r := seq(|rows|, i requires 0 <= i < |rows| => Shape(t, role, rows[i]));
    forall w | w in r ensures w.video in rows {
      var i :| 0 <= i < |r| && r[i] == w;
    }
    r
  }

  /** The video GET handler as written: 401 without a session, else the shaped rows. */
  function Get(t: Tables, session: Session, q: VideoQuery): (r: Response<seq<VideoView>>)
    ensures session.None? <==> r.Error?
    ensures r.Error? ==> r == Error(401, "Unauthorized")
    ensures r.Ok? ==> r.body == ShapeAll(t, session.value.role, Rows(t, session.value, q))
  {
    if session.None? then Error(401, "Unauthorized")
    else Ok(ShapeAll(t, session.value.role, Rows(t, session.value, q)))
  }

  /** The video GET handler with the corrected student query. */
  function GetCorrected(t: Tables, session: Session, q: VideoQuery): (r: Response<seq<VideoView>>)
    ensures session.None? <==> r.Error?
    ensures r.Error? ==> r == Error(401, "Unauthorized")
    ensures r.Ok? && session.value.role == Student ==>
              forall w :: w in r.body ==> w.video.courseId in EnrolledCourseIds(t, session.value.id)
    ensures session.Some? && session.value.role != Student ==> r == Get(t, session, q)
    ensures r.Ok? ==> r.body == ShapeAll(t, session.value.role, RowsCorrected(t, session.value, q))
  {
    if session.None? then Error(401, "Unauthorized")
    else Ok(ShapeAll(t, session.value.role, RowsCorrected(t, session.value, q)))
  }
}
