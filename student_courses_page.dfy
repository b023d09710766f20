/** `app/student/courses/page.tsx`: the student's enrolled and available course
    lists under one search box. The page's two course arrays are inputs. */
module StudentCoursesPage {
  import opened Seqs
  import opened Text
  import opened AuthProvider
  import Common

  datatype EnrolledRow = EnrolledRow(id: int, title: string, description: string, instructor: string,
                                     progress: int, totalLessons: int, completedLessons: int, thumbnail: string)

  datatype AvailableRow = AvailableRow(id: int, title: string, description: string, instructor: string,
                                       price: string, rating: real, students: int, thumbnail: string)

  /** A list section: the "none found" line, or the cards in order. */
  datatype Section<T> = NoneFound | Cards(items: seq<T>)

  function SectionOf<T>(rows: seq<T>): (s: Section<T>)
    ensures s.NoneFound? <==> rows == []
    ensures s.Cards? ==> s.items == rows
  {
    if |rows| == 0 then NoneFound else Cards(rows)
  }

  function FilteredEnrolled(rows: seq<EnrolledRow>, query: string): (r: seq<EnrolledRow>)
    ensures forall c :: c in r <==> c in rows && SearchHit(query, c.title, c.instructor)
    ensures IsSubsequence(r, rows)
  {
    var p := (c: EnrolledRow) => SearchHit(query, c.title, c.instructor);
    FilterIsSubsequence(rows, p);
    FilterBy(rows, p)
  }

  function FilteredAvailable(rows: seq<AvailableRow>, query: string): (r: seq<AvailableRow>)
    ensures forall c :: c in r <==> c in rows && SearchHit(query, c.title, c.instructor)
    ensures IsSubsequence(r, rows)
  {
    var p := (c: AvailableRow) => SearchHit(query, c.title, c.instructor);
    FilterIsSubsequence(rows, p);
    FilterBy(rows, p)
  }

  /** A matching enrolled course is kept as often as it occurs; no other is kept. */
  lemma FilteredEnrolledCount(rows: seq<EnrolledRow>, query: string, c: EnrolledRow)
    ensures multiset(FilteredEnrolled(rows, query))[c] ==
              if SearchHit(query, c.title, c.instructor) then multiset(rows)[c] else 0
  {
    FilterCount(rows, (d: EnrolledRow) => SearchHit(query, d.title, d.instructor), c);
  }

  /** A matching available course is kept as often as it occurs; no other is kept. */
  lemma FilteredAvailableCount(rows: seq<AvailableRow>, query: string, c: AvailableRow)
    ensures multiset(FilteredAvailable(rows, query))[c] ==
              if SearchHit(query, c.title, c.instructor) then multiset(rows)[c] else 0
  {
    FilterCount(rows, (d: AvailableRow) => SearchHit(query, d.title, d.instructor), c);
  }

  datatype Sections = Sections(enrolled: Section<EnrolledRow>, available: Section<AvailableRow>)

  datatype View = Waiting | Unauthorized | Page(sections: Sections)

  /** The page: the gate, then the two sections filtered by the same query. */
  function Render(ctx: AuthContextValue, enrolled: seq<EnrolledRow>, available: seq<AvailableRow>, query: string): (v: View)
    ensures ctx.isLoading ==> v == Waiting
    ensures v.Page? <==> PageGate(ctx.isLoading, ctx.User(), "student") == ShowContent
    ensures v.Page? ==> v.sections == Sections(SectionOf(FilteredEnrolled(enrolled, query)),
                                               SectionOf(FilteredAvailable(available, query)))
  {
    match PageGate(ctx.isLoading, ctx.User(), "student")
    case ShowLoading => Waiting
    case ShowUnauthorized => Unauthorized
    case ShowContent =>
      Page(Sections(SectionOf(FilteredEnrolled(enrolled, query)), SectionOf(FilteredAvailable(available, query))))
  }

  /** "No enrolled courses found" is shown exactly when no enrolled course matches the query. */
  lemma {:induction false} EnrolledNoneFound(rows: seq<EnrolledRow>, query: string)
    ensures SectionOf(FilteredEnrolled(rows, query)).NoneFound? <==>
              forall c :: c in rows ==> !SearchHit(query, c.title, c.instructor)
  {
    var p := (c: EnrolledRow) => SearchHit(query, c.title, c.instructor);
    if forall c :: c in rows ==> !p(c) {
      FilterNone(rows, p);
    } else {
      var c :| c in rows && p(c);
      assert c in FilteredEnrolled(rows, query);
    }
  }

  /** An empty query lists every course in both sections. */
  lemma EmptyQueryKeepsAll(enrolled: seq<EnrolledRow>, available: seq<AvailableRow>)
    ensures FilteredEnrolled(enrolled, "") == enrolled
    ensures FilteredAvailable(available, "") == available
  {
    forall c | c in enrolled ensures SearchHit("", c.title, c.instructor) {
      EmptyQueryHits(c.title, c.instructor);
    }
    forall c | c in available ensures SearchHit("", c.title, c.instructor) {
      EmptyQueryHits(c.title, c.instructor);
    }
    FilterAll(enrolled, (c: EnrolledRow) => SearchHit("", c.title, c.instructor));
    FilterAll(available, (c: AvailableRow) => SearchHit("", c.title, c.instructor));
  }

  /** As written the page only ever renders "Loading..." or "Unauthorized". */
  lemma NeverRendersCourses(ctx: AuthContextValue, enrolled: seq<EnrolledRow>, available: seq<AvailableRow>, query: string)
    ensures !Render(ctx, enrolled, available, query).Page?
  {
    PagesNeverShowContent(ctx, Common.Student);
    LowerRoleNames();
  }

  /** The page with the corrected gate: a student's settled session sees the sections. */
  function RenderCorrected(isLoading: bool, session: Common.Session, enrolled: seq<EnrolledRow>,
                           available: seq<AvailableRow>, query: string): (v: View)
    ensures isLoading ==> v == Waiting
    ensures v.Page? <==> !isLoading && session.Some? && session.value.role == Common.Student
    ensures v.Page? ==> v.sections == Sections(SectionOf(FilteredEnrolled(enrolled, query)),
                                               SectionOf(FilteredAvailable(available, query)))
  {
    match PageGateCorrected(isLoading, session, Common.Student)
    case ShowLoading => Waiting
    case ShowUnauthorized => Unauthorized
    case ShowContent =>
      Page(Sections(SectionOf(FilteredEnrolled(enrolled, query)), SectionOf(FilteredAvailable(available, query))))
  }
}
