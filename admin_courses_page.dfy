/** `app/admin/courses/page.tsx`: the admin course list with its search box and
    its All / Published / Drafts tabs. The page's course array is an input. */
module AdminCoursesPage {
  import opened Common
  import opened Seqs
  import opened Text
  import opened AuthProvider

  datatype CourseRow = CourseRow(id: int, title: string, description: string, instructor: string, students: int,
                                 status: string, createdAt: string)

  /** The search filter: title or instructor contains the query, ignoring case. */
  function Filtered(rows: seq<CourseRow>, query: string): (r: seq<CourseRow>)
    ensures forall c :: c in r <==> c in rows && SearchHit(query, c.title, c.instructor)
    ensures IsSubsequence(r, rows)
  {
    var p := (c: CourseRow) => SearchHit(query, c.title, c.instructor);
    FilterIsSubsequence(rows, p);
    FilterBy(rows, p)
  }

  /** A course that matches the search is kept as often as it occurs; no other is kept. */
  lemma FilteredCount(rows: seq<CourseRow>, query: string, c: CourseRow)
    ensures multiset(Filtered(rows, query))[c] ==
              if SearchHit(query, c.title, c.instructor) then multiset(rows)[c] else 0
  {
    FilterCount(rows, (d: CourseRow) => SearchHit(query, d.title, d.instructor), c);
  }

  /** An empty query keeps every course. */
  lemma EmptyQueryKeepsAll(rows: seq<CourseRow>)
    ensures Filtered(rows, "") == rows
  {
    forall c | c in rows ensures SearchHit("", c.title, c.instructor) {
      EmptyQueryHits(c.title, c.instructor);
    }
    FilterAll(rows, (c: CourseRow) => SearchHit("", c.title, c.instructor));
  }

  /** The three tabs; each tab's count is its list's length. */
  datatype Tabs = Tabs(all: seq<CourseRow>, published: seq<CourseRow>, drafts: seq<CourseRow>)

  function TabsFor(rows: seq<CourseRow>, query: string): (t: Tabs)
    ensures t.all == Filtered(rows, query)
    ensures forall c :: c in t.published <==> c in t.all && c.status == "published"
    ensures forall c :: c in t.drafts <==> c in t.all && c.status == "draft"
    ensures IsSubsequence(t.published, t.all) && IsSubsequence(t.drafts, t.all)
  {
    var all := Filtered(rows, query);
    var isPublished := (c: CourseRow) => c.status == "published";
    var isDraft := (c: CourseRow) => c.status == "draft";
    FilterIsSubsequence(all, isPublished);
    FilterIsSubsequence(all, isDraft);
    Tabs(all, FilterBy(all, isPublished), FilterBy(all, isDraft))
  }

  /** Each tab keeps every copy of a course with its status, and no other course. */
  lemma TabsCount(rows: seq<CourseRow>, query: string, c: CourseRow)
    ensures var t := TabsFor(rows, query);
            multiset(t.published)[c] == if c.status == "published" then multiset(t.all)[c] else 0
    ensures var t := TabsFor(rows, query);
            multiset(t.drafts)[c] == if c.status == "draft" then multiset(t.all)[c] else 0
  {
    var all := Filtered(rows, query);
    FilterCount(all, (d: CourseRow) => d.status == "published", c);
    FilterCount(all, (d: CourseRow) => d.status == "draft", c);
  }

  /** No course is in both the Published and the Drafts tab, the two counts never
      exceed the All count, and they add up to it when every status is one of the two. */
  lemma TabCounts(rows: seq<CourseRow>, query: string)
    ensures var t := TabsFor(rows, query); forall c :: !(c in t.published && c in t.drafts)
    ensures var t := TabsFor(rows, query); |t.published| + |t.drafts| <= |t.all|
    ensures (forall c :: c in rows ==> c.status == "published" || c.status == "draft") ==>
              var t := TabsFor(rows, query); |t.published| + |t.drafts| == |t.all|
  {
    var all := Filtered(rows, query);
    FilterSplit(all, (c: CourseRow) => c.status == "published", (c: CourseRow) => c.status == "draft");
  }

  datatype View = Waiting | Unauthorized | Page(tabs: Tabs)

  /** The page: the gate, then the tabs. */
  function Render(ctx: AuthContextValue, rows: seq<CourseRow>, query: string): (v: View)
    ensures ctx.isLoading ==> v == Waiting
    ensures v.Page? <==> PageGate(ctx.isLoading, ctx.User(), "admin") == ShowContent
    ensures v.Page? ==> v.tabs == TabsFor(rows, query)
  {
    match PageGate(ctx.isLoading, ctx.User(), "admin")
    case ShowLoading => Waiting
    case ShowUnauthorized => Unauthorized
    case ShowContent => Page(TabsFor(rows, query))
  }

  /** As written the page only ever renders "Loading..." or "Unauthorized". */
  lemma NeverRendersCourses(ctx: AuthContextValue, rows: seq<CourseRow>, query: string)
    ensures !Render(ctx, rows, query).Page?
  {
    PagesNeverShowContent(ctx, Admin);
    LowerRoleNames();
  }

  /** The page with the corrected gate: an administrator's settled session sees the tabs. */
  function RenderCorrected(isLoading: bool, session: Session, rows: seq<CourseRow>, query: string): (v: View)
    ensures isLoading ==> v == Waiting
    ensures v.Page? <==> !isLoading && session.Some? && session.value.role == Admin
    ensures v.Page? ==> v.tabs == TabsFor(rows, query)
  {
    match PageGateCorrected(isLoading, session, Admin)
    case ShowLoading => Waiting
    case ShowUnauthorized => Unauthorized
    case ShowContent => Page(TabsFor(rows, query))
  }
}
