/** `app/admin/videos/page.tsx`: the admin video list with its search box and
    its All / Vimeo / Zoom Recordings tabs. The page's video array is an input. */
module AdminVideosPage {
  import opened Seqs
  import opened Text
  import opened AuthProvider
  import Common

  datatype VideoRow = VideoRow(id: int, title: string, description: string, source: string, duration: string,
                               course: string, uploadedAt: string)

  /** The search filter: title or course name contains the query, ignoring case. */
  function Filtered(rows: seq<VideoRow>, query: string): (r: seq<VideoRow>)
    ensures forall v :: v in r <==> v in rows && SearchHit(query, v.title, v.course)
    ensures IsSubsequence(r, rows)
  {
    var p := (v: VideoRow) => SearchHit(query, v.title, v.course);
    FilterIsSubsequence(rows, p);
    FilterBy(rows, p)
  }

  /** A video that matches the search is kept as often as it occurs; no other is kept. */
  lemma FilteredCount(rows: seq<VideoRow>, query: string, v: VideoRow)
    ensures multiset(Filtered(rows, query))[v] ==
              if SearchHit(query, v.title, v.course) then multiset(rows)[v] else 0
  {
    FilterCount(rows, (w: VideoRow) => SearchHit(query, w.title, w.course), v);
  }

  /** An empty query keeps every video. */
  lemma EmptyQueryKeepsAll(rows: seq<VideoRow>)
    ensures Filtered(rows, "") == rows
  {
    forall v | v in rows ensures SearchHit("", v.title, v.course) {
      EmptyQueryHits(v.title, v.course);
    }
    FilterAll(rows, (v: VideoRow) => SearchHit("", v.title, v.course));
  }

  /** The three tabs; each tab's count is its list's length. */
  datatype Tabs = Tabs(all: seq<VideoRow>, vimeo: seq<VideoRow>, zoom: seq<VideoRow>)

  function TabsFor(rows: seq<VideoRow>, query: string): (t: Tabs)
    ensures t.all == Filtered(rows, query)
    ensures forall v :: v in t.vimeo <==> v in t.all && v.source == "Vimeo"
    ensures forall v :: v in t.zoom <==> v in t.all && v.source == "Zoom Recording"
    ensures IsSubsequence(t.vimeo, t.all) && IsSubsequence(t.zoom, t.all)
  {
    var all := Filtered(rows, query);
    var isVimeo := (v: VideoRow) => v.source == "Vimeo";
    var isZoom := (v: VideoRow) => v.source == "Zoom Recording";
    FilterIsSubsequence(all, isVimeo);
    FilterIsSubsequence(all, isZoom);
    Tabs(all, FilterBy(all, isVimeo), FilterBy(all, isZoom))
  }

  /** Each tab keeps every copy of a video with its source, and no other video. */
  lemma TabsCount(rows: seq<VideoRow>, query: string, v: VideoRow)
    ensures var t := TabsFor(rows, query);
            multiset(t.vimeo)[v] == if v.source == "Vimeo" then multiset(t.all)[v] else 0
    ensures var t := TabsFor(rows, query);
            multiset(t.zoom)[v] == if v.source == "Zoom Recording" then multiset(t.all)[v] else 0
  {
    var all := Filtered(rows, query);
    FilterCount(all, (w: VideoRow) => w.source == "Vimeo", v);
    FilterCount(all, (w: VideoRow) => w.source == "Zoom Recording", v);
  }

  /** No video is in both the Vimeo and the Zoom tab, the two counts never exceed
      the All count, and they add up to it when every source is one of the two. */
  lemma TabCounts(rows: seq<VideoRow>, query: string)
    ensures var t := TabsFor(rows, query); forall v :: !(v in t.vimeo && v in t.zoom)
    ensures var t := TabsFor(rows, query); |t.vimeo| + |t.zoom| <= |t.all|
    ensures (forall v :: v in rows ==> v.source == "Vimeo" || v.source == "Zoom Recording") ==>
              var t := TabsFor(rows, query); |t.vimeo| + |t.zoom| == |t.all|
  {
    var all := Filtered(rows, query);
    FilterSplit(all, (v: VideoRow) => v.source == "Vimeo", (v: VideoRow) => v.source == "Zoom Recording");
  }

  datatype View = Waiting | Unauthorized | Page(tabs: Tabs)

  /** The page: the gate, then the tabs. */
  function Render(ctx: AuthContextValue, rows: seq<VideoRow>, query: string): (v: View)
    ensures ctx.isLoading ==> v == Waiting
    ensures v.Page? <==> PageGate(ctx.isLoading, ctx.User(), "admin") == ShowContent
    ensures v.Page? ==> v.tabs == TabsFor(rows, query)
  {
    match PageGate(ctx.isLoading, ctx.User(), "admin")
    case ShowLoading => Waiting
    case ShowUnauthorized => Unauthorized
    case ShowContent => Page(TabsFor(rows, query))
  }

  /** As written the page only ever renders "Loading..." or "Unauthorized". */
  lemma NeverRendersVideos(ctx: AuthContextValue, rows: seq<VideoRow>, query: string)
    ensures !Render(ctx, rows, query).Page?
  {
    PagesNeverShowContent(ctx, Common.Admin);
    LowerRoleNames();
  }

  /** The page with the corrected gate: an administrator's settled session sees the tabs. */
  function RenderCorrected(isLoading: bool, session: Common.Session, rows: seq<VideoRow>, query: string): (v: View)
    ensures isLoading ==> v == Waiting
    ensures v.Page? <==> !isLoading && session.Some? && session.value.role == Common.Admin
    ensures v.Page? ==> v.tabs == TabsFor(rows, query)
  {
    match PageGateCorrected(isLoading, session, Common.Admin)
    case ShowLoading => Waiting
    case ShowUnauthorized => Unauthorized
    case ShowContent => Page(TabsFor(rows, query))
  }
}
