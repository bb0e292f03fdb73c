/**
 * The mini-program's recommendor detail page: the record shown with its
 * stars and dates cut to the day, and the owner's destinations read
 * page by page below it.
 */
module WxRecommendorDetail {
  import opened Wrappers
  import opened Text
  import opened Stars
  import opened Pager
  import opened Pagination
  import opened Store
  import opened Models
  import Http
  import Params
  import Queries
  import Destinations
  import ListQueries

  /** The JSON text of the record's three timestamps. */
  datatype Times = Times(validFrom: string, validUntil: string, createdAt: string)

  /** The record as the page shows it. */
  datatype Shown = Shown(row: Row<Recommendor>, stars: seq<Star>, validFrom: string, validUntil: string, createdAt: string)

  /** A timestamp cut at its `T`, or "-" when nothing comes before it. */
  function DateText(stamp: string): (r: string)
    ensures r != "" && 'T' !in r
    ensures r == "-" || HasPrefix(stamp, r)
  {
    var day := SplitFirst(stamp, 'T');
    if day == "" then "-" else day
  }

  /** An RFC 3339 timestamp `dayTtime` shows as its day. */
  lemma {:induction false} DateTextOfTimestamp(day: string, time: string)
    requires day != "" && 'T' !in day
    ensures DateText(day + "T" + time) == day
  {
    SplitFirstConcat(day, time, 'T');
  }

  lemma {:induction false} SplitFirstConcat(a: string, b: string, c: char)
    requires c !in a
    ensures SplitFirst(a + [c] + b, c) == a
    decreases |a|
  {
    if a != [] {
      assert (a + [c] + b)[1..] == a[1..] + [c] + b;
      SplitFirstConcat(a[1..], b, c);
    }
  }

  /** Showing a date twice changes nothing. */
  lemma DateTextIdempotent(stamp: string)
    ensures DateText(DateText(stamp)) == DateText(stamp)
  {
    var r := DateText(stamp);
    assert SplitFirst(r, 'T') == r by {
      NoSplitChar(r, 'T');
    }
  }

  lemma {:induction false} NoSplitChar(s: string, c: char)
    requires c !in s
    ensures SplitFirst(s, c) == s
    decreases |s|
  {
    if s != [] {
      assert s[0] != c;
      assert c !in s[1..];
      NoSplitChar(s[1..], c);
    }
  }

  /** The loaded record with the detail page's star array and the three dates. */
  function ShowDetail(x: Row<Recommendor>, t: Times): (s: Shown)
    ensures s.row == x && s.stars == StarsOf(x.value.rating)
    ensures s.validFrom == DateText(t.validFrom) && s.validUntil == DateText(t.validUntil) && s.createdAt == DateText(t.createdAt)
  {
    Shown(x, StarsOf(x.value.rating), DateText(t.validFrom), DateText(t.validUntil), DateText(t.createdAt))
  }

  /**
   * `loadRecommendorDetail`: a reply replaces the record shown; a failure
   * keeps it and sends the user back.
   */
  function LoadRecommendorDetail(current: Option<Shown>, reply: Option<(Row<Recommendor>, Times)>): (r: (Option<Shown>, bool))
    ensures r.1 <==> reply.None?
    ensures reply.None? ==> r.0 == current
    ensures reply.Some? ==> r.0 == Some(ShowDetail(reply.value.0, reply.value.1))
  {
    match reply
    case None => (current, true)
    case Some((x, t)) => (Some(ShowDetail(x, t)), false)
  }

  /** The record's fields are shown as loaded, and its stars agree with the list page's. */
  lemma DetailMatchesList(current: Option<Shown>, x: Row<Recommendor>, t: Times)
    ensures var s := LoadRecommendorDetail(current, Some((x, t))).0.value;
            s.row == x && forall i :: 0 <= i < StarCount ==> s.stars[i] == StarStatus(i + 1, x.value.rating)
  {
    PagesAgree(x.value.rating);
  }

  const DestinationPageSize: nat := 10

  datatype ListedDestination = ListedDestination(row: Row<Destination>, stars: seq<Star>)

  function Decorate(d: Row<Destination>): (l: ListedDestination)
    ensures l.row == d && l.stars == StarsOf(d.value.rating)
  {
    ListedDestination(d, StarsOf(d.value.rating))
  }

  /** `loadDestinations`: page 1 of ten, replacing the list. */
  function LoadDestinations(s: State<ListedDestination>, reply: Option<seq<Row<Destination>>>)
    : (r: (State<ListedDestination>, Option<Params.Params>))
    ensures s.loading ==> r == (s, None)
    ensures !s.loading ==> r.1 == Some(ListQueries.PageParams(1, DestinationPageSize))
    ensures !s.loading && reply.Some? ==>
              r.0.items == MapAll(Decorate, reply.value) && r.0.page == 1
              && (r.0.hasMore <==> |reply.value| >= DestinationPageSize)
    ensures reply.None? ==> r.0 == s
  {
    var (t, asked) := Load(s, 1, DestinationPageSize, MapReply(Decorate, reply));
    (t, if asked.Some? then Some(ListQueries.PageParams(1, DestinationPageSize)) else None)
  }

  /** `loadMoreDestinations`: the next page of ten, appended. */
  function LoadMoreDestinations(s: State<ListedDestination>, reply: Option<seq<Row<Destination>>>)
    : (r: (State<ListedDestination>, Option<Params.Params>))
    ensures s.loading || !s.hasMore ==> r == (s, None)
    ensures !(s.loading || !s.hasMore) ==> r.1 == Some(ListQueries.PageParams(s.page + 1, DestinationPageSize))
    ensures !(s.loading || !s.hasMore) && reply.Some? ==>
              r.0.items == s.items + MapAll(Decorate, reply.value) && r.0.page == s.page + 1
    ensures reply.None? ==> r.0 == s
  {
    var (t, asked) := LoadMore(s, DestinationPageSize, MapReply(Decorate, reply));
    (t, if asked.Some? then Some(ListQueries.PageParams(s.page + 1, DestinationPageSize)) else None)
  }

  /** The page's data: the record shown, the record's spinner, and the destination list. */
  datatype Detail = Detail(shown: Option<Shown>, loading: bool, destinations: State<ListedDestination>)

  /** Before `onLoad`: no record, the spinner on, page 1 with more expected. */
  const InitialDetail: Detail := Detail(None, true, State([], 1, true, false))

  /**
   * `onLoad` with an id, as intended: the record is loaded or the user is
   * sent back, the spinner clears, and the first page of destinations is
   * asked for and read.
   */
  function OnLoad(p: Detail, detail: Option<(Row<Recommendor>, Times)>, dests: Option<seq<Row<Destination>>>)
    : (r: (Detail, bool, Option<Params.Params>))
    ensures !r.0.loading
    ensures r.1 <==> detail.None?
    ensures detail.Some? ==> r.0.shown == Some(ShowDetail(detail.value.0, detail.value.1))
    ensures !p.destinations.loading ==> r.2 == Some(ListQueries.PageParams(1, DestinationPageSize))
    ensures !p.destinations.loading && dests.Some? ==> r.0.destinations.items == MapAll(Decorate, dests.value)
  {
    var (shown, back) := LoadRecommendorDetail(p.shown, detail);
    var (d, asked) := LoadDestinations(p.destinations, dests);
    (Detail(shown, false, d), back, asked)
  }

  /**
   * `loadRecommendorDetail` as written: it sets the spinner and calls
   * `app.getPublicRecommendorDetail`, which the app does not define. The
   * throw comes before any request, so no record is shown, the user is
   * not sent back, the spinner stays on, and `onLoad` and
   * `onPullDownRefresh` stop before `loadDestinations`.
   */
  function LoadRecommendorDetailAsWritten(p: Detail): (r: Detail)
    ensures r.shown == p.shown && r.loading && r.destinations == p.destinations
  {
    p.(loading := true)
  }

  /** A later event on the page: pull-down refresh, or reaching the bottom. */
  datatype Event = Refresh | ReachBottom

  /**
   * The page's events as written: a refresh throws in
   * `loadRecommendorDetail` again; reaching the bottom, when no request
   * runs and more is expected, calls `app.getDestinationsByRecommendor`,
   * which the app does not define either.
   */
  function RunDetailAsWritten(p: Detail, events: seq<Event>): Detail
    decreases |events|
  {
    if events == [] then p
    else
      var q := match events[0]
        case Refresh => LoadRecommendorDetailAsWritten(p)
        case ReachBottom => p.(destinations := LoadMoreAsWritten(p.destinations));
      RunDetailAsWritten(q, events[1..])
  }

  /**
   * As written, the detail page never shows anything: after `onLoad` and
   * any later events the record is still missing, the spinner is on, and
   * no destination is listed.
   */
  lemma {:induction false} DetailStaysEmptyAsWritten(events: seq<Event>)
    ensures var r := RunDetailAsWritten(LoadRecommendorDetailAsWritten(InitialDetail), events);
            r.shown.None? && r.loading && r.destinations.items == []
  {
    EventsShowNothing(LoadRecommendorDetailAsWritten(InitialDetail), events);
  }

  lemma {:induction false} EventsShowNothing(p: Detail, events: seq<Event>)
    requires p.loading
    ensures var r := RunDetailAsWritten(p, events);
            r.shown == p.shown && r.loading && r.destinations.items == p.destinations.items
    decreases |events|
  {
    if events != [] {
      var q := match events[0]
        case Refresh => LoadRecommendorDetailAsWritten(p)
        case ReachBottom => p.(destinations := LoadMoreAsWritten(p.destinations));
      EventsShowNothing(q, events[1..]);
    }
  }

  /**
   * `loadDestinations` as written, were it reached: past its guard it sets
   * the list's spinner and throws on the undefined method, so every later
   * load of the list returns at its guard.
   */
  lemma {:induction false} DestinationsStayEmptyAsWritten(s: State<ListedDestination>, calls: seq<Call>)
    ensures var r := RunAsWritten(LoadAsWritten(s), calls);
            r.items == s.items && r.loading
  {
    RunAsWrittenShowsNothing(LoadAsWritten(s), calls);
  }

  /** What a request for page `k` gets back: the page when the handler replies, nothing when it fails. */
  function Served(recs: Table<Recommendor>, dests: Table<Destination>, idParam: string, k: nat): Option<seq<Row<Destination>>>
    requires Valid(dests)
  {
    match Destinations.GetDestinationsByRecommendor(recs, dests, idParam, ListQueries.DestinationQuery(ListQueries.PageParams(k, DestinationPageSize)))
    case Reply(_, body) => Some(body.data)
    case Fail(_, _) => None
  }

  /** The owner's active destinations in id order, which the pages cut up. */
  function OwnerRows(dests: Table<Destination>, id: nat): seq<Row<Destination>>
    requires Valid(dests)
  {
    Queries.Where(dests, Destinations.DestinationColumns, Destinations.OwnerConditions(id))
  }

  const TenPerPage: PaginationRequest := PaginationRequest(1, DestinationPageSize, "id", false)

  /** For a live owner, page `k` is served as the `k`-th page of ten of its active destinations. */
  lemma ServedIsPage(recs: Table<Recommendor>, dests: Table<Destination>, idParam: string, k: nat)
    requires Valid(dests) && ParseUint32(idParam).Some? && Live(recs, ParseUint32(idParam).value)
    requires 1 <= k <= Int64Max
    ensures Served(recs, dests, idParam, k) == Some(PageOf(OwnerRows(dests, ParseUint32(idParam).value), TenPerPage.(page := k)))
  {
    ListQueries.ParsePageParams(k, DestinationPageSize);
  }

  /** An unknown or malformed id is served nothing, so the list keeps what it had. */
  lemma UnknownOwnerChangesNothing(recs: Table<Recommendor>, dests: Table<Destination>, idParam: string, s: State<ListedDestination>)
    requires Valid(dests) && !(ParseUint32(idParam).Some? && Live(recs, ParseUint32(idParam).value))
    ensures LoadMoreDestinations(s, Served(recs, dests, idParam, s.page + 1)).0 == s
    ensures LoadDestinations(s, Served(recs, dests, idParam, 1)).0 == s
  {
  }

  /** The first load, served by the handler, starts the list at the owner's first page. */
  lemma FirstLoadReadsFirstDestinations(recs: Table<Recommendor>, dests: Table<Destination>, idParam: string, s: State<ListedDestination>)
    requires Valid(dests) && ParseUint32(idParam).Some? && Live(recs, ParseUint32(idParam).value) && !s.loading
    ensures ReadUpTo(LoadDestinations(s, Served(recs, dests, idParam, 1)).0,
                     MapAll(Decorate, OwnerRows(dests, ParseUint32(idParam).value)), TenPerPage)
  {
    var rows := OwnerRows(dests, ParseUint32(idParam).value);
    ServedIsPage(recs, dests, idParam, 1);
    MapPage(Decorate, rows, TenPerPage);
    FirstLoadReadsFirstPage(s, MapAll(Decorate, rows), TenPerPage);
  }

  /**
   * "Load more" with each page as the handler serves it keeps the list
   * equal to the pages read so far; once no more is expected the list
   * holds every active destination of the owner, in id order, each once.
   */
  lemma LoadMoreReadsNextDestinations(recs: Table<Recommendor>, dests: Table<Destination>, idParam: string, s: State<ListedDestination>)
    requires Valid(dests) && ParseUint32(idParam).Some? && Live(recs, ParseUint32(idParam).value)
    requires ReadUpTo(s, MapAll(Decorate, OwnerRows(dests, ParseUint32(idParam).value)), TenPerPage)
    requires s.page < Int64Max && !s.loading && s.hasMore
    ensures var all := MapAll(Decorate, OwnerRows(dests, ParseUint32(idParam).value));
            var r := LoadMoreDestinations(s, Served(recs, dests, idParam, s.page + 1)).0;
            ReadUpTo(r, all, TenPerPage) && (!r.hasMore ==> r.items == all)
  {
    var rows := OwnerRows(dests, ParseUint32(idParam).value);
    var all := MapAll(Decorate, rows);
    var next := TenPerPage.(page := s.page + 1);
    ServedIsPage(recs, dests, idParam, s.page + 1);
    MapPage(Decorate, rows, next);
    var r := LoadMoreDestinations(s, Some(PageOf(rows, next)));
    assert r.0 == LoadMore(s, TenPerPage.pageSize, Some(PageOf(all, next))).0;
    LoadMoreReadsNextPage(s, all, TenPerPage);
  }
}
