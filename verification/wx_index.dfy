/**
 * The mini-program's home page: the top recommendors and a destination
 * list read page by page, with the helpers that pick a destination's
 * first image and name its category.
 */
module WxIndex {
  import opened Wrappers
  import opened Text
  import opened Params
  import opened Store
  import opened Models
  import Pagination
  import Queries
  import Destinations
  import ListQueries
  import WxApp

  const IndexPageSize: nat := 10
  const TopRecommendors: nat := 5

  /** The page's data; `category` is the filter the page was opened with. */
  datatype Home = Home(recommendors: seq<Row<Recommendor>>, destinations: seq<Row<Destination>>,
                       page: nat, total: nat, hasMore: bool, loading: bool, category: Option<string>)

  /** `onLoad` up to the first load: the category option becomes the filter when it is set. */
  function OnLoad(category: Option<string>): (h: Home)
    ensures h.destinations == [] && h.page == 1 && h.hasMore && !h.loading
    ensures h.category == (if Truthy(category) then category else None)
  {
    Home([], [], 1, 0, true, false, if Truthy(category) then category else None)
  }

  /** `filterParams`: the category alone, or nothing. */
  function FilterParams(h: Home): (m: Params)
    ensures h.category.Some? ==> m == map["category" := Str(h.category.value)]
    ensures h.category.None? ==> m == map[]
  {
    if h.category.Some? then map["category" := Str(h.category.value)] else map[]
  }

  /** `loadRecommendors`: the five best rated. */
  function RecommendorParams(h: Home): (r: Params)
    ensures "page" in r && r["page"] == Count(1) && "page_size" in r && r["page_size"] == Count(TopRecommendors)
    ensures "sort_by" in r && r["sort_by"] == Str("rating") && "sort_order" in r && r["sort_order"] == Str("desc")
    ensures h.category.Some? ==> "category" in r && r["category"] == Str(h.category.value)
  {
    HomeKeys();
    WxApp.RecommendorListParams(Spread(map["page" := Count(1), "page_size" := Count(TopRecommendors),
                                           "sort_by" := Str("rating"), "sort_order" := Str("desc")], FilterParams(h)))
  }

  /** `loadDestinations`: the current page of ten, best rated first. */
  function DestinationParams(h: Home): (r: Params)
    ensures "page" in r && r["page"] == Count(h.page) && "page_size" in r && r["page_size"] == Count(IndexPageSize)
    ensures "sort_by" in r && r["sort_by"] == Str("rating") && "sort_order" in r && r["sort_order"] == Str("desc")
    ensures h.category.Some? ==> "category" in r && r["category"] == Str(h.category.value)
  {
    HomeKeys();
    WxApp.DestinationListParams(Spread(map["page" := Count(h.page), "page_size" := Count(IndexPageSize),
                                           "sort_by" := Str("rating"), "sort_order" := Str("desc")], FilterParams(h)))
  }

  type Reply<T> = Pagination.PaginationResponse<Row<T>>

  /**
   * `loadData`: both lists are asked for together; when both arrive they
   * replace the page's lists, with more expected when the destinations
   * outnumber one page; when either fails nothing but the loading flag
   * changes.
   */
  function LoadData(h: Home, recs: Option<Reply<Recommendor>>, dests: Option<Reply<Destination>>): (r: Home)
    ensures !r.loading && r.page == h.page && r.category == h.category
    ensures recs.Some? && dests.Some? ==>
              r.recommendors == recs.value.data && r.destinations == dests.value.data
              && r.total == dests.value.total && (r.hasMore <==> dests.value.total > IndexPageSize)
    ensures !(recs.Some? && dests.Some?) ==> r == h.(loading := false)
  {
    if recs.Some? && dests.Some? then
      h.(recommendors := recs.value.data, destinations := dests.value.data, total := dests.value.total,
         hasMore := dests.value.total > IndexPageSize, loading := false)
    else h.(loading := false)
  }

  /** `refreshData`: back to page 1 with more expected, then `loadData`. */
  function RefreshData(h: Home, recs: Option<Reply<Recommendor>>, dests: Option<Reply<Destination>>): (r: Home)
    ensures r.page == 1
    ensures r == LoadData(h.(page := 1, hasMore := true), recs, dests)
  {
    LoadData(h.(page := 1, hasMore := true), recs, dests)
  }

  /** The parameters `loadMore` sends as written: the next page, without the sort. */
  function MoreParamsAsWritten(h: Home): Params {
    WxApp.DestinationListParams(Spread(map["page" := Count(h.page + 1), "page_size" := Count(IndexPageSize)], FilterParams(h)))
  }

  /** As written, "load more" asks for what a first load of the next page asks for, less the sort. */
  lemma MoreParamsDropSort(h: Home)
    ensures MoreParamsAsWritten(h) == DestinationParams(h.(page := h.page + 1)) - {"sort_by", "sort_order"}
  {
    MoreParamsShapeAsWritten(h);
    UnsortedFirstParams(h.(page := h.page + 1));
  }

  /** The first-load parameters without the sort: the page, the size and the category when one is chosen. */
  lemma UnsortedFirstParams(h: Home)
    ensures var base := map["page" := Count(h.page), "page_size" := Count(IndexPageSize)];
            DestinationParams(h) - {"sort_by", "sort_order"} == if h.category.Some? then base["category" := Str(h.category.value)] else base
  {
    var base := map["page" := Count(h.page), "page_size" := Count(IndexPageSize)];
    var sorted := map["page" := Count(h.page), "page_size" := Count(IndexPageSize),
                      "sort_by" := Str("rating"), "sort_order" := Str("desc")];
    FirstParamsShape(h);
    if h.category.Some? {
      assert sorted["category" := Str(h.category.value)] - {"sort_by", "sort_order"} == base["category" := Str(h.category.value)];
    } else {
      assert sorted - {"sort_by", "sort_order"} == base;
    }
  }

  /**
   * `loadMore` as written: the page number moves before the request, the
   * request has no sort, a reply is appended with more expected while the
   * total exceeds the list, and a failure leaves the page moved on.
   */
  function LoadMoreAsWritten(h: Home, reply: Option<Reply<Destination>>): (r: (Home, Params))
    ensures r.1 == MoreParamsAsWritten(h)
    ensures r.0.page == h.page + 1 && !r.0.loading && r.0.category == h.category
    ensures reply.Some? ==> r.0.destinations == h.destinations + reply.value.data && r.0.total == reply.value.total
                            && (r.0.hasMore <==> reply.value.total > |r.0.destinations|)
    ensures reply.None? ==> r.0 == h.(page := h.page + 1, loading := false)
  {
    var moved := h.(page := h.page + 1, loading := true);
    var params := MoreParamsAsWritten(h);
    match reply
    case None => (moved.(loading := false), params)
    case Some(res) =>
      var all := h.destinations + res.data;
      (moved.(destinations := all, total := res.total, hasMore := res.total > |all|, loading := false), params)
  }

  /** `onReachBottom` as written. */
  function OnReachBottomAsWritten(h: Home, reply: Option<Reply<Destination>>): (r: (Home, Option<Params>))
    ensures !(h.hasMore && !h.loading) ==> r == (h, None)
    ensures h.hasMore && !h.loading ==> r == (LoadMoreAsWritten(h, reply).0, Some(MoreParamsAsWritten(h)))
  {
    if h.hasMore && !h.loading then
      var more := LoadMoreAsWritten(h, reply);
      (more.0, Some(more.1))
    else (h, None)
  }

  /**
   * `loadMore` as intended: the next page with the same parameters as the
   * first, and the page number moves only when it arrives.
   */
  function LoadMore(h: Home, reply: Option<Reply<Destination>>): (r: (Home, Params))
    ensures r.1 == DestinationParams(h.(page := h.page + 1))
    ensures reply.None? ==> r.0 == h.(loading := false)
    ensures reply.Some? ==> r.0.page == h.page + 1 && !r.0.loading && r.0.category == h.category
                            && r.0.destinations == h.destinations + reply.value.data && r.0.total == reply.value.total
                            && (r.0.hasMore <==> reply.value.total > |r.0.destinations|)
  {
    var params := DestinationParams(h.(page := h.page + 1));
    match reply
    case None => (h.(loading := false), params)
    case Some(res) =>
      var all := h.destinations + res.data;
      (h.(destinations := all, page := h.page + 1, total := res.total, hasMore := res.total > |all|, loading := false), params)
  }

  function OnReachBottom(h: Home, reply: Option<Reply<Destination>>): (r: (Home, Option<Params>))
    ensures !(h.hasMore && !h.loading) ==> r == (h, None)
    ensures h.hasMore && !h.loading ==> r == (LoadMore(h, reply).0, Some(LoadMore(h, reply).1))
  {
    if h.hasMore && !h.loading then
      var more := LoadMore(h, reply);
      (more.0, Some(more.1))
    else (h, None)
  }

  // What the public destination list serves.

  /** The handler's filters for the home page: the category, if any; every status is the default. */
  function CategoryQuery(category: Option<string>): Destinations.ListQuery {
    Destinations.ListQuery("", "", "", "", "", if category.Some? then category.value else "", "", "")
  }

  /** The destinations matching the page's filter, by ascending id. */
  function Matches(dests: Table<Destination>, category: Option<string>): seq<Row<Destination>>
    requires Valid(dests)
  {
    Queries.Where(dests, Destinations.DestinationColumns, Destinations.PublicConditions(CategoryQuery(category)))
  }

  /** What the public list handler serves for the parameters sent: a page of the matches and their count. */
  function Serve(dests: Table<Destination>, params: Params): (r: Reply<Destination>)
    requires Valid(dests)
    ensures var q := ListQueries.DestinationQuery(params);
            var rows := Queries.Where(dests, Destinations.DestinationColumns, Destinations.PublicConditions(q));
            r.total == |rows| && r.data == Pagination.PageOf(Queries.Ordered(rows, Destinations.Pages(q).sortDesc), Destinations.Pages(q))
  {
    Destinations.GetDestinations(dests, ListQueries.DestinationQuery(params))
  }

  const BestFirst: Pagination.PaginationRequest := Pagination.PaginationRequest(1, IndexPageSize, "rating", true)
  const ByAscendingId: Pagination.PaginationRequest := Pagination.PaginationRequest(1, IndexPageSize, "id", false)

  lemma HomeKeys()
    ensures "category" !in {"page", "page_size", "sort_by", "sort_order"}
    ensures "name" !in {"page", "page_size", "sort_by", "sort_order", "category"}
    ensures "recommendor_id" !in {"page", "page_size", "sort_by", "sort_order", "category"}
    ensures "status" !in {"page", "page_size", "sort_by", "sort_order", "category"}
  {
  }

  /** Parameters that already name a page and a page size keep them past `getDestinations`. */
  lemma DefaultsPresent(p: Params)
    requires "page" in p && "page_size" in p
    ensures WxApp.DestinationListParams(p) == p
  {
    assert WxApp.DestinationListParams(p).Keys == p.Keys;
  }

  /** The list handler's filters do not depend on the paging fields. */
  lemma ConditionsIgnorePaging(q: Destinations.ListQuery, page: string, pageSize: string, sortBy: string, sortOrder: string)
    ensures Destinations.PublicConditions(q.(page := page, pageSize := pageSize, sortBy := sortBy, sortOrder := sortOrder))
            == Destinations.PublicConditions(q)
  {
  }

  /** The keys of the first-load parameters. */
  lemma FirstParamsKeys(h: Home)
    ensures var p := DestinationParams(h);
            "name" !in p && "recommendor_id" !in p && "status" !in p
            && "page" in p && p["page"] == Count(h.page) && "page_size" in p && p["page_size"] == Count(IndexPageSize)
            && "sort_by" in p && p["sort_by"] == Str("rating") && "sort_order" in p && p["sort_order"] == Str("desc")
            && (h.category.Some? ==> "category" in p && p["category"] == Str(h.category.value))
            && (h.category.None? ==> "category" !in p)
  {
    HomeKeys();
    FirstParamsShape(h);
  }

  /** The first-load parameters: the page, ten per page, best rated first, with the category when one is chosen. */
  lemma FirstParamsShape(h: Home)
    ensures var base := map["page" := Count(h.page), "page_size" := Count(IndexPageSize),
                            "sort_by" := Str("rating"), "sort_order" := Str("desc")];
            DestinationParams(h) == if h.category.Some? then base["category" := Str(h.category.value)] else base
  {
    var base := map["page" := Count(h.page), "page_size" := Count(IndexPageSize),
                    "sort_by" := Str("rating"), "sort_order" := Str("desc")];
    var s := Spread(base, FilterParams(h));
    DefaultsPresent(s);
    if h.category.Some? {
      assert s == base["category" := Str(h.category.value)];
    } else {
      assert s == base;
    }
  }

  /** What the handler reads from the first-load parameters. */
  lemma FirstQueryFields(h: Home)
    ensures ListQueries.DestinationQuery(DestinationParams(h))
            == CategoryQuery(h.category).(page := NatToString(h.page), pageSize := NatToString(IndexPageSize),
                                          sortBy := "rating", sortOrder := "desc")
  {
    FirstParamsKeys(h);
  }

  /** The keys of the load-more parameters as written. */
  lemma MoreParamsKeysAsWritten(h: Home)
    ensures var p := MoreParamsAsWritten(h);
            "name" !in p && "recommendor_id" !in p && "status" !in p && "sort_by" !in p && "sort_order" !in p
            && "page" in p && p["page"] == Count(h.page + 1) && "page_size" in p && p["page_size"] == Count(IndexPageSize)
            && (h.category.Some? ==> "category" in p && p["category"] == Str(h.category.value))
            && (h.category.None? ==> "category" !in p)
  {
    HomeKeys();
    MoreParamsShapeAsWritten(h);
  }

  /** The load-more parameters as written: the next page and the page size, with the category when one is chosen. */
  lemma MoreParamsShapeAsWritten(h: Home)
    ensures var base := map["page" := Count(h.page + 1), "page_size" := Count(IndexPageSize)];
            MoreParamsAsWritten(h) == if h.category.Some? then base["category" := Str(h.category.value)] else base
  {
    var base := map["page" := Count(h.page + 1), "page_size" := Count(IndexPageSize)];
    var s := Spread(base, FilterParams(h));
    DefaultsPresent(s);
    if h.category.Some? {
      assert s == base["category" := Str(h.category.value)];
    } else {
      assert s == base;
    }
  }

  /** What the handler reads from the load-more parameters as written. */
  lemma MoreQueryFieldsAsWritten(h: Home)
    ensures ListQueries.DestinationQuery(MoreParamsAsWritten(h))
            == CategoryQuery(h.category).(page := NatToString(h.page + 1), pageSize := NatToString(IndexPageSize),
                                          sortBy := "id", sortOrder := "asc")
  {
    MoreParamsKeysAsWritten(h);
  }

  /** The first-load request reads as page `page` of ten, sorted descending, with the category. */
  lemma FirstQuery(h: Home)
    requires 1 <= h.page <= Int64Max
    ensures var q := ListQueries.DestinationQuery(DestinationParams(h));
            Destinations.Pages(q) == BestFirst.(page := h.page)
            && Destinations.PublicConditions(q) == Destinations.PublicConditions(CategoryQuery(h.category))
  {
    FirstQueryFields(h);
    ConditionsIgnorePaging(CategoryQuery(h.category), NatToString(h.page), NatToString(IndexPageSize), "rating", "desc");
    assert Lower("desc") == "desc";
    AtoiOfNat(IndexPageSize);
    Pagination.ParsePageRoundTrip(h.page, NatToString(IndexPageSize), "rating", "desc");
  }

  /** The load-more request as written reads as the next page of ten by ascending id. */
  lemma MoreQueryAsWritten(h: Home)
    requires h.page + 1 <= Int64Max
    ensures var q := ListQueries.DestinationQuery(MoreParamsAsWritten(h));
            Destinations.Pages(q) == ByAscendingId.(page := h.page + 1)
            && Destinations.PublicConditions(q) == Destinations.PublicConditions(CategoryQuery(h.category))
  {
    MoreQueryFieldsAsWritten(h);
    ConditionsIgnorePaging(CategoryQuery(h.category), NatToString(h.page + 1), NatToString(IndexPageSize), "id", "asc");
    assert Lower("asc") != "desc";
    AtoiOfNat(IndexPageSize);
    Pagination.ParsePageRoundTrip(h.page + 1, NatToString(IndexPageSize), "id", "asc");
  }

  /** The first load is served from the matches in descending order. */
  lemma ServedFirst(dests: Table<Destination>, h: Home)
    requires Valid(dests) && 1 <= h.page <= Int64Max
    ensures var r := Serve(dests, DestinationParams(h));
            r.data == Pagination.PageOf(Reverse(Matches(dests, h.category)), BestFirst.(page := h.page))
            && r.total == |Matches(dests, h.category)|
  {
    FirstQuery(h);
  }

  /** "Load more" as written is served from the matches in ascending order. */
  lemma ServedMoreAsWritten(dests: Table<Destination>, h: Home)
    requires Valid(dests) && h.page + 1 <= Int64Max
    ensures var r := Serve(dests, MoreParamsAsWritten(h));
            r.data == Pagination.PageOf(Matches(dests, h.category), ByAscendingId.(page := h.page + 1))
            && r.total == |Matches(dests, h.category)|
  {
    MoreQueryAsWritten(h);
  }

  /**
   * With eleven matching destinations, the first load shows the ten
   * highest ids in descending order, and "load more" as written appends
   * page 2 in ascending order: the highest id again. The list then holds
   * one destination twice, never shows the lowest id, and expects no more.
   */
  lemma AsWrittenRepeatsARow(dests: Table<Destination>, h: Home, recs: Reply<Recommendor>)
    requires Valid(dests) && h.page == 1 && |Matches(dests, h.category)| == 11
    ensures var first := LoadData(h, Some(recs), Some(Serve(dests, DestinationParams(h))));
            var r := OnReachBottomAsWritten(first, Some(Serve(dests, MoreParamsAsWritten(first))));
            RepeatsOneSkipsLowest(r.0, Matches(dests, h.category))
  {
    ElevenServedTwice(dests, h, recs);
    AsWrittenFromPages(h, Matches(dests, h.category), recs, Serve(dests, DestinationParams(h)),
                       Serve(dests, MoreParamsAsWritten(LoadData(h, Some(recs), Some(Serve(dests, DestinationParams(h)))))));
  }

  /** Eleven rows shown, the first of them twice, the lowest id of `m` never, and no more expected. */
  predicate RepeatsOneSkipsLowest(h: Home, m: seq<Row<Destination>>) {
    |h.destinations| == 11 && h.destinations[0] == h.destinations[10]
    && |m| > 0 && m[0] !in h.destinations && !h.hasMore
  }

  /** Rows in strictly ascending id order. */
  predicate IdSorted(m: seq<Row<Destination>>) {
    forall j, k :: 0 <= j < k < |m| ==> m[j].id < m[k].id
  }

  /** Page 1 of `m` best first, with the full count. */
  predicate ServedBestFirst(m: seq<Row<Destination>>, res: Reply<Destination>) {
    res.data == Pagination.PageOf(Reverse(m), BestFirst) && res.total == |m|
  }

  /** Page 2 of `m` by ascending id, with the full count. */
  predicate ServedSecondAscending(m: seq<Row<Destination>>, res: Reply<Destination>) {
    res.data == Pagination.PageOf(m, ByAscendingId.(page := 2)) && res.total == |m|
  }

  /** Eleven matches in id order, served best first on page 1 and by ascending id on page 2. */
  predicate ElevenServed(m: seq<Row<Destination>>, res1: Reply<Destination>, res2: Reply<Destination>) {
    |m| == 11 && IdSorted(m) && ServedBestFirst(m, res1) && ServedSecondAscending(m, res2)
  }

  /** The two replies the home page gets for eleven matches. */
  lemma ElevenServedTwice(dests: Table<Destination>, h: Home, recs: Reply<Recommendor>)
    requires Valid(dests) && h.page == 1 && |Matches(dests, h.category)| == 11
    ensures var res1 := Serve(dests, DestinationParams(h));
            ElevenServed(Matches(dests, h.category), res1, Serve(dests, MoreParamsAsWritten(LoadData(h, Some(recs), Some(res1)))))
  {
    MatchesSorted(dests, h.category);
    FirstServedBestFirst(dests, h);
    MoreServedAscending(dests, h, recs);
  }

  lemma MatchesSorted(dests: Table<Destination>, category: Option<string>)
    requires Valid(dests)
    ensures IdSorted(Matches(dests, category))
  {
  }

  lemma FirstServedBestFirst(dests: Table<Destination>, h: Home)
    requires Valid(dests) && h.page == 1
    ensures ServedBestFirst(Matches(dests, h.category), Serve(dests, DestinationParams(h)))
  {
    ServedFirst(dests, h);
    assert BestFirst.(page := 1) == BestFirst;
  }

  lemma MoreServedAscending(dests: Table<Destination>, h: Home, recs: Reply<Recommendor>)
    requires Valid(dests) && h.page == 1
    ensures var first := LoadData(h, Some(recs), Some(Serve(dests, DestinationParams(h))));
            ServedSecondAscending(Matches(dests, h.category), Serve(dests, MoreParamsAsWritten(first)))
  {
    var first := LoadData(h, Some(recs), Some(Serve(dests, DestinationParams(h))));
    ServedMoreAsWritten(dests, first);
  }

  lemma AsWrittenFromPages(h: Home, m: seq<Row<Destination>>, recs: Reply<Recommendor>, res1: Reply<Destination>, res2: Reply<Destination>)
    requires ElevenServed(m, res1, res2)
    ensures RepeatsOneSkipsLowest(OnReachBottomAsWritten(LoadData(h, Some(recs), Some(res1)), Some(res2)).0, m)
  {
    ElevenRowsInTwoOrders(m);
  }

  /**
   * Page 1 of eleven rows in descending order followed by page 2 in
   * ascending order repeats the last row and leaves out the first.
   */
  lemma ElevenRowsInTwoOrders<T>(m: seq<Row<T>>)
    requires |m| == 11 && forall j, k :: 0 <= j < k < |m| ==> m[j].id < m[k].id
    ensures var l := Pagination.PageOf(Reverse(m), BestFirst) + Pagination.PageOf(m, ByAscendingId.(page := 2));
            |l| == 11 && l[0] == l[10] && m[0] !in l
  {
    var one := Pagination.PageOf(Reverse(m), BestFirst);
    var two := Pagination.PageOf(m, ByAscendingId.(page := 2));
    assert one == Reverse(m)[0..10];
    assert two == m[10..11];
    var l := one + two;
    assert l[0] == m[10] == l[10];
    forall k | 0 <= k < 11 ensures l[k] != m[0] {
      if k < 10 {
        assert l[k] == m[10 - k];
        assert m[0].id < m[10 - k].id;
      }
    }
  }

  /** The list holds pages 1..page of the matches, best first, and knows their total. */
  ghost predicate ReadUpTo(h: Home, m: seq<Row<Destination>>) {
    h.page <= Int64Max && h.destinations == Pagination.PagesUpTo(m, BestFirst, h.page)
    && h.total == |m| && (h.hasMore <==> |m| > |h.destinations|)
  }

  lemma LoadDataReadsFirstPage(dests: Table<Destination>, h: Home, recs: Reply<Recommendor>)
    requires Valid(dests) && h.page == 1
    ensures ReadUpTo(LoadData(h, Some(recs), Some(Serve(dests, DestinationParams(h)))), Reverse(Matches(dests, h.category)))
  {
    ServedFirst(dests, h);
    FirstPageRead(h, Reverse(Matches(dests, h.category)), recs, Serve(dests, DestinationParams(h)));
  }

  /** A first load that receives page 1 of `m` holds that page and expects more exactly when `m` outruns it. */
  lemma FirstPageRead(h: Home, m: seq<Row<Destination>>, recs: Reply<Recommendor>, res: Reply<Destination>)
    requires h.page == 1
    requires res.data == Pagination.PageOf(m, BestFirst.(page := 1)) && res.total == |m|
    ensures ReadUpTo(LoadData(h, Some(recs), Some(res)), m)
  {
    Pagination.PagesCoverPrefix(m, BestFirst, 1);
  }

  /**
   * With "load more" as intended, each page served keeps the list equal
   * to the pages read so far; once no more is expected the list is every
   * match, each once and best first.
   */
  lemma LoadMoreReadsNextPage(dests: Table<Destination>, h: Home)
    requires Valid(dests) && ReadUpTo(h, Reverse(Matches(dests, h.category))) && h.page < Int64Max
    ensures var m := Reverse(Matches(dests, h.category));
            var r := LoadMore(h, Some(Serve(dests, DestinationParams(h.(page := h.page + 1))))).0;
            ReadUpTo(r, m) && (!r.hasMore ==> r.destinations == m)
  {
    ServedFirst(dests, h.(page := h.page + 1));
    AppendNextPage(h, Reverse(Matches(dests, h.category)), Serve(dests, DestinationParams(h.(page := h.page + 1))));
  }

  lemma AppendNextPage(h: Home, m: seq<Row<Destination>>, res: Reply<Destination>)
    requires ReadUpTo(h, m) && h.page < Int64Max
    requires res.data == Pagination.PageOf(m, BestFirst.(page := h.page + 1)) && res.total == |m|
    ensures var r := LoadMore(h, Some(res)).0;
            ReadUpTo(r, m) && (!r.hasMore ==> r.destinations == m)
  {
    var k := h.page + 1;
    var r := LoadMore(h, Some(res)).0;
    assert r.destinations == Pagination.PagesUpTo(m, BestFirst, k);
    Pagination.PagesCoverPrefix(m, BestFirst, k);
    if !r.hasMore {
      assert |r.destinations| >= |m|;
      assert m[..|m|] == m;
    }
  }

  /** A failed "load more" as intended changes nothing but the loading flag, so the same page is asked for next. */
  lemma FailedLoadMoreRetriesPage(h: Home)
    ensures LoadMore(h, None).0.page == h.page
    ensures LoadMoreAsWritten(h, None).0.page == h.page + 1
  {
  }

  const DefaultImage: string := "/images/default-destination.png"

  /**
   * `getFirstImage`: the default image for a missing, empty or "[]"
   * value, or when the text does not parse as a non-empty array; else the
   * array's first entry. `parse` is `JSON.parse` on arrays of strings.
   */
  function FirstImage(images: Option<string>, parse: string -> Option<seq<string>>): (r: string)
    ensures !Truthy(images) || images.value == "[]" ==> r == DefaultImage
    ensures Truthy(images) && images.value != "[]" ==>
              r == (if parse(images.value).Some? && |parse(images.value).value| > 0 then parse(images.value).value[0] else DefaultImage)
  {
    if !Truthy(images) || images.value == "[]" then DefaultImage
    else match parse(images.value)
      case None => DefaultImage
      case Some(xs) => if |xs| > 0 then xs[0] else DefaultImage
  }

  /**
   * For any encoding of image lists that `parse` reads back, and that
   * writes the empty list as "[]", the page shows the first image of
   * the list stored, or the default when there is none.
   */
  lemma FirstImageOfStored(xs: seq<string>, encode: seq<string> -> string, parse: string -> Option<seq<string>>)
    requires forall ys :: parse(encode(ys)) == Some(ys) && encode(ys) != ""
    requires parse("[]") == Some([])
    ensures FirstImage(Some(encode(xs)), parse) == (if xs == [] then DefaultImage else xs[0])
  {
  }

  /** `getCategoryName`: the four known categories by name, anything else as it is. */
  function CategoryName(category: string): (r: string)
    ensures category == "scenic_spot" ==> r == "景点"
    ensures category == "food" ==> r == "美食"
    ensures category == "accommodation" ==> r == "住宿"
    ensures category == "shopping" ==> r == "购物"
    ensures category !in {"scenic_spot", "food", "accommodation", "shopping"} ==> r == category
  {
    if category == "scenic_spot" then "景点"
    else if category == "food" then "美食"
    else if category == "accommodation" then "住宿"
    else if category == "shopping" then "购物"
    else category
  }

  /** The four names are different, so a shown name tells the known category apart from the others. */
  lemma CategoryNamesDistinct(a: string, b: string)
    requires a in {"scenic_spot", "food", "accommodation", "shopping"}
    requires b in {"scenic_spot", "food", "accommodation", "shopping"}
    requires CategoryName(a) == CategoryName(b)
    ensures a == b
  {
    assert "景点" != "美食" && "景点" != "住宿" && "景点" != "购物";
    assert "美食" != "住宿" && "美食" != "购物" && "住宿" != "购物";
  }
}
