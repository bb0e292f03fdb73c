/**
 * The mini-program's recommendor list page: its filters, the region
 * picker's text, the parameters `buildRequestParams` sends, the first
 * load and "load more", and the handlers that reset the list.
 */
module WxRecommendorList {
  import opened Wrappers
  import opened Text
  import opened Params
  import opened Stars
  import opened Pager
  import Pagination
  import Store
  import Models
  import Recommendors
  import ListQueries
  import RegionSelector

  /** The filter state; the region is kept as three names, "" when unset. */
  datatype Filters = Filters(name: string, province: string, city: string, district: string, status: string)

  const DefaultFilters: Filters := Filters("", "", "", "", "active")
  const RegionPrompt: string := "选择地区"
  const ListPageSize: nat := 12

  type Rec = Store.Row<Models.Recommendor>

  /** A listed recommendor with its five stars. */
  datatype Listed = Listed(row: Rec, stars: seq<Star>)

  /** The page's data: filters, the picker's value and text, and the list with its paging. */
  datatype Page = Page(filters: Filters, region: seq<string>, regionText: string, list: State<Listed>)

  const Initial: Page := Page(DefaultFilters, [], RegionPrompt, State([], 1, true, false))

  /** Each recommendor gets star i + 1's status at position i. */
  function Decorate(x: Rec): (l: Listed)
    ensures l.row == x && |l.stars| == StarCount
    ensures forall i :: 0 <= i < StarCount ==> l.stars[i] == StarStatus(i + 1, x.value.rating)
  {
    Listed(x, seq(StarCount, i requires 0 <= i < StarCount => StarStatus(i + 1, x.value.rating)))
  }

  /** The picker's placeholders "省", "市" and "区"/"县" stand for "no choice at this level". */
  function RealProvince(o: Option<string>): (chosen: bool)
    ensures chosen <==> o.Some? && o.value != "" && o.value != "省"
    ensures o == Some("省") ==> !chosen
  {
    Truthy(o) && o.value != "省"
  }

  function RealCity(o: Option<string>): (chosen: bool)
    ensures chosen <==> o.Some? && o.value != "" && o.value != "市"
    ensures o == Some("市") ==> !chosen
  {
    Truthy(o) && o.value != "市"
  }

  function RealDistrict(o: Option<string>): (chosen: bool)
    ensures chosen <==> o.Some? && o.value != "" && o.value != "区" && o.value != "县"
    ensures o == Some("区") || o == Some("县") ==> !chosen
  {
    Truthy(o) && o.value != "区" && o.value != "县"
  }

  /** The name a picked level contributes to the filters: itself when real, else "". */
  function Picked(chosen: bool, o: Option<string>): (s: string)
    requires chosen ==> o.Some?
    ensures chosen ==> s == o.value
    ensures !chosen ==> s == ""
  {
    if chosen then o.value else ""
  }

  /**
   * The picker's text: the prompt unless a real province is picked, then
   * the province, its city when real, and the district when the city and
   * the district are both real, separated by spaces.
   */
  function RegionText(region: seq<string>): (t: string)
    ensures !RealProvince(RegionSelector.At(region, 0)) ==> t == RegionPrompt
  {
    var p := RegionSelector.At(region, 0);
    var c := RegionSelector.At(region, 1);
    var d := RegionSelector.At(region, 2);
    if !RealProvince(p) then RegionPrompt
    else if !RealCity(c) then p.value
    else if !RealDistrict(d) then p.value + " " + c.value
    else p.value + " " + c.value + " " + d.value
  }

  /**
   * `onRegionChange` up to the reload: the picked names become the
   * filters, the text follows, and the list goes back to page 1.
   */
  function OnRegionChange(p: Page, region: seq<string>): (r: Page)
    ensures r.region == region && r.regionText == RegionText(region)
    ensures r.filters.name == p.filters.name && r.filters.status == p.filters.status
    ensures r.filters.province == Picked(RealProvince(RegionSelector.At(region, 0)), RegionSelector.At(region, 0))
    ensures r.filters.city == Picked(RealCity(RegionSelector.At(region, 1)), RegionSelector.At(region, 1))
    ensures r.filters.district == Picked(RealDistrict(RegionSelector.At(region, 2)), RegionSelector.At(region, 2))
    ensures r.list == p.list.(page := 1, hasMore := true)
  {
    var pv := RegionSelector.At(region, 0);
    var cv := RegionSelector.At(region, 1);
    var dv := RegionSelector.At(region, 2);
    var f := p.filters.(province := Picked(RealProvince(pv), pv), city := Picked(RealCity(cv), cv),
                        district := Picked(RealDistrict(dv), dv));
    Page(f, region, RegionText(region), p.list.(page := 1, hasMore := true))
  }

  /**
   * The text names the province filter: with no province filter it is the
   * prompt, and otherwise it starts with the province; a full real pick
   * shows all three names.
   */
  lemma RegionTextNamesFilters(p: Page, region: seq<string>)
    ensures var r := OnRegionChange(p, region);
            (r.filters.province == "" ==> r.regionText == RegionPrompt)
            && (r.filters.province != "" ==> HasPrefix(r.regionText, r.filters.province))
            && (r.filters.province != "" && r.filters.city != "" && r.filters.district != "" ==>
                  r.regionText == r.filters.province + " " + r.filters.city + " " + r.filters.district)
  {
    var r := OnRegionChange(p, region);
    var pv := RegionSelector.At(region, 0);
    if r.filters.province != "" {
      var t := r.regionText;
      var c := RegionSelector.At(region, 1);
      var d := RegionSelector.At(region, 2);
      if RealCity(c) && RealDistrict(d) {
        assert t == pv.value + (" " + c.value + " " + d.value);
      } else if RealCity(c) {
        assert t == pv.value + (" " + c.value);
      }
      assert t[..|pv.value|] == pv.value;
    }
  }

  /** The name filter, trimmed, when it is not blank. */
  function WithNameFilter(m: Params, name: string): (r: Params)
    ensures SameBut(r, m, {"name"})
    ensures "name" in r <==> "name" in m || Trim(name) != ""
    ensures Trim(name) != "" ==> r["name"] == Str(Trim(name))
  {
    TrimOfEmpty();
    if name != "" && Trim(name) != "" then m["name" := Str(Trim(name))] else m
  }

  /** One region name under its key, when it is set. */
  function WithPlace(m: Params, key: string, value: string): (r: Params)
    ensures SameBut(r, m, {key})
    ensures key in r <==> key in m || value != ""
    ensures value != "" ==> r[key] == Str(value)
  {
    if value != "" then m[key := Str(value)] else m
  }

  /** The keys the filters may add to the paging and the status. */
  const FilterKeys: set<string> := {"name", "province", "city", "district"}

  lemma PlaceKeysDiffer()
    ensures "name" != "province" && "name" != "city" && "name" != "district"
    ensures "province" != "city" && "province" != "district" && "city" != "district"
  {
  }

  /** The optional filters of a request, each present exactly when set. */
  function FilterParams(f: Filters): (r: Params)
    ensures r.Keys <= FilterKeys
    ensures "name" in r <==> Trim(f.name) != ""
    ensures "name" in r ==> r["name"] == Str(Trim(f.name))
    ensures "province" in r <==> f.province != ""
    ensures "province" in r ==> r["province"] == Str(f.province)
    ensures "city" in r <==> f.city != ""
    ensures "city" in r ==> r["city"] == Str(f.city)
    ensures "district" in r <==> f.district != ""
    ensures "district" in r ==> r["district"] == Str(f.district)
  {
    PlaceKeysDiffer();
    WithPlace(WithPlace(WithPlace(WithNameFilter(map[], f.name), "province", f.province), "city", f.city), "district", f.district)
  }

  /** The keys every request carries. */
  function BaseParams(page: nat, status: string): Params {
    map["page" := Count(page), "page_size" := Count(ListPageSize), "status" := Str(status)]
  }

  lemma BaseKeysAreNotFilters()
    ensures "page" !in FilterKeys && "page_size" !in FilterKeys && "status" !in FilterKeys
  {
  }

  /**
   * `buildRequestParams`: the page, the page size and the status always
   * (the status even when empty); the filters that are set.
   */
  function BuildRequestParams(f: Filters, page: nat): (r: Params)
    ensures "page" in r && r["page"] == Count(page) && "page_size" in r && r["page_size"] == Count(ListPageSize)
    ensures "status" in r && r["status"] == Str(f.status)
    ensures forall k :: k in FilterKeys ==> (k in r <==> k in FilterParams(f)) && (k in r ==> r[k] == FilterParams(f)[k])
    ensures forall k :: k in r ==> k in FilterKeys || k in {"page", "page_size", "status"}
  {
    BaseUnion(page, f.status, FilterParams(f));
    BaseParams(page, f.status) + FilterParams(f)
  }

  /** The base keys joined with any filter parameters keep both, apart. */
  lemma BaseUnion(page: nat, status: string, e: Params)
    requires e.Keys <= FilterKeys
    ensures var r := BaseParams(page, status) + e;
            "page" in r && r["page"] == Count(page) && "page_size" in r && r["page_size"] == Count(ListPageSize)
            && "status" in r && r["status"] == Str(status)
            && (forall k :: k in FilterKeys ==> (k in r <==> k in e) && (k in r ==> r[k] == e[k]))
            && (forall k :: k in r ==> k in FilterKeys || k in {"page", "page_size", "status"})
  {
    BaseKeysAreNotFilters();
  }

  /** The "load more" request is the first-load request for the next page. */
  lemma NextPageParams(f: Filters, page: nat)
    ensures BuildRequestParams(f, page)["page" := Count(page + 1)] == BuildRequestParams(f, page + 1)
  {
    BaseKeysAreNotFilters();
    BaseNextPage(page, f.status);
    UpdateUnderUnion(BaseParams(page, f.status), FilterParams(f), "page", Count(page + 1));
  }

  lemma BaseNextPage(page: nat, status: string)
    ensures BaseParams(page, status)["page" := Count(page + 1)] == BaseParams(page + 1, status)
  {
  }

  /** Updating a key the right operand lacks can be done before the union. */
  lemma UpdateUnderUnion(a: Params, e: Params, k: string, v: Param)
    requires k !in e
    ensures (a + e)[k := v] == a[k := v] + e
  {
  }

  lemma UnsentKeys()
    ensures forall k :: k in {"sort_by", "sort_order", "gender", "province_code", "city_code", "district_code", "min_age", "max_age"}
              ==> k !in FilterKeys && k !in {"page", "page_size", "status"}
  {
  }

  /**
   * What the public handler reads from a request: the page, 12 per page,
   * the status, the trimmed name and the three region names, and no codes.
   */
  lemma RequestQuery(f: Filters, page: nat)
    ensures var q := ListQueries.RecommendorQuery(BuildRequestParams(f, page));
            q.page == NatToString(page) && q.pageSize == NatToString(ListPageSize) && q.status == f.status
            && q.name == Trim(f.name) && q.province == f.province && q.city == f.city && q.district == f.district
            && q.provinceCode == "" && q.cityCode == "" && q.districtCode == ""
            && q.sortBy == "id" && q.sortOrder == "asc"
  {
    var r := BuildRequestParams(f, page);
    UnsentKeys();
    assert "name" in FilterKeys && "province" in FilterKeys && "city" in FilterKeys && "district" in FilterKeys;
    assert "province_code" !in r && "city_code" !in r && "district_code" !in r;
    assert "sort_by" !in r && "sort_order" !in r;
  }

  /**
   * The list shows the requested status (active when it is empty) and
   * only records whose address contains each chosen region name.
   */
  lemma ListMatchesFilters(db: Store.Table<Models.Recommendor>, f: Filters, page: nat)
    requires Store.Valid(db)
    ensures var q := ListQueries.RecommendorQuery(BuildRequestParams(f, page));
            forall x :: x in Recommendors.GetRecommendors(db, q).data ==>
              x.value.status == (if f.status == "" then "active" else f.status)
              && (f.province != "" ==> Contains(x.value.regionAddress, f.province))
              && (f.city != "" ==> Contains(x.value.regionAddress, f.city))
              && (f.district != "" ==> Contains(x.value.regionAddress, f.district))
  {
    var q := ListQueries.RecommendorQuery(BuildRequestParams(f, page));
    RequestQuery(f, page);
    Recommendors.PublicListStatus(db, q);
    Recommendors.PublicListMatchesRegionNames(db, q);
  }

  /**
   * `loadRecommendors`: unless a request runs, the current page is asked
   * for with the current filters and its rows, with stars, replace the
   * list; the page number does not move.
   */
  function Reload(p: Page, reply: Option<seq<Rec>>): (r: (Page, Option<Params>))
    ensures r.0.filters == p.filters && r.0.region == p.region && r.0.regionText == p.regionText
    ensures p.list.loading ==> r == (p, None)
    ensures !p.list.loading ==> r.1 == Some(BuildRequestParams(p.filters, p.list.page)) && !r.0.list.loading
    ensures !p.list.loading && reply.Some? ==>
              r.0.list.items == MapAll(Decorate, reply.value) && r.0.list.page == p.list.page
              && (r.0.list.hasMore <==> |reply.value| >= ListPageSize)
    ensures reply.None? ==> r.0 == p
  {
    var (s, asked) := Load(p.list, p.list.page, ListPageSize, MapReply(Decorate, reply));
    (p.(list := s), if asked.Some? then Some(BuildRequestParams(p.filters, p.list.page)) else None)
  }

  /**
   * `loadRecommendors` as written: past its guard it sets the spinner and
   * calls `app.getPublicRecommendors`, which the app does not define. The
   * throw rejects the promise before `.finally` is attached, so nothing is
   * asked for and the spinner is never cleared.
   */
  function ReloadAsWritten(p: Page): (r: Page)
    ensures p.list.loading ==> r == p
    ensures r.filters == p.filters && r.region == p.region && r.regionText == p.regionText
    ensures r.list == LoadAsWritten(p.list)
  {
    p.(list := LoadAsWritten(p.list))
  }

  /**
   * As written, the list page never lists anything: after `onLoad`, every
   * later load or "load more" finds the spinner set and returns at its
   * guard, so the list stays empty; the intended loads would be no-ops too.
   */
  lemma {:induction false} ListStaysEmptyAsWritten(calls: seq<Call>, reply: Option<seq<Rec>>)
    ensures var p := ReloadAsWritten(Initial);
            var r := RunAsWritten(p.list, calls);
            r.items == [] && r.loading
            && Reload(p, reply) == (p, None) && LoadMoreRecommendors(p, reply) == (p, None)
  {
    var p := ReloadAsWritten(Initial);
    RunAsWrittenShowsNothing(p.list, calls);
  }

  /**
   * `loadMoreRecommendors`: unless a request runs or no more is expected,
   * the next page is asked for and appended; the page moves only when it
   * arrives.
   */
  function LoadMoreRecommendors(p: Page, reply: Option<seq<Rec>>): (r: (Page, Option<Params>))
    ensures r.0.filters == p.filters && r.0.region == p.region && r.0.regionText == p.regionText
    ensures p.list.loading || !p.list.hasMore ==> r == (p, None)
    ensures !(p.list.loading || !p.list.hasMore) ==> r.1 == Some(BuildRequestParams(p.filters, p.list.page + 1))
    ensures !(p.list.loading || !p.list.hasMore) && reply.Some? ==>
              r.0.list.items == p.list.items + MapAll(Decorate, reply.value) && r.0.list.page == p.list.page + 1
    ensures reply.None? ==> r.0 == p
  {
    var (s, asked) := LoadMore(p.list, ListPageSize, MapReply(Decorate, reply));
    (p.(list := s), if asked.Some? then Some(NextRequestParams(p.filters, p.list.page)) else None)
  }

  /** `buildRequestParams()` with `page` then set to the next page. */
  function NextRequestParams(f: Filters, page: nat): (r: Params)
    ensures r == BuildRequestParams(f, page + 1)
  {
    NextPageParams(f, page);
    BuildRequestParams(f, page)["page" := Count(page + 1)]
  }

  /** `onReachBottom`: load more only when no request runs and more is expected. */
  function OnReachBottom(p: Page, reply: Option<seq<Rec>>): (r: (Page, Option<Params>))
    ensures p.list.loading || !p.list.hasMore ==> r == (p, None)
    ensures !p.list.loading && p.list.hasMore ==> r == LoadMoreRecommendors(p, reply)
  {
    if !p.list.loading && p.list.hasMore then LoadMoreRecommendors(p, reply) else (p, None)
  }

  /** `onReset`: default filters, no region, the prompt, and page 1 with more expected. */
  function OnReset(p: Page): (r: Page)
    ensures r.filters == DefaultFilters && r.region == [] && r.regionText == RegionPrompt
    ensures r.list == p.list.(page := 1, hasMore := true)
  {
    Page(DefaultFilters, [], RegionPrompt, p.list.(page := 1, hasMore := true))
  }

  /** After a reset the request is page 1 of 12 active recommendors and nothing else. */
  lemma ResetRequest(p: Page)
    ensures BuildRequestParams(OnReset(p).filters, OnReset(p).list.page)
            == map["page" := Count(1), "page_size" := Count(ListPageSize), "status" := Str("active")]
  {
    TrimOfEmpty();
    UnsetRequest(OnReset(p).filters, 1);
  }

  lemma UnsetRequest(f: Filters, page: nat)
    requires Trim(f.name) == "" && f.province == "" && f.city == "" && f.district == ""
    ensures BuildRequestParams(f, page) == BaseParams(page, f.status)
  {
    NoFiltersWhenUnset(f);
  }

  /** With no name and no region, a request carries no filter key. */
  lemma NoFiltersWhenUnset(f: Filters)
    requires Trim(f.name) == "" && f.province == "" && f.city == "" && f.district == ""
    ensures FilterParams(f) == map[]
  {
    var e := FilterParams(f);
    assert "name" !in e && "province" !in e && "city" !in e && "district" !in e;
    assert forall k :: k !in e;
  }

  /** `onSearch`: the current filters from page 1 again. */
  function OnSearch(p: Page): (r: Page)
    ensures r == p.(list := p.list.(page := 1, hasMore := true))
  {
    p.(list := p.list.(page := 1, hasMore := true))
  }

  /** `clearRegion` as written: the region goes, but the page number is left where it was. */
  function ClearRegionAsWritten(p: Page): (r: Page)
    ensures r.filters == p.filters.(province := "", city := "", district := "")
    ensures r.region == [] && r.regionText == RegionPrompt && r.list == p.list
  {
    Page(p.filters.(province := "", city := "", district := ""), [], RegionPrompt, p.list)
  }

  /**
   * Clearing the region on page 2 reloads page 2 of the wider list, so
   * with more than one page of matches the list starts at row 13 and the
   * first twelve are never shown.
   */
  lemma ClearRegionSkipsFirstPage(p: Page, rows: seq<Rec>, pr: Pagination.PaginationRequest)
    requires p.list.page == 2 && !p.list.loading
    requires Pagination.WellFormed(pr) && pr.pageSize == ListPageSize && |rows| > ListPageSize
    ensures var r := Reload(ClearRegionAsWritten(p), Some(Pagination.PageOf(rows, pr.(page := 2))));
            r.1.Some? && "page" in r.1.value && r.1.value["page"] == Count(2)
            && !ReadUpTo(r.0.list, MapAll(Decorate, rows), pr)
  {
    var r := Reload(ClearRegionAsWritten(p), Some(Pagination.PageOf(rows, pr.(page := 2))));
    var all := MapAll(Decorate, rows);
    MapPage(Decorate, rows, pr.(page := 2));
    Pagination.PagesCoverPrefix(all, pr, 2);
    assert |Pagination.PageOf(all, pr.(page := 2))| <= ListPageSize;
    assert |Pagination.PagesUpTo(all, pr, 2)| > ListPageSize;
  }

  /** `clearRegion` as intended: like the other filter handlers, it starts again from page 1. */
  function ClearRegion(p: Page): (r: Page)
    ensures r.filters == p.filters.(province := "", city := "", district := "")
    ensures r.region == [] && r.regionText == RegionPrompt
    ensures r.list == p.list.(page := 1, hasMore := true)
  {
    Page(p.filters.(province := "", city := "", district := ""), [], RegionPrompt, p.list.(page := 1, hasMore := true))
  }

  /**
   * After clearing, the reload asks for page 1 and the list holds the
   * first page of the wider result, from which "load more" proceeds.
   */
  lemma ClearRegionReadsFirstPage(p: Page, rows: seq<Rec>, pr: Pagination.PaginationRequest)
    requires !p.list.loading && Pagination.WellFormed(pr) && pr.pageSize == ListPageSize
    ensures var r := Reload(ClearRegion(p), Some(Pagination.PageOf(rows, pr.(page := 1))));
            r.1.Some? && "page" in r.1.value && r.1.value["page"] == Count(1)
            && ReadUpTo(r.0.list, MapAll(Decorate, rows), pr)
  {
    MapPage(Decorate, rows, pr.(page := 1));
    FirstLoadReadsFirstPage(ClearRegion(p).list, MapAll(Decorate, rows), pr);
  }

  /**
   * Each "load more" served from the same matches keeps the list equal to
   * the pages read so far, and when it stops expecting more the list is
   * every match, each once and in order.
   */
  lemma LoadMoreKeepsPagesInOrder(p: Page, rows: seq<Rec>, pr: Pagination.PaginationRequest)
    requires Pagination.WellFormed(pr) && pr.pageSize == ListPageSize
    requires ReadUpTo(p.list, MapAll(Decorate, rows), pr) && p.list.page < Int64Max
    requires !p.list.loading && p.list.hasMore
    ensures var r := LoadMoreRecommendors(p, Some(Pagination.PageOf(rows, pr.(page := p.list.page + 1))));
            ReadUpTo(r.0.list, MapAll(Decorate, rows), pr)
            && (!r.0.list.hasMore ==> r.0.list.items == MapAll(Decorate, rows))
  {
    var next := pr.(page := p.list.page + 1);
    LoadMoreList(p, Some(Pagination.PageOf(rows, next)));
    MapPage(Decorate, rows, next);
    LoadMoreReadsNextPage(p.list, MapAll(Decorate, rows), pr);
  }

  /** The list after "load more" is the pager's, fed the decorated reply. */
  lemma LoadMoreList(p: Page, reply: Option<seq<Rec>>)
    ensures LoadMoreRecommendors(p, reply).0.list == LoadMore(p.list, ListPageSize, MapReply(Decorate, reply)).0
  {
  }
}
