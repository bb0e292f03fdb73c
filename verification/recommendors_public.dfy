/**
 * The public recommendor page: the filters it keeps, the parameters
 * `loadRecommendors` sends, and what the public list handler makes of
 * them.
 */
module RecommendorsPublic {
  import opened Wrappers
  import opened Text
  import opened Store
  import opened Params
  import opened RegionSelector
  import Models
  import Recommendors
  import ListQueries

  /** The filter state; `None` is `undefined`. */
  datatype Filters = Filters(name: Option<string>, regionCode: Option<RegionInfo>, status: Option<string>, minRating: Option<real>)

  /** The initial filters, which `handleReset` restores. */
  const DefaultFilters: Filters := Filters(Some(""), None, Some("active"), None)

  const DefaultPageSize: nat := 12

  /** `handleReset`: the filters go back to their initial values, whatever they were. */
  function Reset(f: Filters): (r: Filters)
    ensures r.name == Some("") && r.regionCode.None? && r.status == Some("active") && r.minRating.None?
  {
    DefaultFilters
  }

  /** A number is truthy unless it is 0. */
  predicate RatingSet(o: Option<real>) {
    o.Some? && o.value != 0.0
  }

  /** An array element as a parameter: past the end it is `undefined`, which axios drops. */
  function CodeParam(xs: seq<string>, i: nat): (p: Param)
    ensures p.Undefined? <==> i >= |xs|
    ensures i < |xs| ==> p == Str(xs[i])
  {
    match At(xs, i)
    case None => Undefined
    case Some(c) => Str(c)
  }

  /** The region codes of the filter, when its value carries a code list. */
  predicate HasCodes(f: Filters) {
    f.regionCode.Some? && f.regionCode.value.codes.Some?
  }

  /** The name filter, trimmed, when it is not blank. */
  function WithName(m: Params, f: Filters): (r: Params)
    ensures SameBut(r, m, {"name"})
    ensures "name" in r <==> "name" in m || TrimmedName(f).Some?
    ensures TrimmedName(f).Some? ==> r["name"] == Str(TrimmedName(f).value)
  {
    match TrimmedName(f)
    case None => m
    case Some(t) => SameButSet(m, "name", Str(t)); m["name" := Str(t)]
  }

  /** The name filter trimmed, or nothing when it is missing or blank. */
  function TrimmedName(f: Filters): (r: Option<string>)
    ensures r.Some? <==> Truthy(f.name) && Trim(f.name.value) != ""
    ensures r.Some? ==> r.value == Trim(f.name.value)
  {
    if Truthy(f.name) && Trim(f.name.value) != "" then Some(Trim(f.name.value)) else None
  }

  /** The three region codes, when the region value carries a code list. */
  function WithRegion(m: Params, f: Filters): (r: Params)
    ensures SameBut(r, m, {"province_code", "city_code", "district_code"})
    ensures HasCodes(f) ==> var codes := f.regionCode.value.codes.value;
                            "province_code" in r && r["province_code"] == CodeParam(codes, 0)
                            && "city_code" in r && r["city_code"] == CodeParam(codes, 1)
                            && "district_code" in r && r["district_code"] == CodeParam(codes, 2)
    ensures !HasCodes(f) ==> r == m
  {
    if HasCodes(f) then
      var codes := f.regionCode.value.codes.value;
      KeysDiffer();
      m["province_code" := CodeParam(codes, 0)]["city_code" := CodeParam(codes, 1)]["district_code" := CodeParam(codes, 2)]
    else m
  }

  /** The minimum rating, when it is set. */
  function WithRating(m: Params, f: Filters): (r: Params)
    ensures SameBut(r, m, {"rating_gte"})
    ensures RatingSet(f.minRating) ==> "rating_gte" in r && r["rating_gte"] == Score(f.minRating.value)
    ensures !RatingSet(f.minRating) ==> r == m
  {
    if RatingSet(f.minRating) then m["rating_gte" := Score(f.minRating.value)] else m
  }

  lemma KeysDiffer()
    ensures "province_code" != "city_code" && "province_code" != "district_code" && "city_code" != "district_code"
  {
  }

  /** The keys the filters may add, apart from the paging. */
  const FilterKeys: set<string> := {"name", "province_code", "city_code", "district_code", "rating_gte"}

  lemma PagingIsNotAFilter()
    ensures "page" !in FilterKeys && "page_size" !in FilterKeys && "status" !in FilterKeys
  {
  }

  /**
   * `loadRecommendors`' parameters: page and page size always; the name
   * trimmed when it is not blank; the three codes when the region has a
   * code list; `rating_gte` when a minimum rating is set; never the status.
   */
  function LoadParams(page: nat, pageSize: nat, f: Filters): (r: Params)
    ensures "page" in r && r["page"] == Count(page) && "page_size" in r && r["page_size"] == Count(pageSize)
    ensures "status" !in r
    ensures forall k :: k in r ==> k in FilterKeys || k == "page" || k == "page_size"
    ensures Truthy(f.name) && Trim(f.name.value) != "" ==> "name" in r && r["name"] == Str(Trim(f.name.value))
    ensures HasCodes(f) ==> var codes := f.regionCode.value.codes.value;
                            "province_code" in r && r["province_code"] == CodeParam(codes, 0)
                            && "city_code" in r && r["city_code"] == CodeParam(codes, 1)
                            && "district_code" in r && r["district_code"] == CodeParam(codes, 2)
    ensures RatingSet(f.minRating) ==> "rating_gte" in r && r["rating_gte"] == Score(f.minRating.value)
    ensures !RatingSet(f.minRating) ==> "rating_gte" !in r
  {
    PagingIsNotAFilter();
    var base := map["page" := Count(page), "page_size" := Count(pageSize)];
    WithRating(WithRegion(WithName(base, f), f), f)
  }

  /** The query the public list handler reads from those parameters. */
  function PublicQuery(page: nat, pageSize: nat, f: Filters): Recommendors.ListQuery {
    ListQueries.RecommendorQuery(LoadParams(page, pageSize, f))
  }

  /**
   * The status filter is never sent, so the handler falls back to its
   * default and the page lists active recommendors only, whatever the
   * status filter holds.
   */
  lemma PublicPageIsActiveOnly(db: Table<Models.Recommendor>, page: nat, pageSize: nat, f: Filters)
    requires Valid(db)
    ensures forall x :: x in Recommendors.GetRecommendors(db, PublicQuery(page, pageSize, f)).data ==> x.value.status == "active"
  {
    var q := PublicQuery(page, pageSize, f);
    assert q.status == "";
    Recommendors.PublicListStatus(db, q);
  }

  lemma RatingIsNotRead()
    ensures "rating_gte" !in ListQueries.RecommendorKeys
  {
  }

  /** No handler reads `rating_gte`: the minimum rating does not change the query. */
  lemma MinRatingIgnored(page: nat, pageSize: nat, f: Filters, minRating: Option<real>)
    ensures PublicQuery(page, pageSize, f) == PublicQuery(page, pageSize, f.(minRating := minRating))
  {
    var g := f.(minRating := minRating);
    var base := map["page" := Count(page), "page_size" := Count(pageSize)];
    var m := WithRegion(WithName(base, f), f);
    assert WithRegion(WithName(base, g), g) == m;
    assert SameBut(LoadParams(page, pageSize, f), LoadParams(page, pageSize, g), {"rating_gte"});
    RatingIsNotRead();
    ListQueries.RecommendorQueryReadsOnlyItsKeys(LoadParams(page, pageSize, f), LoadParams(page, pageSize, g));
  }

  /** A region picked in the selector reaches the handler as its three codes. */
  lemma SelectedRegionFilters(page: nat, pageSize: nat, f: Filters, p: string, c: string, d: string, labels: seq<string>)
    requires f.regionCode == Some(HandleChange([p, c, d], labels))
    ensures var q := PublicQuery(page, pageSize, f);
            q.provinceCode == p && q.cityCode == c && q.districtCode == d
  {
  }

  /** After a reset, the request carries the paging alone. */
  lemma ResetSendsPagingOnly(page: nat, pageSize: nat, f: Filters)
    ensures LoadParams(page, pageSize, Reset(f)) == map["page" := Count(page), "page_size" := Count(pageSize)]
  {
    assert !Truthy(Some(""));
  }
}
