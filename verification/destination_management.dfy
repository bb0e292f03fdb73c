/**
 * The admin page for destinations: the list request, the payload the
 * create/edit form submits, and the region the edit form starts from.
 */
module DestinationManagement {
  import opened Wrappers
  import opened Text
  import opened Pagination
  import opened Params
  import opened RegionSelector
  import ListQueries

  /** The list request as written: the page size goes out under the key "pageSize". */
  function ListParamsAsWritten(page: nat, pageSize: nat, filters: Params): (r: Params)
    ensures forall k :: k in r ==> Kept(r[k])
    ensures "page" !in filters && "pageSize" !in filters ==> "page" in r && r["page"] == Count(page) && "pageSize" in r && r["pageSize"] == Count(pageSize)
    ensures "page_size" !in filters ==> "page_size" !in r
  {
    Clean(Spread(map["page" := Count(page), "pageSize" := Count(pageSize)], filters))
  }

  /**
   * The handler reads "page_size" only, so whatever size the table asks
   * for, the server returns pages of 10.
   */
  lemma PageSizeIgnored(page: nat, pageSize: nat, filters: Params)
    requires "page_size" !in filters
    ensures var q := ListQueries.DestinationQuery(ListParamsAsWritten(page, pageSize, filters));
            ParsePaginationRequest(q.page, q.pageSize, q.sortBy, q.sortOrder).pageSize == 10
  {
    assert NatToString(10) == NatToString(1) + [DigitChar(0)] == "10";
    AtoiOfNat(10);
  }

  /** The list request with the key the handler reads. */
  function ListParams(page: nat, pageSize: nat, filters: Params): (r: Params)
    ensures forall k :: k in r ==> Kept(r[k])
    ensures "page" !in filters && "page_size" !in filters ==> "page" in r && r["page"] == Count(page) && "page_size" in r && r["page_size"] == Count(pageSize)
  {
    Clean(Spread(map["page" := Count(page), "page_size" := Count(pageSize)], filters))
  }

  /** With the key the handler reads, the table's page size is the one served. */
  lemma PageSizeServed(page: nat, pageSize: nat, filters: Params)
    requires "page" !in filters && "page_size" !in filters
    requires 1 <= pageSize <= MaxPageSize
    ensures var q := ListQueries.DestinationQuery(ListParams(page, pageSize, filters));
            ParsePaginationRequest(q.page, q.pageSize, q.sortBy, q.sortOrder).pageSize == pageSize
  {
    var q := ListQueries.DestinationQuery(ListParams(page, pageSize, filters));
    ParsePageSizeRoundTrip(pageSize, q.page, q.sortBy, q.sortOrder);
  }

  /** The filter keys the page sends and no destination handler reads. */
  const UnreadFilterKeys: set<string> := {"recommendorId", "regionCode", "tags"}

  /** Two parameter maps that differ only under `k` agree, once spread over the same base and cleaned, on every other key. */
  lemma CleanSpreadAgree(base: Params, f: Params, g: Params, k: string, key: string)
    requires key != k
    requires (key in f <==> key in g) && (key in f ==> f[key] == g[key])
    ensures var a := Clean(Spread(base, f));
            var b := Clean(Spread(base, g));
            (key in a <==> key in b) && (key in a ==> a[key] == b[key])
  {
  }

  /**
   * The owner, region and tag filters go out under keys the admin handler
   * does not read, so whatever they hold the handler serves the same list
   * as without them, in the request as written and in the corrected one.
   */
  lemma UnreadFiltersIgnored(page: nat, pageSize: nat, filters: Params, k: string, v: Param)
    requires k in UnreadFilterKeys
    ensures ListQueries.DestinationQuery(ListParamsAsWritten(page, pageSize, filters[k := v]))
            == ListQueries.DestinationQuery(ListParamsAsWritten(page, pageSize, filters - {k}))
    ensures ListQueries.DestinationQuery(ListParams(page, pageSize, filters[k := v]))
            == ListQueries.DestinationQuery(ListParams(page, pageSize, filters - {k}))
  {
    var f := filters[k := v];
    var g := filters - {k};
    var w := map["page" := Count(page), "pageSize" := Count(pageSize)];
    var c := map["page" := Count(page), "page_size" := Count(pageSize)];
    forall key | key in ListQueries.DestinationKeys
      ensures var a := Clean(Spread(w, f)); var b := Clean(Spread(w, g));
              (key in a <==> key in b) && (key in a ==> a[key] == b[key])
      ensures var a := Clean(Spread(c, f)); var b := Clean(Spread(c, g));
              (key in a <==> key in b) && (key in a ==> a[key] == b[key])
    {
      CleanSpreadAgree(w, f, g, k, key);
      CleanSpreadAgree(c, f, g, k, key);
    }
    ListQueries.DestinationQueryReadsOnlyItsKeys(Clean(Spread(w, f)), Clean(Spread(w, g)));
    ListQueries.DestinationQueryReadsOnlyItsKeys(Clean(Spread(c, f)), Clean(Spread(c, g)));
  }

  /**
   * The owner select is filled by `getAdminRecommendors({ pageSize: 1000 })`;
   * the handler reads no "pageSize", so the select offers only the first
   * page of ten recommendors by ascending id.
   */
  lemma OwnerSelectReadsFirstTen()
    ensures var q := ListQueries.RecommendorQuery(map["pageSize" := Count(1000)]);
            ParsePaginationRequest(q.page, q.pageSize, q.sortBy, q.sortOrder) == PaginationRequest(1, DefaultPageSize, "id", false)
  {
    assert NatToString(1) == [DigitChar(1)] == "1";
    assert NatToString(10) == NatToString(1) + [DigitChar(0)] == "10";
    AtoiOfNat(1);
    AtoiOfNat(10);
    assert Lower("asc") != "desc";
  }

  /** The form's values. */
  datatype Form = Form(
    name: string,
    description: string,
    category: string,
    rating: real,
    status: string,
    image: Option<string>,
    region: Option<RegionInfo>,
    recommendorId: Option<nat>,
    tags: Option<seq<string>>)

  /** The request body: the form's keys plus the ones `handleSubmit` adds. */
  datatype Payload = Payload(
    name: string,
    description: string,
    category: string,
    rating: real,
    status: string,
    image: Option<string>,
    address: string,
    recommendorId: Option<nat>,
    tags: seq<string>,
    regionCode: Option<string>,
    regionName: Option<string>)

  const UnknownRegion: string := "未知地区"

  /**
   * `handleSubmit`: the address is the region's names or "未知地区", the
   * district code becomes `regionCode`, tags default to none and an
   * uploaded image replaces the form's. Reading the region of a form
   * without one (or without a code list) throws before anything is sent.
   */
  function Submit(form: Form, imageUrl: Option<string>): (r: Result<Payload, string>)
    ensures r.Ok? <==> form.region.Some? && form.region.value.codes.Some?
    ensures r.Ok? ==> var region := form.region.value;
                      var p := r.value;
                      p.address == (if Truthy(region.names) then region.names.value else UnknownRegion)
                      && p.regionCode == At(region.codes.value, 2) && p.regionName == region.names
                      && p.recommendorId == form.recommendorId
                      && p.tags == (if form.tags.Some? then form.tags.value else [])
                      && p.image == (if Truthy(imageUrl) then imageUrl else form.image)
                      && p.name == form.name && p.rating == form.rating && p.status == form.status
  {
    if form.region.None? || form.region.value.codes.None? then Err("TypeError")
    else
      var region := form.region.value;
      Ok(Payload(
        form.name, form.description, form.category, form.rating, form.status,
        if Truthy(imageUrl) then imageUrl else form.image,
        if Truthy(region.names) then region.names.value else UnknownRegion,
        form.recommendorId,
        if form.tags.Some? then form.tags.value else [],
        At(region.codes.value, 2),
        region.names))
  }

  /** A region picked in the selector is submitted as its county code and the displayed text. */
  lemma SelectedRegionSubmitted(form: Form, imageUrl: Option<string>, p: string, c: string, d: string, labels: seq<string>)
    requires form.region == Some(HandleChange([p, c, d], labels))
    ensures Submit(form, imageUrl).Ok?
    ensures Submit(form, imageUrl).value.regionCode == Some(d)
    ensures Submit(form, imageUrl).value.address == (if DisplayRender(labels) != "" then DisplayRender(labels) else UnknownRegion)
  {
  }

  /** The region object of a destination detail, when it has one. */
  datatype DetailRegion = DetailRegion(provinceCode: string, cityCode: string, districtCode: string, fullAddress: string)

  /** The edit form's region: `null` without a detail region, else the code list and the address. */
  function EditRegion(region: Option<DetailRegion>): (r: FormValue)
    ensures region.None? ==> r == Missing
    ensures region.Some? ==> r.Info? && r.info.codes == Some([region.value.provinceCode, region.value.cityCode, region.value.districtCode])
  {
    match region
    case None => Missing
    case Some(x) => Info(RegionInfo(None, None, None, None, None, None,
                                    Some([x.provinceCode, x.cityCode, x.districtCode]), Some(x.fullAddress)))
  }

  /** Either way the selector of the edit form opens empty. */
  lemma EditFormShowsNoRegion(region: Option<DetailRegion>)
    ensures ConvertToValue(EditRegion(region)) == []
  {
    if region.Some? {
      ConvertInfo(EditRegion(region).info);
    }
  }
}
