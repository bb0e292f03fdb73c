/**
 * The admin page for recommendors: the list request, the payload the
 * create/edit form submits, and the region the edit form starts from.
 */
module RecommendorManagement {
  import opened Wrappers
  import opened Text
  import opened Pagination
  import opened Params
  import opened RegionSelector
  import Models
  import ListQueries

  /** The list request: page and page size, then the filters, with empty values deleted. */
  function ListParams(page: nat, pageSize: nat, filters: Params): (r: Params)
    ensures forall k :: k in r ==> Kept(r[k])
    ensures forall k :: k in filters && k != "page" && k != "page_size" ==> (k in r <==> Kept(filters[k]))
  {
    Clean(Spread(map["page" := Count(page), "page_size" := Count(pageSize)], filters))
  }

  /**
   * Unless a filter overrides them, the page and page size always reach
   * the handler, which then uses them as sent (sizes above 100 fall back
   * to 10 there).
   */
  lemma PagingReachesServer(page: nat, pageSize: nat, filters: Params)
    requires "page" !in filters && "page_size" !in filters
    requires 1 <= page <= Int64Max && 1 <= pageSize <= MaxPageSize
    ensures var q := ListQueries.RecommendorQuery(ListParams(page, pageSize, filters));
            var pr := ParsePaginationRequest(q.page, q.pageSize, q.sortBy, q.sortOrder);
            pr.page == page && pr.pageSize == pageSize
  {
    var r := ListParams(page, pageSize, filters);
    assert r["page"] == Count(page) && r["page_size"] == Count(pageSize);
    var q := ListQueries.RecommendorQuery(r);
    ParsePageRoundTrip(page, q.pageSize, q.sortBy, q.sortOrder);
    ParsePageSizeRoundTrip(pageSize, q.page, q.sortBy, q.sortOrder);
  }

  /** The form's values; the dates are already rendered as ISO text when set. */
  datatype Form = Form(
    name: string,
    gender: string,
    age: int,
    idNumber: string,
    avatar: Option<string>,
    bio: string,
    validFrom: Option<string>,
    validUntil: Option<string>,
    phone: string,
    email: string,
    status: Option<string>,
    region: Option<RegionInfo>)

  /** The request body; `None` is a key that is missing or `undefined` (dropped from the JSON), or `null` for the dates. */
  datatype Payload = Payload(
    name: string,
    gender: string,
    age: int,
    idNumber: string,
    avatar: Option<string>,
    bio: string,
    validFrom: Option<string>,
    validUntil: Option<string>,
    phone: string,
    email: string,
    status: string,
    provinceCode: Option<string>,
    cityCode: Option<string>,
    districtCode: Option<string>,
    regionAddress: Option<string>)

  /**
   * `handleSubmit`: the uploaded avatar wins over the form's, the status
   * falls back to "active", and the region keys are added only when the
   * region value carries a code list.
   */
  function Submit(form: Form, avatarUrl: Option<string>): (p: Payload)
    ensures p.avatar == if Truthy(avatarUrl) then avatarUrl else form.avatar
    ensures p.status == if Truthy(form.status) then form.status.value else "active"
    ensures p.validFrom == form.validFrom && p.validUntil == form.validUntil
    ensures !(form.region.Some? && form.region.value.codes.Some?) ==>
              p.provinceCode.None? && p.cityCode.None? && p.districtCode.None? && p.regionAddress.None?
    ensures form.region.Some? && form.region.value.codes.Some? ==>
              var codes := form.region.value.codes.value;
              p.provinceCode == At(codes, 0) && p.cityCode == At(codes, 1) && p.districtCode == At(codes, 2)
              && p.regionAddress == form.region.value.names
  {
    var withRegion := form.region.Some? && form.region.value.codes.Some?;
    var codes := if withRegion then form.region.value.codes.value else [];
    Payload(
      form.name, form.gender, form.age, form.idNumber,
      if Truthy(avatarUrl) then avatarUrl else form.avatar,
      form.bio, form.validFrom, form.validUntil, form.phone, form.email,
      if Truthy(form.status) then form.status.value else "active",
      if withRegion then At(codes, 0) else None,
      if withRegion then At(codes, 1) else None,
      if withRegion then At(codes, 2) else None,
      if withRegion then form.region.value.names else None)
  }

  /**
   * A region picked in the selector reaches the server as its three codes
   * and the labels joined as the selector displays them.
   */
  lemma SelectedRegionSubmitted(form: Form, avatarUrl: Option<string>, p: string, c: string, d: string, labels: seq<string>)
    requires form.region == Some(HandleChange([p, c, d], labels))
    ensures var body := Submit(form, avatarUrl);
            body.provinceCode == Some(p) && body.cityCode == Some(c) && body.districtCode == Some(d)
            && body.regionAddress == Some(DisplayRender(labels))
  {
  }

  /** The edit form's region, as written: only the code list and the address. */
  function EditRegionAsWritten(detail: Models.Recommendor): (r: RegionInfo)
    ensures r.provinceCode.None? && r.cityCode.None? && r.districtCode.None?
    ensures r.codes == Some([detail.provinceCode, detail.cityCode, detail.districtCode])
  {
    RegionInfo(None, None, None, None, None, None,
               Some([detail.provinceCode, detail.cityCode, detail.districtCode]), Some(detail.regionAddress))
  }

  /**
   * The selector reads only the three code keys of an object, so the
   * edit form of every stored recommendor opens with no region shown.
   */
  lemma EditFormShowsNoRegion(detail: Models.Recommendor)
    ensures ConvertToValue(Info(EditRegionAsWritten(detail))) == []
  {
    ConvertInfo(EditRegionAsWritten(detail));
  }

  /** The edit form's region with the code keys the selector reads. */
  function EditRegion(detail: Models.Recommendor): (r: RegionInfo)
    ensures r.codes == Some([detail.provinceCode, detail.cityCode, detail.districtCode])
    ensures r.names == Some(detail.regionAddress)
  {
    RegionInfo(Some(detail.provinceCode), None, Some(detail.cityCode), None, Some(detail.districtCode), None,
               Some([detail.provinceCode, detail.cityCode, detail.districtCode]), Some(detail.regionAddress))
  }

  /**
   * With the code keys set, the selector shows the stored region, and
   * submitting the form unchanged sends the stored codes and address back.
   */
  lemma EditFormShowsStoredRegion(detail: Models.Recommendor, form: Form, avatarUrl: Option<string>)
    requires CodePath([detail.provinceCode, detail.cityCode, detail.districtCode])
    requires form.region == Some(EditRegion(detail))
    ensures ConvertToValue(Info(EditRegion(detail))) == [detail.provinceCode, detail.cityCode, detail.districtCode]
    ensures var body := Submit(form, avatarUrl);
            body.provinceCode == Some(detail.provinceCode) && body.cityCode == Some(detail.cityCode)
            && body.districtCode == Some(detail.districtCode) && body.regionAddress == Some(detail.regionAddress)
  {
    var codes := [detail.provinceCode, detail.cityCode, detail.districtCode];
    assert codes[0] != "" && codes[1] != "" && codes[2] != "";
    ConvertInfo(EditRegion(detail));
  }
}
