/**
 * How the list handlers read a query string: every key through
 * `c.Query` or `c.DefaultQuery`, so a client's parameter object decides
 * the `ListQuery` a handler works with.
 */
module ListQueries {
  import opened Params
  import opened Text
  import Pagination
  import Recommendors
  import Destinations

  /** The recommendor list handlers' reads; `rating_gte` is not among them. */
  function RecommendorQuery(params: Params): (q: Recommendors.ListQuery)
    ensures q.page == ReadQuery(params, "page", "1") && q.pageSize == ReadQuery(params, "page_size", "10")
    ensures q.status == ReadQuery(params, "status", "") && q.name == ReadQuery(params, "name", "")
    ensures q.provinceCode == ReadQuery(params, "province_code", "")
    ensures q.cityCode == ReadQuery(params, "city_code", "")
    ensures q.districtCode == ReadQuery(params, "district_code", "")
  {
    Recommendors.ListQuery(
      ReadQuery(params, "page", "1"),
      ReadQuery(params, "page_size", "10"),
      ReadQuery(params, "sort_by", "id"),
      ReadQuery(params, "sort_order", "asc"),
      ReadQuery(params, "name", ""),
      ReadQuery(params, "gender", ""),
      ReadQuery(params, "province_code", ""),
      ReadQuery(params, "city_code", ""),
      ReadQuery(params, "district_code", ""),
      ReadQuery(params, "province", ""),
      ReadQuery(params, "city", ""),
      ReadQuery(params, "district", ""),
      ReadQuery(params, "status", ""),
      ReadQuery(params, "min_age", ""),
      ReadQuery(params, "max_age", ""))
  }

  /** The keys the recommendor list handlers read. */
  const RecommendorKeys: set<string> := {
    "page", "page_size", "sort_by", "sort_order", "name", "gender", "province_code", "city_code",
    "district_code", "province", "city", "district", "status", "min_age", "max_age"}

  /** Parameters that agree on the keys the handlers read give the same query, whatever else they hold. */
  lemma RecommendorQueryReadsOnlyItsKeys(a: Params, b: Params)
    requires forall k :: k in RecommendorKeys ==> (k in a <==> k in b) && (k in a ==> a[k] == b[k])
    ensures RecommendorQuery(a) == RecommendorQuery(b)
  {
    assert "page" in RecommendorKeys && "page_size" in RecommendorKeys && "sort_by" in RecommendorKeys;
    assert "sort_order" in RecommendorKeys && "name" in RecommendorKeys && "gender" in RecommendorKeys;
    assert "province_code" in RecommendorKeys && "city_code" in RecommendorKeys && "district_code" in RecommendorKeys;
    assert "province" in RecommendorKeys && "city" in RecommendorKeys && "district" in RecommendorKeys;
    assert "status" in RecommendorKeys && "min_age" in RecommendorKeys && "max_age" in RecommendorKeys;
  }

  /** The destination list handlers' reads. */
  function DestinationQuery(params: Params): (q: Destinations.ListQuery)
    ensures q.page == ReadQuery(params, "page", "1") && q.pageSize == ReadQuery(params, "page_size", "10")
    ensures q.status == ReadQuery(params, "status", "")
  {
    Destinations.ListQuery(
      ReadQuery(params, "page", "1"),
      ReadQuery(params, "page_size", "10"),
      ReadQuery(params, "sort_by", "id"),
      ReadQuery(params, "sort_order", "asc"),
      ReadQuery(params, "name", ""),
      ReadQuery(params, "category", ""),
      ReadQuery(params, "recommendor_id", ""),
      ReadQuery(params, "status", ""))
  }

  /** The keys the destination list handlers read. */
  const DestinationKeys: set<string> := {
    "page", "page_size", "sort_by", "sort_order", "name", "category", "recommendor_id", "status"}

  /** Parameters that agree on the keys the handlers read give the same query, whatever else they hold. */
  lemma DestinationQueryReadsOnlyItsKeys(a: Params, b: Params)
    requires forall k :: k in DestinationKeys ==> (k in a <==> k in b) && (k in a ==> a[k] == b[k])
    ensures DestinationQuery(a) == DestinationQuery(b)
  {
    assert "page" in DestinationKeys && "page_size" in DestinationKeys && "sort_by" in DestinationKeys;
    assert "sort_order" in DestinationKeys && "name" in DestinationKeys && "category" in DestinationKeys;
    assert "recommendor_id" in DestinationKeys && "status" in DestinationKeys;
  }

  /** `{ page, page_size }`, the parameters of a plain paged request. */
  function PageParams(page: nat, pageSize: nat): (p: Params)
    ensures p.Keys == {"page", "page_size"}
    ensures p["page"] == Count(page) && p["page_size"] == Count(pageSize)
  {
    map["page" := Count(page), "page_size" := Count(pageSize)]
  }

  /**
   * Such a request reaches either list handler as that page of ascending
   * ids, with page sizes outside 1..100 replaced by 10.
   */
  lemma ParsePageParams(page: nat, pageSize: nat)
    requires 1 <= page <= Int64Max && pageSize <= Int64Max
    ensures var p := PageParams(page, pageSize);
            var q := RecommendorQuery(p);
            var d := DestinationQuery(p);
            var size := if 1 <= pageSize <= Pagination.MaxPageSize then pageSize else Pagination.DefaultPageSize;
            Pagination.ParsePaginationRequest(q.page, q.pageSize, q.sortBy, q.sortOrder) == Pagination.PaginationRequest(page, size, "id", false)
            && Pagination.ParsePaginationRequest(d.page, d.pageSize, d.sortBy, d.sortOrder) == Pagination.PaginationRequest(page, size, "id", false)
  {
    var p := PageParams(page, pageSize);
    assert "sort_by" !in p && "sort_order" !in p;
    AtoiOfNat(pageSize);
    Pagination.ParsePageRoundTrip(page, NatToString(pageSize), "id", "asc");
    assert Lower("asc") != "desc";
  }
}
