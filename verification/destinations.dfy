/**
 * The destination handlers. A destination belongs to one recommendor,
 * named by key at creation and never changed afterwards; recommendor
 * deletes are soft, so the key keeps naming a stored row.
 */
module Destinations {
  import opened Wrappers
  import opened Text
  import opened Http
  import opened Pagination
  import opened Store
  import opened Models
  import Queries

  datatype CreateRequest = CreateRequest(
    recommendorID: nat,
    name: string,
    description: string,
    image: string,
    address: string,
    category: string,
    rating: real,
    status: string)

  /** A non-zero recommendor key, a name, and a rating within 0..5 (zero counts as absent). */
  predicate CreateBindingOk(req: CreateRequest) {
    req.recommendorID != 0 && req.name != "" && 0.0 <= req.rating <= 5.0
  }

  /** Every field optional; the owning recommendor is not among them. */
  datatype UpdateRequest = UpdateRequest(
    name: Option<string>,
    description: Option<string>,
    image: Option<string>,
    address: Option<string>,
    category: Option<string>,
    rating: Option<real>,
    status: Option<string>)

  predicate UpdateBindingOk(req: UpdateRequest) {
    req.rating.Some? ==> 0.0 <= req.rating.value <= 5.0
  }

  /** The messages of `GetDestinationByID`, which answers as `GetByKey` with these two. */
  const InvalidID: string := "Invalid destination ID"
  const NotFound: string := "Destination not found"
  const RecommendorNotFound: string := "Recommendor not found"

  function NewDestination(req: CreateRequest): (d: Destination)
    ensures d.status == (if req.status == "" then "active" else req.status)
    ensures d == Destination(req.recommendorID, req.name, req.description, req.image, req.address, req.category, req.rating, d.status)
  {
    Destination(req.recommendorID, req.name, req.description, req.image, req.address, req.category, req.rating,
                if req.status == "" then "active" else req.status)
  }

  /** Every stored destination names a stored recommendor. */
  predicate Owned(recs: Table<Recommendor>, dests: Table<Destination>) {
    forall id :: id in dests.rows ==> dests.rows[id].recommendorID in recs.rows
  }

  /** `CreateDestination`: binding, then the owner must be live, then the insert with status defaulting to "active". */
  function Create(recs: Table<Recommendor>, dests: Table<Destination>, req: CreateRequest): (r: (Table<Destination>, Response<Row<Destination>>))
    requires Valid(dests)
    ensures Valid(r.0)
    ensures !CreateBindingOk(req) ==> r == (dests, Fail(StatusBadRequest, InvalidRequestData))
    ensures CreateBindingOk(req) && !Live(recs, req.recommendorID) ==> r == (dests, Fail(StatusNotFound, RecommendorNotFound))
    ensures r.1.Reply? <==> CreateBindingOk(req) && Live(recs, req.recommendorID)
    ensures r.1.Fail? ==> r.0 == dests
    ensures r.1.Reply? ==> r.1 == Reply(StatusCreated, Row(dests.nextID, NewDestination(req)))
                           && Live(r.0, dests.nextID) && r.0.rows[dests.nextID] == NewDestination(req)
                           && dests.nextID !in dests.rows && r.0.deleted == dests.deleted
                           && (forall id :: id in dests.rows ==> id in r.0.rows && r.0.rows[id] == dests.rows[id])
  {
    if !CreateBindingOk(req) then (dests, Fail(StatusBadRequest, InvalidRequestData))
    else if !Live(recs, req.recommendorID) then (dests, Fail(StatusNotFound, RecommendorNotFound))
    else
      var (t, id) := Insert(dests, NewDestination(req));
      (t, Reply(StatusCreated, Row(id, NewDestination(req))))
  }

  /** Present fields overwrite, absent ones keep the stored value; the owner never changes. */
  function Merge(d: Destination, req: UpdateRequest): (m: Destination)
    ensures m.recommendorID == d.recommendorID
    ensures m.name == req.name.GetOr(d.name) && m.description == req.description.GetOr(d.description)
    ensures m.image == req.image.GetOr(d.image) && m.address == req.address.GetOr(d.address)
    ensures m.category == req.category.GetOr(d.category) && m.rating == req.rating.GetOr(d.rating)
    ensures m.status == req.status.GetOr(d.status)
  {
    Destination(d.recommendorID, req.name.GetOr(d.name), req.description.GetOr(d.description), req.image.GetOr(d.image),
                req.address.GetOr(d.address), req.category.GetOr(d.category), req.rating.GetOr(d.rating),
                req.status.GetOr(d.status))
  }

  /** An empty update changes nothing and repeating an update changes nothing more. */
  lemma MergeLaws(d: Destination, req: UpdateRequest)
    ensures Merge(d, UpdateRequest(None, None, None, None, None, None, None)) == d
    ensures Merge(Merge(d, req), req) == Merge(d, req)
  {
  }

  /** `UpdateDestination`: id, binding, lookup, then the merged row is saved. */
  function Update(dests: Table<Destination>, idParam: string, req: UpdateRequest): (r: (Table<Destination>, Response<Row<Destination>>))
    requires Valid(dests)
    ensures Valid(r.0)
    ensures ParseUint32(idParam).None? ==> r == (dests, Fail(StatusBadRequest, InvalidID))
    ensures ParseUint32(idParam).Some? && !UpdateBindingOk(req) ==> r == (dests, Fail(StatusBadRequest, InvalidRequestData))
    ensures ParseUint32(idParam).Some? && UpdateBindingOk(req) && !Live(dests, ParseUint32(idParam).value)
            ==> r == (dests, Fail(StatusNotFound, NotFound))
    ensures r.1.Reply? <==> ParseUint32(idParam).Some? && UpdateBindingOk(req) && Live(dests, ParseUint32(idParam).value)
    ensures r.1.Fail? ==> r.0 == dests
    ensures r.1.Reply? ==> var id := ParseUint32(idParam).value;
                           r.1 == Reply(StatusOK, Row(id, Merge(dests.rows[id], req)))
                           && r.0.rows == dests.rows[id := Merge(dests.rows[id], req)] && r.0.deleted == dests.deleted
  {
    match ParseUint32(idParam)
    case None => (dests, Fail(StatusBadRequest, InvalidID))
    case Some(id) =>
      if !UpdateBindingOk(req) then (dests, Fail(StatusBadRequest, InvalidRequestData))
      else if !Live(dests, id) then (dests, Fail(StatusNotFound, NotFound))
      else
        var m := Merge(dests.rows[id], req);
        (Put(dests, id, m), Reply(StatusOK, Row(id, m)))
  }

  function Delete(dests: Table<Destination>, idParam: string): (r: (Table<Destination>, Response<string>))
    requires Valid(dests)
    ensures Valid(r.0)
    ensures r.1.Reply? <==> ParseUint32(idParam).Some? && Live(dests, ParseUint32(idParam).value)
    ensures r.1.Reply? ==> r.1 == Reply(StatusOK, "Destination deleted successfully")
                           && r.0.rows == dests.rows && !Live(r.0, ParseUint32(idParam).value)
                           && forall other :: other != ParseUint32(idParam).value ==> (Live(r.0, other) <==> Live(dests, other))
    ensures r.1.Fail? ==> r.0 == dests
    ensures ParseUint32(idParam).None? ==> r.1 == Fail(StatusBadRequest, InvalidID)
    ensures ParseUint32(idParam).Some? && !r.1.Reply? ==> r.1 == Fail(StatusNotFound, NotFound)
  {
    match ParseUint32(idParam)
    case None => (dests, Fail(StatusBadRequest, InvalidID))
    case Some(id) =>
      if Live(dests, id) then (SoftDelete(dests, id), Reply(StatusOK, "Destination deleted successfully"))
      else (dests, Fail(StatusNotFound, NotFound))
  }

  /**
   * Ownership is kept by every destination handler and by every change
   * the recommendor handlers make (they only add or overwrite rows, and
   * their deletes are soft).
   */
  lemma OwnershipKept(recs: Table<Recommendor>, recs2: Table<Recommendor>, dests: Table<Destination>,
                      req: CreateRequest, idParam: string, upd: UpdateRequest)
    requires Valid(dests) && Owned(recs, dests)
    ensures Owned(recs, Create(recs, dests, req).0)
    ensures Owned(recs, Update(dests, idParam, upd).0)
    ensures Owned(recs, Delete(dests, idParam).0)
    ensures recs.rows.Keys <= recs2.rows.Keys ==> Owned(recs2, dests)
  {
    var (t, r) := Create(recs, dests, req);
    if r.Reply? {
      forall id | id in t.rows ensures t.rows[id].recommendorID in recs.rows {
        if id !in dests.rows {
          assert id == dests.nextID;
        }
      }
    }
  }

  /** The query string of the destination lists. */
  datatype ListQuery = ListQuery(
    page: string,
    pageSize: string,
    sortBy: string,
    sortOrder: string,
    name: string,
    category: string,
    recommendorID: string,
    status: string)

  function Column(d: Destination, f: string): FilterValue {
    if f == "name" then Str(d.name)
    else if f == "category" then Str(d.category)
    else if f == "recommendor_id" then Num(d.recommendorID)
    else if f == "status" then Str(d.status)
    else Nil
  }

  function DestinationColumns(d: Destination): Columns {
    (f: string) => Column(d, f)
  }

  lemma StatusColumn(d: Destination)
    ensures DestinationColumns(d)("status") == Str(d.status)
  {
    assert "status" != "name" && "status" != "category" && "status" != "recommendor_id";
  }

  lemma OwnerColumn(d: Destination)
    ensures DestinationColumns(d)("recommendor_id") == Num(d.recommendorID)
  {
    assert "recommendor_id" != "name" && "recommendor_id" != "category";
  }

  /** The filters of the admin list: name, category, the owner when it parses as an integer, and status. */
  function AdminConditions(q: ListQuery): (r: seq<Condition>)
    ensures q.status != "" ==> Equals("status", Str(q.status)) in r
    ensures Atoi(q.recommendorID).Some? ==> Equals("recommendor_id", Num(Atoi(q.recommendorID).value)) in r
  {
    var c := ApplyFilter([], "name", Str(q.name));
    var c := ApplyEqualFilter(c, "category", Str(q.category));
    var o := if Atoi(q.recommendorID).Some? then ApplyEqualFilter(c, "recommendor_id", Num(Atoi(q.recommendorID).value)) else c;
    var s := ApplyEqualFilter(o, "status", Str(q.status));
    assert Atoi(q.recommendorID).Some? ==> o[|c|] == Equals("recommendor_id", Num(Atoi(q.recommendorID).value)) && s[|c|] == o[|c|];
    s
  }

  /** `GetDestinations`: the admin filters, and only active destinations unless a status is asked for. */
  function PublicConditions(q: ListQuery): (r: seq<Condition>)
    ensures Equals("status", Str(if q.status == "" then "active" else q.status)) in r
    ensures Atoi(q.recommendorID).Some? ==> Equals("recommendor_id", Num(Atoi(q.recommendorID).value)) in r
  {
    var c := AdminConditions(q);
    if q.status == "" then
      var r := c + [Equals("status", Str("active"))];
      assert r[|c|] == Equals("status", Str("active"));
      r
    else c
  }

  function Pages(q: ListQuery): PaginationRequest {
    ParsePaginationRequest(q.page, q.pageSize, q.sortBy, q.sortOrder)
  }

  /** `GetDestinations`: the requested page of the destinations meeting the public filters. */
  function GetDestinations(dests: Table<Destination>, q: ListQuery): (r: PaginationResponse<Row<Destination>>)
    requires Valid(dests)
    ensures var rows := Queries.Where(dests, DestinationColumns, PublicConditions(q));
            r.data == PageOf(Queries.Ordered(rows, Pages(q).sortDesc), Pages(q)) && r.total == |rows|
  {
    Queries.List(dests, DestinationColumns, PublicConditions(q), Pages(q))
  }

  /** `GetAdminDestinations`: the requested page of the destinations meeting the admin filters. */
  function GetAdminDestinations(dests: Table<Destination>, q: ListQuery): (r: PaginationResponse<Row<Destination>>)
    requires Valid(dests)
    ensures var rows := Queries.Where(dests, DestinationColumns, AdminConditions(q));
            r.data == PageOf(Queries.Ordered(rows, Pages(q).sortDesc), Pages(q)) && r.total == |rows|
  {
    Queries.List(dests, DestinationColumns, AdminConditions(q), Pages(q))
  }

  /** The public list shows active destinations unless a status is given, and then only that status. */
  lemma PublicListStatus(dests: Table<Destination>, q: ListQuery)
    requires Valid(dests)
    ensures forall x :: x in GetDestinations(dests, q).data ==> x.value.status == (if q.status == "" then "active" else q.status)
  {
    var want := if q.status == "" then "active" else q.status;
    Queries.ListedRowsMeet(dests, DestinationColumns, PublicConditions(q), Pages(q), Equals("status", Str(want)));
    forall x | x in GetDestinations(dests, q).data ensures x.value.status == want {
      StatusColumn(x.value);
    }
  }

  /** A `recommendor_id` that parses restricts both lists to that owner; one that does not is ignored. */
  lemma OwnerFilter(dests: Table<Destination>, q: ListQuery)
    requires Valid(dests) && Atoi(q.recommendorID).Some?
    ensures forall x :: x in GetDestinations(dests, q).data ==> x.value.recommendorID == Atoi(q.recommendorID).value
    ensures forall x :: x in GetAdminDestinations(dests, q).data ==> x.value.recommendorID == Atoi(q.recommendorID).value
  {
    var id := Atoi(q.recommendorID).value;
    var pr := Pages(q);
    assert Equals("recommendor_id", Num(id)) in PublicConditions(q);
    assert Equals("recommendor_id", Num(id)) in AdminConditions(q);
    ListedOwner(dests, PublicConditions(q), pr, id);
    ListedOwner(dests, AdminConditions(q), pr, id);
    assert GetDestinations(dests, q) == Queries.List(dests, DestinationColumns, PublicConditions(q), pr);
    assert GetAdminDestinations(dests, q) == Queries.List(dests, DestinationColumns, AdminConditions(q), pr);
  }

  /** A list filtered on an owner holds only that owner's destinations. */
  lemma ListedOwner(dests: Table<Destination>, conds: seq<Condition>, pr: PaginationRequest, id: int)
    requires Valid(dests) && WellFormed(pr) && Equals("recommendor_id", Num(id)) in conds
    ensures forall x :: x in Queries.List(dests, DestinationColumns, conds, pr).data ==> x.value.recommendorID == id
  {
    Queries.ListedRowsMeet(dests, DestinationColumns, conds, pr, Equals("recommendor_id", Num(id)));
    forall x | x in Queries.List(dests, DestinationColumns, conds, pr).data ensures x.value.recommendorID == id {
      OwnerColumn(x.value);
    }
  }

  /** The conditions of the per-recommendor list. */
  function OwnerConditions(id: nat): seq<Condition> {
    [Equals("recommendor_id", Num(id)), Equals("status", Str("active"))]
  }

  /** `GetDestinationsByRecommendor`: the owner must be live; then its active destinations, paged. */
  function GetDestinationsByRecommendor(recs: Table<Recommendor>, dests: Table<Destination>, idParam: string, q: ListQuery)
    : (r: Response<PaginationResponse<Row<Destination>>>)
    requires Valid(dests)
    ensures ParseUint32(idParam).None? ==> r == Fail(StatusBadRequest, "Invalid recommender ID")
    ensures ParseUint32(idParam).Some? && !Live(recs, ParseUint32(idParam).value) ==> r == Fail(StatusNotFound, "Recommender not found")
    ensures r.Reply? <==> ParseUint32(idParam).Some? && Live(recs, ParseUint32(idParam).value)
    ensures r.Reply? ==> r.status == StatusOK
                         && r.body.total == |Queries.Where(dests, DestinationColumns, OwnerConditions(ParseUint32(idParam).value))|
                         && r.body.page == Pages(q).page && r.body.pageSize == Pages(q).pageSize
                         && r.body.data == PageOf(Queries.Ordered(Queries.Where(dests, DestinationColumns, OwnerConditions(ParseUint32(idParam).value)), Pages(q).sortDesc), Pages(q))
                         && forall x :: x in r.body.data ==> Live(dests, x.id) && x.value == dests.rows[x.id]
                                                             && x.value.recommendorID == ParseUint32(idParam).value
                                                             && x.value.status == "active"
  {
    match ParseUint32(idParam)
    case None => Fail(StatusBadRequest, "Invalid recommender ID")
    case Some(id) =>
      if !Live(recs, id) then Fail(StatusNotFound, "Recommender not found")
      else
        var page := Queries.List(dests, DestinationColumns, OwnerConditions(id), Pages(q));
        OwnerRows(dests, id, q);
        Reply(StatusOK, page)
  }

  lemma OwnerRows(dests: Table<Destination>, id: nat, q: ListQuery)
    requires Valid(dests)
    ensures forall x :: x in Queries.List(dests, DestinationColumns, OwnerConditions(id), Pages(q)).data
                        ==> x.value.recommendorID == id && x.value.status == "active"
  {
    forall x | x in Queries.List(dests, DestinationColumns, OwnerConditions(id), Pages(q)).data
      ensures x.value.recommendorID == id && x.value.status == "active"
    {
      assert HoldsAll(OwnerConditions(id), DestinationColumns(x.value));
      assert Holds(OwnerConditions(id)[0], DestinationColumns(x.value));
      assert Holds(OwnerConditions(id)[1], DestinationColumns(x.value));
      OwnerColumn(x.value);
      StatusColumn(x.value);
    }
  }

  /**
   * The recommendor detail preloads its destinations: the live ones it
   * owns, whatever their status.
   */
  function GetRecommendorWithDestinations(recs: Table<Recommendor>, dests: Table<Destination>, idParam: string)
    : (r: Response<(Row<Recommendor>, seq<Row<Destination>>)>)
    requires Valid(dests)
    ensures ParseUint32(idParam).None? ==> r == Fail(StatusBadRequest, "Invalid recommendor ID")
    ensures r.Reply? <==> ParseUint32(idParam).Some? && Live(recs, ParseUint32(idParam).value)
    ensures ParseUint32(idParam).Some? && !r.Reply? ==> r == Fail(StatusNotFound, "Recommendor not found")
    ensures r.Reply? ==> var id := ParseUint32(idParam).value;
                         r.body.0 == Row(id, recs.rows[id])
                         && (forall x :: x in r.body.1 ==> Live(dests, x.id) && x.value == dests.rows[x.id] && x.value.recommendorID == id)
                         && (forall d :: Live(dests, d) && dests.rows[d].recommendorID == id ==> Row(d, dests.rows[d]) in r.body.1)
  {
    match ParseUint32(idParam)
    case None => Fail(StatusBadRequest, "Invalid recommendor ID")
    case Some(id) =>
      if !Live(recs, id) then Fail(StatusNotFound, "Recommendor not found")
      else Reply(StatusOK, (Row(id, recs.rows[id]), Select(dests, (d: Destination) => d.recommendorID == id)))
  }

  /**
   * Deleting a recommendor leaves its destinations in place: its own list
   * answers 404 from then on, while the general list still shows them.
   */
  lemma DeletedOwnerKeepsDestinationsListed(recs: Table<Recommendor>, dests: Table<Destination>, owner: nat, d: nat, q: ListQuery)
    requires Valid(recs) && Valid(dests) && Live(recs, owner) && owner <= Uint32Max
    requires Live(dests, d) && dests.rows[d].recommendorID == owner && dests.rows[d].status == "active"
    requires q.name == "" && q.category == "" && q.recommendorID == "" && q.status == ""
    ensures GetDestinationsByRecommendor(SoftDelete(recs, owner), dests, NatToString(owner), q)
            == Fail(StatusNotFound, "Recommender not found")
    ensures Row(d, dests.rows[d]) in Queries.Where(dests, DestinationColumns, PublicConditions(q))
  {
    ParseUint32OfNat(owner);
    var conds := PublicConditions(q);
    assert conds == [Equals("status", Str("active"))];
    StatusColumn(dests.rows[d]);
    assert HoldsAll(conds, DestinationColumns(dests.rows[d]));
  }
}
