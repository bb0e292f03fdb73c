/**
 * The region handlers. Region names carry a unique index that also
 * covers soft-deleted rows, so a clash surfaces as a failed insert or
 * save rather than a lookup.
 */
module Regions {
  import opened Wrappers
  import opened Text
  import opened Http
  import opened Pagination
  import opened Store
  import opened Models
  import Queries

  /** The messages of `GetRegionByID`, which answers as `GetByKey` with these two. */
  const InvalidID: string := "Invalid region ID"
  const NotFound: string := "Region not found"

  function NameOf(r: Region): string {
    r.name
  }

  /** `CreateRegion`: a name is required; the index refuses a name any stored row has. */
  function Create(db: Table<Region>, name: string, description: string): (r: (Table<Region>, Response<Row<Region>>))
    requires Valid(db)
    ensures Valid(r.0)
    ensures name == "" ==> r == (db, Fail(StatusBadRequest, InvalidRequestData))
    ensures name != "" && Held(db, NameOf, name) ==> r == (db, Fail(StatusInternalServerError, "Failed to create region: " + UniqueViolation))
    ensures r.1.Reply? <==> name != "" && !Held(db, NameOf, name)
    ensures r.1.Fail? ==> r.0 == db
    ensures r.1.Reply? ==> r.1 == Reply(StatusCreated, Row(db.nextID, Region(name, description)))
                           && r.0 == Insert(db, Region(name, description)).0
  {
    if name == "" then (db, Fail(StatusBadRequest, InvalidRequestData))
    else if Held(db, NameOf, name) then (db, Fail(StatusInternalServerError, "Failed to create region: " + UniqueViolation))
    else
      var (t, id) := Insert(db, Region(name, description));
      (t, Reply(StatusCreated, Row(id, Region(name, description))))
  }

  /** Non-empty fields overwrite; an empty one keeps the stored value, so neither can be cleared. */
  function Merge(r: Region, name: string, description: string): (m: Region)
    ensures m.name == (if name != "" then name else r.name)
    ensures m.description == (if description != "" then description else r.description)
  {
    Region(if name != "" then name else r.name, if description != "" then description else r.description)
  }

  /** `UpdateRegion`: the merged row is saved unless another stored row has its name. */
  function Update(db: Table<Region>, idParam: string, name: string, description: string): (r: (Table<Region>, Response<Row<Region>>))
    requires Valid(db)
    ensures Valid(r.0)
    ensures ParseUint32(idParam).None? ==> r == (db, Fail(StatusBadRequest, InvalidID))
    ensures ParseUint32(idParam).Some? && !Live(db, ParseUint32(idParam).value) ==> r == (db, Fail(StatusNotFound, NotFound))
    ensures r.1.Fail? ==> r.0 == db
    ensures r.1.Reply? <==> (ParseUint32(idParam).Some? && Live(db, ParseUint32(idParam).value)
                             && !HeldByOther(db, NameOf, Merge(db.rows[ParseUint32(idParam).value], name, description).name, ParseUint32(idParam).value))
    ensures r.1.Reply? ==> var id := ParseUint32(idParam).value;
                           r.1 == Reply(StatusOK, Row(id, Merge(db.rows[id], name, description)))
                           && r.0 == Put(db, id, Merge(db.rows[id], name, description))
  {
    match ParseUint32(idParam)
    case None => (db, Fail(StatusBadRequest, InvalidID))
    case Some(id) =>
      if !Live(db, id) then (db, Fail(StatusNotFound, NotFound))
      else
        var m := Merge(db.rows[id], name, description);
        if HeldByOther(db, NameOf, m.name, id) then (db, Fail(StatusInternalServerError, "Failed to update region: " + UniqueViolation))
        else (Put(db, id, m), Reply(StatusOK, Row(id, m)))
  }

  /** Create and Update keep region names unique across all stored rows. */
  lemma NamesStayUnique(db: Table<Region>, idParam: string, name: string, description: string)
    requires Valid(db) && Unique(db, NameOf)
    ensures Unique(Create(db, name, description).0, NameOf)
    ensures Unique(Update(db, idParam, name, description).0, NameOf)
  {
    if name != "" && !Held(db, NameOf, name) {
      InsertKeepsUnique(db, NameOf, Region(name, description));
    }
    var r := Update(db, idParam, name, description);
    if r.1.Reply? {
      var id := ParseUint32(idParam).value;
      PutKeepsUnique(db, NameOf, id, Merge(db.rows[id], name, description));
    }
  }

  /**
   * `DeleteRegion`. The usage count is the result of counting recommendors
   * by a `region_id` column: `None` when that query fails.
   */
  function Delete(db: Table<Region>, idParam: string, usage: Option<nat>): (r: (Table<Region>, Response<string>))
    requires Valid(db)
    ensures Valid(r.0)
    ensures ParseUint32(idParam).None? ==> r == (db, Fail(StatusBadRequest, InvalidID))
    ensures ParseUint32(idParam).Some? && !Live(db, ParseUint32(idParam).value) ==> r == (db, Fail(StatusNotFound, NotFound))
    ensures ParseUint32(idParam).Some? && Live(db, ParseUint32(idParam).value) && usage.None?
            ==> r == (db, Fail(StatusInternalServerError, "Failed to check region usage"))
    ensures ParseUint32(idParam).Some? && Live(db, ParseUint32(idParam).value) && usage.Some? && usage.value > 0
            ==> r == (db, Fail(StatusBadRequest, "Cannot delete region because it is being used by recommendors"))
    ensures r.1.Reply? <==> ParseUint32(idParam).Some? && Live(db, ParseUint32(idParam).value) && usage == Some(0)
    ensures r.1.Fail? ==> r.0 == db
    ensures r.1.Reply? ==> r.1 == Reply(StatusOK, "Region deleted successfully")
                           && r.0 == SoftDelete(db, ParseUint32(idParam).value)
  {
    match ParseUint32(idParam)
    case None => (db, Fail(StatusBadRequest, InvalidID))
    case Some(id) =>
      if !Live(db, id) then (db, Fail(StatusNotFound, NotFound))
      else if usage.None? then (db, Fail(StatusInternalServerError, "Failed to check region usage"))
      else if usage.value > 0 then (db, Fail(StatusBadRequest, "Cannot delete region because it is being used by recommendors"))
      else (SoftDelete(db, id), Reply(StatusOK, "Region deleted successfully"))
  }

  /**
   * A deleted region keeps its name in the index: creating a region of
   * that name again is refused with a 500.
   */
  lemma DeletedNameStaysTaken(db: Table<Region>, idParam: string, description: string)
    requires Valid(db) && Delete(db, idParam, Some(0)).1.Reply?
    ensures var after := Delete(db, idParam, Some(0)).0;
            var name := db.rows[ParseUint32(idParam).value].name;
            GetByKey(after, idParam, InvalidID, NotFound) == Fail(StatusNotFound, NotFound)
            && Create(after, name, description).1.Fail?
  {
    var id := ParseUint32(idParam).value;
    var after := Delete(db, idParam, Some(0)).0;
    assert id in after.rows && NameOf(after.rows[id]) == db.rows[id].name;
  }

  function Column(r: Region, f: string): FilterValue {
    if f == "name" then Str(r.name) else Nil
  }

  function RegionColumns(r: Region): Columns {
    (f: string) => Column(r, f)
  }

  /** The one filter of `GetRegions`: a case-insensitive search on the name, none for an empty name. */
  function NameConditions(name: string): (conds: seq<Condition>)
    ensures name == "" ==> conds == []
  {
    ApplyFilter([], "name", Str(name))
  }

  /**
   * `GetRegions`: the requested page of the regions meeting the name
   * search, with the total counting every match.
   */
  function GetRegions(db: Table<Region>, page: string, pageSize: string, sortBy: string, sortOrder: string, name: string)
    : (r: PaginationResponse<Row<Region>>)
    requires Valid(db)
    ensures var rows := Queries.Where(db, RegionColumns, NameConditions(name));
            var pr := ParsePaginationRequest(page, pageSize, sortBy, sortOrder);
            r.data == PageOf(Queries.Ordered(rows, pr.sortDesc), pr) && r.total == |rows|
            && r.page == pr.page && r.pageSize == pr.pageSize
    ensures forall x :: x in r.data ==> (Live(db, x.id) && x.value == db.rows[x.id]
                                         && (name != "" ==> Contains(Lower(x.value.name), Lower(name))))
  {
    var conds := NameConditions(name);
    var pr := ParsePaginationRequest(page, pageSize, sortBy, sortOrder);
    var result := Queries.List(db, RegionColumns, conds, pr);
    assert forall x :: x in result.data ==> HoldsAll(conds, RegionColumns(x.value));
    forall x | x in result.data ensures name != "" ==> Contains(Lower(x.value.name), Lower(name)) {
      ApplyFilterSelects([], "name", name, RegionColumns(x.value));
    }
    result
  }
}
