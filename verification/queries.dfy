/**
 * A GORM query built from `WHERE` conditions and run through `Paginate`:
 * the live rows of one table that satisfy every condition, ordered by
 * key, one page of them and the total count.
 */
module Queries {
  import opened Store
  import opened Pagination

  /** The live rows satisfying every condition, by ascending key. */
  function Where<T>(db: Table<T>, cols: T -> Columns, conds: seq<Condition>): (r: seq<Row<T>>)
    requires Valid(db)
    ensures forall x :: x in r ==> Live(db, x.id) && x.value == db.rows[x.id] && HoldsAll(conds, cols(x.value))
    ensures forall id :: Live(db, id) && HoldsAll(conds, cols(db.rows[id])) ==> Row(id, db.rows[id]) in r
    ensures forall j, k :: 0 <= j < k < |r| ==> r[j].id < r[k].id
  {
    Select(db, (v: T) => HoldsAll(conds, cols(v)))
  }

  /** The same rows, in descending key order when `desc` is set. */
  function Ordered<T>(rows: seq<T>, desc: bool): (r: seq<T>)
    ensures |r| == |rows|
    ensures forall k :: 0 <= k < |r| ==> r[k] in rows
    ensures forall k :: 0 <= k < |rows| ==> rows[k] in r
    ensures !desc ==> r == rows
  {
    if desc then
      var rev := Reverse(rows);
      assert forall k :: 0 <= k < |rows| ==> rows[k] == rev[|rows| - 1 - k];
      assert forall k :: 0 <= k < |rows| ==> rev[k] == rows[|rows| - 1 - k];
      rev
    else rows
  }

  /** One page of the matching rows; the total counts every match. */
  function List<T>(db: Table<T>, cols: T -> Columns, conds: seq<Condition>, pr: PaginationRequest): (r: PaginationResponse<Row<T>>)
    requires Valid(db) && WellFormed(pr)
    ensures r.total == |Where(db, cols, conds)| && r.page == pr.page && r.pageSize == pr.pageSize
    ensures r.data == PageOf(Ordered(Where(db, cols, conds), pr.sortDesc), pr) && |r.data| <= pr.pageSize
    ensures forall x :: x in r.data ==> Live(db, x.id) && x.value == db.rows[x.id] && HoldsAll(conds, cols(x.value))
  {
    var rows := Ordered(Where(db, cols, conds), pr.sortDesc);
    PageRowsFromResult(rows, pr);
    Paginate(rows, pr)
  }

  /** A condition of the list holds for every row on the page. */
  lemma ListedRowsMeet<T>(db: Table<T>, cols: T -> Columns, conds: seq<Condition>, pr: PaginationRequest, c: Condition)
    requires Valid(db) && WellFormed(pr) && c in conds
    ensures forall x :: x in List(db, cols, conds, pr).data ==> Holds(c, cols(x.value))
  {
    var i :| 0 <= i < |conds| && conds[i] == c;
    forall x | x in List(db, cols, conds, pr).data
      ensures Holds(c, cols(x.value))
    {
      assert Holds(conds[i], cols(x.value));
    }
  }
}
