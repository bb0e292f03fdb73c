/**
 * An in-memory table standing in for one GORM model: rows by primary
 * key, the set of soft-deleted keys, and the next key to assign.
 * Ordinary queries see only live rows; a unique index covers every row,
 * soft-deleted ones included.
 */
module Store {
  import opened Wrappers
  import opened Text
  import opened Http

  datatype Table<T> = Table(rows: map<nat, T>, deleted: set<nat>, nextID: nat)

  /** A row as a query returns it: its primary key and its columns. */
  datatype Row<T> = Row(id: nat, value: T)

  /** Keys start at 1 and lie below `nextID`; only stored rows are soft-deleted. */
  predicate Valid<T>(t: Table<T>) {
    t.nextID >= 1 && t.deleted <= t.rows.Keys && forall id :: id in t.rows ==> 1 <= id < t.nextID
  }

  /** The row is stored and not soft-deleted, so `First(&x, id)` finds it. */
  predicate Live<T>(t: Table<T>, id: nat) {
    id in t.rows && id !in t.deleted
  }

  function Empty<T>(): (t: Table<T>)
    ensures Valid(t)
    ensures forall id :: !Live(t, id)
  {
    Table(map[], {}, 1)
  }

  /** `First(&x, id)`: the live row with that key. */
  function Get<T>(t: Table<T>, id: nat): (r: Option<T>)
    ensures r.Some? <==> Live(t, id)
    ensures r.Some? ==> r.value == t.rows[id]
  {
    if Live(t, id) then Some(t.rows[id]) else None
  }

  /**
   * The `Get...ByID` handlers: the path key must parse as a 32-bit
   * unsigned number (400 otherwise), and only a live row is found (404
   * otherwise); each handler passes its own two messages.
   */
  function GetByKey<T>(t: Table<T>, idParam: string, invalidID: string, notFound: string): (r: Response<Row<T>>)
    ensures ParseUint32(idParam).None? ==> r == Fail(StatusBadRequest, invalidID)
    ensures r.Reply? <==> ParseUint32(idParam).Some? && Live(t, ParseUint32(idParam).value)
    ensures r.Reply? ==> r == Reply(StatusOK, Row(ParseUint32(idParam).value, t.rows[ParseUint32(idParam).value]))
    ensures ParseUint32(idParam).Some? && !r.Reply? ==> r == Fail(StatusNotFound, notFound)
  {
    match ParseUint32(idParam)
    case None => Fail(StatusBadRequest, invalidID)
    case Some(id) => if Live(t, id) then Reply(StatusOK, Row(id, t.rows[id])) else Fail(StatusNotFound, notFound)
  }

  /** `Create`: the row gets the next key; every other row is untouched. */
  function Insert<T>(t: Table<T>, v: T): (r: (Table<T>, nat))
    requires Valid(t)
    ensures Valid(r.0) && Live(r.0, r.1) && r.0.rows[r.1] == v
    ensures r.1 !in t.rows && r.0.deleted == t.deleted
    ensures forall id :: id != r.1 ==> (id in r.0.rows <==> id in t.rows)
    ensures forall id :: id in t.rows ==> r.0.rows[id] == t.rows[id]
  {
    (Table(t.rows[t.nextID := v], t.deleted, t.nextID + 1), t.nextID)
  }

  /** `Save` of a live row: that row is replaced, nothing else changes. */
  function Put<T>(t: Table<T>, id: nat, v: T): (r: Table<T>)
    requires Valid(t) && Live(t, id)
    ensures Valid(r) && Live(r, id) && r.rows[id] == v
    ensures r.rows.Keys == t.rows.Keys && r.deleted == t.deleted && r.nextID == t.nextID
    ensures forall other :: other in t.rows && other != id ==> r.rows[other] == t.rows[other]
  {
    t.(rows := t.rows[id := v])
  }

  /** `Delete` with a `DeletedAt` column: the row stays stored but is no longer live. */
  function SoftDelete<T>(t: Table<T>, id: nat): (r: Table<T>)
    requires Valid(t) && Live(t, id)
    ensures Valid(r) && !Live(r, id)
    ensures r.rows == t.rows && r.nextID == t.nextID
    ensures forall other :: other != id ==> (Live(r, other) <==> Live(t, other))
  {
    t.(deleted := t.deleted + {id})
  }

  /** The live rows with key at least `from` that satisfy `keep`, in ascending key order. */
  function SelectFrom<T>(t: Table<T>, from: nat, keep: T -> bool): (r: seq<Row<T>>)
    requires Valid(t)
    ensures forall k :: 0 <= k < |r| ==> from <= r[k].id && Live(t, r[k].id) && r[k].value == t.rows[r[k].id] && keep(r[k].value)
    ensures forall j, k :: 0 <= j < k < |r| ==> r[j].id < r[k].id
    ensures forall id :: from <= id && Live(t, id) && keep(t.rows[id]) ==> Row(id, t.rows[id]) in r
    decreases t.nextID - from
  {
    if from >= t.nextID then []
    else if Live(t, from) && keep(t.rows[from]) then [Row(from, t.rows[from])] + SelectFrom(t, from + 1, keep)
    else SelectFrom(t, from + 1, keep)
  }

  /** A `WHERE` query: every live row satisfying `keep`, by ascending key. */
  function Select<T>(t: Table<T>, keep: T -> bool): (r: seq<Row<T>>)
    requires Valid(t)
    ensures forall k :: 0 <= k < |r| ==> Live(t, r[k].id) && r[k].value == t.rows[r[k].id] && keep(r[k].value)
    ensures forall j, k :: 0 <= j < k < |r| ==> r[j].id < r[k].id
    ensures forall id :: Live(t, id) && keep(t.rows[id]) ==> Row(id, t.rows[id]) in r
  {
    SelectFrom(t, 0, keep)
  }

  function Reverse<T>(s: seq<T>): (r: seq<T>)
    ensures |r| == |s|
    ensures forall i :: 0 <= i < |s| ==> r[i] == s[|s| - 1 - i]
  {
    seq(|s|, i requires 0 <= i < |s| => s[|s| - 1 - i])
  }

  /** Some stored row, live or soft-deleted, has key value `v` in the indexed column. */
  predicate Held<T>(t: Table<T>, key: T -> string, v: string) {
    exists id | id in t.rows :: key(t.rows[id]) == v
  }

  /** Some live row has key value `v`: what a `WHERE col = ?` lookup finds. */
  predicate HeldLive<T>(t: Table<T>, key: T -> string, v: string) {
    exists id | id in t.rows && id !in t.deleted :: key(t.rows[id]) == v
  }

  /** Some stored row other than `self` has key value `v`. */
  predicate HeldByOther<T>(t: Table<T>, key: T -> string, v: string, self: nat) {
    exists id | id in t.rows && id != self :: key(t.rows[id]) == v
  }

  /** A unique index on the column: no two stored rows share a value. */
  predicate Unique<T>(t: Table<T>, key: T -> string) {
    forall a, b :: a in t.rows && b in t.rows && key(t.rows[a]) == key(t.rows[b]) ==> a == b
  }

  /** An insert the index admits keeps the index unique. */
  lemma InsertKeepsUnique<T>(t: Table<T>, key: T -> string, v: T)
    requires Valid(t) && Unique(t, key) && !Held(t, key, key(v))
    ensures Unique(Insert(t, v).0, key)
  {
    var (t2, id) := Insert(t, v);
    forall a, b | a in t2.rows && b in t2.rows && key(t2.rows[a]) == key(t2.rows[b])
      ensures a == b
    {
      if a == id && b != id {
        assert false;
      } else if b == id && a != id {
        assert false;
      }
    }
  }

  /** A save the index admits keeps the index unique. */
  lemma PutKeepsUnique<T>(t: Table<T>, key: T -> string, id: nat, v: T)
    requires Valid(t) && Live(t, id) && Unique(t, key) && !HeldByOther(t, key, key(v), id)
    ensures Unique(Put(t, id, v), key)
  {
    var t2 := Put(t, id, v);
    forall a, b | a in t2.rows && b in t2.rows && key(t2.rows[a]) == key(t2.rows[b])
      ensures a == b
    {
      if a == id && b != id {
        assert false;
      } else if b == id && a != id {
        assert false;
      }
    }
  }
}
