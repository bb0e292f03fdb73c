/**
 * Query-string pagination, the offset/limit window a page selects, the
 * page count of a response, and the filter conditions list handlers add.
 */
module Pagination {
  import opened Wrappers
  import opened Text

  datatype PaginationRequest = PaginationRequest(page: int, pageSize: int, sortBy: string, sortDesc: bool)

  const DefaultPage: int := 1
  const DefaultPageSize: int := 10
  const MaxPageSize: int := 100
  const DefaultSortBy: string := "id"

  /** The request a handler starts from before reading the query string. */
  function NewPaginationRequest(): (r: PaginationRequest)
    ensures r.page == 1 && r.pageSize == 10 && r.sortBy == "id" && !r.sortDesc
  {
    PaginationRequest(DefaultPage, DefaultPageSize, DefaultSortBy, false)
  }

  /** A request the parser can produce: page at least 1, page size in 1..100. */
  predicate WellFormed(pr: PaginationRequest) {
    1 <= pr.page <= Int64Max && 1 <= pr.pageSize <= MaxPageSize && pr.sortBy != ""
  }

  /**
   * Reads `page`, `page_size`, `sort_by` and `sort_order`. Each value that
   * does not parse, or parses out of range, keeps its default.
   */
  function ParsePaginationRequest(pageStr: string, pageSizeStr: string, sortBy: string, sortOrder: string): (r: PaginationRequest)
    ensures WellFormed(r)
    ensures Atoi(pageStr).Some? && Atoi(pageStr).value > 0 ==> r.page == Atoi(pageStr).value
    ensures !(Atoi(pageStr).Some? && Atoi(pageStr).value > 0) ==> r.page == DefaultPage
    ensures Atoi(pageSizeStr).Some? && 0 < Atoi(pageSizeStr).value <= MaxPageSize ==> r.pageSize == Atoi(pageSizeStr).value
    ensures !(Atoi(pageSizeStr).Some? && 0 < Atoi(pageSizeStr).value <= MaxPageSize) ==> r.pageSize == DefaultPageSize
    ensures sortBy == "" ==> r.sortBy == DefaultSortBy
    ensures sortBy != "" ==> r.sortBy == sortBy
    ensures r.sortDesc <==> Lower(sortOrder) == "desc"
  {
    var pr := NewPaginationRequest();
    var page := Atoi(pageStr);
    var pr := if page.Some? && page.value > 0 then pr.(page := page.value) else pr;
    var size := Atoi(pageSizeStr);
    var pr := if size.Some? && 0 < size.value <= MaxPageSize then pr.(pageSize := size.value) else pr;
    var pr := if sortBy != "" then pr.(sortBy := sortBy) else pr;
    if Lower(sortOrder) == "desc" then pr.(sortDesc := true) else pr
  }

  /** Every page number a client writes in decimal is read back unchanged. */
  lemma ParsePageRoundTrip(n: nat, pageSizeStr: string, sortBy: string, sortOrder: string)
    requires 1 <= n <= Int64Max
    ensures ParsePaginationRequest(NatToString(n), pageSizeStr, sortBy, sortOrder).page == n
  {
    AtoiOfNat(n);
  }

  /** Every page size from 1 to 100 written in decimal is read back unchanged; 0 falls back to 10. */
  lemma ParsePageSizeRoundTrip(n: nat, pageStr: string, sortBy: string, sortOrder: string)
    requires n <= MaxPageSize
    ensures ParsePaginationRequest(pageStr, NatToString(n), sortBy, sortOrder).pageSize == (if n == 0 then DefaultPageSize else n)
  {
    AtoiOfNat(n);
  }

  /** The ORDER BY, OFFSET and LIMIT clauses a request adds to a query. */
  datatype Window = Window(order: Option<string>, offset: int, limit: int)

  /** Go's `int` on a 64-bit platform: two's-complement wrap-around. */
  function WrapInt64(x: int): (r: int)
    ensures Int64Min <= r <= Int64Max
    ensures Int64Min <= x <= Int64Max ==> r == x
    ensures (r - x) % 0x1_0000_0000_0000_0000 == 0
  {
    var m := (x - Int64Min) % 0x1_0000_0000_0000_0000;
    m + Int64Min
  }

  function OrderClause(pr: PaginationRequest): (r: Option<string>)
    ensures pr.sortBy == "" <==> r.None?
    ensures r.Some? ==> r.value == pr.sortBy + " " + (if pr.sortDesc then "DESC" else "ASC")
  {
    if pr.sortBy == "" then None
    else Some(pr.sortBy + " " + (if pr.sortDesc then "DESC" else "ASC"))
  }

  /** The offset as written: `(Page-1)*PageSize` in 64-bit arithmetic. */
  function ApplyPaginationAsWritten(pr: PaginationRequest): (w: Window)
    ensures w.order == OrderClause(pr) && w.limit == pr.pageSize
    ensures Int64Min <= w.offset <= Int64Max
  {
    Window(OrderClause(pr), WrapInt64((pr.page - 1) * pr.pageSize), pr.pageSize)
  }

  /** A page number the parser accepts whose 64-bit offset wraps to a negative value. */
  lemma AsWrittenOffsetWraps()
    ensures var pr := PaginationRequest(0x4000_0000_0000_0001, 2, "id", false);
            WellFormed(pr) && ApplyPaginationAsWritten(pr).offset < 0
  {
    var pr := PaginationRequest(0x4000_0000_0000_0001, 2, "id", false);
    assert (pr.page - 1) * pr.pageSize == 0x8000_0000_0000_0000;
    assert WrapInt64(0x8000_0000_0000_0000) == Int64Min;
  }

  /** A page far past the end whose 64-bit offset wraps to 0, so it repeats page 1. */
  lemma AsWrittenOffsetRepeatsFirstPage()
    ensures var pr := PaginationRequest(0x4000_0000_0000_0001, 4, "id", false);
            WellFormed(pr) && ApplyPaginationAsWritten(pr).offset == ApplyPagination(pr.(page := 1)).offset
  {
    var pr := PaginationRequest(0x4000_0000_0000_0001, 4, "id", false);
    assert (pr.page - 1) * pr.pageSize == 0x1_0000_0000_0000_0000;
    assert WrapInt64(0x1_0000_0000_0000_0000) == 0;
  }

  /** Multiplying both sides of `a <= b` by a non-negative factor. */
  lemma MulMonotone(a: int, b: int, c: int)
    requires a <= b && c >= 0
    ensures a * c <= b * c
  {
  }

  lemma MulSucc(a: int, c: int)
    ensures (a + 1) * c == a * c + c
  {
  }

  /** The offset computed without wrap-around: page `p` starts after `p-1` full pages. */
  function ApplyPagination(pr: PaginationRequest): (w: Window)
    requires WellFormed(pr)
    ensures w.order == OrderClause(pr) && w.limit == pr.pageSize
    ensures w.offset >= 0
  {
    MulMonotone(0, pr.page - 1, pr.pageSize);
    Window(OrderClause(pr), (pr.page - 1) * pr.pageSize, pr.pageSize)
  }

  /** The next page starts exactly where this one ends. */
  lemma NextPageAdjacent(pr: PaginationRequest)
    requires WellFormed(pr) && pr.page < Int64Max
    ensures ApplyPagination(pr.(page := pr.page + 1)).offset == ApplyPagination(pr).offset + pr.pageSize
  {
    MulSucc(pr.page - 1, pr.pageSize);
  }

  /** The two agree whenever the product fits in 64 bits. */
  lemma AsWrittenAgreesWhenNoOverflow(pr: PaginationRequest)
    requires WellFormed(pr)
    requires (pr.page - 1) * pr.pageSize <= Int64Max
    ensures ApplyPaginationAsWritten(pr) == ApplyPagination(pr)
  {
    var w := ApplyPagination(pr);
    assert 0 <= w.offset <= Int64Max;
  }

  function Min(a: int, b: int): int {
    if a <= b then a else b
  }

  /** The rows `OFFSET offset LIMIT limit` selects from the full, already ordered and filtered, result. */
  function Slice<T>(rows: seq<T>, offset: nat, limit: nat): (r: seq<T>)
    ensures |r| <= limit
    ensures offset + limit <= |rows| ==> |r| == limit
    ensures offset >= |rows| ==> r == []
  {
    rows[Min(offset, |rows|)..Min(offset + limit, |rows|)]
  }

  /** How many rows the pages before page `page` hold. */
  function RowsBefore(pr: PaginationRequest): (n: nat)
    requires WellFormed(pr)
    ensures n == (pr.page - 1) * pr.pageSize
  {
    MulMonotone(0, pr.page - 1, pr.pageSize);
    (pr.page - 1) * pr.pageSize
  }

  /** The pages up to `k` are those up to `k - 1` followed by page `k`. */
  lemma PagesUpToStep<T>(rows: seq<T>, pr: PaginationRequest, k: nat)
    requires WellFormed(pr) && 1 <= k <= Int64Max
    ensures PagesUpTo(rows, pr, k) == PagesUpTo(rows, pr, k - 1) + PageOf(rows, pr.(page := k))
  {
  }

  /** Page `page` of the rows: up to `pageSize` of them, after the rows of the pages before it. */
  function PageOf<T>(rows: seq<T>, pr: PaginationRequest): seq<T>
    requires WellFormed(pr)
  {
    Slice(rows, ApplyPagination(pr).offset, pr.pageSize)
  }

  /**
   * What a page holds: at most `pageSize` rows, the run of the rows that
   * starts after the `page - 1` pages before it; a full page while the rows
   * last, nothing once they are exhausted.
   */
  lemma PageOfWindow<T>(rows: seq<T>, pr: PaginationRequest)
    requires WellFormed(pr)
    ensures var r := PageOf(rows, pr);
            |r| <= pr.pageSize
            && (|r| > 0 ==> RowsBefore(pr) + |r| <= |rows| && r == rows[RowsBefore(pr)..RowsBefore(pr) + |r|])
            && (RowsBefore(pr) + pr.pageSize <= |rows| ==> |r| == pr.pageSize)
            && (RowsBefore(pr) >= |rows| ==> r == [])
  {
    assert ApplyPagination(pr).offset == RowsBefore(pr);
  }

  function PagesUpTo<T>(rows: seq<T>, pr: PaginationRequest, k: nat): seq<T>
    requires WellFormed(pr) && k <= Int64Max
  {
    if k == 0 then [] else PagesUpTo(rows, pr, k - 1) + PageOf(rows, pr.(page := k))
  }

  /**
   * Reading pages 1..k in order yields exactly the first k*pageSize rows:
   * consecutive pages are adjacent and never overlap.
   */
  lemma {:induction false} PagesCoverPrefix<T>(rows: seq<T>, pr: PaginationRequest, k: nat)
    requires WellFormed(pr) && k <= Int64Max
    ensures PagesUpTo(rows, pr, k) == rows[..Min(k * pr.pageSize, |rows|)]
  {
    if k > 0 {
      PagesCoverPrefix(rows, pr, k - 1);
      var off := ApplyPagination(pr.(page := k)).offset;
      PageStart(pr, k);
      PrefixExtend(rows, off, pr.pageSize);
    }
  }

  /** Page `k` starts after `k - 1` full pages and ends after `k`. */
  lemma PageStart(pr: PaginationRequest, k: nat)
    requires WellFormed(pr) && 1 <= k <= Int64Max
    ensures var off := ApplyPagination(pr.(page := k)).offset;
            off == (k - 1) * pr.pageSize && off + pr.pageSize == k * pr.pageSize
  {
    MulSucc(k - 1, pr.pageSize);
  }

  /** A prefix followed by the slice after it is the longer prefix. */
  lemma PrefixExtend<T>(rows: seq<T>, offset: nat, limit: nat)
    ensures rows[..Min(offset, |rows|)] + Slice(rows, offset, limit) == rows[..Min(offset + limit, |rows|)]
  {
    var lo := Min(offset, |rows|);
    var hi := Min(offset + limit, |rows|);
    assert rows[..lo] + rows[lo..hi] == rows[..hi];
  }

  /** Number of pages needed for `total` rows; Go's integer division with a remainder bump. */
  function TotalPages(total: nat, pageSize: int): (tp: nat)
    requires pageSize >= 1
    ensures tp * pageSize >= total
    ensures tp == 0 || (tp - 1) * pageSize < total
  {
    var q := total / pageSize;
    MulSucc(q, pageSize);
    if total % pageSize != 0 then q + 1 else q
  }

  /** The page count is the unique ceiling of total / pageSize; it is 0 exactly for no rows. */
  lemma TotalPagesUnique(total: nat, pageSize: int, n: nat)
    requires pageSize >= 1
    requires n * pageSize >= total && (n == 0 || (n - 1) * pageSize < total)
    ensures n == TotalPages(total, pageSize)
    ensures n == 0 <==> total == 0
  {
    var tp := TotalPages(total, pageSize);
    if n < tp {
      MulMonotone(n, tp - 1, pageSize);
    } else if n > tp {
      MulMonotone(tp, n - 1, pageSize);
    }
  }

  datatype PaginationResponse<T> = PaginationResponse(data: seq<T>, total: nat, page: int, pageSize: int, totalPages: nat)

  function CreatePaginationResponse<T>(data: seq<T>, total: nat, page: int, pageSize: int): (r: PaginationResponse<T>)
    requires pageSize >= 1
    ensures r.data == data && r.total == total && r.page == page && r.pageSize == pageSize
    ensures r.totalPages * pageSize >= total && (r.totalPages == 0 || (r.totalPages - 1) * pageSize < total)
  {
    PaginationResponse(data, total, page, pageSize, TotalPages(total, pageSize))
  }

  /**
   * Count, then fetch the window: the response carries the full match
   * count and only the requested page's rows.
   */
  function Paginate<T>(rows: seq<T>, pr: PaginationRequest): (r: PaginationResponse<T>)
    requires WellFormed(pr)
    ensures r.total == |rows| && r.page == pr.page && r.pageSize == pr.pageSize
    ensures r.data == PageOf(rows, pr) && |r.data| <= pr.pageSize
  {
    CreatePaginationResponse(PageOf(rows, pr), |rows|, pr.page, pr.pageSize)
  }

  /** Pages before the last are full, the last holds the remainder, and pages past it are empty. */
  lemma PaginateFillsPages<T>(rows: seq<T>, pr: PaginationRequest)
    requires WellFormed(pr)
    ensures var r := Paginate(rows, pr);
            (pr.page < r.totalPages ==> |r.data| == pr.pageSize)
            && (pr.page == r.totalPages ==> |r.data| == |rows| - (pr.page - 1) * pr.pageSize)
            && (pr.page > r.totalPages ==> r.data == [])
  {
    var r := Paginate(rows, pr);
    var ps := pr.pageSize;
    var tp := r.totalPages;
    MulSucc(pr.page - 1, ps);
    if pr.page > tp {
      MulMonotone(tp, pr.page - 1, ps);
    } else if pr.page < tp {
      MulMonotone(pr.page, tp - 1, ps);
    }
  }

  /** A value handed to a filter: nil, a string, or a number. */
  datatype FilterValue = Nil | Str(s: string) | Num(n: int)

  /**
   * One WHERE condition a handler adds: `ILIKE`, `LIKE`, `=`, `>=` or
   * `<=` on a named column.
   */
  datatype Condition =
    | ILike(field: string, pattern: string)
    | Like(field: string, pattern: string)
    | Equals(field: string, value: FilterValue)
    | AtLeast(field: string, bound: int)
    | AtMost(field: string, bound: int)

  /** A row seen as the value of each named column. */
  type Columns = string -> FilterValue

  /**
   * `LIKE` for the `%text%` patterns the handlers build: substring
   * containment; any other pattern has to match exactly.
   */
  predicate LikeMatches(s: string, pattern: string) {
    if |pattern| >= 2 && pattern[0] == '%' && pattern[|pattern| - 1] == '%' then Contains(s, pattern[1..|pattern| - 1])
    else s == pattern
  }

  predicate Holds(c: Condition, col: Columns) {
    match c
    case ILike(f, p) => col(f).Str? && LikeMatches(Lower(col(f).s), Lower(p))
    case Like(f, p) => col(f).Str? && LikeMatches(col(f).s, p)
    case Equals(f, v) => col(f) == v
    case AtLeast(f, b) => col(f).Num? && col(f).n >= b
    case AtMost(f, b) => col(f).Num? && col(f).n <= b
  }

  /** The conditions are ANDed together. */
  predicate HoldsAll(conds: seq<Condition>, col: Columns) {
    forall i :: 0 <= i < |conds| ==> Holds(conds[i], col)
  }

  lemma HoldsAllSnoc(conds: seq<Condition>, c: Condition, col: Columns)
    ensures HoldsAll(conds + [c], col) <==> HoldsAll(conds, col) && Holds(c, col)
  {
    if HoldsAll(conds, col) && Holds(c, col) {
      forall i | 0 <= i < |conds + [c]| ensures Holds((conds + [c])[i], col) {
        if i < |conds| { assert (conds + [c])[i] == conds[i]; }
      }
    }
    if HoldsAll(conds + [c], col) {
      forall i | 0 <= i < |conds| ensures Holds(conds[i], col) {
        assert (conds + [c])[i] == conds[i];
      }
      assert (conds + [c])[|conds|] == c;
    }
  }

  predicate IsBlank(v: FilterValue) {
    v == Nil || v == Str("")
  }

  /** Strings filter case-insensitively by substring, other values by equality; nil and "" add nothing. */
  function ApplyFilter(conds: seq<Condition>, field: string, value: FilterValue): (r: seq<Condition>)
    ensures IsBlank(value) ==> r == conds
    ensures !IsBlank(value) ==> |r| == |conds| + 1 && r[..|conds|] == conds
    ensures value.Str? && !IsBlank(value) ==> r[|conds|] == ILike(field, "%" + value.s + "%")
    ensures value.Num? ==> r[|conds|] == Equals(field, value)
  {
    if IsBlank(value) then conds
    else if value.Str? then conds + [ILike(field, "%" + value.s + "%")]
    else conds + [Equals(field, value)]
  }

  function ApplyEqualFilter(conds: seq<Condition>, field: string, value: FilterValue): (r: seq<Condition>)
    ensures IsBlank(value) ==> r == conds
    ensures !IsBlank(value) ==> r == conds + [Equals(field, value)]
  {
    if IsBlank(value) then conds else conds + [Equals(field, value)]
  }

  lemma LowerWrapped(s: string)
    ensures var p := Lower("%" + s + "%");
            |p| == |s| + 2 && p[0] == '%' && p[|p| - 1] == '%' && p[1..|p| - 1] == Lower(s)
  {
    var w := "%" + s + "%";
    var p := Lower(w);
    assert w[0] == '%' && w[|w| - 1] == '%';
    forall i | 0 <= i < |s| ensures p[1..|p| - 1][i] == Lower(s)[i] {
      assert w[i + 1] == s[i];
    }
  }

  /** A `%text%` pattern matches exactly the values that contain the text. */
  lemma LikeWrapped(s: string, t: string)
    ensures LikeMatches(s, "%" + t + "%") <==> Contains(s, t)
  {
    var p := "%" + t + "%";
    assert p[1..|p| - 1] == t;
  }

  /**
   * A `LIKE '%t%'` condition keeps the rows whose column contains `t`;
   * `ILIKE` does the same after folding the ASCII letters of both sides.
   */
  lemma HoldsTextConditions(f: string, t: string, col: Columns)
    ensures Holds(Like(f, "%" + t + "%"), col) <==> col(f).Str? && Contains(col(f).s, t)
    ensures Holds(ILike(f, "%" + t + "%"), col) <==> col(f).Str? && Contains(Lower(col(f).s), Lower(t))
  {
    LowerWrapped(t);
    if col(f).Str? {
      LikeWrapped(col(f).s, t);
    }
  }

  /**
   * A non-blank string filter keeps exactly the rows whose column
   * contains the value, ignoring ASCII case; a blank one keeps every row.
   */
  lemma ApplyFilterSelects(conds: seq<Condition>, field: string, s: string, col: Columns)
    ensures s != "" ==> (HoldsAll(ApplyFilter(conds, field, Str(s)), col)
                         <==> HoldsAll(conds, col) && col(field).Str? && Contains(Lower(col(field).s), Lower(s)))
    ensures s == "" ==> ApplyFilter(conds, field, Str(s)) == conds
  {
    if s != "" {
      HoldsAllSnoc(conds, ILike(field, "%" + s + "%"), col);
      LowerWrapped(s);
    }
  }

  /** A non-blank equality filter keeps exactly the rows whose column equals the value. */
  lemma ApplyEqualFilterSelects(conds: seq<Condition>, field: string, v: FilterValue, col: Columns)
    ensures !IsBlank(v) ==> (HoldsAll(ApplyEqualFilter(conds, field, v), col) <==> HoldsAll(conds, col) && col(field) == v)
    ensures IsBlank(v) ==> ApplyEqualFilter(conds, field, v) == conds
  {
    if !IsBlank(v) {
      HoldsAllSnoc(conds, Equals(field, v), col);
    }
  }

  /** A page holds only rows of the full result. */
  lemma PageRowsFromResult<T>(rows: seq<T>, pr: PaginationRequest)
    requires WellFormed(pr)
    ensures forall x :: x in Paginate(rows, pr).data ==> x in rows
  {
    var w := ApplyPagination(pr);
    var lo := Min(w.offset, |rows|);
    var hi := Min(w.offset + pr.pageSize, |rows|);
    forall x | x in Paginate(rows, pr).data ensures x in rows {
      var k :| 0 <= k < |rows[lo..hi]| && rows[lo..hi][k] == x;
      assert rows[lo + k] == x;
    }
  }
}
