/**
 * Append-style paging as the mini-program's recommendor list and detail
 * pages do it: a first load replaces the list, each "load more" asks for
 * the next page and appends it, and a short page ends the list.
 */
module Pager {
  import opened Wrappers
  import opened Text
  import opened Pagination

  /** The list, the last page read, whether to ask for more, and whether a request is running. */
  datatype State<T> = State(items: seq<T>, page: nat, hasMore: bool, loading: bool)

  /**
   * The first load: nothing while a request runs; otherwise page `page`
   * is asked for and, when it arrives, replaces the list, with more
   * expected after a full page. A failed request changes nothing.
   */
  function Load<T>(s: State<T>, page: nat, pageSize: nat, reply: Option<seq<T>>): (r: (State<T>, Option<nat>))
    ensures s.loading ==> r == (s, None)
    ensures !s.loading ==> r.1 == Some(page) && !r.0.loading
    ensures !s.loading && reply.None? ==> r.0 == s
    ensures !s.loading && reply.Some? ==>
              r.0.items == reply.value && r.0.page == page && (r.0.hasMore <==> |reply.value| >= pageSize)
  {
    if s.loading then (s, None)
    else match reply
      case None => (s, Some(page))
      case Some(rows) => (State(rows, page, |rows| >= pageSize, false), Some(page))
  }

  /**
   * "Load more": nothing while a request runs or when no more is
   * expected; otherwise the next page is asked for and appended, and the
   * page counter moves only when it arrives.
   */
  function LoadMore<T>(s: State<T>, pageSize: nat, reply: Option<seq<T>>): (r: (State<T>, Option<nat>))
    ensures s.loading || !s.hasMore ==> r == (s, None)
    ensures !(s.loading || !s.hasMore) ==> r.1 == Some(s.page + 1) && !r.0.loading
    ensures !(s.loading || !s.hasMore) && reply.None? ==> r.0 == s
    ensures !(s.loading || !s.hasMore) && reply.Some? ==>
              r.0.items == s.items + reply.value && r.0.page == s.page + 1
              && (r.0.hasMore <==> |reply.value| >= pageSize)
  {
    if s.loading || !s.hasMore then (s, None)
    else match reply
      case None => (s, Some(s.page + 1))
      case Some(rows) => (State(s.items + rows, s.page + 1, |rows| >= pageSize, false), Some(s.page + 1))
  }

  /**
   * A load whose request method the app does not define: past the guard
   * the spinner is set and the call throws, so no request goes out and
   * nothing ever clears the spinner again.
   */
  function LoadAsWritten<T>(s: State<T>): (r: State<T>)
    ensures r.loading
    ensures r.items == s.items && r.page == s.page && r.hasMore == s.hasMore
  {
    s.(loading := true)
  }

  /** "Load more" through the same undefined method: it throws past its guard. */
  function LoadMoreAsWritten<T>(s: State<T>): (r: State<T>)
    ensures s.loading || !s.hasMore ==> r == s
    ensures !(s.loading || !s.hasMore) ==> r.loading
    ensures r.items == s.items && r.page == s.page && r.hasMore == s.hasMore
  {
    if s.loading || !s.hasMore then s else s.(loading := true)
  }

  /** One later call on a page: a first load of some page, or "load more". */
  datatype Call = First(page: nat) | More

  /** A run of calls, each through the undefined request method. */
  function RunAsWritten<T>(s: State<T>, calls: seq<Call>): State<T>
    decreases |calls|
  {
    if calls == [] then s
    else
      var t := match calls[0] case First(_) => LoadAsWritten(s) case More => LoadMoreAsWritten(s);
      RunAsWritten(t, calls[1..])
  }

  /**
   * Through the undefined method no call ever shows a row: the list, its
   * page and its "more" flag stay as they were, and once the spinner is
   * set the page no longer changes at all.
   */
  lemma {:induction false} RunAsWrittenShowsNothing<T>(s: State<T>, calls: seq<Call>)
    ensures var r := RunAsWritten(s, calls);
            r.items == s.items && r.page == s.page && r.hasMore == s.hasMore
            && (s.loading ==> r == s)
            && (calls != [] && calls[0].First? ==> r.loading)
    decreases |calls|
  {
    if calls != [] {
      var t := match calls[0] case First(_) => LoadAsWritten(s) case More => LoadMoreAsWritten(s);
      RunAsWrittenShowsNothing(t, calls[1..]);
      if calls[0].First? {
        assert t.loading;
      }
    }
  }

  /** The list holds pages 1..page of `rows`, in order. */
  ghost predicate ReadUpTo<T>(s: State<T>, rows: seq<T>, pr: PaginationRequest)
    requires WellFormed(pr)
  {
    s.page <= Int64Max && s.items == PagesUpTo(rows, pr, s.page)
  }

  /** A first load of page 1 served from `rows` starts the list at page 1. */
  lemma FirstLoadReadsFirstPage<T>(s: State<T>, rows: seq<T>, pr: PaginationRequest)
    requires WellFormed(pr) && !s.loading
    ensures var r := Load(s, 1, pr.pageSize, Some(PageOf(rows, pr.(page := 1))));
            ReadUpTo(r.0, rows, pr) && r.1 == Some(1)
  {
    assert PagesUpTo(rows, pr, 1) == [] + PageOf(rows, pr.(page := 1));
  }

  /**
   * When each page arrives as served, "load more" keeps the list equal to
   * the pages read so far; when it stops expecting more, the list is
   * every row, each once and in order.
   */
  lemma LoadMoreReadsNextPage<T>(s: State<T>, rows: seq<T>, pr: PaginationRequest)
    requires WellFormed(pr) && ReadUpTo(s, rows, pr) && s.page < Int64Max
    requires !s.loading && s.hasMore
    ensures var r := LoadMore(s, pr.pageSize, Some(PageOf(rows, pr.(page := s.page + 1))));
            ReadUpTo(r.0, rows, pr) && r.1 == Some(s.page + 1)
            && (!r.0.hasMore ==> r.0.items == rows)
  {
    var k := s.page + 1;
    var next := PageOf(rows, pr.(page := k));
    var r := LoadMore(s, pr.pageSize, Some(next));
    assert r.0.items == PagesUpTo(rows, pr, k);
    if !r.0.hasMore {
      PagesCoverPrefix(rows, pr, k);
      MulSucc(k - 1, pr.pageSize);
      assert (k - 1) * pr.pageSize + pr.pageSize > |rows|;
      assert rows[..|rows|] == rows;
    }
  }

  /** `rows.map(f)`: each row decorated on its own. */
  function MapAll<T, U>(f: T -> U, xs: seq<T>): (r: seq<U>)
    ensures |r| == |xs| && forall i :: 0 <= i < |xs| ==> r[i] == f(xs[i])
  {
    seq(|xs|, i requires 0 <= i < |xs| => f(xs[i]))
  }

  /** A reply decorated row by row; a failed request stays failed. */
  function MapReply<T, U>(f: T -> U, reply: Option<seq<T>>): (r: Option<seq<U>>)
    ensures r.None? <==> reply.None?
    ensures reply.Some? ==> r.value == MapAll(f, reply.value)
  {
    match reply
    case None => None
    case Some(rows) => Some(MapAll(f, rows))
  }

  /** Decorating a served page is the same as serving the decorated rows. */
  lemma MapPage<T, U>(f: T -> U, rows: seq<T>, pr: PaginationRequest)
    requires WellFormed(pr)
    ensures MapAll(f, PageOf(rows, pr)) == PageOf(MapAll(f, rows), pr)
  {
    var lo := Min(ApplyPagination(pr).offset, |rows|);
    var hi := Min(ApplyPagination(pr).offset + pr.pageSize, |rows|);
    assert PageOf(rows, pr) == rows[lo..hi];
    assert PageOf(MapAll(f, rows), pr) == MapAll(f, rows)[lo..hi];
  }
}
