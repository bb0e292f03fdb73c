/**
 * The admin dashboard: the statistics computed from the two admin lists,
 * the five most recent entries of each, and the activity rate shown on
 * the last card. The lists are fetched from the in-memory tables through
 * the same handlers the admin pages use; the clock is `now`, already
 * rendered as ISO text.
 */
module Dashboard {
  import opened Wrappers
  import opened Text
  import opened Store
  import opened Pagination
  import opened Models
  import Params
  import Queries
  import Recommendors
  import Destinations
  import ListQueries

  /** The number of entries counted as active: status exactly "active". */
  function CountActive(statuses: seq<string>): (n: nat)
    ensures n <= |statuses|
  {
    if statuses == [] then 0
    else (if statuses[0] == "active" then 1 else 0) + CountActive(statuses[1..])
  }

  /** Every entry is counted exactly when all are active, none exactly when none is. */
  lemma {:induction false} CountActiveExtremes(statuses: seq<string>)
    ensures CountActive(statuses) == |statuses| <==> forall i :: 0 <= i < |statuses| ==> statuses[i] == "active"
    ensures CountActive(statuses) == 0 <==> forall i :: 0 <= i < |statuses| ==> statuses[i] != "active"
  {
    if statuses != [] {
      var rest := statuses[1..];
      CountActiveExtremes(rest);
      assert forall i :: 1 <= i < |statuses| ==> statuses[i] == rest[i - 1];
    }
  }

  /** Counting is additive: the count of two lists is the sum of their counts. */
  lemma {:induction false} CountActiveAppend(a: seq<string>, b: seq<string>)
    ensures CountActive(a + b) == CountActive(a) + CountActive(b)
  {
    if a == [] {
      assert a + b == b;
    } else {
      assert (a + b)[1..] == a[1..] + b;
      CountActiveAppend(a[1..], b);
    }
  }

  /** The sum `reduce` computes; `rating || 0` is the rating itself, as 0 is falsy. */
  function Sum(xs: seq<real>): real {
    if xs == [] then 0.0 else xs[0] + Sum(xs[1..])
  }

  /** Bounds on every entry bound the sum by the count times the bound. */
  lemma {:induction false} SumBounds(xs: seq<real>, lo: real, hi: real)
    requires forall i :: 0 <= i < |xs| ==> lo <= xs[i] <= hi
    ensures lo * (|xs| as real) <= Sum(xs) <= hi * (|xs| as real)
  {
    if xs != [] {
      var rest := xs[1..];
      assert forall i :: 0 <= i < |rest| ==> rest[i] == xs[i + 1];
      SumBounds(rest, lo, hi);
      assert |xs| as real == |rest| as real + 1.0;
      assert lo * (|xs| as real) == lo * (|rest| as real) + lo;
      assert hi * (|xs| as real) == hi * (|rest| as real) + hi;
    }
  }

  /** The average rating: the sum over the count, or 0 for an empty list. */
  function AverageRating(ratings: seq<real>): (avg: real)
    ensures |ratings| == 0 ==> avg == 0.0
    ensures |ratings| > 0 ==> avg * (|ratings| as real) == Sum(ratings)
  {
    if |ratings| > 0 then Sum(ratings) / (|ratings| as real) else 0.0
  }

  /** Ratings on the 0–5 scale average to a value on the same scale. */
  lemma AverageWithinScale(ratings: seq<real>)
    requires forall i :: 0 <= i < |ratings| ==> 0.0 <= ratings[i] <= 5.0
    ensures 0.0 <= AverageRating(ratings) <= 5.0
  {
    if |ratings| > 0 {
      SumBounds(ratings, 0.0, 5.0);
    }
  }

  /** The activity rate card: active over total as a percentage, or 0 without recommendors. */
  function ActivityRate(active: nat, total: nat): (rate: real)
    ensures total == 0 ==> rate == 0.0
    ensures total > 0 ==> rate * (total as real) == 100.0 * (active as real)
  {
    if total > 0 then (active as real / total as real) * 100.0 else 0.0
  }

  /** With no more active than total, the rate is a percentage; all active is exactly 100. */
  lemma ActivityRateBounds(active: nat, total: nat)
    requires active <= total
    ensures 0.0 <= ActivityRate(active, total) <= 100.0
    ensures total > 0 && active == total ==> ActivityRate(active, total) == 100.0
  {
    if total > 0 {
      var rate := ActivityRate(active, total);
      var t := total as real;
      if active == total {
        assert (rate - 100.0) * t == 0.0;
      }
    }
  }

  /** A list entry with its `created_at`, which may be missing. */
  datatype Item<T> = Item(value: T, createdAt: Option<string>)

  /** A recent entry: its `createdAt` is always set. */
  datatype Stamped<T> = Stamped(value: T, createdAt: string)

  const RecentCount: nat := 5

  /** `slice(0, 5)`, each entry stamped with its own `created_at` or, failing that, `now`. */
  function Recent<T>(items: seq<Item<T>>, now: string): (r: seq<Stamped<T>>)
    ensures |r| == Min(RecentCount, |items|)
    ensures forall i :: 0 <= i < |r| ==> r[i].value == items[i].value
    ensures forall i :: 0 <= i < |r| ==> r[i].createdAt == (if Truthy(items[i].createdAt) then items[i].createdAt.value else now)
  {
    var n := Min(RecentCount, |items|);
    seq(n, i requires 0 <= i < n =>
      Stamped(items[i].value, if Truthy(items[i].createdAt) then items[i].createdAt.value else now))
  }

  /** Entries after the fifth never reach the recent list. */
  lemma RecentIgnoresTail<T>(items: seq<Item<T>>, more: seq<Item<T>>, now: string)
    requires |items| >= RecentCount
    ensures Recent(items + more, now) == Recent(items, now)
  {
    var a := Recent(items + more, now);
    var b := Recent(items, now);
    assert |a| == |b|;
    forall i | 0 <= i < |a| ensures a[i] == b[i] {
      assert (items + more)[i] == items[i];
    }
  }

  datatype Stats = Stats(
    totalRecommendors: nat,
    activeRecommendors: nat,
    totalDestinations: nat,
    activeDestinations: nat,
    averageRating: real)

  /** What the page shows: the four counts and the average, and the two recent tables. */
  datatype View = View(stats: Stats, recentRecommendors: seq<Stamped<Recommendor>>, recentDestinations: seq<Stamped<Destination>>)

  const Initial: View := View(Stats(0, 0, 0, 0, 0.0), [], [])

  /** The two list replies; `None` is a reply without `data`, read as `[]`. */
  datatype Fetched = Fetched(recommendors: Option<seq<Item<Recommendor>>>, destinations: Option<seq<Item<Destination>>>)

  function OrEmpty<T>(o: Option<seq<T>>): seq<T> {
    if o.Some? then o.value else []
  }

  function RecommendorStatuses(items: seq<Item<Recommendor>>): (r: seq<string>)
    ensures |r| == |items| && forall i :: 0 <= i < |r| ==> r[i] == items[i].value.status
  {
    seq(|items|, i requires 0 <= i < |items| => items[i].value.status)
  }

  function DestinationStatuses(items: seq<Item<Destination>>): (r: seq<string>)
    ensures |r| == |items| && forall i :: 0 <= i < |r| ==> r[i] == items[i].value.status
  {
    seq(|items|, i requires 0 <= i < |items| => items[i].value.status)
  }

  function Ratings(items: seq<Item<Recommendor>>): (r: seq<real>)
    ensures |r| == |items| && forall i :: 0 <= i < |r| ==> r[i] == items[i].value.rating
  {
    seq(|items|, i requires 0 <= i < |items| => items[i].value.rating)
  }

  /**
   * `loadStatistics`: when either request fails nothing is set; otherwise
   * the counts and average come from the two lists and the recent tables
   * from their first five entries.
   */
  function LoadStatistics(view: View, fetched: Option<Fetched>, now: string): (v: View)
    ensures fetched.None? ==> v == view
    ensures fetched.Some? ==>
              var recs := OrEmpty(fetched.value.recommendors);
              var dests := OrEmpty(fetched.value.destinations);
              v.stats.totalRecommendors == |recs| && v.stats.totalDestinations == |dests|
              && v.stats.activeRecommendors == CountActive(RecommendorStatuses(recs))
              && v.stats.activeDestinations == CountActive(DestinationStatuses(dests))
              && v.stats.averageRating == AverageRating(Ratings(recs))
              && v.recentRecommendors == Recent(recs, now) && v.recentDestinations == Recent(dests, now)
  {
    match fetched
    case None => view
    case Some(f) =>
      var recs := OrEmpty(f.recommendors);
      var dests := OrEmpty(f.destinations);
      View(
        Stats(|recs|, CountActive(RecommendorStatuses(recs)), |dests|, CountActive(DestinationStatuses(dests)),
              AverageRating(Ratings(recs))),
        Recent(recs, now),
        Recent(dests, now))
  }

  /** The counts never exceed their totals and the recent tables hold at most five entries. */
  predicate Sound(v: View) {
    v.stats.activeRecommendors <= v.stats.totalRecommendors
    && v.stats.activeDestinations <= v.stats.totalDestinations
    && |v.recentRecommendors| <= RecentCount && |v.recentDestinations| <= RecentCount
  }

  /**
   * Loading keeps the view sound, so the activity rate stays a
   * percentage; ratings on the 0–5 scale give an average on that scale.
   */
  lemma LoadKeepsSound(view: View, fetched: Option<Fetched>, now: string)
    requires Sound(view)
    ensures var v := LoadStatistics(view, fetched, now);
            Sound(v) && 0.0 <= ActivityRate(v.stats.activeRecommendors, v.stats.totalRecommendors) <= 100.0
    ensures fetched.Some? && (forall x :: x in OrEmpty(fetched.value.recommendors) ==> 0.0 <= x.value.rating <= 5.0) ==>
              0.0 <= LoadStatistics(view, fetched, now).stats.averageRating <= 5.0
  {
    var v := LoadStatistics(view, fetched, now);
    ActivityRateBounds(v.stats.activeRecommendors, v.stats.totalRecommendors);
    if fetched.Some? && (forall x :: x in OrEmpty(fetched.value.recommendors) ==> 0.0 <= x.value.rating <= 5.0) {
      var recs := OrEmpty(fetched.value.recommendors);
      var rs := Ratings(recs);
      assert forall i :: 0 <= i < |rs| ==> recs[i] in recs;
      AverageWithinScale(rs);
    }
  }

  /** The size the dashboard asks for, meaning "everything". */
  const AskedPageSize: nat := 1000

  function RecommendorPage(db: Table<Recommendor>, page: nat, pageSize: nat): PaginationResponse<Row<Recommendor>>
    requires Valid(db)
  {
    Recommendors.GetAdminRecommendors(db, ListQueries.RecommendorQuery(ListQueries.PageParams(page, pageSize)))
  }

  function DestinationPage(dests: Table<Destination>, page: nat, pageSize: nat): PaginationResponse<Row<Destination>>
    requires Valid(dests)
  {
    Destinations.GetAdminDestinations(dests, ListQueries.DestinationQuery(ListQueries.PageParams(page, pageSize)))
  }

  /**
   * The dashboard as written fetches one page of 1000; the handler
   * clamps sizes above 100 to 10, so the counts cover at most ten rows
   * of each table while the same reply's `total` counts them all.
   */
  lemma AsWrittenCountsAtMostTen(db: Table<Recommendor>, dests: Table<Destination>)
    requires Valid(db) && Valid(dests)
    ensures var r := RecommendorPage(db, 1, AskedPageSize);
            |r.data| <= DefaultPageSize && r.pageSize == DefaultPageSize
    ensures var d := DestinationPage(dests, 1, AskedPageSize);
            |d.data| <= DefaultPageSize && d.pageSize == DefaultPageSize
  {
    ListQueries.ParsePageParams(1, AskedPageSize);
  }

  /** With eleven matching recommendors, the dashboard reports ten. */
  lemma AsWrittenUndercounts(db: Table<Recommendor>, now: string)
    requires Valid(db) && RecommendorPage(db, 1, AskedPageSize).total == 11
    ensures var r := RecommendorPage(db, 1, AskedPageSize);
            var items := seq(|r.data|, i requires 0 <= i < |r.data| => Item(r.data[i].value, None));
            LoadStatistics(Initial, Some(Fetched(Some(items), None)), now).stats.totalRecommendors < r.total
  {
    AsWrittenCountsAtMostTen(db, Store.Empty());
  }

  /** The page size a fetch-everything loop asks for: the largest the handler serves. */
  const FetchPageSize: nat := MaxPageSize

  /** Pages 1..k of the admin recommendor list, concatenated. */
  function FetchRecommendorPages(db: Table<Recommendor>, k: nat): (r: seq<Row<Recommendor>>)
    requires Valid(db) && k <= Int64Max
    ensures forall x :: x in r ==> Live(db, x.id) && x.value == db.rows[x.id]
  {
    if k == 0 then [] else FetchRecommendorPages(db, k - 1) + RecommendorPage(db, k, FetchPageSize).data
  }

  /** The corrected fetch: read the first page's page count, then every page. */
  function FetchRecommendors(db: Table<Recommendor>): (r: seq<Row<Recommendor>>)
    requires Valid(db)
    ensures forall x :: x in r ==> Live(db, x.id) && x.value == db.rows[x.id]
  {
    var pages := RecommendorPage(db, 1, FetchPageSize).totalPages;
    FetchRecommendorPages(db, if pages <= Int64Max then pages else Int64Max)
  }

  /** The rows every dashboard request filters: no filter keys are sent. */
  function AllRecommendors(db: Table<Recommendor>): seq<Row<Recommendor>>
    requires Valid(db)
  {
    Queries.Where(db, Recommendors.RecommendorColumns, Recommendors.AdminConditions(ListQueries.RecommendorQuery(ListQueries.PageParams(1, FetchPageSize))))
  }

  /** Only the page differs between the queries of two pages. */
  lemma PageQueriesAgree(k: nat, pageSize: nat)
    ensures ListQueries.RecommendorQuery(ListQueries.PageParams(k, pageSize))
            == ListQueries.RecommendorQuery(ListQueries.PageParams(1, pageSize)).(page := NatToString(k))
  {
  }

  lemma AdminConditionsIgnorePage(q: Recommendors.ListQuery, page: string)
    ensures Recommendors.AdminConditions(q.(page := page)) == Recommendors.AdminConditions(q)
  {
    assert Recommendors.CommonConditions(q.(page := page)) == Recommendors.CommonConditions(q);
    var s := ApplyEqualFilter(Recommendors.CommonConditions(q), "status", Str(q.status));
    assert Recommendors.AgeConditions(s, q.(page := page)) == Recommendors.AgeConditions(s, q);
  }

  /** Page k of the fetch loop is page k of the matching rows in ascending id order. */
  lemma RecommendorPageIsPage(db: Table<Recommendor>, k: nat)
    requires Valid(db) && 1 <= k <= Int64Max
    ensures RecommendorPage(db, k, FetchPageSize).data == PageOf(AllRecommendors(db), PaginationRequest(k, FetchPageSize, "id", false))
  {
    ListQueries.ParsePageParams(k, FetchPageSize);
    PageQueriesAgree(k, FetchPageSize);
    AdminConditionsIgnorePage(ListQueries.RecommendorQuery(ListQueries.PageParams(1, FetchPageSize)), NatToString(k));
  }

  lemma {:induction false} FetchPagesArePages(db: Table<Recommendor>, k: nat)
    requires Valid(db) && k <= Int64Max
    ensures FetchRecommendorPages(db, k) == PagesUpTo(AllRecommendors(db), PaginationRequest(1, FetchPageSize, "id", false), k)
  {
    if k > 0 {
      var pr := PaginationRequest(1, FetchPageSize, "id", false);
      var rows := AllRecommendors(db);
      var page := PageOf(rows, PaginationRequest(k, FetchPageSize, "id", false));
      var before := FetchRecommendorPages(db, k - 1);
      var upTo := PagesUpTo(rows, pr, k - 1);
      assert FetchRecommendorPages(db, k) == before + page by {
        FetchPageIsPage(db, k);
      }
      assert before == upTo by {
        FetchPagesArePages(db, k - 1);
      }
      assert PagesUpTo(rows, pr, k) == upTo + page by {
        assert pr.(page := k) == PaginationRequest(k, FetchPageSize, "id", false);
        PagesUpToStep(rows, pr, k);
      }
      SameSteps(FetchRecommendorPages(db, k), before, upTo, page, PagesUpTo(rows, pr, k));
    }
  }

  /** Two sequences built by appending the same page to equal prefixes are equal. */
  lemma SameSteps<T>(x: seq<T>, a: seq<T>, b: seq<T>, p: seq<T>, y: seq<T>)
    requires x == a + p && a == b && y == b + p
    ensures x == y
  {
  }

  /** The step of the fetch loop: page `k` of the fetch is page `k` of the matching rows. */
  lemma FetchPageIsPage(db: Table<Recommendor>, k: nat)
    requires Valid(db) && 1 <= k <= Int64Max
    ensures FetchRecommendorPages(db, k)
            == FetchRecommendorPages(db, k - 1) + PageOf(AllRecommendors(db), PaginationRequest(k, FetchPageSize, "id", false))
  {
    assert FetchRecommendorPages(db, k) == FetchRecommendorPages(db, k - 1) + RecommendorPage(db, k, FetchPageSize).data;
    RecommendorPageIsPage(db, k);
  }

  /** The first page reports the number of matching recommendors and the pages they fill. */
  lemma FirstPageReportsPages(db: Table<Recommendor>)
    requires Valid(db)
    ensures var first := RecommendorPage(db, 1, FetchPageSize);
            first.total == |AllRecommendors(db)|
            && first.totalPages * FetchPageSize >= first.total
            && (first.totalPages == 0 || (first.totalPages - 1) * FetchPageSize < first.total)
  {
    ListQueries.ParsePageParams(1, FetchPageSize);
  }

  /** Fetching page by page until the reported page count reads every matching recommendor, once and in order. */
  lemma FetchRecommendorsGetsAll(db: Table<Recommendor>)
    requires Valid(db) && |AllRecommendors(db)| <= Int64Max
    ensures FetchRecommendors(db) == AllRecommendors(db)
  {
    var rows := AllRecommendors(db);
    FirstPageReportsPages(db);
    var tp := RecommendorPage(db, 1, FetchPageSize).totalPages;
    PagesSpanRows(tp, |rows|);
    FetchReadsReportedPages(db);
    FetchPagesArePages(db, tp);
    PagesReadAll(rows, tp);
  }

  lemma FetchReadsReportedPages(db: Table<Recommendor>)
    requires Valid(db) && RecommendorPage(db, 1, FetchPageSize).totalPages <= Int64Max
    ensures FetchRecommendors(db) == FetchRecommendorPages(db, RecommendorPage(db, 1, FetchPageSize).totalPages)
  {
  }

  /** Reading as many pages as the count reports yields every row. */
  lemma PagesReadAll<T>(rows: seq<T>, tp: nat)
    requires tp <= Int64Max && tp * FetchPageSize >= |rows| && (tp == 0 || (tp - 1) * FetchPageSize < |rows|)
    ensures PagesUpTo(rows, PaginationRequest(1, FetchPageSize, "id", false), tp) == rows
  {
    PagesSpanRows(tp, |rows|);
    PagesCoverPrefix(rows, PaginationRequest(1, FetchPageSize, "id", false), tp);
    assert rows[..|rows|] == rows;
  }

  /** A page count that is the ceiling of n / FetchPageSize is at most n, and its pages span all n rows. */
  lemma PagesSpanRows(tp: nat, n: nat)
    requires tp * FetchPageSize >= n && (tp == 0 || (tp - 1) * FetchPageSize < n)
    ensures tp <= n && Min(tp * FetchPageSize, n) == n
  {
    if tp > 0 {
      MulMonotone(1, FetchPageSize, tp - 1);
    }
  }
}
