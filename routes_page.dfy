/**
 * The routes list page: the URL state is read back, the routes are filtered, sorted and
 * cut into pages of twelve, and the toolbar, chip row, grid, empty state and pagination
 * are shown or hidden from the result.
 */
module RoutesPage {
  import opened Wrappers
  import JsText
  import opened RouteTypes
  import RouteUtils
  import opened UseRouteFilters

  const ITEMS_PER_PAGE: nat := 12

  /** What the page computes from the URL parameters and the route catalogue. */
  datatype View = View(
    filters: RouteFilters,
    sort: SortOption,
    page: int,
    shown: seq<Route>,
    totalPages: int,
    totalCount: int)

  /** The `useMemo` pipeline: filter, then sort, then paginate at twelve per page. */
  function PageView(routes: seq<Route>, p: Params): View {
    var filters := ReadFilters(p);
    var sort := ReadSort(p);
    var page := ReadPage(p);
    var paged := RouteUtils.PaginateRoutes(RouteUtils.SortRoutes(RouteUtils.FilterRoutes(routes, filters), sort), page, ITEMS_PER_PAGE);
    View(filters, sort, page, paged.routes, paged.totalPages, paged.totalCount)
  }

  /**
   * The count in the toolbar is the number of routes that pass the filters, not the
   * length of the page, which holds at most twelve routes.
   */
  lemma CountIsFilteredCount(routes: seq<Route>, p: Params)
    ensures PageView(routes, p).totalCount == |RouteUtils.FilterRoutes(routes, ReadFilters(p))|
    ensures PageView(routes, p).totalPages == RouteUtils.CeilDiv(PageView(routes, p).totalCount, ITEMS_PER_PAGE)
    ensures |PageView(routes, p).shown| <= ITEMS_PER_PAGE
  {
    var v := PageView(routes, p);
    var kept := RouteUtils.FilterRoutes(routes, v.filters);
    RouteUtils.SortRoutesCorrect(kept, v.sort);
  }

  /** Every route on the page is a catalogue route that passes the filters. */
  lemma ShownRoutesPassFilters(routes: seq<Route>, p: Params)
    ensures forall r :: r in PageView(routes, p).shown ==> r in routes && RouteUtils.Keep(r, ReadFilters(p))
  {
    var v := PageView(routes, p);
    var kept := RouteUtils.FilterRoutes(routes, v.filters);
    var sorted := RouteUtils.SortRoutes(kept, v.sort);
    var start := (v.page - 1) * ITEMS_PER_PAGE;
    assert v.shown == JsText.JsSlice(sorted, start, start + ITEMS_PER_PAGE);
    JsText.SliceMembers(sorted, start, start + ITEMS_PER_PAGE);
    RouteUtils.SortKeepsRoutes(kept, v.sort);
  }

  /** `{totalCount} route{totalCount !== 1 ? 's' : ''} found`. */
  function FoundText(count: int): string {
    JsText.IntToString(count) + " route" + (if count != 1 then "s" else "") + " found"
  }

  lemma FoundTextPlural(count: int)
    ensures count == 1 ==> FoundText(count) == "1 route found"
    ensures count != 1 ==> FoundText(count) == JsText.IntToString(count) + " routes found"
  {
    assert JsText.IntToString(1) == "1";
  }

  /** The grid shows when the page has routes, the "No routes found" panel otherwise. */
  predicate ShowsEmptyState(v: View) {
    |v.shown| == 0
  }

  /**
   * On a page between 1 and the last page the grid has routes; past the last page, and
   * whenever no route passes the filters, the empty state shows.
   */
  lemma EmptyStateExactlyPastTheData(routes: seq<Route>, p: Params)
    requires ReadPage(p) >= 1
    ensures ShowsEmptyState(PageView(routes, p)) <==> ReadPage(p) > PageView(routes, p).totalPages
    ensures PageView(routes, p).totalCount == 0 ==> ShowsEmptyState(PageView(routes, p))
  {
    var v := PageView(routes, p);
    var sorted := RouteUtils.SortRoutes(RouteUtils.FilterRoutes(routes, v.filters), v.sort);
    RouteUtils.PaginateRoutesCorrect(sorted, v.page, ITEMS_PER_PAGE);
    RouteUtils.SortRoutesCorrect(RouteUtils.FilterRoutes(routes, v.filters), v.sort);
    RouteUtils.CeilDivBounds(|sorted|, ITEMS_PER_PAGE);
  }

  // ---------------------------------------------------------------------------
  // the chip row

  /** The chip row renders only when `activeFilterCount > 0`. */
  method ShowsChipRow(v: View) returns (shown: bool)
    ensures shown <==> !RouteUtils.Inactive(v.filters)
    ensures shown <==> |ActiveGroups(v.filters)| > 0
  {
    var count := ActiveFilterCount(v.filters);
    shown := count > 0;
  }

  // ---------------------------------------------------------------------------
  // pagination

  /** Pagination renders when there is more than one page. */
  predicate ShowsPagination(v: View) {
    v.totalPages > 1
  }

  predicate ShowsPrevious(v: View) {
    v.page > 1
  }

  predicate ShowsNext(v: View) {
    v.page < v.totalPages
  }

  /**
   * `Array.from({ length: n }, (_, i) => i + 1)`: every page number from 1 to n, each
   * once, in ascending order.
   */
  function PageNumbers(n: nat): (ns: seq<int>)
    ensures |ns| == n
    ensures forall k :: k in ns <==> 1 <= k <= n
    ensures forall i, j :: 0 <= i < j < |ns| ==> ns[i] < ns[j]
  {
    var ns := seq(n, i requires 0 <= i < n => i + 1);
    assert forall k :: 1 <= k <= n ==> k in ns by {
      forall k | 1 <= k <= n ensures k in ns { assert ns[k - 1] == k; }
    }
    ns
  }

  /** The page links: `PageNumbers(totalPages).slice(Math.max(0, page - 3), page + 2)`. */
  function PageWindow(totalPages: nat, page: int): seq<int> {
    JsText.JsSlice(PageNumbers(totalPages), if 0 <= page - 3 then page - 3 else 0, page + 2)
  }

  function Max(a: int, b: int): int { if a >= b then a else b }

  /** The consecutive page numbers lo..hi. */
  predicate IsRun(ns: seq<int>, lo: int, hi: int) {
    && |ns| == (if hi < lo then 0 else hi - lo + 1)
    && forall i :: 0 <= i < |ns| ==> ns[i] == lo + i
  }

  /**
   * For a page between 1 and the last page, the links are the run
   * max(1, page − 2) .. min(totalPages, page + 2): at most five pages, the current one among them.
   */
  lemma PageWindowCorrect(totalPages: nat, page: int)
    requires 1 <= page <= totalPages
    ensures IsRun(PageWindow(totalPages, page), Max(1, page - 2), RouteUtils.Min(totalPages, page + 2))
    ensures 1 <= |PageWindow(totalPages, page)| <= 5
    ensures page in PageWindow(totalPages, page)
  {
    var w := PageWindow(totalPages, page);
    var lo := Max(1, page - 2);
    var hi := RouteUtils.Min(totalPages, page + 2);
    assert w == PageNumbers(totalPages)[lo - 1..hi];
    assert w[page - lo] == page;
  }

  /** Every link, whatever the page number, names an existing page, in ascending order. */
  lemma PageWindowInRange(totalPages: nat, page: int)
    ensures forall i :: 0 <= i < |PageWindow(totalPages, page)| ==> 1 <= PageWindow(totalPages, page)[i] <= totalPages
    ensures forall i, j :: 0 <= i < j < |PageWindow(totalPages, page)| ==> PageWindow(totalPages, page)[i] < PageWindow(totalPages, page)[j]
  {
  }

  /**
   * The Next button, rendered only inside the pagination bar and before the last page:
   * `setPage(page + 1)`. A URL page of zero or below (`Number("-3") || 1` is -3) still
   * shows Next, and `setPage` then deletes `page`, so the page reads as 1.
   */
  method GoToNext(routes: seq<Route>, p: Params) returns (next: Params)
    requires ShowsPagination(PageView(routes, p)) && ShowsNext(PageView(routes, p))
    ensures ReadPage(next) == if ReadPage(p) + 1 <= 1 then 1 else ReadPage(p) + 1
    ensures ReadFilters(next) == ReadFilters(p) && ReadSort(next) == ReadSort(p)
  {
    var v := PageView(routes, p);
    next := SetPage(p, v.page + 1);
    UnchangedBesidesPage(p, next);
  }

  /** The Previous button, rendered only inside the pagination bar after the first page: `setPage(page - 1)`. */
  method GoToPrevious(routes: seq<Route>, p: Params) returns (next: Params)
    requires ShowsPagination(PageView(routes, p)) && ShowsPrevious(PageView(routes, p))
    ensures ReadPage(next) == ReadPage(p) - 1
    ensures ReadFilters(next) == ReadFilters(p) && ReadSort(next) == ReadSort(p)
  {
    var v := PageView(routes, p);
    next := SetPage(p, v.page - 1);
    UnchangedBesidesPage(p, next);
  }

  lemma UnchangedBesidesPage(p: Params, next: Params)
    requires forall name :: name != "page" ==> Get(next, name) == Get(p, name)
    ensures ReadFilters(next) == ReadFilters(p) && ReadSort(next) == ReadSort(p)
  {
    assert Get(next, "sort") == Get(p, "sort");
  }
}
