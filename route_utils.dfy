/**
 * The route query engine: filtering a catalogue by a sparse filter record, sorting a
 * copy by one numeric key, cutting one page out of the result, the sorted
 * duplicate-free country and region lists, and the duration text.
 */
module RouteUtils {
  import opened Wrappers
  import JsText
  import opened RouteTypes

  // ---------------------------------------------------------------------------
  // filterRoutes

  /** A text filter is in force when it is present and non-empty (JavaScript truthiness). */
  predicate TextGiven(s: Option<string>) {
    s.Some? && s.value != ""
  }

  /** A list filter is in force when it is present and has at least one item (`list?.length`). */
  predicate ListGiven<T>(xs: Option<seq<T>>) {
    xs.Some? && |xs.value| > 0
  }

  /** `wanted.some(w => have.includes(w))`. */
  predicate SharesTag<T(==)>(wanted: seq<T>, have: seq<T>) {
    exists i :: 0 <= i < |wanted| && wanted[i] in have
  }

  /**
   * The callback of `filterRoutes`: a chain of early `return false` tests in the
   * source's order, ending in `return true`.
   */
  predicate Keep(r: Route, f: RouteFilters) {
    if TextGiven(f.country) && r.country != f.country.value then false
    else if TextGiven(f.region) && r.region != f.region.value then false
    else if ListGiven(f.difficulty) && r.difficulty !in f.difficulty.value then false
    else if f.distanceMin.Some? && r.distanceKm < f.distanceMin.value then false
    else if f.distanceMax.Some? && r.distanceKm > f.distanceMax.value then false
    else if f.durationMin.Some? && r.durationMin < f.durationMin.value then false
    else if f.durationMax.Some? && r.durationMin > f.durationMax.value then false
    else if f.elevationMin.Some? && r.elevationGainM < f.elevationMin.value then false
    else if f.elevationMax.Some? && r.elevationGainM > f.elevationMax.value then false
    else if ListGiven(f.facilities) && !SharesTag(f.facilities.value, r.facilities) then false
    else if ListGiven(f.highlights) && !SharesTag(f.highlights.value, r.highlights) then false
    else if ListGiven(f.features) && !SharesTag(f.features.value, r.features) then false
    else if f.routeType.Some? && r.routeType != f.routeType.value then false
    else true
  }

  /** `routes.filter(route => Keep(route, filters))`. */
  function FilterRoutes(rs: seq<Route>, f: RouteFilters): (kept: seq<Route>)
    ensures |kept| <= |rs|
    ensures forall r :: r in kept <==> r in rs && Keep(r, f)
    ensures forall r :: multiset(kept)[r] == if Keep(r, f) then multiset(rs)[r] else 0
    decreases |rs|
  {
    assert |rs| > 0 ==> rs == [rs[0]] + rs[1..];
    if |rs| == 0 then []
    else if Keep(rs[0], f) then [rs[0]] + FilterRoutes(rs[1..], f)
    else FilterRoutes(rs[1..], f)
  }

  /** `xs` can be obtained from `ys` by deleting elements: same order, no new elements. */
  predicate IsSubsequence<T(==)>(xs: seq<T>, ys: seq<T>)
    decreases |ys|
  {
    if |ys| == 0 then |xs| == 0
    else (|xs| > 0 && xs[0] == ys[0] && IsSubsequence(xs[1..], ys[1..])) || IsSubsequence(xs, ys[1..])
  }

  /** The filtered list keeps the input's order: it is a subsequence of the input. */
  lemma {:induction false} FilterIsSubsequence(rs: seq<Route>, f: RouteFilters)
    ensures IsSubsequence(FilterRoutes(rs, f), rs)
    decreases |rs|
  {
    if |rs| > 0 {
      FilterIsSubsequence(rs[1..], f);
      if Keep(rs[0], f) {
        assert ([rs[0]] + FilterRoutes(rs[1..], f))[1..] == FilterRoutes(rs[1..], f);
      }
    }
  }

  /** A filter record whose fields are all absent, empty texts or empty lists keeps every route. */
  predicate Inactive(f: RouteFilters) {
    !TextGiven(f.country) && !TextGiven(f.region) && !ListGiven(f.difficulty)
    && f.distanceMin.None? && f.distanceMax.None? && f.durationMin.None? && f.durationMax.None?
    && f.elevationMin.None? && f.elevationMax.None?
    && !ListGiven(f.facilities) && !ListGiven(f.highlights) && !ListGiven(f.features)
    && f.routeType.None?
  }

  /** With no filter in force (in particular `{}`), the input comes back unchanged. */
  lemma {:induction false} FilterInactiveIsIdentity(rs: seq<Route>, f: RouteFilters)
    requires Inactive(f)
    ensures FilterRoutes(rs, f) == rs
    ensures FilterRoutes(rs, NoFilters) == rs
    decreases |rs|
  {
    if |rs| > 0 {
      FilterInactiveIsIdentity(rs[1..], f);
      assert rs == [rs[0]] + rs[1..];
    }
  }

  /**
   * What a kept route satisfies, filter by filter, each one independent of the others:
   * equal text and route type where given, grade in a non-empty grade list, every
   * defined bound inclusive, and a shared tag with every non-empty tag list.
   */
  lemma KeptRouteSatisfiesEachFilter(rs: seq<Route>, f: RouteFilters, r: Route)
    requires r in FilterRoutes(rs, f)
    ensures r in rs
    ensures TextGiven(f.country) ==> r.country == f.country.value
    ensures TextGiven(f.region) ==> r.region == f.region.value
    ensures ListGiven(f.difficulty) ==> r.difficulty in f.difficulty.value
    ensures f.distanceMin.Some? ==> f.distanceMin.value <= r.distanceKm
    ensures f.distanceMax.Some? ==> r.distanceKm <= f.distanceMax.value
    ensures f.durationMin.Some? ==> f.durationMin.value <= r.durationMin
    ensures f.durationMax.Some? ==> r.durationMin <= f.durationMax.value
    ensures f.elevationMin.Some? ==> f.elevationMin.value <= r.elevationGainM
    ensures f.elevationMax.Some? ==> r.elevationGainM <= f.elevationMax.value
    ensures ListGiven(f.facilities) ==> exists t :: t in f.facilities.value && t in r.facilities
    ensures ListGiven(f.highlights) ==> exists t :: t in f.highlights.value && t in r.highlights
    ensures ListGiven(f.features) ==> exists t :: t in f.features.value && t in r.features
    ensures f.routeType.Some? ==> r.routeType == f.routeType.value
  {
  }

  /** Conversely, a route of the input that passes every filter is kept. */
  lemma RouteSatisfyingEveryFilterIsKept(rs: seq<Route>, f: RouteFilters, r: Route)
    requires r in rs
    requires TextGiven(f.country) ==> r.country == f.country.value
    requires TextGiven(f.region) ==> r.region == f.region.value
    requires ListGiven(f.difficulty) ==> r.difficulty in f.difficulty.value
    requires f.distanceMin.Some? ==> f.distanceMin.value <= r.distanceKm
    requires f.distanceMax.Some? ==> r.distanceKm <= f.distanceMax.value
    requires f.durationMin.Some? ==> f.durationMin.value <= r.durationMin
    requires f.durationMax.Some? ==> r.durationMin <= f.durationMax.value
    requires f.elevationMin.Some? ==> f.elevationMin.value <= r.elevationGainM
    requires f.elevationMax.Some? ==> r.elevationGainM <= f.elevationMax.value
    requires ListGiven(f.facilities) ==> exists t :: t in f.facilities.value && t in r.facilities
    requires ListGiven(f.highlights) ==> exists t :: t in f.highlights.value && t in r.highlights
    requires ListGiven(f.features) ==> exists t :: t in f.features.value && t in r.features
    requires f.routeType.Some? ==> r.routeType == f.routeType.value
    ensures r in FilterRoutes(rs, f)
  {
    if ListGiven(f.facilities) {
      CommonTagShared(f.facilities.value, r.facilities);
    }
    if ListGiven(f.highlights) {
      CommonTagShared(f.highlights.value, r.highlights);
    }
    if ListGiven(f.features) {
      CommonTagShared(f.features.value, r.features);
    }
    assert Keep(r, f);
  }

  /** A value on both lists is a shared tag. */
  lemma CommonTagShared<T>(wanted: seq<T>, have: seq<T>)
    requires exists t :: t in wanted && t in have
    ensures SharesTag(wanted, have)
  {
    var t :| t in wanted && t in have;
    var i :| 0 <= i < |wanted| && wanted[i] == t;
  }

  // ---------------------------------------------------------------------------
  // sortRoutes

  /** The number a sort option compares: the `created_at` timestamp for `recent`, 0 when missing. */
  function SortKey(opt: SortOption, r: Route): int {
    match opt
    case DistanceAsc => r.distanceKm
    case DistanceDesc => r.distanceKm
    case DurationAsc => r.durationMin
    case DurationDesc => r.durationMin
    case ElevationAsc => r.elevationGainM
    case ElevationDesc => r.elevationGainM
    case Recent => r.createdAt.GetOr(0)
    case Relevance => 0
  }

  /** The options whose comparator is `b - a`: largest key first. */
  predicate Descending(opt: SortOption) {
    opt == DistanceDesc || opt == DurationDesc || opt == ElevationDesc || opt == Recent
  }

  /** The comparator `cmp(a, b)` of each option is `Rank(a) - Rank(b)`. */
  function Rank(opt: SortOption, r: Route): int {
    if Descending(opt) then -SortKey(opt, r) else SortKey(opt, r)
  }

  /**
   * Places `x` in front of the first element whose rank is not smaller: `x` comes
   * from earlier in the input than every element of `s`, so it precedes equal ranks.
   */
  function Insert(opt: SortOption, x: Route, s: seq<Route>): seq<Route>
    decreases |s|
  {
    if |s| == 0 || Rank(opt, x) <= Rank(opt, s[0]) then [x] + s
    else [s[0]] + Insert(opt, x, s[1..])
  }

  /** A stable sort by rank, the behaviour `Array.prototype.sort` must have. */
  function StableSort(opt: SortOption, rs: seq<Route>): seq<Route>
    decreases |rs|
  {
    if |rs| == 0 then [] else Insert(opt, rs[0], StableSort(opt, rs[1..]))
  }

  /** `sortRoutes`: relevance keeps the order of the copy, every other option sorts it. */
  function SortRoutes(rs: seq<Route>, opt: SortOption): seq<Route> {
    if opt == Relevance then rs else StableSort(opt, rs)
  }

  /** Sorting neither adds nor drops a route. */
  lemma SortKeepsRoutes(rs: seq<Route>, opt: SortOption)
    ensures forall r :: r in SortRoutes(rs, opt) <==> r in rs
  {
    SortRoutesCorrect(rs, opt);
    forall r ensures r in SortRoutes(rs, opt) <==> r in rs {
      assert r in SortRoutes(rs, opt) <==> r in multiset(SortRoutes(rs, opt));
    }
  }

  predicate SortedByRank(opt: SortOption, s: seq<Route>) {
    forall i, j :: 0 <= i < j < |s| ==> Rank(opt, s[i]) <= Rank(opt, s[j])
  }

  /** The routes of `s` whose rank is `k`, in their order in `s`. */
  function WithRank(opt: SortOption, s: seq<Route>, k: int): seq<Route>
    decreases |s|
  {
    if |s| == 0 then []
    else if Rank(opt, s[0]) == k then [s[0]] + WithRank(opt, s[1..], k)
    else WithRank(opt, s[1..], k)
  }

  lemma {:induction false} InsertPermutes(opt: SortOption, x: Route, s: seq<Route>)
    ensures multiset(Insert(opt, x, s)) == multiset{x} + multiset(s)
    ensures |Insert(opt, x, s)| == |s| + 1
    decreases |s|
  {
    if |s| > 0 && Rank(opt, x) > Rank(opt, s[0]) {
      InsertPermutes(opt, x, s[1..]);
      assert s == [s[0]] + s[1..];
    }
  }

  lemma {:induction false} InsertMembers(opt: SortOption, x: Route, s: seq<Route>)
    ensures forall y :: y in Insert(opt, x, s) <==> y == x || y in s
    decreases |s|
  {
    if |s| > 0 && Rank(opt, x) > Rank(opt, s[0]) {
      InsertMembers(opt, x, s[1..]);
      assert s == [s[0]] + s[1..];
    }
  }

  lemma {:induction false} InsertSorted(opt: SortOption, x: Route, s: seq<Route>)
    requires SortedByRank(opt, s)
    ensures SortedByRank(opt, Insert(opt, x, s))
    decreases |s|
  {
    if |s| == 0 {
      ConsSorted(opt, x, s);
    } else if Rank(opt, x) > Rank(opt, s[0]) {
      HeadRanksFirst(opt, s);
      InsertSorted(opt, x, s[1..]);
      InsertMembers(opt, x, s[1..]);
      ConsSorted(opt, s[0], Insert(opt, x, s[1..]));
    } else {
      HeadRanksFirst(opt, s);
      ConsSorted(opt, x, s);
    }
  }

  /** A route ranked no higher than any of a sorted list can go in front of it. */
  lemma ConsSorted(opt: SortOption, h: Route, t: seq<Route>)
    requires SortedByRank(opt, t)
    requires forall y :: y in t ==> Rank(opt, h) <= Rank(opt, y)
    ensures SortedByRank(opt, [h] + t)
  {
    var r := [h] + t;
    forall i, j | 0 <= i < j < |r| ensures Rank(opt, r[i]) <= Rank(opt, r[j]) {
      if i == 0 {
        assert r[j] == t[j - 1];
        assert r[j] in t;
      } else {
        assert r[i] == t[i - 1] && r[j] == t[j - 1];
      }
    }
  }

  /** In a list sorted by rank, the rest is sorted and no later route ranks below the first. */
  lemma HeadRanksFirst(opt: SortOption, s: seq<Route>)
    requires SortedByRank(opt, s) && |s| > 0
    ensures SortedByRank(opt, s[1..])
    ensures forall y :: y in s ==> Rank(opt, s[0]) <= Rank(opt, y)
  {
    forall y | y in s ensures Rank(opt, s[0]) <= Rank(opt, y) {
      var m :| 0 <= m < |s| && s[m] == y;
    }
    forall i, j | 0 <= i < j < |s[1..]| ensures Rank(opt, s[1..][i]) <= Rank(opt, s[1..][j]) {
      assert s[1..][i] == s[i + 1] && s[1..][j] == s[j + 1];
    }
  }

  /** Inserting an earlier element puts it at the head of its own rank class and moves no other class. */
  lemma {:induction false} InsertWithRank(opt: SortOption, x: Route, s: seq<Route>, k: int)
    ensures WithRank(opt, Insert(opt, x, s), k)
         == (if Rank(opt, x) == k then [x] + WithRank(opt, s, k) else WithRank(opt, s, k))
    decreases |s|
  {
    if |s| == 0 || Rank(opt, x) <= Rank(opt, s[0]) {
      assert ([x] + s)[1..] == s;
    } else {
      InsertWithRank(opt, x, s[1..], k);
      assert ([s[0]] + Insert(opt, x, s[1..]))[1..] == Insert(opt, x, s[1..]);
    }
  }

  lemma StableSortCorrect(opt: SortOption, rs: seq<Route>)
    ensures SortedByRank(opt, StableSort(opt, rs))
    ensures multiset(StableSort(opt, rs)) == multiset(rs)
    ensures |StableSort(opt, rs)| == |rs|
    ensures forall k :: WithRank(opt, StableSort(opt, rs), k) == WithRank(opt, rs, k)
  {
    StableSortPermutes(opt, rs);
    StableSortSorts(opt, rs);
    forall k ensures WithRank(opt, StableSort(opt, rs), k) == WithRank(opt, rs, k) {
      StableSortKeepsRankOrder(opt, rs, k);
    }
  }

  lemma {:induction false} StableSortPermutes(opt: SortOption, rs: seq<Route>)
    ensures multiset(StableSort(opt, rs)) == multiset(rs)
    ensures |StableSort(opt, rs)| == |rs|
    decreases |rs|
  {
    if |rs| > 0 {
      StableSortPermutes(opt, rs[1..]);
      InsertPermutes(opt, rs[0], StableSort(opt, rs[1..]));
      assert rs == [rs[0]] + rs[1..];
    }
  }

  lemma {:induction false} StableSortSorts(opt: SortOption, rs: seq<Route>)
    ensures SortedByRank(opt, StableSort(opt, rs))
    decreases |rs|
  {
    if |rs| > 0 {
      StableSortSorts(opt, rs[1..]);
      InsertSorted(opt, rs[0], StableSort(opt, rs[1..]));
    }
  }

  /** The routes of one rank come out of the sort in their input order. */
  lemma {:induction false} StableSortKeepsRankOrder(opt: SortOption, rs: seq<Route>, k: int)
    ensures WithRank(opt, StableSort(opt, rs), k) == WithRank(opt, rs, k)
    decreases |rs|
  {
    if |rs| > 0 {
      StableSortKeepsRankOrder(opt, rs[1..], k);
      InsertWithRank(opt, rs[0], StableSort(opt, rs[1..]), k);
    }
  }

  /**
   * `sortRoutes` returns a permutation of its input; ascending options give a
   * non-decreasing key sequence and descending ones (including `recent`, a missing
   * date counting as 0) a non-increasing one; routes with equal keys keep their input
   * order; relevance returns the input order.
   */
  lemma SortRoutesCorrect(rs: seq<Route>, opt: SortOption)
    ensures multiset(SortRoutes(rs, opt)) == multiset(rs)
    ensures |SortRoutes(rs, opt)| == |rs|
    ensures opt == Relevance ==> SortRoutes(rs, opt) == rs
    ensures opt != Relevance && !Descending(opt) ==>
      forall i, j :: 0 <= i < j < |SortRoutes(rs, opt)| ==>
        SortKey(opt, SortRoutes(rs, opt)[i]) <= SortKey(opt, SortRoutes(rs, opt)[j])
    ensures Descending(opt) ==>
      forall i, j :: 0 <= i < j < |SortRoutes(rs, opt)| ==>
        SortKey(opt, SortRoutes(rs, opt)[i]) >= SortKey(opt, SortRoutes(rs, opt)[j])
    ensures forall k :: WithRank(opt, SortRoutes(rs, opt), k) == WithRank(opt, rs, k)
  {
    if opt != Relevance {
      StableSortCorrect(opt, rs);
    }
  }

  // ---------------------------------------------------------------------------
  // paginateRoutes

  datatype Page = Page(routes: seq<Route>, totalPages: int, totalCount: int)

  /** `Math.ceil(count / perPage)` for a positive page size. */
  function CeilDiv(count: nat, perPage: nat): nat
    requires perPage > 0
  {
    (count + perPage - 1) / perPage
  }

  /** The ceiling quotient is the least number of pages holding `count` routes. */
  lemma CeilDivBounds(count: nat, perPage: nat)
    requires perPage > 0
    ensures count <= CeilDiv(count, perPage) * perPage
    ensures CeilDiv(count, perPage) > 0 ==> (CeilDiv(count, perPage) - 1) * perPage < count
    ensures CeilDiv(count, perPage) == 0 <==> count == 0
  {
    var n := count + perPage - 1;
    var q := n / perPage;
    var rem := n % perPage;
    assert n == q * perPage + rem;
    assert (q - 1) * perPage == q * perPage - perPage;
  }

  /** `paginateRoutes`: the page's slice starts at `(page - 1) * perPage`, as JavaScript's `slice` reads it. */
  function PaginateRoutes(rs: seq<Route>, page: int, perPage: nat): Page
    requires perPage > 0
  {
    var start := (page - 1) * perPage;
    Page(JsText.JsSlice(rs, start, start + perPage), CeilDiv(|rs|, perPage), |rs|)
  }

  function Min(a: int, b: int): int { if a <= b then a else b }

  lemma MulMonotone(a: int, b: int, c: nat)
    requires a <= b
    ensures a * c <= b * c
  {
    assert b * c - a * c == (b - a) * c;
  }

  /** Where page `page` starts and ends, and that it lies past the data exactly after the last page. */
  lemma PageBounds(count: nat, page: int, perPage: nat)
    requires page >= 1 && perPage > 0
    ensures 0 <= (page - 1) * perPage
    ensures (page - 1) * perPage + perPage == page * perPage
    ensures (page - 1) * perPage >= count <==> page > CeilDiv(count, perPage)
  {
    var t := CeilDiv(count, perPage);
    CeilDivBounds(count, perPage);
    MulMonotone(0, page - 1, perPage);
    if page > t {
      MulMonotone(t, page - 1, perPage);
    } else if t > 0 {
      MulMonotone(page - 1, t - 1, perPage);
    }
  }

  /**
   * For page ≥ 1: the page holds the routes at positions [(page-1)·perPage, page·perPage)
   * that exist, at most `perPage` of them; counts are the length and its ceiling
   * quotient; and the page is empty exactly when it lies past the last page.
   */
  lemma PaginateRoutesCorrect(rs: seq<Route>, page: int, perPage: nat)
    requires page >= 1 && perPage > 0
    ensures var p := PaginateRoutes(rs, page, perPage);
      var start := (page - 1) * perPage;
      && 0 <= start
      && p.totalCount == |rs|
      && p.totalPages == CeilDiv(|rs|, perPage)
      && p.routes == rs[Min(start, |rs|)..Min(start + perPage, |rs|)]
      && |p.routes| <= perPage
      && (p.routes == [] <==> page > p.totalPages)
  {
    PageBounds(|rs|, page, perPage);
  }

  function Pages(rs: seq<Route>, perPage: nat, k: nat): seq<Route>
    requires perPage > 0
  {
    if k == 0 then [] else Pages(rs, perPage, k - 1) + PaginateRoutes(rs, k, perPage).routes
  }

  /** The first `k` pages, one after another, are the first `k·perPage` routes: no route is lost or repeated. */
  lemma {:induction false} PagesConcatenate(rs: seq<Route>, perPage: nat, k: nat)
    requires perPage > 0
    ensures Pages(rs, perPage, k) == rs[..Min(k * perPage, |rs|)]
  {
    if k > 0 {
      var start := (k - 1) * perPage;
      PageBounds(|rs|, k, perPage);
      PagesConcatenate(rs, perPage, k - 1);
      PaginateRoutesCorrect(rs, k, perPage);
      var a := Min(start, |rs|);
      var b := Min(start + perPage, |rs|);
      assert Pages(rs, perPage, k) == rs[..a] + rs[a..b];
      assert rs[..a] + rs[a..b] == rs[..b];
    }
  }

  /** All `totalPages` pages together are the whole list. */
  lemma AllPagesAreTheList(rs: seq<Route>, perPage: nat)
    requires perPage > 0
    ensures Pages(rs, perPage, PaginateRoutes(rs, 1, perPage).totalPages) == rs
  {
    var t := CeilDiv(|rs|, perPage);
    PagesConcatenate(rs, perPage, t);
    CeilDivBounds(|rs|, perPage);
    assert Min(t * perPage, |rs|) == |rs|;
  }

  // ---------------------------------------------------------------------------
  // getCountries, getRegionsByCountry

  function CountryOfEach(rs: seq<Route>): (cs: seq<string>)
    ensures forall c :: c in cs <==> exists r :: r in rs && r.country == c
    decreases |rs|
  {
    if |rs| == 0 then [] else [rs[0].country] + CountryOfEach(rs[1..])
  }

  function RegionOfEach(rs: seq<Route>, country: string): (regions: seq<string>)
    ensures forall g :: g in regions <==> exists r :: r in rs && r.country == country && r.region == g
    decreases |rs|
  {
    if |rs| == 0 then []
    else if rs[0].country == country then [rs[0].region] + RegionOfEach(rs[1..], country)
    else RegionOfEach(rs[1..], country)
  }

  /** `[...new Set(routes.map(r => r.country))].sort()` over the catalogue `rs`. */
  function GetCountries(rs: seq<Route>): seq<string> {
    JsText.SortedUnique(CountryOfEach(rs))
  }

  /** `[...new Set(routes.filter(r => r.country === country).map(r => r.region))].sort()`. */
  function GetRegionsByCountry(rs: seq<Route>, country: string): seq<string> {
    JsText.SortedUnique(RegionOfEach(rs, country))
  }

  /** The country list is strictly ascending (hence duplicate-free) and lists exactly the routes' countries. */
  lemma GetCountriesCorrect(rs: seq<Route>)
    ensures JsText.StrictlyAscending(GetCountries(rs))
    ensures forall c :: c in GetCountries(rs) <==> exists r :: r in rs && r.country == c
  {
    JsText.SortedUniqueCorrect(CountryOfEach(rs));
  }

  /** The region list is strictly ascending and lists exactly the regions of routes in `country`. */
  lemma GetRegionsByCountryCorrect(rs: seq<Route>, country: string)
    ensures JsText.StrictlyAscending(GetRegionsByCountry(rs, country))
    ensures forall g :: g in GetRegionsByCountry(rs, country) <==>
      exists r :: r in rs && r.country == country && r.region == g
  {
    JsText.SortedUniqueCorrect(RegionOfEach(rs, country));
  }

  // ---------------------------------------------------------------------------
  // formatDuration

  /** JavaScript's `%`: the remainder takes the sign of the dividend. */
  function JsRem(a: int, b: int): (r: int)
    requires b > 0
    ensures a >= 0 ==> 0 <= r < b
    ensures a < 0 ==> -b < r <= 0
  {
    if a >= 0 then a % b else -((-a) % b)
  }

  /** `formatDuration`: hours by floor division, minutes by JavaScript remainder. */
  function FormatDuration(minutes: int): string {
    var hours := minutes / 60;
    var mins := JsRem(minutes, 60);
    if hours == 0 then JsText.IntToString(mins) + "min"
    else if mins == 0 then JsText.IntToString(hours) + "h"
    else JsText.IntToString(hours) + "h " + JsText.IntToString(mins) + "min"
  }

  predicate EndsWith(s: string, suffix: string) {
    |suffix| <= |s| && s[|s| - |suffix|..] == suffix
  }

  /** Reads a duration text back into minutes: "Mmin", "Hh" or "Hh Mmin". */
  function ParseDuration(s: string): Option<int> {
    var parts := JsText.Split(s, ' ');
    if |parts| == 1 then
      if EndsWith(s, "min") then JsText.ParseInt(s[..|s| - 3])
      else if EndsWith(s, "h") then
        match JsText.ParseInt(s[..|s| - 1])
        case Some(h) => Some(h * 60)
        case None => None
      else None
    else if |parts| == 2 && EndsWith(parts[0], "h") && EndsWith(parts[1], "min") then
      match (JsText.ParseInt(parts[0][..|parts[0]| - 1]), JsText.ParseInt(parts[1][..|parts[1]| - 3]))
      case (Some(h), Some(m)) => Some(h * 60 + m)
      case _ => None
    else None
  }

  lemma NoSpaceInNumber(n: int)
    ensures ' ' !in JsText.IntToString(n)
  {
    var s := JsText.IntToString(n);
    if n >= 0 {
      assert JsText.AllDigits(s);
    } else {
      assert s == "-" + JsText.NatToDigits(-n);
      assert JsText.AllDigits(s[1..]);
    }
  }

  lemma ParseMinutesText(m: nat)
    ensures ParseDuration(JsText.IntToString(m) + "min") == Some(m)
  {
    var ms := JsText.IntToString(m);
    var s := ms + "min";
    NoSpaceInNumber(m);
    JsText.IntToStringRoundTrip(m);
    assert ' ' !in s;
    JsText.SplitWithout(s, ' ');
    assert s[..|s| - 3] == ms;
  }

  lemma ParseHoursText(h: nat)
    ensures ParseDuration(JsText.IntToString(h) + "h") == Some(h * 60)
  {
    var hs := JsText.IntToString(h);
    var s := hs + "h";
    NoSpaceInNumber(h);
    JsText.IntToStringRoundTrip(h);
    assert ' ' !in s;
    JsText.SplitWithout(s, ' ');
    assert s[..|s| - 1] == hs;
    assert s[|s| - 1] == 'h';
    assert !EndsWith(s, "min");
  }

  lemma ParseHoursMinutesText(h: nat, m: nat)
    ensures ParseDuration(JsText.IntToString(h) + "h " + JsText.IntToString(m) + "min") == Some(h * 60 + m)
  {
    var hs := JsText.IntToString(h);
    var ms := JsText.IntToString(m);
    var a := hs + "h";
    var b := ms + "min";
    assert hs + "h " + ms + "min" == a + [' '] + b;
    NoSpaceInNumber(h);
    NoSpaceInNumber(m);
    JsText.IntToStringRoundTrip(h);
    JsText.IntToStringRoundTrip(m);
    assert ' ' !in a && ' ' !in b;
    JsText.SplitAround(a, ' ', b);
    JsText.SplitWithout(b, ' ');
    assert a[..|a| - 1] == hs;
    assert b[..|b| - 3] == ms;
  }

  /**
   * No duration is lost in the text: for every non-negative number of minutes the
   * text reads back as that number, so distinct durations get distinct texts.
   */
  lemma FormatDurationRoundTrip(minutes: int)
    requires minutes >= 0
    ensures ParseDuration(FormatDuration(minutes)) == Some(minutes)
  {
    var hours := minutes / 60;
    var mins := minutes % 60;
    assert minutes == hours * 60 + mins;
    if hours == 0 {
      ParseMinutesText(mins);
    } else if mins == 0 {
      ParseHoursText(hours);
    } else {
      ParseHoursMinutesText(hours, mins);
    }
  }

  /** The three shapes of the text for non-negative minutes. */
  lemma FormatDurationShapes(minutes: int)
    requires minutes >= 0
    ensures minutes < 60 ==> FormatDuration(minutes) == JsText.IntToString(minutes) + "min"
    ensures minutes >= 60 && minutes % 60 == 0 ==> FormatDuration(minutes) == JsText.IntToString(minutes / 60) + "h"
    ensures minutes >= 60 && minutes % 60 != 0 ==>
      FormatDuration(minutes) == JsText.IntToString(minutes / 60) + "h " + JsText.IntToString(minutes % 60) + "min"
  {
  }
}
