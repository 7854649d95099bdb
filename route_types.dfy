/**
 * The route catalogue's types: the closed enumerations (difficulty grade, route
 * type, facility, highlight and feature tags, sort option), the `Route` and
 * `RouteFilters` records, and the constant lists and label tables built on them.
 * Each enumeration value carries the string code the application writes into URLs
 * and compares at run time.
 */
module RouteTypes {
  import opened Wrappers
  import JsText

  datatype Difficulty = T1 | T2 | T3 | T4 | T5 | T6 {
    function Code(): string {
      match this
      case T1 => "T1" case T2 => "T2" case T3 => "T3"
      case T4 => "T4" case T5 => "T5" case T6 => "T6"
    }
  }

  datatype RouteType = Loop | OutAndBack | PointToPoint {
    function Code(): string {
      match this
      case Loop => "loop"
      case OutAndBack => "out_and_back"
      case PointToPoint => "point_to_point"
    }
  }

  datatype Facility = MountainHuts | Restaurants | Toilets | ParkingOnTheWay {
    function Code(): string {
      match this
      case MountainHuts => "Mountain huts"
      case Restaurants => "Restaurants"
      case Toilets => "Toilets"
      case ParkingOnTheWay => "Parking on the way"
    }
  }

  datatype Highlight = Coastline | MountainRidge | Lakes | Waterfalls {
    function Code(): string {
      match this
      case Coastline => "Coastline"
      case MountainRidge => "Mountain ridge"
      case Lakes => "Lakes"
      case Waterfalls => "Waterfalls"
    }
  }

  datatype Feature = ViaFerrata | Climbing | MountainBikePark {
    function Code(): string {
      match this
      case ViaFerrata => "Via ferrata"
      case Climbing => "Climbing"
      case MountainBikePark => "Mountain bike park"
    }
  }

  datatype SortOption =
    | Relevance
    | DistanceAsc | DistanceDesc
    | DurationAsc | DurationDesc
    | ElevationAsc | ElevationDesc
    | Recent
  {
    function Code(): string {
      match this
      case Relevance => "relevance"
      case DistanceAsc => "distance_asc"
      case DistanceDesc => "distance_desc"
      case DurationAsc => "duration_asc"
      case DurationDesc => "duration_desc"
      case ElevationAsc => "elevation_asc"
      case ElevationDesc => "elevation_desc"
      case Recent => "recent"
    }
  }

  /** A catalogue entry. Numbers are whole numbers here; `createdAt` is a timestamp in milliseconds. */
  datatype Route = Route(
    id: string,
    slug: string,
    title: string,
    summary: string,
    country: string,
    region: string,
    distanceKm: int,
    durationMin: int,
    elevationGainM: int,
    difficulty: Difficulty,
    routeType: RouteType,
    facilities: seq<Facility>,
    highlights: seq<Highlight>,
    features: seq<Feature>,
    images: Option<seq<string>>,
    createdAt: Option<int>)

  /** The sparse filter record: every field may be absent. */
  datatype RouteFilters = RouteFilters(
    country: Option<string>,
    region: Option<string>,
    difficulty: Option<seq<Difficulty>>,
    distanceMin: Option<int>,
    distanceMax: Option<int>,
    durationMin: Option<int>,
    durationMax: Option<int>,
    elevationMin: Option<int>,
    elevationMax: Option<int>,
    facilities: Option<seq<Facility>>,
    highlights: Option<seq<Highlight>>,
    features: Option<seq<Feature>>,
    routeType: Option<RouteType>)

  /** `keyof RouteFilters`: the names of the filter record's thirteen fields. */
  datatype FilterKey =
    | CountryKey | RegionKey | DifficultyKey
    | DistanceMinKey | DistanceMaxKey | DurationMinKey | DurationMaxKey | ElevationMinKey | ElevationMaxKey
    | FacilitiesKey | HighlightsKey | FeaturesKey | RouteTypeKey
  {
    function Name(): string {
      match this
      case CountryKey => "country"
      case RegionKey => "region"
      case DifficultyKey => "difficulty"
      case DistanceMinKey => "distance_min"
      case DistanceMaxKey => "distance_max"
      case DurationMinKey => "duration_min"
      case DurationMaxKey => "duration_max"
      case ElevationMinKey => "elevation_min"
      case ElevationMaxKey => "elevation_max"
      case FacilitiesKey => "facilities"
      case HighlightsKey => "highlights"
      case FeaturesKey => "features"
      case RouteTypeKey => "route_type"
    }
  }

  /** The filter record with every field absent (`{}`). */
  const NoFilters := RouteFilters(None, None, None, None, None, None, None, None, None, None, None, None, None)

  const FACILITIES: seq<Facility> := [MountainHuts, Restaurants, Toilets, ParkingOnTheWay]
  const HIGHLIGHTS: seq<Highlight> := [Coastline, MountainRidge, Lakes, Waterfalls]
  const FEATURES: seq<Feature> := [ViaFerrata, Climbing, MountainBikePark]
  const DIFFICULTIES: seq<Difficulty> := [T1, T2, T3, T4, T5, T6]

  datatype RouteTypeOption = RouteTypeOption(value: RouteType, text: string)

  const ROUTE_TYPES: seq<RouteTypeOption> := [
    RouteTypeOption(Loop, "Loop"),
    RouteTypeOption(OutAndBack, "Out & Back"),
    RouteTypeOption(PointToPoint, "Point to Point")
  ]

  const DIFFICULTY_LABELS: map<Difficulty, string> := map[
    T1 := "T1 - Hiking",
    T2 := "T2 - Mountain hiking",
    T3 := "T3 - Demanding",
    T4 := "T4 - Alpine hiking",
    T5 := "T5 - Demanding alpine",
    T6 := "T6 - Difficult alpine"
  ]

  const ALL_SORT_OPTIONS: seq<SortOption> :=
    [Relevance, DistanceAsc, DistanceDesc, DurationAsc, DurationDesc, ElevationAsc, ElevationDesc, Recent]

  /** Every grade is listed, once each, in the order T1..T6. */
  lemma DifficultiesListEveryGradeOnce()
    ensures |DIFFICULTIES| == 6
    ensures forall d: Difficulty :: d in DIFFICULTIES
    ensures JsText.Distinct(DIFFICULTIES)
    ensures forall i :: 0 <= i < 6 ==> DIFFICULTIES[i].Code() == "T" + JsText.IntToString(i + 1)
  {
    forall d: Difficulty ensures d in DIFFICULTIES {
      match d
      case T1 => assert DIFFICULTIES[0] == d;
      case T2 => assert DIFFICULTIES[1] == d;
      case T3 => assert DIFFICULTIES[2] == d;
      case T4 => assert DIFFICULTIES[3] == d;
      case T5 => assert DIFFICULTIES[4] == d;
      case T6 => assert DIFFICULTIES[5] == d;
    }
  }

  /** Each tag list holds every member of its union type exactly once. */
  lemma TagListsListEveryTagOnce()
    ensures forall f: Facility :: f in FACILITIES
    ensures forall h: Highlight :: h in HIGHLIGHTS
    ensures forall f: Feature :: f in FEATURES
    ensures JsText.Distinct(FACILITIES) && JsText.Distinct(HIGHLIGHTS) && JsText.Distinct(FEATURES)
    ensures |FACILITIES| == 4 && |HIGHLIGHTS| == 4 && |FEATURES| == 3
  {
    forall f: Facility ensures f in FACILITIES {
      match f
      case MountainHuts => assert FACILITIES[0] == f;
      case Restaurants => assert FACILITIES[1] == f;
      case Toilets => assert FACILITIES[2] == f;
      case ParkingOnTheWay => assert FACILITIES[3] == f;
    }
    forall h: Highlight ensures h in HIGHLIGHTS {
      match h
      case Coastline => assert HIGHLIGHTS[0] == h;
      case MountainRidge => assert HIGHLIGHTS[1] == h;
      case Lakes => assert HIGHLIGHTS[2] == h;
      case Waterfalls => assert HIGHLIGHTS[3] == h;
    }
    forall f: Feature ensures f in FEATURES {
      match f
      case ViaFerrata => assert FEATURES[0] == f;
      case Climbing => assert FEATURES[1] == f;
      case MountainBikePark => assert FEATURES[2] == f;
    }
  }

  /** `ROUTE_TYPES.find(t => t.value === rt)?.label`: the label of the first entry for `rt`. */
  function FindRouteTypeLabel(options: seq<RouteTypeOption>, rt: RouteType): Option<string>
    decreases |options|
  {
    if |options| == 0 then None
    else if options[0].value == rt then Some(options[0].text)
    else FindRouteTypeLabel(options[1..], rt)
  }

  /**
   * `ROUTE_TYPES` has one entry per route type, with pairwise distinct values, so the
   * lookup of a label never falls through to the raw value.
   */
  lemma RouteTypesListEveryTypeOnce()
    ensures |ROUTE_TYPES| == 3
    ensures forall i, j :: 0 <= i < j < |ROUTE_TYPES| ==> ROUTE_TYPES[i].value != ROUTE_TYPES[j].value
    ensures forall t: RouteType :: FindRouteTypeLabel(ROUTE_TYPES, t).Some?
    ensures FindRouteTypeLabel(ROUTE_TYPES, OutAndBack) == Some("Out & Back")
  {
    forall t: RouteType ensures FindRouteTypeLabel(ROUTE_TYPES, t).Some? {
      assert ROUTE_TYPES[1..][1..] == [RouteTypeOption(PointToPoint, "Point to Point")];
    }
  }

  /** Every grade has a label, and every label begins with its grade's code. */
  lemma DifficultyLabelsTotal()
    ensures forall d: Difficulty :: d in DIFFICULTY_LABELS && JsText.StartsWith(DIFFICULTY_LABELS[d], d.Code())
  {
    forall d: Difficulty ensures d in DIFFICULTY_LABELS && JsText.StartsWith(DIFFICULTY_LABELS[d], d.Code()) {
      match d
      case T1 => assert DIFFICULTY_LABELS[d][..2] == "T1";
      case T2 => assert DIFFICULTY_LABELS[d][..2] == "T2";
      case T3 => assert DIFFICULTY_LABELS[d][..2] == "T3";
      case T4 => assert DIFFICULTY_LABELS[d][..2] == "T4";
      case T5 => assert DIFFICULTY_LABELS[d][..2] == "T5";
      case T6 => assert DIFFICULTY_LABELS[d][..2] == "T6";
    }
  }

  /** The sort options are exactly eight, with pairwise distinct codes. */
  lemma SortOptionsEight()
    ensures |ALL_SORT_OPTIONS| == 8
    ensures forall s: SortOption :: s in ALL_SORT_OPTIONS
    ensures forall i, j :: 0 <= i < j < 8 ==> ALL_SORT_OPTIONS[i].Code() != ALL_SORT_OPTIONS[j].Code()
  {
    forall s: SortOption ensures s in ALL_SORT_OPTIONS {
      match s
      case Relevance => assert ALL_SORT_OPTIONS[0] == s;
      case DistanceAsc => assert ALL_SORT_OPTIONS[1] == s;
      case DistanceDesc => assert ALL_SORT_OPTIONS[2] == s;
      case DurationAsc => assert ALL_SORT_OPTIONS[3] == s;
      case DurationDesc => assert ALL_SORT_OPTIONS[4] == s;
      case ElevationAsc => assert ALL_SORT_OPTIONS[5] == s;
      case ElevationDesc => assert ALL_SORT_OPTIONS[6] == s;
      case Recent => assert ALL_SORT_OPTIONS[7] == s;
    }
  }

  // ---------------------------------------------------------------------------
  // Reading codes back (what a `as Difficulty` cast of a URL value means for a valid code)

  function ParseDifficulty(s: string): (r: Option<Difficulty>)
    ensures r.Some? ==> r.value.Code() == s
  {
    if s == "T1" then Some(T1) else if s == "T2" then Some(T2) else if s == "T3" then Some(T3)
    else if s == "T4" then Some(T4) else if s == "T5" then Some(T5) else if s == "T6" then Some(T6)
    else None
  }

  function ParseRouteType(s: string): (r: Option<RouteType>)
    ensures r.Some? ==> r.value.Code() == s
  {
    if s == "loop" then Some(Loop) else if s == "out_and_back" then Some(OutAndBack)
    else if s == "point_to_point" then Some(PointToPoint) else None
  }

  function ParseFacility(s: string): (r: Option<Facility>)
    ensures r.Some? ==> r.value.Code() == s
  {
    if s == "Mountain huts" then Some(MountainHuts) else if s == "Restaurants" then Some(Restaurants)
    else if s == "Toilets" then Some(Toilets) else if s == "Parking on the way" then Some(ParkingOnTheWay)
    else None
  }

  function ParseHighlight(s: string): (r: Option<Highlight>)
    ensures r.Some? ==> r.value.Code() == s
  {
    if s == "Coastline" then Some(Coastline) else if s == "Mountain ridge" then Some(MountainRidge)
    else if s == "Lakes" then Some(Lakes) else if s == "Waterfalls" then Some(Waterfalls)
    else None
  }

  function ParseFeature(s: string): (r: Option<Feature>)
    ensures r.Some? ==> r.value.Code() == s
  {
    if s == "Via ferrata" then Some(ViaFerrata) else if s == "Climbing" then Some(Climbing)
    else if s == "Mountain bike park" then Some(MountainBikePark) else None
  }

  /** Text that is not a sort code reads as relevance, which `sortRoutes` treats the same way. */
  function ParseSortOption(s: string): (r: SortOption)
    ensures r != Relevance ==> r.Code() == s
  {
    if s == "distance_asc" then DistanceAsc else if s == "distance_desc" then DistanceDesc
    else if s == "duration_asc" then DurationAsc else if s == "duration_desc" then DurationDesc
    else if s == "elevation_asc" then ElevationAsc else if s == "elevation_desc" then ElevationDesc
    else if s == "recent" then Recent else Relevance
  }

  /** Every code reads back as its own value; codes are non-empty and free of commas. */
  lemma CodesRoundTrip()
    ensures forall d: Difficulty :: ParseDifficulty(d.Code()) == Some(d) && d.Code() != "" && ',' !in d.Code()
    ensures forall t: RouteType :: ParseRouteType(t.Code()) == Some(t) && t.Code() != ""
    ensures forall f: Facility :: ParseFacility(f.Code()) == Some(f) && f.Code() != "" && ',' !in f.Code()
    ensures forall h: Highlight :: ParseHighlight(h.Code()) == Some(h) && h.Code() != "" && ',' !in h.Code()
    ensures forall f: Feature :: ParseFeature(f.Code()) == Some(f) && f.Code() != "" && ',' !in f.Code()
    ensures forall s: SortOption :: ParseSortOption(s.Code()) == s
  {
    DifficultyCodesRoundTrip();
    RouteTypeCodesRoundTrip();
    FacilityCodesRoundTrip();
    HighlightCodesRoundTrip();
    FeatureCodesRoundTrip();
    SortCodesRoundTrip();
  }

  lemma DifficultyCodesRoundTrip()
    ensures forall d: Difficulty :: ParseDifficulty(d.Code()) == Some(d) && d.Code() != "" && ',' !in d.Code()
  {
  }

  lemma RouteTypeCodesRoundTrip()
    ensures forall t: RouteType :: ParseRouteType(t.Code()) == Some(t) && t.Code() != ""
  {
  }

  lemma FacilityCodesRoundTrip()
    ensures forall f: Facility :: ParseFacility(f.Code()) == Some(f) && f.Code() != "" && ',' !in f.Code()
  {
  }

  lemma HighlightCodesRoundTrip()
    ensures forall h: Highlight :: ParseHighlight(h.Code()) == Some(h) && h.Code() != "" && ',' !in h.Code()
  {
  }

  lemma FeatureCodesRoundTrip()
    ensures forall f: Feature :: ParseFeature(f.Code()) == Some(f) && f.Code() != "" && ',' !in f.Code()
  {
  }

  lemma SortCodesRoundTrip()
    ensures forall s: SortOption :: ParseSortOption(s.Code()) == s
  {
  }
}
