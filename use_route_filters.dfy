/**
 * The route list's state in the page URL: filters, sort option and page number are
 * kept in a string-to-string parameter map, read back into a `RouteFilters` record,
 * and edited by updater functions that copy the map and change only what they touch.
 */
module UseRouteFilters {
  import opened Wrappers
  import JsText
  import opened RouteTypes
  import RouteUtils

  /** The URL search parameters, one value per name. */
  type Params = map<string, string>

  // ---------------------------------------------------------------------------
  // getParamKey

  /** The URL name of a filter field: the six range bounds and the route type are abbreviated. */
  function GetParamKey(key: string): string {
    if key == "distance_min" then "dist_min"
    else if key == "distance_max" then "dist_max"
    else if key == "duration_min" then "dur_min"
    else if key == "duration_max" then "dur_max"
    else if key == "elevation_min" then "elev_min"
    else if key == "elevation_max" then "elev_max"
    else if key == "route_type" then "type"
    else key
  }

  function ParamKey(k: FilterKey): string {
    GetParamKey(k.Name())
  }

  const RENAMED: set<string> :=
    {"distance_min", "distance_max", "duration_min", "duration_max", "elevation_min", "elevation_max", "route_type"}

  /**
   * Exactly seven names are renamed; every other name is its own URL name. The
   * thirteen fields get thirteen different URL names, none of them `page` or `sort`.
   */
  lemma ParamKeysCorrect()
    ensures forall key :: key !in RENAMED ==> GetParamKey(key) == key
    ensures forall key :: key in RENAMED ==> GetParamKey(key) != key
    ensures forall a: FilterKey, b: FilterKey :: a != b ==> ParamKey(a) != ParamKey(b)
    ensures forall a: FilterKey :: ParamKey(a) != "page" && ParamKey(a) != "sort"
  {
    forall a: FilterKey, b: FilterKey | a != b ensures ParamKey(a) != ParamKey(b) {
      ParamKeyInverse(a);
      ParamKeyInverse(b);
    }
  }

  /** Reads a field back from its URL name. */
  function KeyOfParam(name: string): Option<FilterKey> {
    match name
    case "country" => Some(CountryKey)
    case "region" => Some(RegionKey)
    case "difficulty" => Some(DifficultyKey)
    case "dist_min" => Some(DistanceMinKey)
    case "dist_max" => Some(DistanceMaxKey)
    case "dur_min" => Some(DurationMinKey)
    case "dur_max" => Some(DurationMaxKey)
    case "elev_min" => Some(ElevationMinKey)
    case "elev_max" => Some(ElevationMaxKey)
    case "facilities" => Some(FacilitiesKey)
    case "highlights" => Some(HighlightsKey)
    case "features" => Some(FeaturesKey)
    case "type" => Some(RouteTypeKey)
    case _ => None
  }

  lemma ParamKeyValues()
    ensures ParamKey(CountryKey) == "country" && ParamKey(RegionKey) == "region"
    ensures ParamKey(DifficultyKey) == "difficulty"
    ensures ParamKey(DistanceMinKey) == "dist_min" && ParamKey(DistanceMaxKey) == "dist_max"
    ensures ParamKey(DurationMinKey) == "dur_min" && ParamKey(DurationMaxKey) == "dur_max"
    ensures ParamKey(ElevationMinKey) == "elev_min" && ParamKey(ElevationMaxKey) == "elev_max"
    ensures ParamKey(FacilitiesKey) == "facilities" && ParamKey(HighlightsKey) == "highlights"
    ensures ParamKey(FeaturesKey) == "features" && ParamKey(RouteTypeKey) == "type"
  {
  }

  lemma ParamKeyInverse(k: FilterKey)
    ensures KeyOfParam(ParamKey(k)) == Some(k)
  {
  }

  // ---------------------------------------------------------------------------
  // updateFilters

  /**
   * A value in a `Partial<RouteFilters>` as `updateFilters` tells them apart: absent
   * (`undefined` or `null`), an array, or anything else already turned into text by `String`.
   */
  datatype UpdateValue = Unset | Items(items: seq<string>) | Text(text: string)

  datatype Update = Update(key: FilterKey, value: UpdateValue)

  /** The value the last update aimed at URL name `name` carries, if any update is. */
  function Written(us: seq<Update>, name: string): Option<UpdateValue>
    decreases |us|
  {
    if |us| == 0 then None
    else if ParamKey(us[|us| - 1].key) == name then Some(us[|us| - 1].value)
    else Written(us[..|us| - 1], name)
  }

  /** `searchParams.get(name)`, `null` being `None`. */
  function Get(p: Params, name: string): Option<string> {
    if name in p then Some(p[name]) else None
  }

  /**
   * A parameter's text after an update has, or has not, been aimed at it: untouched it
   * keeps its text; an absent value or an empty array deletes it; a non-empty array is
   * stored comma-joined; any other value is stored as its text.
   */
  function Stored(before: Option<string>, w: Option<UpdateValue>): Option<string> {
    match w
    case None => before
    case Some(Unset) => None
    case Some(Items(xs)) => if |xs| == 0 then None else Some(JsText.Join(xs, ","))
    case Some(Text(t)) => Some(t)
  }

  /** What `updateFilters` promises: every name but `page` as the last update aimed at it says, and `page` deleted. */
  ghost predicate UpdateResult(prev: Params, us: seq<Update>, next: Params) {
    && Get(next, "page") == None
    && forall name :: name != "page" ==> Get(next, name) == Stored(Get(prev, name), Written(us, name))
  }

  lemma WrittenSnoc(us: seq<Update>, u: Update, name: string)
    ensures Written(us + [u], name) == if ParamKey(u.key) == name then Some(u.value) else Written(us, name)
  {
    assert (us + [u])[..|us|] == us;
  }

  /** `updateFilters`: copy the parameters, apply each entry in turn, then drop `page`. */
  method UpdateFilters(prev: Params, updates: seq<Update>) returns (next: Params)
    ensures UpdateResult(prev, updates, next)
  {
    next := prev;
    for i := 0 to |updates|
      invariant forall name :: Get(next, name) == Stored(Get(prev, name), Written(updates[..i], name))
    {
      var paramKey := ParamKey(updates[i].key);
      match updates[i].value {
        case Unset =>
          next := next - {paramKey};
        case Items(items) =>
          if |items| == 0 {
            next := next - {paramKey};
          } else {
            next := next[paramKey := JsText.Join(items, ",")];
          }
        case Text(t) =>
          next := next[paramKey := t];
      }
      assert updates[..i + 1] == updates[..i] + [updates[i]];
      forall name ensures Get(next, name) == Stored(Get(prev, name), Written(updates[..i] + [updates[i]], name)) {
        WrittenSnoc(updates[..i], updates[i], name);
      }
    }
    assert updates[..|updates|] == updates;
    next := next - {"page"};
  }

  // ---------------------------------------------------------------------------
  // setSort, setPage, clearFilters, clearFilter

  /** `setSort`: relevance deletes `sort`, any other option stores its code; `page` is dropped. */
  method SetSort(prev: Params, newSort: SortOption) returns (next: Params)
    ensures ReadSort(next) == newSort
    ensures "sort" in next <==> newSort != Relevance
    ensures "page" !in next
    ensures forall name :: name != "sort" && name != "page" ==> Get(next, name) == Get(prev, name)
  {
    next := prev;
    if newSort == Relevance {
      next := next - {"sort"};
    } else {
      next := next["sort" := newSort.Code()];
    }
    next := next - {"page"};
    SortCodesRoundTrip();
  }

  /** `setPage`: page 1 and below delete `page`, a later page is stored as its decimal text. */
  method SetPage(prev: Params, newPage: int) returns (next: Params)
    ensures ReadPage(next) == (if newPage <= 1 then 1 else newPage)
    ensures "page" in next <==> newPage > 1
    ensures forall name :: name != "page" ==> Get(next, name) == Get(prev, name)
  {
    next := prev;
    if newPage <= 1 {
      next := next - {"page"};
    } else {
      next := next["page" := JsText.IntToString(newPage)];
      JsText.IntToStringRoundTrip(newPage);
    }
  }

  /** `clearFilters`: the empty parameter map, which reads as no filter, relevance and page 1. */
  function ClearFilters(): (next: Params)
    ensures |next| == 0
    ensures ReadFilters(next) == NoFilters
    ensures ReadSort(next) == Relevance
    ensures ReadPage(next) == 1
  {
    map[]
  }

  /** `clearFilter(key)`: `updateFilters({[key]: undefined})`. */
  method ClearFilter(prev: Params, key: FilterKey) returns (next: Params)
    ensures ParamKey(key) !in next && "page" !in next
    ensures forall name :: name != ParamKey(key) && name != "page" ==> Get(next, name) == Get(prev, name)
    ensures ReadFilters(next) == WithoutField(ReadFilters(prev), key)
  {
    next := UpdateFilters(prev, [Update(key, Unset)]);
    ParamKeysCorrect();
    forall name | name != "page" ensures Written([Update(key, Unset)], name) == if ParamKey(key) == name then Some(Unset) else None {
      WrittenSnoc([], Update(key, Unset), name);
      assert [] + [Update(key, Unset)] == [Update(key, Unset)];
    }
    assert Get(next, ParamKey(key)) == None;
    forall k: FilterKey ensures Get(next, ParamKey(k)) == if k == key then None else Get(prev, ParamKey(k)) {
      NameAgrees(prev, next, key, k);
    }
    ReadFieldsAgree(prev, next, key);
  }

  /** The record with one field absent. */
  function WithoutField(f: RouteFilters, key: FilterKey): RouteFilters {
    match key
    case CountryKey => f.(country := None)
    case RegionKey => f.(region := None)
    case DifficultyKey => f.(difficulty := None)
    case DistanceMinKey => f.(distanceMin := None)
    case DistanceMaxKey => f.(distanceMax := None)
    case DurationMinKey => f.(durationMin := None)
    case DurationMaxKey => f.(durationMax := None)
    case ElevationMinKey => f.(elevationMin := None)
    case ElevationMaxKey => f.(elevationMax := None)
    case FacilitiesKey => f.(facilities := None)
    case HighlightsKey => f.(highlights := None)
    case FeaturesKey => f.(features := None)
    case RouteTypeKey => f.(routeType := None)
  }

  /** Fields whose URL name keeps its text read back the same; a field whose parameter is gone reads as absent. */
  lemma ReadFieldsAgree(prev: Params, next: Params, key: FilterKey)
    requires forall k: FilterKey {:trigger ParamKey(k)} :: Get(next, ParamKey(k)) == if k == key then None else Get(prev, ParamKey(k))
    ensures ReadFilters(next) == WithoutField(ReadFilters(prev), key)
  {
    ParamKeyValues();
  }

  /** One URL name after the update: gone if it is the cleared key's, unchanged otherwise. */
  lemma NameAgrees(prev: Params, next: Params, key: FilterKey, k: FilterKey)
    requires Get(next, ParamKey(key)) == None
    requires forall name :: name != ParamKey(key) && name != "page" ==> Get(next, name) == Get(prev, name)
    ensures Get(next, ParamKey(k)) == if k == key then None else Get(prev, ParamKey(k))
  {
    ParamKeyInverse(k);
    ParamKeyInverse(key);
  }

  // ---------------------------------------------------------------------------
  // reading the parameters back

  /** `get(name) || undefined`: an absent or empty text is no value. */
  function ReadText(v: Option<string>): Option<string> {
    if v.Some? && v.value != "" then v else None
  }

  /** `get(name) ? Number(get(name)) : undefined`; text that is not a whole number reads as no value. */
  function ReadNumber(v: Option<string>): Option<int> {
    if v.Some? && v.value != "" then JsText.ParseInt(v.value) else None
  }

  /** The codes of a list, in order, each turned back into its value; codes naming no value are dropped. */
  function ParseCodes<T>(xs: seq<string>, parse: string -> Option<T>): seq<T>
    decreases |xs|
  {
    if |xs| == 0 then []
    else match parse(xs[0])
      case Some(v) => [v] + ParseCodes(xs[1..], parse)
      case None => ParseCodes(xs[1..], parse)
  }

  /** `get(name)?.split(',').filter(Boolean)`, read as values. */
  function ReadList<T>(v: Option<string>, parse: string -> Option<T>): Option<seq<T>> {
    if v.Some? then Some(ParseCodes(JsText.NonEmpty(JsText.Split(v.value, ',')), parse)) else None
  }

  /** `get('type') as RouteType`. */
  function ReadRouteType(v: Option<string>): Option<RouteType> {
    if v.Some? then ParseRouteType(v.value) else None
  }

  /** The `filters` record of the hook, read from the URL parameters. */
  function ReadFilters(p: Params): RouteFilters {
    RouteFilters(
      country := ReadText(Get(p, "country")),
      region := ReadText(Get(p, "region")),
      difficulty := ReadList(Get(p, "difficulty"), ParseDifficulty),
      distanceMin := ReadNumber(Get(p, "dist_min")),
      distanceMax := ReadNumber(Get(p, "dist_max")),
      durationMin := ReadNumber(Get(p, "dur_min")),
      durationMax := ReadNumber(Get(p, "dur_max")),
      elevationMin := ReadNumber(Get(p, "elev_min")),
      elevationMax := ReadNumber(Get(p, "elev_max")),
      facilities := ReadList(Get(p, "facilities"), ParseFacility),
      highlights := ReadList(Get(p, "highlights"), ParseHighlight),
      features := ReadList(Get(p, "features"), ParseFeature),
      routeType := ReadRouteType(Get(p, "type")))
  }

  /** `(get('sort') as SortOption) || 'relevance'`; an unknown code sorts like relevance. */
  function ReadSort(p: Params): SortOption {
    if "sort" in p then ParseSortOption(p["sort"]) else Relevance
  }

  /** `Number(get('page')) || 1`: absent, empty, zero and non-numeric text all read as page 1. */
  function ReadPage(p: Params): int {
    if "page" in p then
      match JsText.ParseInt(p["page"])
      case Some(n) => if n == 0 then 1 else n
      case None => 1
    else 1
  }

  // ---------------------------------------------------------------------------
  // writing a whole filter record and reading it back

  function TextUpdate(v: Option<string>): UpdateValue {
    match v
    case Some(t) => Text(t)
    case None => Unset
  }

  function NumberUpdate(v: Option<int>): UpdateValue {
    match v
    case Some(n) => Text(JsText.IntToString(n))
    case None => Unset
  }

  function Codes<T>(xs: seq<T>, code: T -> string): (r: seq<string>)
    ensures |r| == |xs|
    ensures forall i :: 0 <= i < |xs| ==> r[i] == code(xs[i])
    decreases |xs|
  {
    if |xs| == 0 then [] else [code(xs[0])] + Codes(xs[1..], code)
  }

  function ListUpdate<T>(v: Option<seq<T>>, code: T -> string): UpdateValue {
    match v
    case Some(xs) => Items(Codes(xs, code))
    case None => Unset
  }

  function RouteTypeUpdate(v: Option<RouteType>): UpdateValue {
    match v
    case Some(t) => Text(t.Code())
    case None => Unset
  }

  function DifficultyCode(d: Difficulty): string { d.Code() }
  function FacilityCode(x: Facility): string { x.Code() }
  function HighlightCode(x: Highlight): string { x.Code() }
  function FeatureCode(x: Feature): string { x.Code() }

  /** The record's fields in declaration order. */
  const FIELDS: seq<FilterKey> :=
    [CountryKey, RegionKey, DifficultyKey, DistanceMinKey, DistanceMaxKey, DurationMinKey, DurationMaxKey,
     ElevationMinKey, ElevationMaxKey, FacilitiesKey, HighlightsKey, FeaturesKey, RouteTypeKey]

  /** The update that writes field `k` of `f`. */
  function FieldValue(f: RouteFilters, k: FilterKey): UpdateValue {
    match k
    case CountryKey => TextUpdate(f.country)
    case RegionKey => TextUpdate(f.region)
    case DifficultyKey => ListUpdate(f.difficulty, DifficultyCode)
    case DistanceMinKey => NumberUpdate(f.distanceMin)
    case DistanceMaxKey => NumberUpdate(f.distanceMax)
    case DurationMinKey => NumberUpdate(f.durationMin)
    case DurationMaxKey => NumberUpdate(f.durationMax)
    case ElevationMinKey => NumberUpdate(f.elevationMin)
    case ElevationMaxKey => NumberUpdate(f.elevationMax)
    case FacilitiesKey => ListUpdate(f.facilities, FacilityCode)
    case HighlightsKey => ListUpdate(f.highlights, HighlightCode)
    case FeaturesKey => ListUpdate(f.features, FeatureCode)
    case RouteTypeKey => RouteTypeUpdate(f.routeType)
  }

  /**
   * The updates that write every field of `f`, in the record's field order. Handed to
   * `updateFilters`, they leave each field's parameter holding that field's value,
   * whatever it held before.
   */
  function EncodeFilters(f: RouteFilters): (us: seq<Update>)
    ensures forall k :: Written(us, ParamKey(k)) == Some(FieldValue(f, k))
  {
    var us := seq(|FIELDS|, i requires 0 <= i < |FIELDS| => Update(FIELDS[i], FieldValue(f, FIELDS[i])));
    assert forall k :: Written(us, ParamKey(k)) == Some(FieldValue(f, k)) by {
      ParamKeysCorrect();
      FieldsOrder();
      forall k ensures Written(us, ParamKey(k)) == Some(FieldValue(f, k)) {
        var i := FieldIndex(k);
        forall j | i < j < |us| ensures ParamKey(us[j].key) != ParamKey(us[i].key) {
          assert FieldIndex(us[j].key) == j;
        }
        WrittenAt(us, i);
      }
    }
    us
  }

  /** How a record reads back after being written: empty texts and empty lists become absent. */
  function Normalize(f: RouteFilters): RouteFilters {
    f.(country := if f.country == Some("") then None else f.country,
       region := if f.region == Some("") then None else f.region,
       difficulty := if f.difficulty == Some([]) then None else f.difficulty,
       facilities := if f.facilities == Some([]) then None else f.facilities,
       highlights := if f.highlights == Some([]) then None else f.highlights,
       features := if f.features == Some([]) then None else f.features)
  }

  /** The position of each field in the record. */
  function FieldIndex(k: FilterKey): nat {
    match k
    case CountryKey => 0 case RegionKey => 1 case DifficultyKey => 2
    case DistanceMinKey => 3 case DistanceMaxKey => 4 case DurationMinKey => 5 case DurationMaxKey => 6
    case ElevationMinKey => 7 case ElevationMaxKey => 8
    case FacilitiesKey => 9 case HighlightsKey => 10 case FeaturesKey => 11 case RouteTypeKey => 12
  }

  /** The last update aimed at a name is the one that is written, when no later update shares the name. */
  lemma {:induction false} WrittenAt(us: seq<Update>, i: nat)
    requires i < |us|
    requires forall j :: i < j < |us| ==> ParamKey(us[j].key) != ParamKey(us[i].key)
    ensures Written(us, ParamKey(us[i].key)) == Some(us[i].value)
    decreases |us|
  {
    if i < |us| - 1 {
      WrittenAt(us[..|us| - 1], i);
    }
  }

  lemma FieldsOrder()
    ensures |FIELDS| == 13
    ensures forall i :: 0 <= i < |FIELDS| ==> FieldIndex(FIELDS[i]) == i
    ensures forall k :: FieldIndex(k) < |FIELDS| && FIELDS[FieldIndex(k)] == k
  {
  }

  lemma {:induction false} ParseCodesRoundTrip<T>(xs: seq<T>, code: T -> string, parse: string -> Option<T>)
    requires forall x :: parse(code(x)) == Some(x)
    ensures ParseCodes(Codes(xs, code), parse) == xs
    decreases |xs|
  {
    if |xs| > 0 {
      ParseCodesRoundTrip(xs[1..], code, parse);
      assert Codes(xs, code)[1..] == Codes(xs[1..], code);
    }
  }

  /** A list written through `updateFilters` reads back as itself, whatever was stored before. */
  lemma ListRoundTrip<T>(before: Option<string>, v: Option<seq<T>>, code: T -> string, parse: string -> Option<T>)
    requires forall x :: parse(code(x)) == Some(x)
    requires forall x :: code(x) != "" && ',' !in code(x)
    ensures ReadList(Stored(before, Some(ListUpdate(v, code))), parse) == if v == Some([]) then None else v
  {
    if v.Some? && |v.value| > 0 {
      var cs := Codes(v.value, code);
      assert "," == [','];
      JsText.SplitJoin(cs, ',');
      JsText.NonEmptyIdentity(cs);
      ParseCodesRoundTrip(v.value, code, parse);
    }
  }

  lemma NumberRoundTrip(before: Option<string>, v: Option<int>)
    ensures ReadNumber(Stored(before, Some(NumberUpdate(v)))) == v
  {
    if v.Some? {
      JsText.IntToStringRoundTrip(v.value);
    }
  }

  /** Every field of `f` is stored under its own URL name. */
  ghost predicate AllFieldsWritten(prev: Params, next: Params, f: RouteFilters) {
    forall k: FilterKey :: Get(next, ParamKey(k)) == Stored(Get(prev, ParamKey(k)), Some(FieldValue(f, k)))
  }

  lemma RouteTypeRoundTrip(before: Option<string>, v: Option<RouteType>)
    ensures ReadRouteType(Stored(before, Some(RouteTypeUpdate(v)))) == v
  {
    RouteTypeCodesRoundTrip();
  }

  lemma NumberField(prev: Params, next: Params, f: RouteFilters, k: FilterKey, v: Option<int>, name: string)
    requires AllFieldsWritten(prev, next, f)
    requires FieldValue(f, k) == NumberUpdate(v)
    requires ParamKey(k) == name
    ensures ReadNumber(Get(next, name)) == v
  {
    NumberRoundTrip(Get(prev, ParamKey(k)), v);
  }

  lemma ListField<T>(prev: Params, next: Params, f: RouteFilters, k: FilterKey, v: Option<seq<T>>,
                     code: T -> string, parse: string -> Option<T>, name: string)
    requires AllFieldsWritten(prev, next, f)
    requires FieldValue(f, k) == ListUpdate(v, code)
    requires ParamKey(k) == name
    requires forall x :: parse(code(x)) == Some(x)
    requires forall x :: code(x) != "" && ',' !in code(x)
    ensures ReadList(Get(next, name), parse) == if v == Some([]) then None else v
  {
    ListRoundTrip(Get(prev, ParamKey(k)), v, code, parse);
  }

  lemma DifficultyField(prev: Params, next: Params, f: RouteFilters)
    requires AllFieldsWritten(prev, next, f)
    ensures ReadList(Get(next, "difficulty"), ParseDifficulty) == Normalize(f).difficulty
  {
    DifficultyCodesRoundTrip();
    ListField(prev, next, f, DifficultyKey, f.difficulty, DifficultyCode, ParseDifficulty, "difficulty");
  }

  lemma FacilitiesField(prev: Params, next: Params, f: RouteFilters)
    requires AllFieldsWritten(prev, next, f)
    ensures ReadList(Get(next, "facilities"), ParseFacility) == Normalize(f).facilities
  {
    FacilityCodesRoundTrip();
    ListField(prev, next, f, FacilitiesKey, f.facilities, FacilityCode, ParseFacility, "facilities");
  }

  lemma HighlightsField(prev: Params, next: Params, f: RouteFilters)
    requires AllFieldsWritten(prev, next, f)
    ensures ReadList(Get(next, "highlights"), ParseHighlight) == Normalize(f).highlights
  {
    HighlightCodesRoundTrip();
    ListField(prev, next, f, HighlightsKey, f.highlights, HighlightCode, ParseHighlight, "highlights");
  }

  lemma FeaturesField(prev: Params, next: Params, f: RouteFilters)
    requires AllFieldsWritten(prev, next, f)
    ensures ReadList(Get(next, "features"), ParseFeature) == Normalize(f).features
  {
    FeatureCodesRoundTrip();
    ListField(prev, next, f, FeaturesKey, f.features, FeatureCode, ParseFeature, "features");
  }

  lemma TextField(prev: Params, next: Params, f: RouteFilters, k: FilterKey, v: Option<string>)
    requires AllFieldsWritten(prev, next, f)
    requires FieldValue(f, k) == TextUpdate(v)
    ensures ReadText(Get(next, ParamKey(k))) == if v == Some("") then None else v
  {
  }

  lemma RouteTypeField(prev: Params, next: Params, f: RouteFilters)
    requires AllFieldsWritten(prev, next, f)
    ensures ReadRouteType(Get(next, ParamKey(RouteTypeKey))) == f.routeType
  {
    RouteTypeRoundTrip(Get(prev, ParamKey(RouteTypeKey)), f.routeType);
  }

  lemma TextFieldsRoundTrip(prev: Params, next: Params, f: RouteFilters)
    requires AllFieldsWritten(prev, next, f)
    ensures ReadFilters(next).country == Normalize(f).country
    ensures ReadFilters(next).region == Normalize(f).region
    ensures ReadFilters(next).routeType == f.routeType
  {
    ParamKeyValues();
    TextField(prev, next, f, CountryKey, f.country);
    TextField(prev, next, f, RegionKey, f.region);
    RouteTypeField(prev, next, f);
  }

  lemma NumberFieldsRoundTrip(prev: Params, next: Params, f: RouteFilters)
    requires AllFieldsWritten(prev, next, f)
    ensures ReadFilters(next).distanceMin == f.distanceMin && ReadFilters(next).distanceMax == f.distanceMax
    ensures ReadFilters(next).durationMin == f.durationMin && ReadFilters(next).durationMax == f.durationMax
    ensures ReadFilters(next).elevationMin == f.elevationMin && ReadFilters(next).elevationMax == f.elevationMax
  {
    NumberField(prev, next, f, DistanceMinKey, f.distanceMin, "dist_min");
    NumberField(prev, next, f, DistanceMaxKey, f.distanceMax, "dist_max");
    NumberField(prev, next, f, DurationMinKey, f.durationMin, "dur_min");
    NumberField(prev, next, f, DurationMaxKey, f.durationMax, "dur_max");
    NumberField(prev, next, f, ElevationMinKey, f.elevationMin, "elev_min");
    NumberField(prev, next, f, ElevationMaxKey, f.elevationMax, "elev_max");
  }

  lemma ListFieldsRoundTrip(prev: Params, next: Params, f: RouteFilters)
    requires AllFieldsWritten(prev, next, f)
    ensures ReadFilters(next).difficulty == Normalize(f).difficulty
    ensures ReadFilters(next).facilities == Normalize(f).facilities
    ensures ReadFilters(next).highlights == Normalize(f).highlights
    ensures ReadFilters(next).features == Normalize(f).features
  {
    DifficultyField(prev, next, f);
    FacilitiesField(prev, next, f);
    HighlightsField(prev, next, f);
    FeaturesField(prev, next, f);
  }

  /**
   * Writing a whole filter record with `updateFilters` and reading the URL back gives
   * the record again, whatever the parameters held before: lists come back item for
   * item (their codes are non-empty and comma-free), numbers digit for digit, and only
   * empty texts and empty lists are lost, as absent.
   */
  lemma WriteThenRead(prev: Params, next: Params, f: RouteFilters)
    requires UpdateResult(prev, EncodeFilters(f), next)
    ensures ReadFilters(next) == Normalize(f)
  {
    forall k: FilterKey ensures Get(next, ParamKey(k)) == Stored(Get(prev, ParamKey(k)), Some(FieldValue(f, k))) {
      ParamKeysCorrect();
    }
    TextFieldsRoundTrip(prev, next, f);
    NumberFieldsRoundTrip(prev, next, f);
    ListFieldsRoundTrip(prev, next, f);
  }

  /** `updateFilters` never touches `sort`, and always returns to page 1. */
  lemma UpdateKeepsSortResetsPage(prev: Params, us: seq<Update>, next: Params)
    requires UpdateResult(prev, us, next)
    ensures ReadSort(next) == ReadSort(prev)
    ensures ReadPage(next) == 1
  {
    ParamKeysCorrect();
    WrittenNowhere(us, "sort");
    assert Get(next, "sort") == Get(prev, "sort");
  }

  lemma {:induction false} WrittenNowhere(us: seq<Update>, name: string)
    requires forall k: FilterKey :: ParamKey(k) != name
    ensures Written(us, name) == None
    decreases |us|
  {
    if |us| > 0 {
      WrittenNowhere(us[..|us| - 1], name);
    }
  }

  // ---------------------------------------------------------------------------
  // activeFilterCount

  /** The ten groups a filter can be active in; each range pairs its two bounds. */
  datatype FilterGroup =
    | CountryGroup | RegionGroup | DifficultyGroup
    | DistanceGroup | DurationGroup | ElevationGroup
    | FacilitiesGroup | HighlightsGroup | FeaturesGroup | RouteTypeGroup

  /** Whether a group is in force: a given text, a non-empty list, either bound, a route type. */
  predicate GroupActive(f: RouteFilters, g: FilterGroup) {
    match g
    case CountryGroup => RouteUtils.TextGiven(f.country)
    case RegionGroup => RouteUtils.TextGiven(f.region)
    case DifficultyGroup => RouteUtils.ListGiven(f.difficulty)
    case DistanceGroup => f.distanceMin.Some? || f.distanceMax.Some?
    case DurationGroup => f.durationMin.Some? || f.durationMax.Some?
    case ElevationGroup => f.elevationMin.Some? || f.elevationMax.Some?
    case FacilitiesGroup => RouteUtils.ListGiven(f.facilities)
    case HighlightsGroup => RouteUtils.ListGiven(f.highlights)
    case FeaturesGroup => RouteUtils.ListGiven(f.features)
    case RouteTypeGroup => f.routeType.Some?
  }

  const ALL_GROUPS: seq<FilterGroup> :=
    [CountryGroup, RegionGroup, DifficultyGroup, DistanceGroup, DurationGroup, ElevationGroup,
     FacilitiesGroup, HighlightsGroup, FeaturesGroup, RouteTypeGroup]

  function ActiveAmong(f: RouteFilters, gs: seq<FilterGroup>): seq<FilterGroup>
    decreases |gs|
  {
    if |gs| == 0 then []
    else if GroupActive(f, gs[0]) then [gs[0]] + ActiveAmong(f, gs[1..])
    else ActiveAmong(f, gs[1..])
  }

  lemma {:induction false} ActiveAmongMembers(f: RouteFilters, gs: seq<FilterGroup>)
    ensures |ActiveAmong(f, gs)| <= |gs|
    ensures forall g :: g in ActiveAmong(f, gs) <==> g in gs && GroupActive(f, g)
    decreases |gs|
  {
    if |gs| > 0 {
      ActiveAmongMembers(f, gs[1..]);
      assert gs == [gs[0]] + gs[1..];
    }
  }

  /** The active groups, in the fixed order country … route type. */
  function ActiveGroups(f: RouteFilters): seq<FilterGroup> {
    ActiveAmong(f, ALL_GROUPS)
  }

  /** `activeFilterCount`: one increment per active group. */
  method ActiveFilterCount(f: RouteFilters) returns (count: nat)
    ensures count == |ActiveGroups(f)|
    ensures count <= 10
    ensures count == 0 <==> RouteUtils.Inactive(f)
  {
    var place := CountPlaceGroups(f);
    var ranges := CountRangeGroups(f);
    var tags := CountTagGroups(f);
    count := place + ranges + tags;
    ActiveGroupsCount(f);
    ActiveGroupsDistinct(f);
    NoActiveGroupIffInactive(f);
  }

  /** The increments for country, region and difficulty. */
  method CountPlaceGroups(f: RouteFilters) returns (count: nat)
    ensures count == Ind(GroupActive(f, CountryGroup)) + Ind(GroupActive(f, RegionGroup)) + Ind(GroupActive(f, DifficultyGroup))
  {
    count := 0;
    if RouteUtils.TextGiven(f.country) { count := count + 1; }
    assert count == Ind(GroupActive(f, CountryGroup));
    if RouteUtils.TextGiven(f.region) { count := count + 1; }
    assert count == Ind(GroupActive(f, CountryGroup)) + Ind(GroupActive(f, RegionGroup));
    if RouteUtils.ListGiven(f.difficulty) { count := count + 1; }
  }

  /** The increments for the three ranges, each active when either bound is given. */
  method CountRangeGroups(f: RouteFilters) returns (count: nat)
    ensures count == Ind(GroupActive(f, DistanceGroup)) + Ind(GroupActive(f, DurationGroup)) + Ind(GroupActive(f, ElevationGroup))
  {
    count := 0;
    if f.distanceMin.Some? || f.distanceMax.Some? { count := count + 1; }
    assert count == Ind(GroupActive(f, DistanceGroup));
    if f.durationMin.Some? || f.durationMax.Some? { count := count + 1; }
    assert count == Ind(GroupActive(f, DistanceGroup)) + Ind(GroupActive(f, DurationGroup));
    if f.elevationMin.Some? || f.elevationMax.Some? { count := count + 1; }
  }

  /** The increments for facilities, highlights, features and route type. */
  method CountTagGroups(f: RouteFilters) returns (count: nat)
    ensures count == Ind(GroupActive(f, FacilitiesGroup)) + Ind(GroupActive(f, HighlightsGroup))
      + Ind(GroupActive(f, FeaturesGroup)) + Ind(GroupActive(f, RouteTypeGroup))
  {
    count := 0;
    if RouteUtils.ListGiven(f.facilities) { count := count + 1; }
    assert count == Ind(GroupActive(f, FacilitiesGroup));
    if RouteUtils.ListGiven(f.highlights) { count := count + 1; }
    assert count == Ind(GroupActive(f, FacilitiesGroup)) + Ind(GroupActive(f, HighlightsGroup));
    if RouteUtils.ListGiven(f.features) { count := count + 1; }
    assert count == Ind(GroupActive(f, FacilitiesGroup)) + Ind(GroupActive(f, HighlightsGroup)) + Ind(GroupActive(f, FeaturesGroup));
    if f.routeType.Some? { count := count + 1; }
  }

  function Ind(b: bool): nat { if b then 1 else 0 }

  lemma {:induction false} ActiveAmongCount(f: RouteFilters, gs: seq<FilterGroup>)
    ensures |ActiveAmong(f, gs)| == if |gs| == 0 then 0 else Ind(GroupActive(f, gs[0])) + |ActiveAmong(f, gs[1..])|
  {
  }

  lemma ActiveGroupsCount(f: RouteFilters)
    ensures |ActiveGroups(f)| ==
      Ind(GroupActive(f, CountryGroup)) + Ind(GroupActive(f, RegionGroup)) + Ind(GroupActive(f, DifficultyGroup))
      + Ind(GroupActive(f, DistanceGroup)) + Ind(GroupActive(f, DurationGroup)) + Ind(GroupActive(f, ElevationGroup))
      + Ind(GroupActive(f, FacilitiesGroup)) + Ind(GroupActive(f, HighlightsGroup)) + Ind(GroupActive(f, FeaturesGroup))
      + Ind(GroupActive(f, RouteTypeGroup))
  {
    var gs := ALL_GROUPS;
    ActiveAmongCount(f, gs);
    ActiveAmongCount(f, gs[1..]);
    ActiveAmongCount(f, gs[2..]);
    ActiveAmongCount(f, gs[3..]);
    ActiveAmongCount(f, gs[4..]);
    ActiveAmongCount(f, gs[5..]);
    ActiveAmongCount(f, gs[6..]);
    ActiveAmongCount(f, gs[7..]);
    ActiveAmongCount(f, gs[8..]);
    ActiveAmongCount(f, gs[9..]);
    assert gs[9..][1..] == [];
  }

  lemma AllGroupsListed()
    ensures forall g: FilterGroup :: g in ALL_GROUPS
  {
    forall g: FilterGroup ensures g in ALL_GROUPS {
      match g
      case CountryGroup => assert ALL_GROUPS[0] == g;
      case RegionGroup => assert ALL_GROUPS[1] == g;
      case DifficultyGroup => assert ALL_GROUPS[2] == g;
      case DistanceGroup => assert ALL_GROUPS[3] == g;
      case DurationGroup => assert ALL_GROUPS[4] == g;
      case ElevationGroup => assert ALL_GROUPS[5] == g;
      case FacilitiesGroup => assert ALL_GROUPS[6] == g;
      case HighlightsGroup => assert ALL_GROUPS[7] == g;
      case FeaturesGroup => assert ALL_GROUPS[8] == g;
      case RouteTypeGroup => assert ALL_GROUPS[9] == g;
    }
  }

  lemma AllGroupsDistinct()
    ensures JsText.Distinct(ALL_GROUPS)
  {
  }

  /** Each group is counted at most once: the active groups are duplicate-free, at most ten, and exactly the groups in force. */
  lemma ActiveGroupsDistinct(f: RouteFilters)
    ensures JsText.Distinct(ActiveGroups(f))
    ensures |ActiveGroups(f)| <= 10
    ensures forall g :: g in ActiveGroups(f) <==> GroupActive(f, g)
  {
    AllGroupsDistinct();
    ActiveAmongDistinct(f, ALL_GROUPS);
    ActiveAmongMembers(f, ALL_GROUPS);
    AllGroupsListed();
  }

  lemma NothingActiveIsInactive(f: RouteFilters)
    requires forall g :: !GroupActive(f, g)
    ensures RouteUtils.Inactive(f)
  {
    assert !GroupActive(f, CountryGroup) && !GroupActive(f, RegionGroup) && !GroupActive(f, DifficultyGroup);
    assert !GroupActive(f, DistanceGroup) && !GroupActive(f, DurationGroup) && !GroupActive(f, ElevationGroup);
    assert !GroupActive(f, FacilitiesGroup) && !GroupActive(f, HighlightsGroup) && !GroupActive(f, FeaturesGroup);
    assert !GroupActive(f, RouteTypeGroup);
  }

  lemma InactiveHasNothingActive(f: RouteFilters)
    requires RouteUtils.Inactive(f)
    ensures forall g :: !GroupActive(f, g)
  {
  }

  /** No group is active exactly when no filter is in force, that is, when filtering keeps every route. */
  lemma NoActiveGroupIffInactive(f: RouteFilters)
    ensures |ActiveGroups(f)| == 0 <==> RouteUtils.Inactive(f)
  {
    AllGroupsListed();
    ActiveAmongMembers(f, ALL_GROUPS);
    var a := ActiveGroups(f);
    if |a| == 0 {
      NothingActiveIsInactive(f);
    } else {
      assert GroupActive(f, a[0]);
      if RouteUtils.Inactive(f) {
        InactiveHasNothingActive(f);
      }
    }
  }

  lemma {:induction false} ActiveAmongDistinct(f: RouteFilters, gs: seq<FilterGroup>)
    requires JsText.Distinct(gs)
    ensures JsText.Distinct(ActiveAmong(f, gs))
    decreases |gs|
  {
    if |gs| > 0 {
      var rest := gs[1..];
      assert JsText.Distinct(rest) by {
        forall i, j | 0 <= i < j < |rest| ensures rest[i] != rest[j] { assert gs[i + 1] != gs[j + 1]; }
      }
      ActiveAmongDistinct(f, rest);
      ActiveAmongMembers(f, rest);
      if GroupActive(f, gs[0]) {
        var r := [gs[0]] + ActiveAmong(f, rest);
        assert gs[0] !in rest by {
          forall k | 0 <= k < |rest| ensures rest[k] != gs[0] { assert gs[k + 1] != gs[0]; }
        }
        forall i, j | 0 <= i < j < |r| ensures r[i] != r[j] {
          if i == 0 {
            assert r[j] in ActiveAmong(f, rest);
          } else {
            assert r[i] == ActiveAmong(f, rest)[i - 1] && r[j] == ActiveAmong(f, rest)[j - 1];
          }
        }
      }
    }
  }
}
