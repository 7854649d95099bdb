/**
 * The row of removable chips above the route list: one chip per active filter group,
 * in a fixed order, each carrying the filter key its remove button clears.
 */
module ActiveFilterChips {
  import opened Wrappers
  import JsText
  import opened RouteTypes
  import RouteUtils
  import opened UseRouteFilters

  /** A chip: the filter key its remove button passes on, and its text. */
  datatype Chip = Chip(key: FilterKey, text: string)

  /** `${min}–${max} unit` with `min ?? 0` and `max ?? '∞'`. */
  function RangeLabel(name: string, min: Option<int>, max: Option<int>, unit: string): string {
    name + ": " + JsText.IntToString(min.GetOr(0)) + "–"
    + (if max.Some? then JsText.IntToString(max.value) else "∞") + " " + unit
  }

  /** `name: a, b, c`, the list's codes joined by a comma and a space. */
  function ListLabel(name: string, codes: seq<string>): string {
    name + ": " + JsText.Join(codes, ", ")
  }

  /** The label found in `ROUTE_TYPES`, falling back to the raw code. */
  function RouteTypeLabel(rt: RouteType): string {
    FindRouteTypeLabel(ROUTE_TYPES, rt).GetOr(rt.Code())
  }

  /** The key a group's chip carries: a range chip carries its lower bound's key. */
  function ChipKey(g: FilterGroup): FilterKey {
    match g
    case CountryGroup => CountryKey
    case RegionGroup => RegionKey
    case DifficultyGroup => DifficultyKey
    case DistanceGroup => DistanceMinKey
    case DurationGroup => DurationMinKey
    case ElevationGroup => ElevationMinKey
    case FacilitiesGroup => FacilitiesKey
    case HighlightsGroup => HighlightsKey
    case FeaturesGroup => FeaturesKey
    case RouteTypeGroup => RouteTypeKey
  }

  /** The chip an active group shows. */
  function ChipFor(f: RouteFilters, g: FilterGroup): Chip {
    match g
    case CountryGroup => Chip(CountryKey, f.country.GetOr(""))
    case RegionGroup => Chip(RegionKey, f.region.GetOr(""))
    case DifficultyGroup => Chip(DifficultyKey, ListLabel("Difficulty", Codes(f.difficulty.GetOr([]), DifficultyCode)))
    case DistanceGroup => Chip(DistanceMinKey, RangeLabel("Distance", f.distanceMin, f.distanceMax, "km"))
    case DurationGroup => Chip(DurationMinKey, RangeLabel("Duration", f.durationMin, f.durationMax, "min"))
    case ElevationGroup => Chip(ElevationMinKey, RangeLabel("Elevation", f.elevationMin, f.elevationMax, "m"))
    case FacilitiesGroup => Chip(FacilitiesKey, ListLabel("Facilities", Codes(f.facilities.GetOr([]), FacilityCode)))
    case HighlightsGroup => Chip(HighlightsKey, ListLabel("Highlights", Codes(f.highlights.GetOr([]), HighlightCode)))
    case FeaturesGroup => Chip(FeaturesKey, ListLabel("Features", Codes(f.features.GetOr([]), FeatureCode)))
    case RouteTypeGroup =>
      Chip(RouteTypeKey, "Type: " + (if f.routeType.Some? then RouteTypeLabel(f.routeType.value) else ""))
  }

  /** The chips of the given groups, in their order. */
  function ChipsFor(f: RouteFilters, gs: seq<FilterGroup>): seq<Chip> {
    seq(|gs|, i requires 0 <= i < |gs| => ChipFor(f, gs[i]))
  }

  lemma ChipsForSnoc(f: RouteFilters, gs: seq<FilterGroup>, g: FilterGroup)
    ensures ChipsFor(f, gs + [g]) == ChipsFor(f, gs) + [ChipFor(f, g)]
  {
  }

  /** The active groups so far, followed by `g` when it is active. */
  function Extend(f: RouteFilters, active: seq<FilterGroup>, g: FilterGroup): seq<FilterGroup> {
    if GroupActive(f, g) then active + [g] else active
  }

  /** `if (…) chips.push(…)` for group `g`: its chip is appended when the group is active. */
  function PushIfActive(f: RouteFilters, chips: seq<Chip>, g: FilterGroup): seq<Chip> {
    if GroupActive(f, g) then chips + [ChipFor(f, g)] else chips
  }

  lemma {:induction false} ActiveAmongSnoc(f: RouteFilters, gs: seq<FilterGroup>, g: FilterGroup)
    ensures ActiveAmong(f, gs + [g]) == Extend(f, ActiveAmong(f, gs), g)
    decreases |gs|
  {
    if |gs| == 0 {
      assert gs + [g] == [g];
      assert [g][1..] == [];
      assert [] + [g] == [g];
    } else {
      assert (gs + [g])[0] == gs[0];
      assert (gs + [g])[1..] == gs[1..] + [g];
      ActiveAmongSnoc(f, gs[1..], g);
    }
  }

  /** The chips of the first `k + 1` groups come from those of the first `k` by one conditional push. */
  lemma PrefixStep(f: RouteFilters, k: nat)
    requires k < |ALL_GROUPS|
    ensures ChipsFor(f, ActiveAmong(f, ALL_GROUPS[..k + 1]))
      == PushIfActive(f, ChipsFor(f, ActiveAmong(f, ALL_GROUPS[..k])), ALL_GROUPS[k])
  {
    assert ALL_GROUPS[..k + 1] == ALL_GROUPS[..k] + [ALL_GROUPS[k]];
    ActiveAmongSnoc(f, ALL_GROUPS[..k], ALL_GROUPS[k]);
    ChipsForSnoc(f, ActiveAmong(f, ALL_GROUPS[..k]), ALL_GROUPS[k]);
  }

  /** The chips of the first three groups: country, region, difficulty. */
  lemma PlaceChipsPrefix(f: RouteFilters)
    ensures ChipsFor(f, ActiveAmong(f, ALL_GROUPS[..3]))
      == PushIfActive(f, PushIfActive(f, PushIfActive(f, [], CountryGroup), RegionGroup), DifficultyGroup)
  {
    assert ALL_GROUPS[..0] == [];
    PrefixStep(f, 0);
    PrefixStep(f, 1);
    PrefixStep(f, 2);
  }

  /** The chips of the next three groups, the ranges, pushed after the first three. */
  lemma RangeChipsPrefix(f: RouteFilters)
    ensures ChipsFor(f, ActiveAmong(f, ALL_GROUPS[..6]))
      == PushIfActive(f, PushIfActive(f, PushIfActive(f, ChipsFor(f, ActiveAmong(f, ALL_GROUPS[..3])),
           DistanceGroup), DurationGroup), ElevationGroup)
  {
    PrefixStep(f, 3);
    PrefixStep(f, 4);
    PrefixStep(f, 5);
  }

  /** The facilities and highlights chips, pushed after the first six. */
  lemma TagChipsPrefix(f: RouteFilters)
    ensures ChipsFor(f, ActiveAmong(f, ALL_GROUPS[..8]))
      == PushIfActive(f, PushIfActive(f, ChipsFor(f, ActiveAmong(f, ALL_GROUPS[..6])), FacilitiesGroup), HighlightsGroup)
  {
    PrefixStep(f, 6);
    PrefixStep(f, 7);
  }

  /** The features and route-type chips, the last two pushed. */
  lemma LastChipsPrefix(f: RouteFilters)
    ensures ChipsFor(f, ActiveGroups(f))
      == PushIfActive(f, PushIfActive(f, ChipsFor(f, ActiveAmong(f, ALL_GROUPS[..8])), FeaturesGroup), RouteTypeGroup)
  {
    PrefixStep(f, 8);
    PrefixStep(f, 9);
    assert ALL_GROUPS[..10] == ALL_GROUPS;
  }

  /** The chips of the active groups, written as the component's ten conditional pushes. */
  lemma ChipsByPushes(f: RouteFilters)
    ensures ChipsFor(f, ActiveGroups(f)) ==
      PushIfActive(f,
        PushIfActive(f, PushIfActive(f, PushIfActive(f, PushIfActive(f, PushIfActive(f, PushIfActive(f, PushIfActive(f, PushIfActive(f, PushIfActive(f, [], CountryGroup), RegionGroup), DifficultyGroup), DistanceGroup), DurationGroup), ElevationGroup), FacilitiesGroup), HighlightsGroup), FeaturesGroup), RouteTypeGroup)
  {
    PlaceChipsPrefix(f);
    RangeChipsPrefix(f);
    TagChipsPrefix(f);
    LastChipsPrefix(f);
  }

  /** The country, region and difficulty chips. */
  method PushPlaceChips(f: RouteFilters, start: seq<Chip>) returns (chips: seq<Chip>)
    ensures chips == PushIfActive(f, PushIfActive(f, PushIfActive(f, start, CountryGroup), RegionGroup), DifficultyGroup)
  {
    chips := start;
    ghost var before0 := chips;
    if RouteUtils.TextGiven(f.country) {
      chips := chips + [Chip(CountryKey, f.country.value)];
    }
    assert chips == PushIfActive(f, before0, CountryGroup);
    ghost var before1 := chips;
    if RouteUtils.TextGiven(f.region) {
      chips := chips + [Chip(RegionKey, f.region.value)];
    }
    assert chips == PushIfActive(f, before1, RegionGroup);
    ghost var before2 := chips;
    if RouteUtils.ListGiven(f.difficulty) {
      chips := chips + [Chip(DifficultyKey, ListLabel("Difficulty", Codes(f.difficulty.value, DifficultyCode)))];
    }
    assert chips == PushIfActive(f, before2, DifficultyGroup);
  }

  /** The distance, duration and elevation chips: a range is active when either bound is given. */
  method PushRangeChips(f: RouteFilters, start: seq<Chip>) returns (chips: seq<Chip>)
    ensures chips == PushIfActive(f, PushIfActive(f, PushIfActive(f, start, DistanceGroup), DurationGroup), ElevationGroup)
  {
    chips := start;
    ghost var before0 := chips;
    if f.distanceMin.Some? || f.distanceMax.Some? {
      chips := chips + [Chip(DistanceMinKey, RangeLabel("Distance", f.distanceMin, f.distanceMax, "km"))];
    }
    assert chips == PushIfActive(f, before0, DistanceGroup);
    ghost var before1 := chips;
    if f.durationMin.Some? || f.durationMax.Some? {
      chips := chips + [Chip(DurationMinKey, RangeLabel("Duration", f.durationMin, f.durationMax, "min"))];
    }
    assert chips == PushIfActive(f, before1, DurationGroup);
    ghost var before2 := chips;
    if f.elevationMin.Some? || f.elevationMax.Some? {
      chips := chips + [Chip(ElevationMinKey, RangeLabel("Elevation", f.elevationMin, f.elevationMax, "m"))];
    }
    assert chips == PushIfActive(f, before2, ElevationGroup);
  }

  /** The facilities, highlights, features and route-type chips. */
  method PushTagChips(f: RouteFilters, start: seq<Chip>) returns (chips: seq<Chip>)
    ensures chips == PushIfActive(f, PushIfActive(f, PushIfActive(f, PushIfActive(f, start, FacilitiesGroup), HighlightsGroup), FeaturesGroup), RouteTypeGroup)
  {
    chips := start;
    ghost var before0 := chips;
    if RouteUtils.ListGiven(f.facilities) {
      chips := chips + [Chip(FacilitiesKey, ListLabel("Facilities", Codes(f.facilities.value, FacilityCode)))];
    }
    assert chips == PushIfActive(f, before0, FacilitiesGroup);
    ghost var before1 := chips;
    if RouteUtils.ListGiven(f.highlights) {
      chips := chips + [Chip(HighlightsKey, ListLabel("Highlights", Codes(f.highlights.value, HighlightCode)))];
    }
    assert chips == PushIfActive(f, before1, HighlightsGroup);
    ghost var before2 := chips;
    if RouteUtils.ListGiven(f.features) {
      chips := chips + [Chip(FeaturesKey, ListLabel("Features", Codes(f.features.value, FeatureCode)))];
    }
    assert chips == PushIfActive(f, before2, FeaturesGroup);
    ghost var before3 := chips;
    if f.routeType.Some? {
      chips := chips + [Chip(RouteTypeKey, "Type: " + RouteTypeLabel(f.routeType.value))];
    }
    assert chips == PushIfActive(f, before3, RouteTypeGroup);
  }

  /**
   * The chip list the component builds by conditional pushes: exactly the chips of the
   * active groups, in the order country … route type.
   */
  method BuildChips(f: RouteFilters) returns (chips: seq<Chip>)
    ensures chips == ChipsFor(f, ActiveGroups(f))
  {
    chips := [];
    chips := PushPlaceChips(f, chips);
    chips := PushRangeChips(f, chips);
    chips := PushTagChips(f, chips);
    ChipsByPushes(f);
  }

  /** `chips.length === 0` renders nothing. */
  predicate Rendered(chips: seq<Chip>) {
    |chips| > 0
  }

  lemma ChipKeyInjective(a: FilterGroup, b: FilterGroup)
    ensures ChipKey(a) == ChipKey(b) ==> a == b
  {
  }

  /**
   * One chip per active group: as many chips as `activeFilterCount` counts, at most ten,
   * pairwise distinct keys, and nothing rendered exactly when no filter is in force.
   */
  lemma ChipsMatchActiveGroups(f: RouteFilters)
    ensures |ChipsFor(f, ActiveGroups(f))| == |ActiveGroups(f)| <= 10
    ensures forall i :: 0 <= i < |ActiveGroups(f)| ==> ChipsFor(f, ActiveGroups(f))[i].key == ChipKey(ActiveGroups(f)[i])
    ensures forall i, j :: 0 <= i < j < |ActiveGroups(f)| ==> ChipsFor(f, ActiveGroups(f))[i].key != ChipsFor(f, ActiveGroups(f))[j].key
    ensures Rendered(ChipsFor(f, ActiveGroups(f))) <==> !RouteUtils.Inactive(f)
  {
    ActiveGroupsDistinct(f);
    NoActiveGroupIffInactive(f);
    var gs := ActiveGroups(f);
    var chips := ChipsFor(f, gs);
    forall i | 0 <= i < |gs| ensures chips[i].key == ChipKey(gs[i]) {
      match gs[i]
      case CountryGroup =>
      case RegionGroup =>
      case DifficultyGroup =>
      case DistanceGroup =>
      case DurationGroup =>
      case ElevationGroup =>
      case FacilitiesGroup =>
      case HighlightsGroup =>
      case FeaturesGroup =>
      case RouteTypeGroup =>
    }
    forall i, j | 0 <= i < j < |gs| ensures chips[i].key != chips[j].key {
      assert gs[i] != gs[j];
      ChipKeyInjective(gs[i], gs[j]);
    }
  }

  /** A range chip shows 0 for a missing lower bound and ∞ for a missing upper bound. */
  lemma RangeLabelDefaults(name: string, min: Option<int>, max: Option<int>, unit: string)
    ensures min.None? && max.Some? ==>
      RangeLabel(name, min, max, unit) == name + ": 0–" + JsText.IntToString(max.value) + " " + unit
    ensures min.Some? && max.None? ==>
      RangeLabel(name, min, max, unit) == name + ": " + JsText.IntToString(min.value) + "–∞ " + unit
    ensures min.None? && max.None? ==> RangeLabel(name, min, max, unit) == name + ": 0–∞ " + unit
  {
    assert JsText.IntToString(0) == "0";
  }

  /** The route-type chip always shows the label listed in `ROUTE_TYPES`; the raw-code fallback is never taken. */
  lemma RouteTypeChipLabel(f: RouteFilters)
    requires f.routeType.Some?
    ensures exists i :: (0 <= i < |ROUTE_TYPES| && ROUTE_TYPES[i].value == f.routeType.value
      && ChipFor(f, RouteTypeGroup).text == "Type: " + ROUTE_TYPES[i].text)
  {
    RouteTypesListEveryTypeOnce();
    match f.routeType.value
    case Loop => assert ROUTE_TYPES[0].value == f.routeType.value;
    case OutAndBack => assert ROUTE_TYPES[1].value == f.routeType.value;
    case PointToPoint => assert ROUTE_TYPES[2].value == f.routeType.value;
  }

  // ---------------------------------------------------------------------------
  // removing a chip

  /**
   * As written, a chip's remove button clears only the key the chip carries; for a range
   * chip that is the lower bound, so a range given only by its upper bound stays active
   * and its chip stays on screen.
   */
  lemma RangeChipRemovalKeepsUpperBound(f: RouteFilters)
    requires f.distanceMax.Some?
    ensures ChipFor(f, DistanceGroup).key == DistanceMinKey
    ensures DistanceGroup in ActiveGroups(WithoutField(f, ChipFor(f, DistanceGroup).key))
  {
    ActiveGroupsDistinct(WithoutField(f, DistanceMinKey));
  }

  /** The parameters `{dist_max: "20"}`: the Distance chip survives its own remove button. */
  lemma RangeChipRemovalCounterexample()
    ensures var f := ReadFilters(map["dist_max" := "20"]);
      && DistanceGroup in ActiveGroups(f)
      && DistanceGroup in ActiveGroups(WithoutField(f, ChipFor(f, DistanceGroup).key))
  {
    var p: Params := map["dist_max" := "20"];
    assert Get(p, "dist_max") == Some("20");
    assert JsText.ParseInt("20") == Some(20) by {
      JsText.IntToStringRoundTrip(20);
      assert JsText.IntToString(20) == "20";
    }
    var f := ReadFilters(p);
    assert f.distanceMax == Some(20);
    ActiveGroupsDistinct(f);
    RangeChipRemovalKeepsUpperBound(f);
  }

  /** The second key of a range group, its upper bound; the other groups have one key only. */
  function UpperKey(g: FilterGroup): Option<FilterKey> {
    match g
    case DistanceGroup => Some(DistanceMaxKey)
    case DurationGroup => Some(DurationMaxKey)
    case ElevationGroup => Some(ElevationMaxKey)
    case _ => None
  }

  /** The record with every field of a group absent. */
  function WithoutGroup(f: RouteFilters, g: FilterGroup): RouteFilters {
    match g
    case DistanceGroup => f.(distanceMin := None, distanceMax := None)
    case DurationGroup => f.(durationMin := None, durationMax := None)
    case ElevationGroup => f.(elevationMin := None, elevationMax := None)
    case _ => WithoutField(f, ChipKey(g))
  }

  /** Clearing a group switches that group off and leaves every other group as it was. */
  lemma WithoutGroupDeactivates(f: RouteFilters, g: FilterGroup)
    ensures forall h :: GroupActive(WithoutGroup(f, g), h) <==> h != g && GroupActive(f, h)
  {
  }

  /** The groups left active after one is cleared: the old list with that group taken out. */
  lemma {:induction false} ActiveAmongWithout(f: RouteFilters, g: FilterGroup, gs: seq<FilterGroup>)
    ensures ActiveAmong(WithoutGroup(f, g), gs) == RemoveGroup(ActiveAmong(f, gs), g)
    decreases |gs|
  {
    WithoutGroupDeactivates(f, g);
    if |gs| > 0 {
      ActiveAmongWithout(f, g, gs[1..]);
    }
  }

  function RemoveGroup(gs: seq<FilterGroup>, g: FilterGroup): seq<FilterGroup>
    decreases |gs|
  {
    if |gs| == 0 then [] else if gs[0] == g then RemoveGroup(gs[1..], g) else [gs[0]] + RemoveGroup(gs[1..], g)
  }

  lemma WithoutGroupByFields(f: RouteFilters, g: FilterGroup)
    ensures WithoutGroup(f, g) ==
      if UpperKey(g).Some? then WithoutField(WithoutField(f, ChipKey(g)), UpperKey(g).value)
      else WithoutField(f, ChipKey(g))
  {
  }

  /**
   * Removing a chip as evidently intended: the chip's key is cleared and, for a range
   * chip, its upper bound too, so exactly that chip disappears and the others stay in order.
   */
  method ClearChip(prev: Params, g: FilterGroup) returns (next: Params)
    ensures "page" !in next && ParamKey(ChipKey(g)) !in next
    ensures UpperKey(g).Some? ==> ParamKey(UpperKey(g).value) !in next
    ensures ReadFilters(next) == WithoutGroup(ReadFilters(prev), g)
    ensures ActiveGroups(ReadFilters(next)) == RemoveGroup(ActiveGroups(ReadFilters(prev)), g)
  {
    var lowerCleared := ClearFilter(prev, ChipKey(g));
    var upper := UpperKey(g);
    if upper.Some? {
      next := ClearFilter(lowerCleared, upper.value);
      LowerKeyStaysCleared(lowerCleared, next, g);
    } else {
      next := lowerCleared;
    }
    GroupCleared(ReadFilters(prev), ReadFilters(next), g);
  }

  /** Clearing the upper bound keeps the lower bound's parameter, cleared just before, away. */
  lemma LowerKeyStaysCleared(lowerCleared: Params, next: Params, g: FilterGroup)
    requires UpperKey(g).Some?
    requires ParamKey(ChipKey(g)) !in lowerCleared
    requires forall name :: name != ParamKey(UpperKey(g).value) && name != "page" ==> Get(next, name) == Get(lowerCleared, name)
    ensures ParamKey(ChipKey(g)) !in next
  {
    ParamKeyInverse(ChipKey(g));
    ParamKeyInverse(UpperKey(g).value);
    assert Get(next, ParamKey(ChipKey(g))) == Get(lowerCleared, ParamKey(ChipKey(g)));
  }

  /** Filters with the group's key, and for a range its upper key too, absent read as the group cleared. */
  lemma GroupCleared(before: RouteFilters, after: RouteFilters, g: FilterGroup)
    requires after == if UpperKey(g).Some? then WithoutField(WithoutField(before, ChipKey(g)), UpperKey(g).value)
      else WithoutField(before, ChipKey(g))
    ensures after == WithoutGroup(before, g)
    ensures ActiveGroups(after) == RemoveGroup(ActiveGroups(before), g)
  {
    WithoutGroupByFields(before, g);
    ActiveAmongWithout(before, g, ALL_GROUPS);
  }
}
