/**
 * The country and region selects, where the region list depends on the country. Each
 * select shows "__all__" (the "All …" entry) for an absent or empty value; choosing a
 * country, or "All countries", always clears the region, and the region select is
 * disabled until a country is chosen.
 */
module DependentSelect {
  import opened Wrappers
  import RouteUtils

  const ALL: string := "__all__"

  /** The two values the selects edit. */
  datatype Place = Place(country: Option<string>, region: Option<string>)

  /** `handleCountryChange`: the chosen country (none for "All countries"), and no region. */
  function HandleCountryChange(place: Place, value: string): Place {
    if value == ALL then Place(None, None) else Place(Some(value), None)
  }

  /** `handleRegionChange`: the chosen region (none for "All regions"); the country stays. */
  function HandleRegionChange(place: Place, value: string): Place {
    if value == ALL then Place(place.country, None) else Place(place.country, Some(value))
  }

  /** `value || '__all__'`: the entry a select shows as chosen. */
  function SelectValue(v: Option<string>): string {
    if RouteUtils.TextGiven(v) then v.value else ALL
  }

  /** The entries of a select: "All …" first, then the given values in order. */
  function Items(values: seq<string>): seq<string> {
    [ALL] + values
  }

  /** `disabled={!countryValue}`. */
  predicate RegionDisabled(place: Place) {
    !RouteUtils.TextGiven(place.country)
  }

  /** The region placeholder: "All regions" with a country, "Select a country first" without. */
  function RegionPlaceholder(place: Place): string {
    if RouteUtils.TextGiven(place.country) then "All regions" else "Select a country first"
  }

  /**
   * Any country choice leaves no region behind, so a region from another country can
   * never stay selected; "All countries" disables the region select, and choosing a
   * country enables it and shows that country as chosen.
   */
  lemma CountryChoiceClearsRegion(place: Place, value: string)
    ensures HandleCountryChange(place, value).region.None?
    ensures value == ALL ==> RegionDisabled(HandleCountryChange(place, value)) && SelectValue(HandleCountryChange(place, value).country) == ALL
    ensures value != ALL && value != "" ==>
      && !RegionDisabled(HandleCountryChange(place, value))
      && SelectValue(HandleCountryChange(place, value).country) == value
      && RegionPlaceholder(HandleCountryChange(place, value)) == "All regions"
  {
  }

  /**
   * Choosing entry `k` of a select's menu writes the value it names (none for the "All"
   * entry), and the select then shows that entry.
   */
  lemma ChoiceIsShown(place: Place, values: seq<string>, k: int)
    requires 0 <= k < |Items(values)|
    requires forall v :: v in values ==> v != "" && v != ALL
    ensures k == 0 ==> HandleRegionChange(place, Items(values)[k]).region.None?
    ensures k > 0 ==> HandleRegionChange(place, Items(values)[k]).region == Some(values[k - 1])
    ensures SelectValue(HandleRegionChange(place, Items(values)[k]).region) == Items(values)[k]
    ensures SelectValue(HandleCountryChange(place, Items(values)[k]).country) == Items(values)[k]
    ensures HandleRegionChange(place, Items(values)[k]).country == place.country
  {
    if k > 0 {
      assert Items(values)[k] == values[k - 1];
      assert values[k - 1] in values;
    }
  }

  /**
   * Choosing the entry a select already shows writes its value back, with an empty
   * value read as absent: for every value other than the literal "__all__".
   */
  lemma ShownChoiceKeepsValue(place: Place)
    requires place.country != Some(ALL) && place.region != Some(ALL)
    ensures HandleCountryChange(place, SelectValue(place.country)).country ==
      (if RouteUtils.TextGiven(place.country) then place.country else None)
    ensures HandleRegionChange(place, SelectValue(place.region)) ==
      Place(place.country, if RouteUtils.TextGiven(place.region) then place.region else None)
  {
  }
}
