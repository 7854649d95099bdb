/**
 * The duration quick filters: four chips, each standing for a duration range in
 * minutes with an open end where the range has one. A chip is pressed when the current
 * range is exactly its range; clicking a pressed chip clears the range, clicking any
 * other chip sets the range to its own.
 */
module DurationChips {
  import opened Wrappers

  /** The duration range `{ min?: number; max?: number }`, in minutes. */
  datatype Range = Range(min: Option<int>, max: Option<int>)

  datatype DurationOption = DurationOption(text: string, min: Option<int>, max: Option<int>)

  const DURATION_OPTIONS: seq<DurationOption> := [
    DurationOption("< 2h", None, Some(120)),
    DurationOption("2–4h", Some(120), Some(240)),
    DurationOption("4–8h", Some(240), Some(480)),
    DurationOption("> 8h", Some(480), None)
  ]

  const NoRange := Range(None, None)

  /** `isSelected`: both ends equal the option's, an absent end matching only an absent end. */
  predicate IsSelected(value: Range, option: DurationOption) {
    value.min == option.min && value.max == option.max
  }

  /** `handleClick`. */
  function HandleClick(value: Range, option: DurationOption): Range {
    if IsSelected(value, option) then NoRange else Range(option.min, option.max)
  }

  /**
   * The four ranges: each has at least one end, they are pairwise distinct, and they
   * tile the durations — each one starts where the previous one ends, the first is open
   * below and the last open above.
   */
  lemma OptionsTileTheDurations()
    ensures |DURATION_OPTIONS| == 4
    ensures forall i :: 0 <= i < 4 ==> DURATION_OPTIONS[i].min.Some? || DURATION_OPTIONS[i].max.Some?
    ensures forall i, j :: 0 <= i < j < 4 ==>
      (DURATION_OPTIONS[i].min, DURATION_OPTIONS[i].max) != (DURATION_OPTIONS[j].min, DURATION_OPTIONS[j].max)
    ensures DURATION_OPTIONS[0].min.None? && DURATION_OPTIONS[3].max.None?
    ensures forall i :: 1 <= i < 4 ==> DURATION_OPTIONS[i].min == DURATION_OPTIONS[i - 1].max
    ensures forall i :: 0 <= i < 4 && DURATION_OPTIONS[i].min.Some? && DURATION_OPTIONS[i].max.Some? ==>
      DURATION_OPTIONS[i].min.value < DURATION_OPTIONS[i].max.value
  {
  }

  /** Whatever the current range, at most one chip is pressed, and none is with no range set. */
  lemma AtMostOnePressed(value: Range)
    ensures forall i, j :: 0 <= i < j < |DURATION_OPTIONS| ==>
      !(IsSelected(value, DURATION_OPTIONS[i]) && IsSelected(value, DURATION_OPTIONS[j]))
    ensures forall i :: 0 <= i < |DURATION_OPTIONS| ==> !IsSelected(NoRange, DURATION_OPTIONS[i])
  {
    OptionsTileTheDurations();
  }

  /**
   * A click presses the clicked chip when it was not pressed, and releases it (clearing
   * the range, so that no chip is pressed) when it was: for any option with at least one
   * end, which is every listed option.
   */
  lemma ClickFlipsThePressedChip(value: Range, option: DurationOption)
    requires option.min.Some? || option.max.Some?
    ensures IsSelected(HandleClick(value, option), option) <==> !IsSelected(value, option)
    ensures IsSelected(value, option) ==> HandleClick(value, option) == NoRange
    ensures !IsSelected(value, option) ==> HandleClick(value, option).min == option.min && HandleClick(value, option).max == option.max
  {
  }

  /** Two clicks on a chip from no range come back to no range. */
  lemma ClickTwiceFromNoRange(i: int)
    requires 0 <= i < |DURATION_OPTIONS|
    ensures HandleClick(HandleClick(NoRange, DURATION_OPTIONS[i]), DURATION_OPTIONS[i]) == NoRange
  {
    OptionsTileTheDurations();
    ClickFlipsThePressedChip(NoRange, DURATION_OPTIONS[i]);
    ClickFlipsThePressedChip(HandleClick(NoRange, DURATION_OPTIONS[i]), DURATION_OPTIONS[i]);
  }

  /** After clicking chip `i` while it is not pressed, it is the only chip pressed. */
  lemma ClickPressesOnlyThatChip(value: Range, i: int)
    requires 0 <= i < |DURATION_OPTIONS|
    requires !IsSelected(value, DURATION_OPTIONS[i])
    ensures forall j :: 0 <= j < |DURATION_OPTIONS| ==>
      (IsSelected(HandleClick(value, DURATION_OPTIONS[i]), DURATION_OPTIONS[j]) <==> j == i)
  {
    OptionsTileTheDurations();
  }
}
