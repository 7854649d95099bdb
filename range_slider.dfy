/**
 * The two-thumb range slider: an absent end shows at the slider's own bound, and a
 * thumb moved back onto its bound writes the end as absent again, so that "no limit"
 * and "limit at the slider's bound" are one state.
 */
module RangeSlider {
  import opened Wrappers
  import JsText

  /** The value `[number | undefined, number | undefined]`. */
  datatype Ends = Ends(lower: Option<int>, upper: Option<int>)

  /** `value[0] ?? min`, `value[1] ?? max`: the thumb positions shown. */
  function Displayed(value: Ends, min: int, max: int): (int, int) {
    (value.lower.GetOr(min), value.upper.GetOr(max))
  }

  /** `handleChange`: a thumb at its own bound is written back as absent. */
  function HandleChange(newMin: int, newMax: int, min: int, max: int): Ends {
    Ends(if newMin == min then None else Some(newMin), if newMax == max then None else Some(newMax))
  }

  /**
   * What the caption puts between the two ends. The component's file holds the three
   * characters U+00E2, U+20AC, U+201C there (an en dash saved in the wrong encoding),
   * and those are what the page shows.
   */
  const CAPTION_SEPARATOR: string := " \U{00E2}\U{20AC}\U{201C} "

  /** The caption `{format(currentMin)}{unit}`, the separator, `{format(currentMax)}{unit}`, with the default formatter. */
  function Caption(value: Ends, min: int, max: int, unit: string): string {
    var (lo, hi) := Displayed(value, min, max);
    JsText.IntToString(lo) + unit + CAPTION_SEPARATOR + JsText.IntToString(hi) + unit
  }

  /** The value with an end that sits on its bound written as absent. */
  function Normalized(value: Ends, min: int, max: int): Ends {
    Ends(if value.lower == Some(min) then None else value.lower,
         if value.upper == Some(max) then None else value.upper)
  }

  /**
   * Whatever the slider reports, it then shows exactly those positions: the value
   * written by `handleChange` displays as the thumbs that produced it.
   */
  lemma ChangeThenDisplay(newMin: int, newMax: int, min: int, max: int)
    ensures Displayed(HandleChange(newMin, newMax, min, max), min, max) == (newMin, newMax)
  {
  }

  /**
   * Reporting the shown positions unchanged writes the value with its on-bound ends
   * dropped; doing so again changes nothing, and an end that is not on its bound
   * survives as it was.
   */
  lemma DisplayThenChange(value: Ends, min: int, max: int)
    ensures HandleChange(Displayed(value, min, max).0, Displayed(value, min, max).1, min, max) == Normalized(value, min, max)
    ensures Normalized(Normalized(value, min, max), min, max) == Normalized(value, min, max)
    ensures value.lower.Some? && value.lower.value != min ==> Normalized(value, min, max).lower == value.lower
    ensures value.upper.Some? && value.upper.value != max ==> Normalized(value, min, max).upper == value.upper
  {
  }

  /** Each end depends only on its own thumb and its own bound. */
  lemma EndsIndependent(newMin: int, newMax: int, newMax': int, min: int, max: int, max': int)
    ensures HandleChange(newMin, newMax, min, max).lower == HandleChange(newMin, newMax', min, max').lower
    ensures HandleChange(newMin, newMax, min, max).upper.None? <==> newMax == max
  {
  }

  /** An untouched slider shows its full span. */
  lemma UnsetShowsFullSpan(min: int, max: int, unit: string)
    ensures Displayed(Ends(None, None), min, max) == (min, max)
    ensures Caption(Ends(None, None), min, max, unit) == JsText.IntToString(min) + unit + CAPTION_SEPARATOR + JsText.IntToString(max) + unit
  {
  }
}
