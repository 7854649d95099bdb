/**
 * The wizard's progress indicator: one marker per step 1..totalSteps, each current,
 * complete or pending relative to the current step, and the caption "current/total".
 */
module ProgressIndicator {
  import opened Wrappers
  import JsText

  datatype Marker = Current | Complete | Pending

  /** The three-way class of marker `step`. */
  function Classify(step: int, currentStep: int): (m: Marker)
    ensures m == Current <==> step == currentStep
    ensures m == Complete <==> step < currentStep
    ensures m == Pending <==> step > currentStep
  {
    if step == currentStep then Current else if step < currentStep then Complete else Pending
  }

  /** `Array.from({ length: totalSteps }, (_, i) => i + 1).map(classify)`; a negative length gives no markers. */
  function Markers(currentStep: int, totalSteps: int): seq<Marker> {
    var n := if totalSteps > 0 then totalSteps else 0;
    seq(n, i requires 0 <= i < n => Classify(i + 1, currentStep))
  }

  /** `{currentStep}/{totalSteps}`. */
  function Caption(currentStep: int, totalSteps: int): string {
    JsText.IntToString(currentStep) + "/" + JsText.IntToString(totalSteps)
  }

  /**
   * How many markers of each class there are for `n` steps: the steps below the current
   * one are complete, the current one (when within 1..n) is current, the rest pending.
   */
  lemma {:induction false} MarkerCounts(currentStep: int, n: nat)
    ensures multiset(Markers(currentStep, n))[Complete] == Clamp(currentStep - 1, n)
    ensures multiset(Markers(currentStep, n))[Current] == (if 1 <= currentStep <= n then 1 else 0)
    ensures multiset(Markers(currentStep, n))[Pending] == n - Clamp(currentStep, n)
    decreases n
  {
    if n > 0 {
      MarkerCounts(currentStep, n - 1);
      assert Markers(currentStep, n) == Markers(currentStep, n - 1) + [Classify(n, currentStep)];
    } else {
      assert Markers(currentStep, n) == [];
    }
  }

  /** `x` clamped to 0..n. */
  function Clamp(x: int, n: nat): nat {
    if x < 0 then 0 else if x > n then n else x
  }

  /**
   * With the current step within 1..totalSteps, there are exactly `totalSteps` markers
   * numbered in order, exactly one is current, `currentStep − 1` are complete and the
   * remaining `totalSteps − currentStep` are pending.
   */
  lemma OneCurrentMarker(currentStep: int, totalSteps: int)
    requires 1 <= currentStep <= totalSteps
    ensures |Markers(currentStep, totalSteps)| == totalSteps
    ensures Markers(currentStep, totalSteps)[currentStep - 1] == Current
    ensures multiset(Markers(currentStep, totalSteps))[Current] == 1
    ensures multiset(Markers(currentStep, totalSteps))[Complete] == currentStep - 1
    ensures multiset(Markers(currentStep, totalSteps))[Pending] == totalSteps - currentStep
  {
    MarkerCounts(currentStep, totalSteps);
  }

  /** The caption splits at its "/" into the two numbers, which read back as the step and the total. */
  lemma CaptionReadsBack(currentStep: int, totalSteps: int)
    ensures JsText.Split(Caption(currentStep, totalSteps), '/') == [JsText.IntToString(currentStep), JsText.IntToString(totalSteps)]
    ensures JsText.ParseInt(JsText.Split(Caption(currentStep, totalSteps), '/')[0]) == Some(currentStep)
    ensures JsText.ParseInt(JsText.Split(Caption(currentStep, totalSteps), '/')[1]) == Some(totalSteps)
  {
    var a := JsText.IntToString(currentStep);
    var b := JsText.IntToString(totalSteps);
    NoSlash(currentStep);
    NoSlash(totalSteps);
    JsText.SplitAround(a, '/', b);
    JsText.SplitWithout(b, '/');
    JsText.IntToStringRoundTrip(currentStep);
    JsText.IntToStringRoundTrip(totalSteps);
  }

  lemma NoSlash(n: int)
    ensures '/' !in JsText.IntToString(n)
  {
  }
}
