/**
 * The difficulty chips: one toggle chip per grade T1..T6 in that order, pressed when
 * the grade is selected. A click toggles the grade with the same code as the tag
 * picker (`MultiSelect.ToggleOption`).
 */
module DifficultyChips {
  import opened RouteTypes
  import JsText
  import MultiSelect

  /** `toggleDifficulty`. */
  function ToggleDifficulty(selected: seq<Difficulty>, d: Difficulty): seq<Difficulty> {
    MultiSelect.ToggleOption(selected, d)
  }

  /** The six chips rendered from `DIFFICULTIES`. */
  function Chips(selected: seq<Difficulty>): seq<MultiSelect.Button<Difficulty>> {
    MultiSelect.Buttons(DIFFICULTIES, selected)
  }

  /**
   * There is one chip per grade, in the order T1..T6, and each is pressed exactly when
   * its grade is selected, whatever order or repetitions the selection has.
   */
  lemma ChipsShowEveryGrade(selected: seq<Difficulty>)
    ensures |Chips(selected)| == 6
    ensures forall i :: 0 <= i < 6 ==> Chips(selected)[i].option.Code() == "T" + JsText.IntToString(i + 1)
    ensures forall d: Difficulty :: MultiSelect.Button(d, d in selected) in Chips(selected)
    ensures forall i :: 0 <= i < 6 ==> (Chips(selected)[i].pressed <==> Chips(selected)[i].option in selected)
  {
    RouteTypes.DifficultiesListEveryGradeOnce();
    forall d: Difficulty ensures MultiSelect.Button(d, d in selected) in Chips(selected) {
      var i := match d case T1 => 0 case T2 => 1 case T3 => 2 case T4 => 3 case T5 => 4 case T6 => 5;
      assert Chips(selected)[i] == MultiSelect.Button(d, d in selected);
    }
  }

  /** Clicking the chip of grade `d` flips that chip alone. */
  lemma ClickFlipsOnlyThatChip(selected: seq<Difficulty>, k: int)
    requires 0 <= k < 6
    ensures forall j :: 0 <= j < 6 ==>
      Chips(ToggleDifficulty(selected, DIFFICULTIES[k]))[j].pressed ==
        (if j == k then !Chips(selected)[j].pressed else Chips(selected)[j].pressed)
  {
    RouteTypes.DifficultiesListEveryGradeOnce();
    MultiSelect.ClickFlipsOneButton(DIFFICULTIES, selected, k);
  }

  /** Two clicks on an unpressed chip give back the selection; a duplicate-free selection stays so. */
  lemma ToggleDifficultyTwice(selected: seq<Difficulty>, d: Difficulty)
    ensures d !in selected ==> ToggleDifficulty(ToggleDifficulty(selected, d), d) == selected
    ensures JsText.Distinct(selected) ==> JsText.Distinct(ToggleDifficulty(selected, d))
  {
    if d !in selected {
      MultiSelect.ToggleTwiceRestores(selected, d);
    }
    if JsText.Distinct(selected) {
      MultiSelect.ToggleKeepsDistinct(selected, d);
    }
  }
}
