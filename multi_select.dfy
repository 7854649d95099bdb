/**
 * The multi-select tag picker: one toggle button per option, pressed when the option is
 * in the selection, and a click that removes the option from the selection when it is
 * there and appends it otherwise. The difficulty chips carry the same toggle code and
 * reuse it from here.
 */
module MultiSelect {
  import RouteUtils
  import JsText

  /** `xs.filter(s => s !== x)`: every occurrence of `x` dropped, the rest in order. */
  function Remove<T(==)>(xs: seq<T>, x: T): seq<T>
    decreases |xs|
  {
    if |xs| == 0 then []
    else if xs[0] == x then Remove(xs[1..], x)
    else [xs[0]] + Remove(xs[1..], x)
  }

  /** `toggleOption`: remove the option when it is selected, append it otherwise. */
  function ToggleOption<T(==)>(selected: seq<T>, option: T): seq<T> {
    if option in selected then Remove(selected, option) else selected + [option]
  }

  /**
   * Removal drops every occurrence of `x`, keeps every other element as often as before,
   * and keeps their order.
   */
  lemma {:induction false} RemoveCorrect<T>(xs: seq<T>, x: T)
    ensures x !in Remove(xs, x)
    ensures forall y :: y != x ==> multiset(Remove(xs, x))[y] == multiset(xs)[y]
    ensures RouteUtils.IsSubsequence(Remove(xs, x), xs)
    decreases |xs|
  {
    if |xs| > 0 {
      RemoveCorrect(xs[1..], x);
      assert xs == [xs[0]] + xs[1..];
      if xs[0] != x {
        assert ([xs[0]] + Remove(xs[1..], x))[1..] == Remove(xs[1..], x);
      }
    }
  }

  /** Removing an element that is not there changes nothing. */
  lemma {:induction false} RemoveAbsent<T>(xs: seq<T>, x: T)
    requires x !in xs
    ensures Remove(xs, x) == xs
    decreases |xs|
  {
    if |xs| > 0 {
      RemoveAbsent(xs[1..], x);
      assert xs == [xs[0]] + xs[1..];
    }
  }

  lemma {:induction false} RemoveKeepsDistinct<T>(xs: seq<T>, x: T)
    requires JsText.Distinct(xs)
    ensures JsText.Distinct(Remove(xs, x))
    decreases |xs|
  {
    if |xs| > 0 {
      RemoveKeepsDistinct(xs[1..], x);
      RemoveCorrect(xs[1..], x);
      if xs[0] != x {
        var r := [xs[0]] + Remove(xs[1..], x);
        assert xs[0] !in xs[1..];
        assert multiset(Remove(xs[1..], x))[xs[0]] == 0;
        forall i, j | 0 <= i < j < |r| ensures r[i] != r[j] {
          if i == 0 {
            assert r[j] in multiset(Remove(xs[1..], x));
          }
        }
      }
    }
  }

  /**
   * A click flips the clicked option's membership and no other's. A selected option
   * leaves the selection entirely, the others keep their multiplicity and order; an
   * unselected one is appended at the end.
   */
  lemma ToggleFlips<T>(selected: seq<T>, option: T)
    ensures option in ToggleOption(selected, option) <==> option !in selected
    ensures forall y :: y != option ==> (y in ToggleOption(selected, option) <==> y in selected)
    ensures option in selected ==>
      && option !in ToggleOption(selected, option)
      && (forall y :: y != option ==> multiset(ToggleOption(selected, option))[y] == multiset(selected)[y])
      && RouteUtils.IsSubsequence(ToggleOption(selected, option), selected)
    ensures option !in selected ==> ToggleOption(selected, option) == selected + [option]
  {
    RemoveCorrect(selected, option);
    forall y | y != option ensures y in ToggleOption(selected, option) <==> y in selected {
      assert y in multiset(selected) <==> y in selected;
    }
  }

  /** Clicking an unselected option twice restores the selection. */
  lemma ToggleTwiceRestores<T>(selected: seq<T>, option: T)
    requires option !in selected
    ensures ToggleOption(ToggleOption(selected, option), option) == selected
  {
    RemoveAppended(selected, option);
  }

  lemma {:induction false} RemoveAppended<T>(xs: seq<T>, x: T)
    requires x !in xs
    ensures Remove(xs + [x], x) == xs
    decreases |xs|
  {
    if |xs| == 0 {
      assert xs + [x] == [x];
      assert [x][1..] == [];
    } else {
      RemoveAppended(xs[1..], x);
      assert (xs + [x])[1..] == xs[1..] + [x];
      assert xs == [xs[0]] + xs[1..];
    }
  }

  /** A selection built by clicks from `[]` never lists an option twice. */
  lemma ToggleKeepsDistinct<T>(selected: seq<T>, option: T)
    requires JsText.Distinct(selected)
    ensures JsText.Distinct(ToggleOption(selected, option))
  {
    if option in selected {
      RemoveKeepsDistinct(selected, option);
    }
  }

  /** One rendered toggle button: its option and its `aria-pressed` state. */
  datatype Button<T> = Button(option: T, pressed: bool)

  /** `options.map(option => … aria-pressed={selected.includes(option)} …)`. */
  function Buttons<T(==)>(options: seq<T>, selected: seq<T>): seq<Button<T>> {
    seq(|options|, i requires 0 <= i < |options| => Button(options[i], options[i] in selected))
  }

  /**
   * Clicking button `k` flips the pressed state of that button (and of any button for
   * the same option) and leaves every other button as it was; the buttons follow
   * the options, in order.
   */
  lemma ClickFlipsOneButton<T>(options: seq<T>, selected: seq<T>, k: int)
    requires 0 <= k < |options|
    ensures |Buttons(options, ToggleOption(selected, options[k]))| == |options|
    ensures forall j :: 0 <= j < |options| ==>
      && Buttons(options, ToggleOption(selected, options[k]))[j].option == options[j]
      && Buttons(options, ToggleOption(selected, options[k]))[j].pressed ==
           (if options[j] == options[k] then !Buttons(options, selected)[j].pressed
            else Buttons(options, selected)[j].pressed)
  {
    ToggleFlips(selected, options[k]);
  }
}
