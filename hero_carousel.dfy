/**
 * The landing-page carousel: a current-slide index moved by "previous" and "next"
 * buttons that wrap around at either end, and by clicking a slide itself.
 */
module HeroCarousel {

  /** `handleNextClick`'s new index: one on, back to 0 past the last slide. */
  function NextIndex(current: int, n: nat): int {
    var next := current + 1;
    if next == n then 0 else next
  }

  /** `handlePreviousClick`'s new index: one back, to the last slide before the first. */
  function PreviousIndex(current: int, n: nat): int {
    var previous := current - 1;
    if previous < 0 then n - 1 else previous
  }

  /** The index after `k` clicks on "next". */
  function NextTimes(current: int, n: nat, k: nat): int
    decreases k
  {
    if k == 0 then current else NextIndex(NextTimes(current, n, k - 1), n)
  }

  /**
   * On a non-empty slide list both buttons keep the index among the slides, and they
   * are rotation by one: next is (current + 1) mod n, previous is (current − 1) mod n.
   */
  lemma StepsAreRotations(current: int, n: nat)
    requires 0 <= current < n
    ensures 0 <= NextIndex(current, n) < n && NextIndex(current, n) == (current + 1) % n
    ensures 0 <= PreviousIndex(current, n) < n && PreviousIndex(current, n) == (current - 1) % n
  {
  }

  /** "Previous" undoes "next" and "next" undoes "previous". */
  lemma NextPreviousInverse(current: int, n: nat)
    requires 0 <= current < n
    ensures PreviousIndex(NextIndex(current, n), n) == current
    ensures NextIndex(PreviousIndex(current, n), n) == current
  {
  }

  /** Clicks add up: `a` clicks and then `b` more are `a + b` clicks. */
  lemma {:induction false} NextTimesAdd(current: int, n: nat, a: nat, b: nat)
    ensures NextTimes(current, n, a + b) == NextTimes(NextTimes(current, n, a), n, b)
    decreases b
  {
    if b > 0 {
      NextTimesAdd(current, n, a, b - 1);
    }
  }

  /** Before reaching the last slide, `k` clicks on "next" move exactly `k` slides on. */
  lemma {:induction false} NextTimesAdvances(current: int, n: nat, k: nat)
    requires 0 <= current && current + k < n
    ensures NextTimes(current, n, k) == current + k
    decreases k
  {
    if k > 0 {
      NextTimesAdvances(current, n, k - 1);
    }
  }

  /** `n` clicks on "next" come back to the slide they started from. */
  lemma FullCircle(current: int, n: nat)
    requires 0 <= current < n
    ensures NextTimes(current, n, n) == current
  {
    var toLast := n - 1 - current;
    NextTimesAdvances(current, n, toLast);
    NextTimesAdd(current, n, toLast, 1 + current);
    NextTimesAdd(n - 1, n, 1, current);
    assert NextTimes(n - 1, n, 1) == 0;
    NextTimesAdvances(0, n, current);
  }

  class Carousel {
    const slideCount: nat
    var current: int

    /** The index names a slide, when there are slides. */
    ghost predicate Valid()
      reads this
    {
      slideCount > 0 ==> 0 <= current < slideCount
    }

    constructor(slideCount: nat)
      ensures this.slideCount == slideCount && current == 0 && Valid()
    {
      this.slideCount := slideCount;
      current := 0;
    }

    method PreviousClick()
      requires Valid()
      modifies this
      ensures Valid()
      ensures current == PreviousIndex(old(current), slideCount)
    {
      var previous := current - 1;
      current := if previous < 0 then slideCount - 1 else previous;
    }

    method NextClick()
      requires Valid()
      modifies this
      ensures Valid()
      ensures current == NextIndex(old(current), slideCount)
    {
      var next := current + 1;
      current := if next == slideCount then 0 else next;
    }

    /** `handleSlideClick`: the clicked slide becomes current; clicking the current one changes nothing. */
    method SlideClick(index: int)
      requires 0 <= index < slideCount
      modifies this
      ensures current == index
      ensures Valid()
      ensures old(current) == index ==> unchanged(this)
    {
      if current != index {
        current := index;
      }
    }
  }
}
