/**
 * The swipeable route stack: the route at the current index is the front card, the
 * next one (if any) shows behind it, and dragging the front card more than 100 pixels
 * left or right moves the index on by one, reporting the swipe and, when the new index
 * is at or past the last route, the end of the stack.
 */
module SwipeableRouteStack {
  import opened Wrappers
  import JsText
  import opened RouteTypes

  const SWIPE_THRESHOLD: int := 100
  const EXIT_X: int := 300

  /** The callbacks the stack has called, in order. */
  datatype Signal = SwipedLeft(route: Route) | SwipedRight(route: Route) | EndReached

  /** `routes[i]`: undefined outside the list, negative indices included. */
  function RouteAt(routes: seq<Route>, i: int): Option<Route> {
    if 0 <= i < |routes| then Some(routes[i]) else None
  }

  /** The caption `{index + 1} / {routes.length}`. */
  function ProgressText(index: int, count: nat): string {
    JsText.IntToString(index + 1) + " / " + JsText.IntToString(count)
  }

  /** What the stack shows at an index: the empty state, or a front card and maybe a back card. */
  datatype Screen = NoMoreRoutes | Cards(front: Route, back: Option<Route>, progress: string)

  function View(routes: seq<Route>, index: int): Screen {
    match RouteAt(routes, index)
    case None => NoMoreRoutes
    case Some(r) => Cards(r, RouteAt(routes, index + 1), ProgressText(index, |routes|))
  }

  /**
   * The empty state shows exactly when no route is at the index, which for an index
   * that has only counted up from 0 means all routes were swiped; a back card shows
   * exactly when a route follows the front one.
   */
  lemma ViewCases(routes: seq<Route>, index: int)
    requires 0 <= index
    ensures View(routes, index).NoMoreRoutes? <==> index >= |routes|
    ensures View(routes, index).Cards? ==> View(routes, index).front == routes[index]
    ensures View(routes, index).Cards? ==> (View(routes, index).back.Some? <==> index + 1 < |routes|)
    ensures View(routes, index).Cards? && index + 1 < |routes| ==> View(routes, index).back == Some(routes[index + 1])
  {
  }

  /** `handleSetIndex`'s report: the end is reached when the new index is at or past the last route. */
  function EndSignal(newIndex: int, count: nat): seq<Signal> {
    if newIndex >= count - 1 then [EndReached] else []
  }

  class Stack {
    const routes: seq<Route>
    var index: int
    /** The front card's exit offset, which sends it off to the side it was swiped to. */
    var exitX: int
    var signals: seq<Signal>

    ghost predicate Valid()
      reads this
    {
      0 <= index <= |routes|
    }

    constructor(routes: seq<Route>)
      ensures this.routes == routes && index == 0 && exitX == 0 && signals == [] && Valid()
    {
      this.routes := routes;
      index := 0;
      exitX := 0;
      signals := [];
    }

    /** `handleSetIndex`. */
    method SetIndex(newIndex: int)
      modifies this
      ensures index == newIndex && exitX == old(exitX)
      ensures signals == old(signals) + EndSignal(newIndex, |routes|)
    {
      index := newIndex;
      if newIndex >= |routes| - 1 {
        signals := signals + [EndReached];
      }
    }

    /**
     * `handleDragEnd` on the front card, which exists only while a route is at the
     * index. Past the threshold either way the index moves on by one, the end is
     * reported if reached, and then the swipe; within it nothing changes.
     */
    method DragEnd(offsetX: int)
      requires Valid() && index < |routes|
      modifies this
      ensures Valid()
      ensures offsetX < -SWIPE_THRESHOLD ==>
        && index == old(index) + 1 && exitX == -EXIT_X
        && signals == old(signals) + EndSignal(index, |routes|) + [SwipedLeft(routes[old(index)])]
      ensures offsetX > SWIPE_THRESHOLD ==>
        && index == old(index) + 1 && exitX == EXIT_X
        && signals == old(signals) + EndSignal(index, |routes|) + [SwipedRight(routes[old(index)])]
      ensures -SWIPE_THRESHOLD <= offsetX <= SWIPE_THRESHOLD ==>
        index == old(index) && exitX == old(exitX) && signals == old(signals)
      ensures Swipes(signals) ==
        if -SWIPE_THRESHOLD <= offsetX <= SWIPE_THRESHOLD then Swipes(old(signals)) else Swipes(old(signals)) + 1
    {
      ghost var before := signals;
      var cardIndex := index;
      var route := routes[cardIndex];
      if offsetX < -SWIPE_THRESHOLD {
        exitX := -EXIT_X;
        SetIndex(cardIndex + 1);
        signals := signals + [SwipedLeft(route)];
        OneDragOneSwipe(before, cardIndex + 1, |routes|, SwipedLeft(route));
      }
      if offsetX > SWIPE_THRESHOLD {
        exitX := EXIT_X;
        SetIndex(cardIndex + 1);
        signals := signals + [SwipedRight(route)];
        OneDragOneSwipe(before, cardIndex + 1, |routes|, SwipedRight(route));
      }
    }
  }

  /** How many swipe reports a list of signals holds. */
  function Swipes(signals: seq<Signal>): nat
    decreases |signals|
  {
    if |signals| == 0 then 0
    else (if signals[0].EndReached? then 0 else 1) + Swipes(signals[1..])
  }

  lemma {:induction false} SwipesAppend(a: seq<Signal>, b: seq<Signal>)
    ensures Swipes(a + b) == Swipes(a) + Swipes(b)
    decreases |a|
  {
    if |a| > 0 {
      SwipesAppend(a[1..], b);
      assert (a + b)[1..] == a[1..] + b;
    } else {
      assert a + b == b;
    }
  }

  /**
   * The signals a drag past the threshold appends (the end report if the stack ran
   * out, then one swipe) hold exactly one swipe report. `Stack.DragEnd` uses this for
   * its swipe count; a drag within the threshold appends nothing.
   */
  lemma OneDragOneSwipe(before: seq<Signal>, newIndex: int, count: nat, s: Signal)
    requires !s.EndReached?
    ensures Swipes(before + EndSignal(newIndex, count) + [s]) == Swipes(before) + 1
  {
    SwipesAppend(before, EndSignal(newIndex, count));
    SwipesAppend(before + EndSignal(newIndex, count), [s]);
    assert Swipes([s]) == 1 by { assert [s][1..] == []; }
    assert Swipes(EndSignal(newIndex, count)) == 0 by {
      if newIndex >= count - 1 { assert [EndReached][1..] == []; }
    }
  }
}
