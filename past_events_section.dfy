/**
 * The past-events block of the route detail view: one row per past event, in order,
 * showing its date and head count, and a "View N more events" button for the events
 * the page does not list.
 */
module PastEventsSection {
  import opened Wrappers
  import JsText

  datatype PastEvent = PastEvent(id: string, title: string, date: string, participants: int)

  /** `totalEvents ? totalEvents - events.length : 0`. */
  function RemainingEvents(totalEvents: Option<int>, shown: nat): int {
    if totalEvents.Some? && totalEvents.value != 0 then totalEvents.value - shown else 0
  }

  const SEPARATOR: char := '·'

  /** The second line of a row: "<date> · <participants> participants". */
  function Detail(e: PastEvent): string {
    e.date + " " + [SEPARATOR] + " " + JsText.IntToString(e.participants) + " participants"
  }

  datatype Row = Row(title: string, detail: string)

  /** What the block draws; `more` is the button's text when it is shown. */
  datatype View = View(rows: seq<Row>, more: Option<string>)

  function Render(events: seq<PastEvent>, totalEvents: Option<int>): View {
    var remaining := RemainingEvents(totalEvents, |events|);
    View(
      seq(|events|, i requires 0 <= i < |events| => Row(events[i].title, Detail(events[i]))),
      if remaining > 0 then Some("View " + JsText.IntToString(remaining) + " more events") else None)
  }

  /**
   * The button appears exactly when the given total exceeds the events listed, and
   * names the difference; no total, or a zero total, means no button.
   */
  lemma MoreButton(events: seq<PastEvent>, totalEvents: Option<int>)
    ensures var v := Render(events, totalEvents);
      && (totalEvents.None? || totalEvents == Some(0) ==> v.more.None?)
      && (totalEvents.Some? && totalEvents.value > |events| ==>
            v.more == Some("View " + JsText.IntToString(totalEvents.value - |events|) + " more events"))
      && (totalEvents.Some? && totalEvents.value <= |events| ==> v.more.None?)
  {
  }

  /** Every event gets exactly one row, in input order, under its own title. */
  lemma RowsFollowEvents(events: seq<PastEvent>, totalEvents: Option<int>)
    ensures var v := Render(events, totalEvents);
      && |v.rows| == |events|
      && forall i :: 0 <= i < |events| ==> v.rows[i] == Row(events[i].title, Detail(events[i]))
  {
  }

  lemma NoSeparatorInNumber(n: int)
    ensures SEPARATOR !in JsText.IntToString(n)
  {
    var s := JsText.IntToString(n);
    if n < 0 {
      assert s == "-" + JsText.NatToDigits(-n);
      forall i | 0 <= i < |s| ensures s[i] != SEPARATOR {
        if i > 0 {
          assert s[i] == JsText.NatToDigits(-n)[i - 1];
        }
      }
    } else {
      forall i | 0 <= i < |s| ensures s[i] != SEPARATOR {
        assert JsText.IsDigit(s[i]);
      }
    }
  }

  /**
   * A row's detail line reads back: when the date holds no '·', splitting the line at
   * '·' gives two pieces, the date followed by a space, and a space, the count's digits
   * and " participants". The text between that leading space and " participants" in
   * the second piece parses back to the event's participant number.
   */
  lemma DetailReadsBack(e: PastEvent)
    requires SEPARATOR !in e.date
    ensures JsText.Split(Detail(e), SEPARATOR) ==
      [e.date + " ", " " + JsText.IntToString(e.participants) + " participants"]
    ensures var piece := JsText.Split(Detail(e), SEPARATOR)[1];
      JsText.ParseInt(piece[1..|piece| - |" participants"|]) == Some(e.participants)
  {
    var count := " " + JsText.IntToString(e.participants) + " participants";
    assert Detail(e) == (e.date + " ") + [SEPARATOR] + count;
    assert SEPARATOR !in e.date + " ";
    NoSeparatorInNumber(e.participants);
    forall i | 0 <= i < |count| ensures count[i] != SEPARATOR {
      if 1 <= i < 1 + |JsText.IntToString(e.participants)| {
        assert count[i] == JsText.IntToString(e.participants)[i - 1];
      }
    }
    JsText.SplitAround(e.date + " ", SEPARATOR, count);
    JsText.SplitWithout(count, SEPARATOR);
    JsText.IntToStringRoundTrip(e.participants);
    assert count[1..|count| - |" participants"|] == JsText.IntToString(e.participants);
  }
}
