/**
 * The events helpers: grouping a list of events into a map from event date to the
 * events on that date, in order, with the dates in order of first appearance (the
 * iteration order of a JavaScript `Map`), and cutting a time of day down to hours and
 * minutes.
 */
module UseEvents {
  import JsText
  import RouteUtils

  /** An event row, reduced to the fields these helpers and their callers read. */
  datatype Event = Event(id: string, title: string, eventDate: string, eventTime: string)

  /** `time.slice(0, 5)`. */
  function FormatEventTime(time: string): string {
    JsText.JsSlice(time, 0, 5)
  }

  /** The first five characters, or the whole text when it is shorter: "06:45:00" gives "06:45". */
  lemma FormatEventTimeCuts(time: string)
    ensures |time| >= 5 ==> FormatEventTime(time) == time[..5]
    ensures |time| < 5 ==> FormatEventTime(time) == time
    ensures FormatEventTime("06:45:00") == "06:45"
  {
    assert "06:45:00"[..5] == "06:45";
    if |time| < 5 && |time| > 0 {
      assert time[0..|time|] == time;
    }
  }

  /** The event dates, in input order. */
  function Dates(events: seq<Event>): seq<string> {
    seq(|events|, i requires 0 <= i < |events| => events[i].eventDate)
  }

  /** The events on date `d`, in input order. */
  function Group(events: seq<Event>, d: string): seq<Event>
    decreases |events|
  {
    if |events| == 0 then []
    else (if events[0].eventDate == d then [events[0]] else []) + Group(events[1..], d)
  }

  lemma {:induction false} GroupSnoc(events: seq<Event>, e: Event, d: string)
    ensures Group(events + [e], d) == Group(events, d) + (if e.eventDate == d then [e] else [])
    decreases |events|
  {
    if |events| == 0 {
      assert events + [e] == [e];
      assert [e][1..] == [];
    } else {
      var head := if events[0].eventDate == d then [events[0]] else [];
      var tail := if e.eventDate == d then [e] else [];
      assert (events + [e])[0] == events[0];
      assert (events + [e])[1..] == events[1..] + [e];
      assert Group(events + [e], d) == head + Group(events[1..] + [e], d);
      GroupSnoc(events[1..], e, d);
      assert head + (Group(events[1..], d) + tail) == (head + Group(events[1..], d)) + tail;
    }
  }

  /** The events of a group are exactly the input events with that date, in input order. */
  lemma {:induction false} GroupMembers(events: seq<Event>, d: string)
    ensures forall e :: e in Group(events, d) <==> e in events && e.eventDate == d
    ensures RouteUtils.IsSubsequence(Group(events, d), events)
    decreases |events|
  {
    if |events| > 0 {
      GroupMembers(events[1..], d);
      assert events == [events[0]] + events[1..];
      forall e ensures e in events <==> e == events[0] || e in events[1..] {
      }
      if events[0].eventDate == d {
        assert ([events[0]] + Group(events[1..], d))[1..] == Group(events[1..], d);
      } else {
        assert Group(events, d) == Group(events[1..], d);
      }
    }
  }

  /** `grouped` and its key order `keys` hold exactly the grouping of `events`. */
  ghost predicate GroupedAs(grouped: map<string, seq<Event>>, keys: seq<string>, events: seq<Event>) {
    && keys == JsText.Dedupe(Dates(events))
    && (forall d :: d in grouped <==> d in keys)
    && (forall d :: d in grouped ==> grouped[d] == Group(events, d))
  }

  /**
   * `groupEventsByDate`. The map's own key order is returned alongside it as `keys`,
   * since a `Map` iterates in order of first insertion.
   */
  method GroupEventsByDate(events: seq<Event>) returns (grouped: map<string, seq<Event>>, keys: seq<string>)
    ensures keys == JsText.Dedupe(Dates(events))
    ensures forall d :: d in grouped <==> d in keys
    ensures forall d :: d in grouped ==> grouped[d] == Group(events, d)
  {
    grouped := map[];
    keys := [];
    var i := 0;
    while i < |events|
      invariant 0 <= i <= |events|
      invariant GroupedAs(grouped, keys, events[..i])
    {
      var event := events[i];
      var dateKey := event.eventDate;
      ghost var before := grouped;
      ghost var beforeKeys := keys;
      if dateKey !in grouped {
        grouped := grouped[dateKey := []];
        keys := keys + [dateKey];
      }
      grouped := grouped[dateKey := grouped[dateKey] + [event]];
      if dateKey in before {
        GroupingAddsToKnownDate(before, beforeKeys, events[..i], event);
      } else {
        GroupingAddsNewDate(before, beforeKeys, events[..i], event);
      }
      assert events[..i + 1] == events[..i] + [event];
      i := i + 1;
    }
    assert events[..i] == events;
  }

  /** A loop step for a date already seen: the event joins the end of that date's group. */
  lemma GroupingAddsToKnownDate(grouped: map<string, seq<Event>>, keys: seq<string>, events: seq<Event>, e: Event)
    requires GroupedAs(grouped, keys, events)
    requires e.eventDate in grouped
    ensures GroupedAs(grouped[e.eventDate := grouped[e.eventDate] + [e]], keys, events + [e])
  {
    KeysAfterEvent(keys, events, e);
    var grown := grouped[e.eventDate := grouped[e.eventDate] + [e]];
    forall d | d in grown ensures grown[d] == Group(events + [e], d) {
      GroupSnoc(events, e, d);
    }
  }

  /** A loop step for a new date: its group is opened empty, the event joins it, and the date joins the keys. */
  lemma GroupingAddsNewDate(grouped: map<string, seq<Event>>, keys: seq<string>, events: seq<Event>, e: Event)
    requires GroupedAs(grouped, keys, events)
    requires e.eventDate !in grouped
    ensures GroupedAs(grouped[e.eventDate := []][e.eventDate := [] + [e]], keys + [e.eventDate], events + [e])
  {
    KeysAfterEvent(keys, events, e);
    AbsentDateEmptyGroup(events, e.eventDate);
    var grown := grouped[e.eventDate := []][e.eventDate := [] + [e]];
    forall d | d in grown ensures grown[d] == Group(events + [e], d) {
      GroupSnoc(events, e, d);
    }
  }

  /** The key order grows by the event's date exactly when that date is new. */
  lemma KeysAfterEvent(keys: seq<string>, events: seq<Event>, e: Event)
    requires keys == JsText.Dedupe(Dates(events))
    ensures e.eventDate in keys ==> keys == JsText.Dedupe(Dates(events + [e]))
    ensures e.eventDate !in keys ==> keys + [e.eventDate] == JsText.Dedupe(Dates(events + [e]))
  {
    DatesSnoc(events, e);
    DedupeSnoc(Dates(events), e.eventDate);
  }

  lemma DatesSnoc(events: seq<Event>, e: Event)
    ensures Dates(events + [e]) == Dates(events) + [e.eventDate]
  {
  }

  lemma DedupeSnoc(xs: seq<string>, x: string)
    ensures JsText.Dedupe(xs + [x]) ==
      if x in JsText.Dedupe(xs) then JsText.Dedupe(xs) else JsText.Dedupe(xs) + [x]
  {
    assert (xs + [x])[..|xs|] == xs;
  }

  /** A date no event has heads an empty group. */
  lemma {:induction false} AbsentDateEmptyGroup(events: seq<Event>, d: string)
    requires d !in Dates(events)
    ensures Group(events, d) == []
    decreases |events|
  {
    if |events| > 0 {
      assert Dates(events)[0] == events[0].eventDate;
      assert d !in Dates(events[1..]) by {
        forall j | 0 <= j < |events| - 1 ensures Dates(events[1..])[j] != d {
          assert Dates(events[1..])[j] == Dates(events)[j + 1];
        }
      }
      AbsentDateEmptyGroup(events[1..], d);
    }
  }

  /** Every key of the grouping heads a non-empty group. */
  lemma NoEmptyGroup(events: seq<Event>, d: string)
    requires d in JsText.Dedupe(Dates(events))
    ensures |Group(events, d)| > 0
  {
    var i :| 0 <= i < |events| && Dates(events)[i] == d;
    GroupMembers(events, d);
    assert events[i] in Group(events, d);
  }

  /** The groups for `keys`, one after another. */
  function Flatten(events: seq<Event>, keys: seq<string>): seq<Event>
    decreases |keys|
  {
    if |keys| == 0 then [] else Group(events, keys[0]) + Flatten(events, keys[1..])
  }

  lemma {:induction false} FlattenSnoc(events: seq<Event>, e: Event, keys: seq<string>)
    requires JsText.Distinct(keys)
    ensures multiset(Flatten(events + [e], keys)) ==
      multiset(Flatten(events, keys)) + (if e.eventDate in keys then multiset{e} else multiset{})
    decreases |keys|
  {
    if |keys| > 0 {
      DistinctTail(keys);
      GroupSnoc(events, e, keys[0]);
      FlattenSnoc(events, e, keys[1..]);
      assert multiset(Flatten(events + [e], keys))
        == multiset(Group(events + [e], keys[0])) + multiset(Flatten(events + [e], keys[1..]));
      assert multiset(Flatten(events, keys)) == multiset(Group(events, keys[0])) + multiset(Flatten(events, keys[1..]));
      assert e.eventDate in keys <==> keys[0] == e.eventDate || e.eventDate in keys[1..];
    }
  }

  /** The keys after the first are distinct too, and the first is not among them. */
  lemma DistinctTail(keys: seq<string>)
    requires JsText.Distinct(keys) && |keys| > 0
    ensures JsText.Distinct(keys[1..]) && keys[0] !in keys[1..]
  {
    forall i, j | 0 <= i < j < |keys[1..]| ensures keys[1..][i] != keys[1..][j] {
      assert keys[1..][i] == keys[i + 1] && keys[1..][j] == keys[j + 1];
    }
    forall j | 0 <= j < |keys[1..]| ensures keys[1..][j] != keys[0] {
      assert keys[1..][j] == keys[j + 1];
    }
  }

  /**
   * Grouping loses and duplicates nothing: taken together, the groups under the
   * distinct keys that cover every date hold exactly the input events.
   */
  lemma {:induction false} FlattenIsPermutation(events: seq<Event>, keys: seq<string>)
    requires JsText.Distinct(keys)
    requires forall i :: 0 <= i < |events| ==> events[i].eventDate in keys
    ensures multiset(Flatten(events, keys)) == multiset(events)
    decreases |events|
  {
    if |events| == 0 {
      EmptyFlatten(keys);
    } else {
      var front := events[..|events| - 1];
      var last := events[|events| - 1];
      assert events == front + [last];
      FlattenIsPermutation(front, keys);
      FlattenSnoc(front, last, keys);
    }
  }

  lemma {:induction false} EmptyFlatten(keys: seq<string>)
    ensures Flatten([], keys) == []
    decreases |keys|
  {
    if |keys| > 0 {
      EmptyFlatten(keys[1..]);
    }
  }

  /**
   * Every event lands in the group keyed by its own date and in no other, so the
   * group sizes add up to the number of events.
   */
  lemma GroupsPartitionEvents(events: seq<Event>)
    ensures multiset(Flatten(events, JsText.Dedupe(Dates(events)))) == multiset(events)
    ensures |Flatten(events, JsText.Dedupe(Dates(events)))| == |events|
    ensures forall i, d :: 0 <= i < |events| && events[i] in Group(events, d) ==> d == events[i].eventDate
  {
    var keys := JsText.Dedupe(Dates(events));
    forall i | 0 <= i < |events| ensures events[i].eventDate in keys {
      assert Dates(events)[i] == events[i].eventDate;
    }
    FlattenIsPermutation(events, keys);
    assert |multiset(Flatten(events, keys))| == |multiset(events)|;
    forall i, d | 0 <= i < |events| && events[i] in Group(events, d) ensures d == events[i].eventDate {
      GroupMembers(events, d);
    }
  }
}
