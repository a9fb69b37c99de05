/** The stages `fetchCalendarEvents` runs on the parsed events (src/App.js:42-63), the search
    filter and the five-event widget applied to the result (src/App.js:167-173), and the per-type
    counts shown above them (src/App.js:220-232). The current day, the search term and
    `formatDate` are parameters. */
module Pipeline {
  import opened Wrappers
  import opened Strings
  import opened DateToken
  import opened Calendar
  import opened Sorting
  import opened IcsParser
  import opened Activity

  /** `Array.prototype.filter`: the elements that satisfy `p`, in their order. */
  function Filter(s: seq<CalendarEvent>, p: CalendarEvent -> bool): (r: seq<CalendarEvent>)
    ensures |r| <= |s|
    ensures forall i :: 0 <= i < |r| ==> p(r[i])
    ensures forall x :: x in r <==> x in s && p(x)
  {
    if s == [] then [] else (if p(s[0]) then [s[0]] else []) + Filter(s[1..], p)
  }

  /** Filtering leaves nothing exactly when no element satisfies the predicate. */
  lemma FilterNone(s: seq<CalendarEvent>, p: CalendarEvent -> bool)
    ensures Filter(s, p) == [] <==> forall i :: 0 <= i < |s| ==> !p(s[i])
  {
    if Filter(s, p) == [] {
      forall i | 0 <= i < |s| ensures !p(s[i]) {
        assert s[i] in s;
      }
    }
  }

  /** Each element that satisfies `p` is kept as often as it occurs, the others not at all. */
  lemma {:induction false} FilterCount(s: seq<CalendarEvent>, p: CalendarEvent -> bool, x: CalendarEvent)
    ensures multiset(Filter(s, p))[x] == if p(x) then multiset(s)[x] else 0
  {
    if s != [] {
      FilterCount(s[1..], p, x);
      var head := if p(s[0]) then [s[0]] else [];
      assert multiset(Filter(s, p)) == multiset(head) + multiset(Filter(s[1..], p));
      assert s == [s[0]] + s[1..];
      assert multiset(s) == multiset([s[0]]) + multiset(s[1..]);
    }
  }

  /** Filtering keeps the relative order, so it keeps a sequence ordered. */
  lemma {:induction false} FilterOrdered(s: seq<CalendarEvent>, p: CalendarEvent -> bool, key: CalendarEvent -> Option<int>)
    requires Ordered(s, key)
    ensures Ordered(Filter(s, p), key)
  {
    if s != [] {
      var rest := Filter(s[1..], p);
      FilterOrdered(s[1..], p, key);
      if p(s[0]) {
        forall j | 0 <= j < |rest| ensures !After(key(s[0]), key(rest[j])) {
          assert rest[j] in s[1..];
          var m :| 0 <= m < |s[1..]| && s[1..][m] == rest[j];
          assert s[m + 1] == rest[j];
        }
        assert Filter(s, p) == [s[0]] + rest;
      }
    }
  }

  /** Filtering with a predicate every element satisfies changes nothing. */
  lemma {:induction false} FilterAll(s: seq<CalendarEvent>, p: CalendarEvent -> bool)
    requires forall i :: 0 <= i < |s| ==> p(s[i])
    ensures Filter(s, p) == s
  {
    if s != [] {
      FilterAll(s[1..], p);
    }
  }

  // ---------------------------------------------------------------------------------------
  // fetchCalendarEvents

  /** The keyword filter at src/App.js:42-46: a defined summary that contains, ignoring case, the
      name of one of `ACTIVITY_TYPES`. */
  predicate KeywordMatch(e: CalendarEvent) {
    e.summary != "" &&
    exists i :: 0 <= i < |ActivityTypes| && Contains(Lower(e.summary), Lower(ActivityTypes[i]))
  }

  /** The keyword filter keeps exactly the events `getActivityType` does not class as Other. */
  lemma KeywordMatchIffTracked(e: CalendarEvent)
    ensures KeywordMatch(e) <==> GetActivityType(e.summary) != Other
  {
    TrackedIffKeyword(e.summary);
    if e.summary == "" {
      KeywordsAreLoweredNames();
      assert Lower(e.summary) == "";
      NotContainedInEmpty("launch");
      NotContainedInEmpty("unstake");
      NotContainedInEmpty("sell");
    }
  }

  /** The upcoming filter at src/App.js:48-57: the event's date, at local midnight for an all-day
      event, is not before `today` at midnight. An invalid date compares false. */
  predicate IsUpcoming(e: CalendarEvent, today: Day) {
    UpcomingKey(e).Some? && UpcomingKey(e).value >= Midnight(today)
  }

  /** An event with an all-day or timed start is upcoming exactly when its wall-clock start is not
      before midnight at the start of `today`, comparing year, month, day, then the time. */
  lemma UpcomingIffNotBeforeToday(e: CalendarEvent, today: Day)
    requires Coherent(e) && e.start.Some? && !e.start.value.Opaque?
    requires today.month < 100 && today.day < 100
    ensures IsUpcoming(e, today)
        <==> !LexLess(ClockFields(e.start.value), [today.year, today.month, today.day, 0, 0, 0])
  {
    StampOrder(ClockFields(e.start.value), [today.year, today.month, today.day, 0, 0, 0]);
  }

  /** The events that survive both filters, before the sort at src/App.js:59-63; what
      `fetchCalendarEvents` stores is these sorted by `UpcomingKey`. */
  function Kept(parsed: seq<CalendarEvent>, today: Day): seq<CalendarEvent> {
    Filter(Filter(parsed, KeywordMatch), e => IsUpcoming(e, today))
  }

  /** What `fetchCalendarEvents` stores: the kept events after the in-place sort. */
  function Stored(parsed: seq<CalendarEvent>, today: Day): seq<CalendarEvent> {
    SortSpec(Kept(parsed, today), UpcomingKey)
  }

  /** The body of `fetchCalendarEvents` after the download: parse, filter twice, sort in place. */
  method FetchCalendarEvents(icalData: string, today: Day) returns (upcomingEvents: seq<CalendarEvent>)
    ensures upcomingEvents == Stored(ParseSpec(icalData), today)
  {
    var events := ParseICalData(icalData);
    var filteredEvents := Filter(events, KeywordMatch);
    var upcoming := Filter(filteredEvents, e => IsUpcoming(e, today));
    var a := new CalendarEvent[|upcoming|](i requires 0 <= i < |upcoming| => upcoming[i]);
    assert a[..] == upcoming;
    SortInPlace(a, UpcomingKey);
    upcomingEvents := a[..];
  }

  /** With every key defined, an ordered sequence has ascending key values. */
  lemma OrderedValuesAscend(s: seq<CalendarEvent>, key: CalendarEvent -> Option<int>)
    requires Keyed(s, key) && Ordered(s, key)
    ensures forall i, j :: 0 <= i < j < |s| ==> key(s[i]).value <= key(s[j]).value
  {
    forall i, j | 0 <= i < j < |s| ensures key(s[i]).value <= key(s[j]).value {
      assert !After(key(s[i]), key(s[j]));
    }
  }

  /** With every date defined, the sorted sequence `r` has ascending dates. */
  lemma SortedDatesAscend(s: seq<CalendarEvent>, r: seq<CalendarEvent>)
    requires Keyed(s, UpcomingKey) && r == SortSpec(s, UpcomingKey)
    ensures forall i :: 0 <= i < |r| ==> UpcomingKey(r[i]).Some?
    ensures forall i, j :: 0 <= i < j < |r| ==> UpcomingKey(r[i]).value <= UpcomingKey(r[j]).value
  {
    SortOrdered(s, UpcomingKey);
    SortPermutes(s, UpcomingKey);
    forall i | 0 <= i < |r| ensures UpcomingKey(r[i]).Some? {
      assert r[i] in multiset(s);
    }
    forall i, j | 0 <= i < j < |r| ensures UpcomingKey(r[i]).value <= UpcomingKey(r[j]).value {
      assert !After(UpcomingKey(r[i]), UpcomingKey(r[j]));
    }
  }

  /** `fetchCalendarEvents` stores the parsed events that pass both filters, each exactly as
      often as the parser returned it. */
  lemma UpcomingIsPermutation(parsed: seq<CalendarEvent>, today: Day, x: CalendarEvent)
    ensures multiset(Stored(parsed, today))[x] ==
      if KeywordMatch(x) && IsUpcoming(x, today) then multiset(parsed)[x] else 0
  {
    var filtered := Filter(parsed, KeywordMatch);
    SortPermutes(Kept(parsed, today), UpcomingKey);
    FilterCount(filtered, e => IsUpcoming(e, today), x);
    FilterCount(parsed, KeywordMatch, x);
  }

  /** Every stored event is classed as a tracked type and dated on or after `today`. */
  lemma UpcomingAreTrackedAndDue(parsed: seq<CalendarEvent>, today: Day)
    ensures var r := Stored(parsed, today);
      forall i :: 0 <= i < |r| ==>
        GetActivityType(r[i].summary) != Other && UpcomingKey(r[i]).Some? &&
        UpcomingKey(r[i]).value >= Midnight(today)
  {
    var kept := Kept(parsed, today);
    var r := Stored(parsed, today);
    SortPermutes(kept, UpcomingKey);
    forall i | 0 <= i < |r|
      ensures GetActivityType(r[i].summary) != Other && IsUpcoming(r[i], today)
    {
      assert r[i] in multiset(kept);
      assert r[i] in kept;
      KeywordMatchIffTracked(r[i]);
    }
  }

  /** The stored events ascend by date. */
  lemma UpcomingAscend(parsed: seq<CalendarEvent>, today: Day)
    ensures var r := Stored(parsed, today);
      forall i :: 0 <= i < |r| ==> UpcomingKey(r[i]).Some?
    ensures var r := Stored(parsed, today);
      forall i, j :: 0 <= i < j < |r| ==> UpcomingKey(r[i]).value <= UpcomingKey(r[j]).value
  {
    var kept := Kept(parsed, today);
    assert Keyed(kept, UpcomingKey);
    SortedDatesAscend(kept, Stored(parsed, today));
  }

  /** Stored events on the same date keep the order the parser returned them in. */
  lemma UpcomingStable(parsed: seq<CalendarEvent>, today: Day, k: int)
    ensures WithKey(Stored(parsed, today), UpcomingKey, k) == WithKey(Kept(parsed, today), UpcomingKey, k)
  {
    assert Keyed(Kept(parsed, today), UpcomingKey);
    SortStable(Kept(parsed, today), UpcomingKey, k);
  }

  // ---------------------------------------------------------------------------------------
  // The counts at src/App.js:220-232

  function OfType(t: ActivityType): CalendarEvent -> bool {
    (e: CalendarEvent) => GetActivityType(e.summary) == t
  }

  /** `events.filter(e => getActivityType(e.summary) === t).length` */
  function CountType(events: seq<CalendarEvent>, t: ActivityType): (n: nat)
    ensures n <= |events|
    ensures n == 0 <==> forall i :: 0 <= i < |events| ==> GetActivityType(events[i].summary) != t
  {
    FilterNone(events, OfType(t));
    |Filter(events, OfType(t))|
  }

  /** When no event is classed as Other, the three counts add up to the total. */
  lemma {:induction false} CountsAddUp(events: seq<CalendarEvent>)
    requires forall i :: 0 <= i < |events| ==> GetActivityType(events[i].summary) != Other
    ensures CountType(events, Launch) + CountType(events, Unstake) + CountType(events, Sell) == |events|
  {
    if events != [] {
      CountsAddUp(events[1..]);
    }
  }

  /** The Launch, Unstake and Sell counts over the stored events add up to "Total Activities". */
  lemma StatsAddUp(parsed: seq<CalendarEvent>, today: Day)
    ensures var events := Stored(parsed, today);
      CountType(events, Launch) + CountType(events, Unstake) + CountType(events, Sell) == |events|
  {
    UpcomingAreTrackedAndDue(parsed, today);
    CountsAddUp(Stored(parsed, today));
  }

  // ---------------------------------------------------------------------------------------
  // The search filter and the widget at src/App.js:167-173

  /** `searchTerm`, which nothing ever changes. */
  const SearchTerm: string := ""

  /** The search predicate at src/App.js:168-169, with `formatDate` a parameter. */
  predicate MatchesSearch(e: CalendarEvent, term: string, formatDate: (Start, Option<bool>) -> string) {
    Contains(Lower(e.summary), Lower(term)) ||
    (e.start.Some? && Contains(Lower(formatDate(e.start.value, e.allDay)), Lower(term)))
  }

  function SearchFilter(events: seq<CalendarEvent>, term: string, formatDate: (Start, Option<bool>) -> string): (r: seq<CalendarEvent>)
    ensures |r| <= |events|
    ensures forall e :: e in r <==> e in events && MatchesSearch(e, term, formatDate)
  {
    Filter(events, e => MatchesSearch(e, term, formatDate))
  }

  /** With the empty search term every event matches, so the search filter keeps the list as it is. */
  lemma EmptySearchKeepsAll(events: seq<CalendarEvent>, formatDate: (Start, Option<bool>) -> string)
    ensures SearchFilter(events, SearchTerm, formatDate) == events
  {
    forall i | 0 <= i < |events| ensures MatchesSearch(events[i], SearchTerm, formatDate) {
      assert StartsWith(Lower(events[i].summary), Lower(SearchTerm));
    }
    FilterAll(events, e => MatchesSearch(e, SearchTerm, formatDate));
  }

  /** `slice(0, 5)`: the first five events, or all of them when there are fewer. */
  function NextEvents(events: seq<CalendarEvent>): (r: seq<CalendarEvent>)
    ensures |r| == if |events| < 5 then |events| else 5
    ensures r == events[..|r|]
  {
    if |events| < 5 then events else events[..5]
  }

  /** On a list of events ascending by date, as `fetchCalendarEvents` stores it, the widget shows
      events that match the search, in date order, and no event the search keeps but the widget
      leaves out is dated before one it shows. */
  lemma WidgetShowsEarliest(events: seq<CalendarEvent>, term: string, formatDate: (Start, Option<bool>) -> string)
    requires forall i :: 0 <= i < |events| ==> UpcomingKey(events[i]).Some?
    requires forall i, j :: 0 <= i < j < |events| ==> UpcomingKey(events[i]).value <= UpcomingKey(events[j]).value
    ensures var found := SearchFilter(events, term, formatDate);
      var shown := NextEvents(found);
      && (forall i :: 0 <= i < |shown| ==> MatchesSearch(shown[i], term, formatDate))
      && (forall i :: 0 <= i < |found| ==> UpcomingKey(found[i]).Some?)
      && (forall i, j :: 0 <= i < j < |found| ==> UpcomingKey(found[i]).value <= UpcomingKey(found[j]).value)
      && (forall i, j :: 0 <= i < |shown| <= j < |found| ==> UpcomingKey(shown[i]).value <= UpcomingKey(found[j]).value)
  {
    assert Ordered(events, UpcomingKey);
    SearchKeepsOrder(events, term, formatDate);
  }

  /** The search filter keeps an ordered, keyed list ordered and keyed. */
  lemma SearchKeepsOrder(r: seq<CalendarEvent>, term: string, formatDate: (Start, Option<bool>) -> string)
    requires Keyed(r, UpcomingKey) && Ordered(r, UpcomingKey)
    ensures var found := SearchFilter(r, term, formatDate);
      forall i :: 0 <= i < |found| ==> UpcomingKey(found[i]).Some?
    ensures var found := SearchFilter(r, term, formatDate);
      forall i, j :: 0 <= i < j < |found| ==> UpcomingKey(found[i]).value <= UpcomingKey(found[j]).value
  {
    var p := e => MatchesSearch(e, term, formatDate);
    FilterOrdered(r, p, UpcomingKey);
    var found := SearchFilter(r, term, formatDate);
    forall i | 0 <= i < |found| ensures UpcomingKey(found[i]).Some? {
      assert found[i] in r;
    }
    OrderedValuesAscend(found, UpcomingKey);
  }

  /** With the constant empty search term the widget shows the first five stored events. */
  lemma WidgetWithoutSearch(parsed: seq<CalendarEvent>, today: Day, formatDate: (Start, Option<bool>) -> string)
    ensures var r := Stored(parsed, today);
      NextEvents(SearchFilter(r, SearchTerm, formatDate)) == r[..if |r| < 5 then |r| else 5]
  {
    EmptySearchKeepsAll(Stored(parsed, today), formatDate);
  }

}
