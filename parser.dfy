/** `parseICalData` (src/App.js:77-123): split the feed into lines, walk them with one mutable
    accumulator object, push the accumulator at `END:VEVENT` when its summary is truthy, and
    sort the pushed objects with `a.start - b.start`.

    The source has no "inside an event" state and `END:VEVENT` does not replace the accumulator:
    the pushed object stays the accumulator until the next `BEGIN:VEVENT`, so property lines after
    `END:VEVENT` still change the event already pushed, and a second `END:VEVENT` pushes the same
    object again. The method `ParseICalData` keeps this exactly, with a class for the accumulator.
    Its specification, `Scan`, describes the same heap as values: `objs[g]` is the g-th object the
    loop has created (`objs[0]` is the initial `{}`), `cur` the one `currentEvent` refers to, and
    `pushed` the objects `events` refers to, in order. */
module IcsParser {
  import opened Wrappers
  import opened Strings
  import opened DateToken
  import opened Calendar
  import opened Sorting

  predicate IsBegin(line: string) {
    StartsWith(line, "BEGIN:VEVENT")
  }

  predicate IsEnd(line: string) {
    StartsWith(line, "END:VEVENT")
  }

  predicate IsSummary(line: string) {
    StartsWith(line, "SUMMARY:")
  }

  predicate IsDtstart(line: string) {
    StartsWith(line, "DTSTART")
  }

  predicate IsDescription(line: string) {
    StartsWith(line, "DESCRIPTION:")
  }

  /** The line kinds the loop tests for exclude each other: their prefixes differ in the first
      or second character. */
  lemma LineKindsDisjoint(line: string)
    ensures IsEnd(line) ==> !IsBegin(line)
    ensures IsSummary(line) ==> !IsBegin(line) && !IsEnd(line) && !IsDtstart(line) && !IsDescription(line)
    ensures IsDtstart(line) ==> !IsDescription(line)
  {
    PrefixesDiffer(line, "END:VEVENT", "BEGIN:VEVENT", 0);
    PrefixesDiffer(line, "SUMMARY:", "BEGIN:VEVENT", 0);
    PrefixesDiffer(line, "SUMMARY:", "END:VEVENT", 0);
    PrefixesDiffer(line, "SUMMARY:", "DTSTART", 0);
    PrefixesDiffer(line, "SUMMARY:", "DESCRIPTION:", 0);
    PrefixesDiffer(line, "DTSTART", "DESCRIPTION:", 1);
  }

  /** A line cannot start with two prefixes that differ at a position both of them cover. */
  lemma PrefixesDiffer(line: string, p: string, q: string, i: nat)
    requires i < |p| && i < |q| && p[i] != q[i]
    ensures StartsWith(line, p) ==> !StartsWith(line, q)
  {
  }

  /** What a line that is neither `BEGIN:VEVENT` nor `END:VEVENT` does to the accumulator
      (src/App.js:91-119); any other line leaves it alone. */
  function Apply(e: CalendarEvent, line: string): CalendarEvent {
    if IsSummary(line) then e.(summary := line[8..])
    else if IsDtstart(line) then
      match ParseDtstart(line)
      case None => e
      case Some(d) => e.(start := Some(d.start), allDay := Some(d.allDay))
    else if IsDescription(line) then e.(description := Some(line[12..]))
    else e
  }

  /** The lines of a block body applied in order to an accumulator. */
  function Fill(e: CalendarEvent, body: seq<string>): CalendarEvent {
    if body == [] then e else Apply(Fill(e, body[..|body| - 1]), body[|body| - 1])
  }

  /** The loop's heap, as values (see the module comment). */
  datatype ScanState = ScanState(objs: seq<CalendarEvent>, cur: nat, pushed: seq<nat>)

  predicate Valid(st: ScanState) {
    && st.cur < |st.objs|
    && (forall k :: 0 <= k < |st.pushed| ==> st.pushed[k] < |st.objs|)
  }

  function Current(st: ScanState): CalendarEvent
    requires Valid(st)
  {
    st.objs[st.cur]
  }

  /** One iteration of the loop at src/App.js:82-120. */
  function Step(st: ScanState, line: string): (r: ScanState)
    requires Valid(st)
    ensures Valid(r)
  {
    if IsBegin(line) then ScanState(st.objs + [Empty], |st.objs|, st.pushed)
    else if IsEnd(line) then
      if Current(st).summary != "" then st.(pushed := st.pushed + [st.cur]) else st
    else st.(objs := st.objs[st.cur := Apply(Current(st), line)])
  }

  /** The heap after the loop has run over `lines`. */
  function Scan(lines: seq<string>): (st: ScanState)
    ensures Valid(st)
  {
    if lines == [] then ScanState([Empty], 0, [])
    else Step(Scan(lines[..|lines| - 1]), lines[|lines| - 1])
  }

  /** The objects in `events` once the loop is over, before the sort. */
  function Emitted(lines: seq<string>): seq<CalendarEvent> {
    var st := Scan(lines);
    seq(|st.pushed|, k requires 0 <= k < |st.pushed| => st.objs[st.pushed[k]])
  }

  /** What `parseICalData(icalData)` returns. */
  function ParseSpec(icalData: string): seq<CalendarEvent> {
    SortSpec(Emitted(SplitLines(icalData)), StartKey)
  }

  // ---------------------------------------------------------------------------------------
  // The imperative parser

  /** The `currentEvent` object. */
  class Event {
    var summary: string
    var start: Option<Start>
    var allDay: Option<bool>
    var description: Option<string>

    /** `{}` */
    constructor ()
      ensures Value() == Empty
    {
      summary := "";
      start := None;
      allDay := None;
      description := None;
    }

    function Value(): CalendarEvent
      reads this
    {
      CalendarEvent(summary, start, allDay, description)
    }
  }

  /** The objects `objs` (the g-th object the loop created), `pushed` (the array `events`) and
      `cur` (`currentEvent`) hold the heap `st` describes. */
  ghost predicate Mirrors(st: ScanState, objs: seq<Event>, pushed: seq<Event>, cur: Event)
    reads objs
  {
    && Valid(st)
    && |objs| == |st.objs| && objs[st.cur] == cur
    && (forall g :: 0 <= g < |objs| ==> objs[g].Value() == st.objs[g])
    && |pushed| == |st.pushed|
    && (forall k :: 0 <= k < |pushed| ==> pushed[k] == objs[st.pushed[k]])
    && (forall g, h :: 0 <= g < h < |objs| ==> objs[g] != objs[h])
  }

  /** The property branches of the loop body (src/App.js:91-119) on `currentEvent`. */
  method ApplyLine(currentEvent: Event, line: string)
    requires !IsBegin(line) && !IsEnd(line)
    modifies currentEvent
    ensures currentEvent.Value() == Apply(old(currentEvent.Value()), line)
  {
    if IsSummary(line) {
      currentEvent.summary := line[8..];
    } else if IsDtstart(line) {
      var parsed := ParseDtstart(line);
      if parsed.Some? {
        currentEvent.start := Some(parsed.value.start);
        currentEvent.allDay := Some(parsed.value.allDay);
      }
    } else if IsDescription(line) {
      currentEvent.description := Some(line[12..]);
    }
  }

  /** One iteration of the loop body (src/App.js:83-119). */
  method HandleLine(line: string, currentEvent: Event, pushed: seq<Event>, ghost objs: seq<Event>, ghost st: ScanState)
    returns (nextEvent: Event, nextPushed: seq<Event>, ghost nextObjs: seq<Event>)
    requires Mirrors(st, objs, pushed, currentEvent)
    modifies currentEvent
    ensures Mirrors(Step(st, line), nextObjs, nextPushed, nextEvent)
    ensures nextEvent == currentEvent || fresh(nextEvent)
  {
    nextEvent, nextPushed, nextObjs := currentEvent, pushed, objs;
    if IsBegin(line) {
      nextEvent := new Event();
      nextObjs := objs + [nextEvent];
    } else if IsEnd(line) {
      if currentEvent.summary != "" {
        nextPushed := pushed + [currentEvent];
      }
    } else {
      ApplyLine(currentEvent, line);
    }
  }

  /** `parseICalData`: the objects pushed by the loop, in the order the sort at src/App.js:122
      leaves them. The objects are not written again once the loop is over, so the sort is
      applied to their values. */
  method ParseICalData(icalData: string) returns (events: seq<CalendarEvent>)
    ensures events == ParseSpec(icalData)
  {
    var lines := SplitLines(icalData);
    var pushed: seq<Event> := [];
    var currentEvent := new Event();
    ghost var objs: seq<Event> := [currentEvent];
    for i := 0 to |lines|
      invariant Mirrors(Scan(lines[..i]), objs, pushed, currentEvent)
      invariant fresh(currentEvent)
    {
      assert lines[..i + 1][..i] == lines[..i];
      currentEvent, pushed, objs := HandleLine(lines[i], currentEvent, pushed, objs, Scan(lines[..i]));
    }
    assert lines[..|lines|] == lines;
    var a := Snapshot(pushed);
    assert a[..] == Emitted(lines);
    SortInPlace(a, StartKey);
    events := a[..];
  }

  /** The values of the pushed objects, in a fresh array for the sort. */
  method Snapshot(pushed: seq<Event>) returns (a: array<CalendarEvent>)
    ensures fresh(a) && a.Length == |pushed|
    ensures forall m :: 0 <= m < |pushed| ==> a[m] == pushed[m].Value()
  {
    a := new CalendarEvent[|pushed|];
    for k := 0 to |pushed|
      modifies a
      invariant forall m :: 0 <= m < k ==> a[m] == pushed[m].Value()
    {
      a[k] := pushed[k].Value();
    }
  }

  // ---------------------------------------------------------------------------------------
  // Properties of the scan

  /** Lines that neither open nor close a block: they only ever touch the current object. */
  predicate PropertyLines(body: seq<string>) {
    forall i :: 0 <= i < |body| ==> !IsBegin(body[i]) && !IsEnd(body[i])
  }

  /** Property lines change the current object and nothing else: they are applied to it in order. */
  lemma {:induction false} ScanPropertyLines(ls: seq<string>, body: seq<string>)
    requires PropertyLines(body)
    ensures var st := Scan(ls);
      Scan(ls + body) == st.(objs := st.objs[st.cur := Fill(Current(st), body)])
  {
    var st := Scan(ls);
    if body == [] {
      assert ls + body == ls;
      assert st.objs[st.cur := st.objs[st.cur]] == st.objs;
    } else {
      var init, l := body[..|body| - 1], body[|body| - 1];
      ScanPropertyLines(ls, init);
      assert (ls + body)[..|ls + body| - 1] == ls + init;
      assert (ls + body)[|ls + body| - 1] == l;
    }
  }

  /** A block `BEGIN:VEVENT`, property lines, `END:VEVENT` adds exactly one event — the fields its
      own lines set on a cleared accumulator — when that summary is non-empty, and nothing
      otherwise; the events emitted before it are left as they were. */
  lemma BlockEmission(ls: seq<string>, begin: string, body: seq<string>, end: string)
    requires IsBegin(begin) && IsEnd(end) && PropertyLines(body)
    ensures var e := Fill(Empty, body);
      Emitted(ls + [begin] + body + [end]) == Emitted(ls) + (if e.summary != "" then [e] else [])
  {
    var st0 := Scan(ls);
    var e := Fill(Empty, body);
    ScanSnoc(ls, begin);
    ScanPropertyLines(ls + [begin], body);
    ScanSnoc(ls + [begin] + body, end);
    LineKindsDisjoint(end);
    EmittedAfterBlock(ls, ls + [begin] + body + [end], e);
  }

  /** The loop's state after one more line is one more step. */
  lemma ScanSnoc(ls: seq<string>, line: string)
    ensures Scan(ls + [line]) == Step(Scan(ls), line)
  {
    assert (ls + [line])[..|ls|] == ls;
  }

  /** When a block adds one object `e` and pushes it at most once, the events emitted before it
      stay, followed by `e` if it was pushed. */
  lemma EmittedAfterBlock(ls: seq<string>, all: seq<string>, e: CalendarEvent)
    requires Scan(all).objs == Scan(ls).objs + [e]
    requires Scan(all).pushed == Scan(ls).pushed || Scan(all).pushed == Scan(ls).pushed + [|Scan(ls).objs|]
    ensures Emitted(all) == Emitted(ls) + (if Scan(all).pushed == Scan(ls).pushed then [] else [e])
  {
    var st0, st3 := Scan(ls), Scan(all);
    var tail := if st3.pushed == st0.pushed then [] else [e];
    assert |Emitted(all)| == |Emitted(ls)| + |tail|;
    forall k | 0 <= k < |Emitted(all)| ensures Emitted(all)[k] == (Emitted(ls) + tail)[k] {
      if k < |st0.pushed| {
        assert st0.pushed[k] < |st0.objs|;
      }
    }
  }

  /** Lines that cannot make a summary non-empty: no new block opens and no SUMMARY line carries text. */
  predicate NoSummaryText(body: seq<string>) {
    forall i :: 0 <= i < |body| ==> !IsBegin(body[i]) && !(IsSummary(body[i]) && body[i][8..] != "")
  }

  lemma {:induction false} SummaryLessScan(ls: seq<string>, begin: string, body: seq<string>)
    requires IsBegin(begin) && NoSummaryText(body)
    ensures var st0, st := Scan(ls), Scan(ls + [begin] + body);
      && st.cur == |st0.objs| && st.objs[..|st0.objs|] == st0.objs
      && Current(st).summary == "" && st.pushed == st0.pushed
  {
    var st0 := Scan(ls);
    if body == [] {
      assert (ls + [begin] + body)[..|ls|] == ls;
    } else {
      var init, l := body[..|body| - 1], body[|body| - 1];
      SummaryLessScan(ls, begin, init);
      assert (ls + [begin] + body)[..|ls + [begin] + body| - 1] == ls + [begin] + init;
      assert (ls + [begin] + body)[|ls + [begin] + body| - 1] == l;
    }
  }

  /** A block without a SUMMARY line, or with only empty ones, never reaches the output, even
      when it is closed several times, and it leaves the events emitted before it unchanged. */
  lemma SummaryLessBlockIsDropped(ls: seq<string>, begin: string, body: seq<string>)
    requires IsBegin(begin) && NoSummaryText(body)
    ensures Emitted(ls + [begin] + body) == Emitted(ls)
  {
    SummaryLessScan(ls, begin, body);
    var st0, st := Scan(ls), Scan(ls + [begin] + body);
    forall k | 0 <= k < |st0.pushed| ensures st.objs[st.pushed[k]] == st0.objs[st0.pushed[k]] {
      assert st.objs[..|st0.objs|][st0.pushed[k]] == st.objs[st0.pushed[k]];
    }
  }

  /** Within a block the last SUMMARY line wins. */
  lemma {:induction false} LastSummaryWins(e: CalendarEvent, pre: seq<string>, text: string, post: seq<string>)
    requires forall i :: 0 <= i < |post| ==> !IsSummary(post[i])
    ensures Fill(e, pre + ["SUMMARY:" + text] + post).summary == text
  {
    if post == [] {
      assert pre + ["SUMMARY:" + text] + post == pre + ["SUMMARY:" + text];
      assert (pre + ["SUMMARY:" + text])[..|pre|] == pre;
      assert IsSummary("SUMMARY:" + text) && ("SUMMARY:" + text)[8..] == text;
    } else {
      var init := post[..|post| - 1];
      LastSummaryWins(e, pre, text, init);
      var all := pre + ["SUMMARY:" + text] + post;
      assert all[..|all| - 1] == pre + ["SUMMARY:" + text] + init;
    }
  }

  /** Within a block the last DESCRIPTION line wins. */
  lemma {:induction false} LastDescriptionWins(e: CalendarEvent, pre: seq<string>, text: string, post: seq<string>)
    requires forall i :: 0 <= i < |post| ==> !IsDescription(post[i])
    ensures Fill(e, pre + ["DESCRIPTION:" + text] + post).description == Some(text)
  {
    var line := "DESCRIPTION:" + text;
    if post == [] {
      assert pre + [line] + post == pre + [line];
      assert (pre + [line])[..|pre|] == pre;
      assert IsDescription(line) && line[12..] == text;
      LineKindsDisjoint(line);
    } else {
      var init := post[..|post| - 1];
      LastDescriptionWins(e, pre, text, init);
      var all := pre + [line] + post;
      assert all[..|all| - 1] == pre + [line] + init;
    }
  }

  /** A DTSTART line whose value assigns a start. */
  predicate SetsStart(line: string) {
    IsDtstart(line) && ParseDtstart(line).Some?
  }

  lemma ApplySetsStart(e: CalendarEvent, line: string)
    requires SetsStart(line)
    ensures Apply(e, line).start == Some(ParseDtstart(line).value.start)
    ensures Apply(e, line).allDay == Some(ParseDtstart(line).value.allDay)
  {
    LineKindsDisjoint(line);
  }

  lemma ApplyKeepsStart(e: CalendarEvent, line: string)
    requires !SetsStart(line)
    ensures Apply(e, line).start == e.start && Apply(e, line).allDay == e.allDay
  {
    LineKindsDisjoint(line);
  }

  /** No line of `lines` assigns a start. */
  predicate NoneSetsStart(lines: seq<string>) {
    lines == [] || (!SetsStart(lines[|lines| - 1]) && NoneSetsStart(lines[..|lines| - 1]))
  }

  lemma FillSetsStart(e: CalendarEvent, pre: seq<string>, line: string)
    requires SetsStart(line)
    ensures var d := ParseDtstart(line).value;
      var r := Fill(e, pre + [line]);
      r.start == Some(d.start) && r.allDay == Some(d.allDay)
  {
    assert (pre + [line])[..|pre|] == pre;
    ApplySetsStart(Fill(e, pre), line);
  }

  lemma FillKeepsStart(e: CalendarEvent, pre: seq<string>, line: string)
    requires !SetsStart(line)
    ensures var r := Fill(e, pre + [line]);
      r.start == Fill(e, pre).start && r.allDay == Fill(e, pre).allDay
  {
    assert (pre + [line])[..|pre|] == pre;
    ApplyKeepsStart(Fill(e, pre), line);
  }

  /** Lines that assign no start leave `start` and `allDay` as they are. */
  lemma {:induction false} FillKeepsStartAcross(e: CalendarEvent, pre: seq<string>, post: seq<string>)
    requires NoneSetsStart(post)
    ensures Fill(e, pre + post).start == Fill(e, pre).start
    ensures Fill(e, pre + post).allDay == Fill(e, pre).allDay
  {
    if post == [] {
      assert pre + post == pre;
    } else {
      var init, last := post[..|post| - 1], post[|post| - 1];
      FillKeepsStartAcross(e, pre, init);
      assert pre + post == (pre + init) + [last];
      FillKeepsStart(e, pre + init, last);
    }
  }

  /** Within a block the last DTSTART line that assigns anything wins: `start` and `allDay` are
      the ones it assigns. */
  lemma LastStartWins(e: CalendarEvent, pre: seq<string>, line: string, post: seq<string>)
    requires SetsStart(line) && NoneSetsStart(post)
    ensures var d := ParseDtstart(line).value;
      var r := Fill(e, pre + [line] + post);
      r.start == Some(d.start) && r.allDay == Some(d.allDay)
  {
    FillSetsStart(e, pre, line);
    FillKeepsStartAcross(e, pre + [line], post);
  }

  /** A DTSTART line with nothing after the first colon (or no colon at all) leaves `start` and
      `allDay` as they were. */
  lemma EmptyDtstartKeepsStart(e: CalendarEvent, line: string)
    requires IsDtstart(line)
    requires FieldAfterColon(line) == None || FieldAfterColon(line) == Some("")
    ensures Apply(e, line).start == e.start && Apply(e, line).allDay == e.allDay
  {
    LineKindsDisjoint(line);
    EmptyValueIsSkipped(line);
  }

  // ---------------------------------------------------------------------------------------
  // Every object keeps `allDay` in step with `start`

  lemma ApplyCoherent(e: CalendarEvent, line: string)
    requires Coherent(e)
    ensures Coherent(Apply(e, line))
  {
    if SetsStart(line) {
      ApplySetsStart(e, line);
      ParsedStartIsCoherent(line);
    } else {
      ApplyKeepsStart(e, line);
    }
  }

  lemma {:induction false} ScanCoherent(lines: seq<string>)
    ensures forall g :: 0 <= g < |Scan(lines).objs| ==> Coherent(Scan(lines).objs[g])
  {
    if lines != [] {
      var st := Scan(lines[..|lines| - 1]);
      ScanCoherent(lines[..|lines| - 1]);
      ApplyCoherent(Current(st), lines[|lines| - 1]);
    }
  }

  /** Every event `parseICalData` returns has `allDay` set exactly when `start` is, true for an
      all-day start and false for a timed one. */
  lemma ParsedEventsCoherent(icalData: string)
    ensures forall i :: 0 <= i < |ParseSpec(icalData)| ==> Coherent(ParseSpec(icalData)[i])
  {
    var lines := SplitLines(icalData);
    ScanCoherent(lines);
    var em := Emitted(lines);
    SortPermutes(em, StartKey);
    forall i | 0 <= i < |ParseSpec(icalData)| ensures Coherent(ParseSpec(icalData)[i]) {
      var x := ParseSpec(icalData)[i];
      assert x in multiset(em);
      var j :| 0 <= j < |em| && em[j] == x;
    }
  }

  /** `parseICalData` returns the emitted objects, each as often as it was pushed, only reordered. */
  lemma ParseIsPermutation(icalData: string)
    ensures multiset(ParseSpec(icalData)) == multiset(Emitted(SplitLines(icalData)))
  {
    SortPermutes(Emitted(SplitLines(icalData)), StartKey);
  }

  /** When every emitted event is timed, `parseICalData` returns them ascending by start, events
      with the same start in the order they were emitted. */
  lemma TimedParseIsSorted(icalData: string, k: int)
    requires forall i :: 0 <= i < |Emitted(SplitLines(icalData))| ==>
      StartKey(Emitted(SplitLines(icalData))[i]).Some?
    ensures Ordered(ParseSpec(icalData), StartKey)
    ensures WithKey(ParseSpec(icalData), StartKey, k) == WithKey(Emitted(SplitLines(icalData)), StartKey, k)
  {
    SortOrdered(Emitted(SplitLines(icalData)), StartKey);
    SortStable(Emitted(SplitLines(icalData)), StartKey, k);
  }

  // ---------------------------------------------------------------------------------------
  // The shared accumulator, on the smallest feeds that show it

  lemma ScanOneBlock(s: string)
    requires s != ""
    ensures var e := CalendarEvent(s, None, None, None);
      Scan(["BEGIN:VEVENT", "SUMMARY:" + s, "END:VEVENT"]) == ScanState([Empty, e], 1, [1])
  {
    var b, sl, en := "BEGIN:VEVENT", "SUMMARY:" + s, "END:VEVENT";
    assert sl[..8] == "SUMMARY:" && sl[8..] == s;
    LineKindsDisjoint(sl);
    LineKindsDisjoint(en);
    assert [b, sl, en][..2] == [b, sl];
    assert [b, sl][..1] == [b];
    assert [b][..0] == [];
    assert IsBegin(b) && IsEnd(en);
    assert Scan([b]) == ScanState([Empty, Empty], 1, []);
    assert Apply(Empty, sl) == CalendarEvent(s, None, None, None);
    assert Scan([b, sl]) == ScanState([Empty, CalendarEvent(s, None, None, None)], 1, []);
  }

  /** A property line after `END:VEVENT` still changes the event already pushed: a later
      `SUMMARY:` line renames it, even to the empty summary that would have kept it out. */
  lemma SummaryAfterEndRenamesPushedEvent(s: string, t: string)
    requires s != ""
    ensures Emitted(["BEGIN:VEVENT", "SUMMARY:" + s, "END:VEVENT", "SUMMARY:" + t]) ==
      [CalendarEvent(t, None, None, None)]
  {
    ScanOneBlock(s);
    var lines := ["BEGIN:VEVENT", "SUMMARY:" + s, "END:VEVENT", "SUMMARY:" + t];
    var tl := "SUMMARY:" + t;
    assert tl[..8] == "SUMMARY:" && tl[8..] == t;
    LineKindsDisjoint(tl);
    assert lines[..3] == ["BEGIN:VEVENT", "SUMMARY:" + s, "END:VEVENT"];
  }

  /** A second `END:VEVENT` pushes the same object again. */
  lemma RepeatedEndPushesTwice(s: string)
    requires s != ""
    ensures var e := CalendarEvent(s, None, None, None);
      Emitted(["BEGIN:VEVENT", "SUMMARY:" + s, "END:VEVENT", "END:VEVENT"]) == [e, e]
  {
    ScanOneBlock(s);
    var lines := ["BEGIN:VEVENT", "SUMMARY:" + s, "END:VEVENT", "END:VEVENT"];
    LineKindsDisjoint("END:VEVENT");
    assert lines[..3] == ["BEGIN:VEVENT", "SUMMARY:" + s, "END:VEVENT"];
  }

}
