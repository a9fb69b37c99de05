# Virtual Agent Unlocks: the calendar core in Dafny

The app downloads the public iCalendar feed of a Google calendar and shows the upcoming
Launch, Unstake and Sell events. This project models the logic in `src/App.js` that turns
the feed text into what the page shows, and proves properties of it:

- `parseICalData` (lines 77-123). It splits the feed into lines and walks them with one mutable
  `currentEvent` object. It pushes that object at `END:VEVENT` when its summary is truthy, and
  sorts the result with `a.start - b.start`. The DTSTART branch reads the text between the
  first and the second colon (the rest of the line when there is no second colon), drops one
  trailing `Z` and trims the rest. It then recognises three token shapes: an
  eight-digit all-day date (RFC 5545 section 3.3.4), `YYYYMMDDTHHMMSS` (RFC 5545 section 3.3.5,
  read as naive wall-clock time), and anything else, which goes to `new Date(token)`.
- `getActivityType` (lines 125-131): a case-insensitive, first-match keyword test.
- The stages of `fetchCalendarEvents` after the download (lines 42-63): the keyword filter
  against `ACTIVITY_TYPES`, the "today or later" filter, and the in-place sort by date.
- The search filter and the five-event widget (lines 167-173), and the per-type counts (lines
  220-232).

Files:

- `wrappers.dfy`: `Option`.
- `strings.dfy`: the string built-ins the code calls (`includes`, `startsWith`, `toLowerCase`,
  `trim`, `split(/\r?\n/)`).
- `datetoken.dfy`: the DTSTART value parser, digit groups, and wall-clock comparison stamps.
- `calendar.dfy`: the event record and its two comparison keys.
- `sorting.dfy`: the in-place sort and its specification.
- `parser.dfy`: `parseICalData`, with the accumulator as a class and the heap described as values.
- `activity.dfy`: `getActivityType`.
- `pipeline.dfy`: `fetchCalendarEvents`, the counts, the search filter and the widget.

The accumulator is modelled exactly as the code has it. `END:VEVENT` pushes a reference and does
not replace `currentEvent`, so property lines after `END:VEVENT` still change the event already
pushed, and a repeated `END:VEVENT` pushes the same object twice. `ParseICalData` uses a class
`Event` for the object. Its specification `Scan` describes the heap as values: every object the
loop created, which one `currentEvent` refers to, and which ones `events` holds.

Two consequences of following the code closely:

- The loop keeps no inside/outside-event state, and `END:VEVENT` leaves the accumulator in place
  (see above), so lines outside a `BEGIN:VEVENT`/`END:VEVENT` block still change the last object.
- The sort at line 122 compares with `a.start - b.start`, which is `NaN` for an all-day start (a
  string) and for a missing one. The model therefore proves that this sort is always a
  permutation, and proves ordering and stability only when every parsed event has a timed start.

## Model

| member | source | states |
|---|---|---|
| Strings.StartsWith | src/App.js:85-117 | the definition of `startsWith`, used by the five line tests at lines 85, 87, 91, 93 and 117: the text's prefix of the pattern's length is the pattern; `IcsParser.LineKindsDisjoint` states how the five tests relate |
| Strings.Contains | src/App.js:94 | the definition of `includes`, used at lines 44, 94, 127-129 and 168-169; `Strings.ContainsIff` states that it holds exactly when the needle occurs at some offset |
| Strings.ContainsIff | src/App.js:44 | `includes` holds exactly when the needle occurs at some offset of the text |
| Strings.SplitLines | src/App.js:79 | splitting yields at least one line, and no line contains a line feed |
| Strings.JoinSplitLines | src/App.js:79 | for text without carriage returns, joining the lines with line feeds gives back the text |
| Strings.SplitJoinCRLF | src/App.js:79 | lines without line feeds joined with `\r\n` split back into the same lines: exactly one carriage return is dropped before each line feed |
| Strings.Trim | src/App.js:98 | `trim()` returns an infix of its input that neither starts nor ends with white space |
| Strings.TrimDropsOnlySpace | src/App.js:98 | everything `trim()` removes, before and after the infix it returns, is white space |
| Strings.TrimNoSpace | src/App.js:98 | text without white space is left alone by `trim()` |
| Strings.Lower | src/App.js:126 | `toLowerCase`, used at lines 44, 126 and 168-169, keeps the length; `LowerIdempotent`, `LowerOfUpper` and `Activity.ClassIgnoresCase` state its properties |
| Strings.IsSpace | src/App.js:98 | the definition of the characters `trim()` removes: ECMAScript white space and line terminators; `Strings.Trim` and `Strings.TrimDropsOnlySpace` state what is removed |
| Strings.LowerIdempotent | src/App.js:126 | lower-casing twice is lower-casing once |
| Strings.LowerOfUpper | src/App.js:126 | a text and its upper-case form lower to the same text |
| DateToken.FieldAfterColon | src/App.js:95 | `split(':')[1]` is missing exactly when the line has no colon, and never contains a colon |
| DateToken.FieldAfterColonOf | src/App.js:95 | a colon-free name, a colon and a colon-free value read back as that value, whatever follows from a further colon on |
| DateToken.StripZ | src/App.js:98 | `replace(/Z$/, '')` removes the final character exactly when it is `Z`, and otherwise returns the text unchanged |
| DateToken.Token | src/App.js:98 | the token the DTSTART branches test neither starts nor ends with white space |
| DateToken.ParseDtstart | src/App.js:93-116 | the definition of what a DTSTART line assigns: nothing for a missing or empty value, otherwise the classified token; its properties are the rows `EmptyValueIsSkipped` to `ParsedStartIsCoherent` |
| DateToken.Classify | src/App.js:100-116 | the definition of the three-way test: eight digits, then the `YYYYMMDDTHHMMSS` prefix, then the opaque fallback; its properties are `ClassifiedIsCoherent`, `AllDayToken`, `TimedToken` and `OtherTokenKeepsFlag` |
| DateToken.ClassifiedIsCoherent | src/App.js:100-116 | each branch sets `allDay` in step with the start it builds: true for all-day, false for timed, and the digit fields fit two digits |
| DateToken.EmptyValueIsSkipped | src/App.js:95-97 | a DTSTART line with no value after the first colon, or an empty one, assigns nothing |
| DateToken.NonEmptyValueAssigns | src/App.js:95-116 | every other DTSTART line assigns a start |
| DateToken.DigitsOfNumber | src/App.js:102 | a digit group read as a number and written back with its width is the group |
| DateToken.NumberOfDigits | src/App.js:108 | a number written with enough digits reads back as the number |
| DateToken.IsDateToken | src/App.js:100 | the definition of `/^\d{8}$/`: exactly eight characters, all digits; `DateToken.AllDayToken` states what such a token assigns |
| DateToken.HasDateTimePrefix | src/App.js:110 | the definition of `/^\d{8}T\d{6}/`: eight digits, `T`, six digits, then anything; it also stands for the exact test at line 106 (see "Left out"); `DateToken.TimedToken` states what such a token assigns |
| DateToken.IsoDate | src/App.js:102 | the definition of `cleanDate`: a four-digit year, a dash, a two-digit month, a dash, a two-digit day; `RemoveDashesOfIsoDate` and `DayStart` state its properties |
| DateToken.DayStart | src/App.js:100-104 | an eight-digit token gives an all-day start with a four-digit year and two-digit month and day, whose stored `YYYY-MM-DD` text is made of the token's digit groups |
| DateToken.AllDayToken | src/App.js:98-104 | an eight-digit token assigns that all-day start with `allDay` true, and deleting the dashes from the stored text gives back the token |
| DateToken.RemoveDashesOfIsoDate | src/App.js:102 | deleting the dashes from `YYYY-MM-DD` gives `YYYYMMDD` |
| DateToken.TimedStart | src/App.js:106-112 | a `YYYYMMDDTHHMMSS` token gives a timed start whose year fits four digits and whose month, day, hour, minute and second fit two |
| DateToken.CompactTextOfTimedStart | src/App.js:108-111 | written back in compact form, a timed start is the first fifteen characters of its token: the digit groups are taken unchanged |
| DateToken.TimedToken | src/App.js:98-112 | a `YYYYMMDDTHHMMSS` token, with or without a trailing `Z`, assigns the same timed start with `allDay` false, and that start written back is the token (no offset applied) |
| DateToken.OtherTokenKeepsFlag | src/App.js:94-116 | a token of neither shape gives an opaque start, and `allDay` is whether the line contains `;VALUE=DATE` |
| DateToken.ParsedStartIsCoherent | src/App.js:100-116 | every assigned start has `allDay` true when all-day and false when timed, and a digit-shaped start has two-digit fields |
| DateToken.StampOrder | src/App.js:53-62 | comparing wall-clock stamps is comparing the date and time fields lexicographically, and equal stamps mean equal fields |
| Calendar.Empty | src/App.js:80 | the object `{}` that lines 80 and 86 create, with every field unset; `IcsParser.BlockEmission` states that every block starts from it |
| Calendar.StartKey | src/App.js:122 | `a.start - b.start` has a number exactly for timed starts; all-day, missing and opaque starts give `NaN` |
| Calendar.UpcomingKey | src/App.js:51-56 | for a coherent event, the date the filter and the sort compare is defined exactly when the start is all-day or timed |
| Calendar.UpcomingKeyOrder | src/App.js:51-62 | for coherent events with all-day or timed starts, one date is earlier than another exactly when its year, month, day, hour, minute and second come first lexicographically, and the dates are equal exactly when all six fields are |
| Calendar.Midnight | src/App.js:48-49 | the definition of `today` at midnight as a date; `Pipeline.UpcomingIffNotBeforeToday` states what comparing against it means |
| Sorting.After | src/App.js:122 | the definition of a comparator result above 0 for `ka - kb`, used at lines 62 and 122: both keys are numbers and the first is larger, and a `NaN` key never compares above 0 |
| Sorting.SortSpec | src/App.js:59-63 | the definition of the order `sort` leaves, at lines 59-63 and 122, as a stable insertion sort; `SortPermutes`, `SortOrdered` and `SortStable` state its properties |
| Sorting.SortPermutes | src/App.js:122 | the sort returns the input's elements, each as often as the input has it, whatever the keys |
| Sorting.SortOrdered | src/App.js:59-63 | with every key defined, the sorted result ascends by key |
| Sorting.SortStable | src/App.js:59-63 | with every key defined, elements with equal keys keep their input order |
| Sorting.InsertPermutes | src/App.js:59-63 | inserting one element adds exactly that element |
| Sorting.InsertOrdered | src/App.js:59-63 | inserting an element with a key into an ordered sequence keeps it ordered |
| Sorting.InsertStable | src/App.js:59-63 | an inserted element goes behind every element with the same key |
| Sorting.SortInPlace | src/App.js:59-63 | the in-place sort leaves the array holding the sort specification of its old contents |
| Sorting.InsertInPlace | src/App.js:59-63 | one pass moves `a[i]` into the sorted prefix as the specification inserts it, and leaves the rest alone |
| IcsParser.IsBegin | src/App.js:85 | the definition of the `BEGIN:VEVENT` test; `LineKindsDisjoint` relates it to the others |
| IcsParser.IsEnd | src/App.js:87 | the definition of the `END:VEVENT` test; `LineKindsDisjoint` relates it to the others |
| IcsParser.IsSummary | src/App.js:91 | the definition of the `SUMMARY:` test; `LineKindsDisjoint` relates it to the others |
| IcsParser.IsDtstart | src/App.js:93 | the definition of the `DTSTART` test; `LineKindsDisjoint` relates it to the others |
| IcsParser.IsDescription | src/App.js:117 | the definition of the `DESCRIPTION:` test; `LineKindsDisjoint` relates it to the others |
| IcsParser.LineKindsDisjoint | src/App.js:85-118 | an `END:VEVENT` line is not a `BEGIN:VEVENT` line, a `SUMMARY:` line starts with none of the other tested prefixes, and a DTSTART line is not a `DESCRIPTION:` line |
| IcsParser.Apply | src/App.js:91-119 | the definition of what a property line does to an event: `SUMMARY:` sets the summary, an assigning DTSTART line sets `start` and `allDay`, `DESCRIPTION:` sets the description, any other line changes nothing; its properties are the `Apply…` and `Last…Wins` rows |
| IcsParser.Step | src/App.js:82-120 | one iteration keeps the heap description well-formed |
| IcsParser.Scan | src/App.js:80-120 | the heap after the loop over a sequence of lines is well-formed: `currentEvent` and every pushed index name an object the loop created |
| IcsParser.Emitted | src/App.js:77-120 | the definition of the `events` array after the loop, as the values of the pushed objects in push order; `BlockEmission` and the rows after it state what a block adds |
| IcsParser.ParseSpec | src/App.js:77-123 | the definition of `parseICalData`'s result: the emitted events sorted by `a.start - b.start`; `ParseIsPermutation`, `TimedParseIsSorted` and `ParsedEventsCoherent` state its properties |
| IcsParser.Event.constructor | src/App.js:80 | `{}` is an event with every field unset |
| IcsParser.ApplyLine | src/App.js:91-119 | the property branches change `currentEvent` as the specification `Apply` says |
| IcsParser.HandleLine | src/App.js:83-119 | one iteration of the loop on the objects carries the heap the specification `Step` describes; `currentEvent` is the old object or a fresh one |
| IcsParser.ParseICalData | src/App.js:77-123 | the method returns the values of the pushed objects in the order the specification's sort gives |
| IcsParser.Snapshot | src/App.js:122 | the array handed to the sort holds the values of the pushed objects, in push order |
| IcsParser.ScanPropertyLines | src/App.js:91-119 | lines that neither open nor close a block change only the current object, applying to it in order |
| IcsParser.BlockEmission | src/App.js:85-92 | a block of `BEGIN:VEVENT`, property lines and `END:VEVENT` adds the event its own lines build on a cleared accumulator (nothing leaks from earlier blocks), exactly when its summary is non-empty, and keeps the events before it |
| IcsParser.EmittedAfterBlock | src/App.js:87-90 | a block that pushes its new object at most once adds that object to the output or nothing |
| IcsParser.SummaryLessScan | src/App.js:85-92 | after `BEGIN:VEVENT` and lines without summary text, the current object is the new one, its summary is empty and nothing was pushed |
| IcsParser.SummaryLessBlockIsDropped | src/App.js:87-92 | a block with no `SUMMARY:` line, or only empty ones, adds nothing to the output and leaves earlier events unchanged |
| IcsParser.LastSummaryWins | src/App.js:91-92 | within a block the last `SUMMARY:` line sets the summary |
| IcsParser.LastDescriptionWins | src/App.js:117-118 | within a block the last `DESCRIPTION:` line sets the description |
| IcsParser.ApplySetsStart | src/App.js:93-116 | a DTSTART line that assigns sets `start` and `allDay` to what it parsed |
| IcsParser.ApplyKeepsStart | src/App.js:91-119 | any other line leaves `start` and `allDay` alone |
| IcsParser.FillKeepsStartAcross | src/App.js:91-119 | lines that assign no start leave `start` and `allDay` as they are |
| IcsParser.LastStartWins | src/App.js:93-116 | within a block the last DTSTART line that assigns anything sets `start` and `allDay` |
| IcsParser.EmptyDtstartKeepsStart | src/App.js:95-97 | a DTSTART line with nothing after the first colon leaves `start` and `allDay` unchanged |
| IcsParser.ApplyCoherent | src/App.js:91-119 | every line keeps an event's `allDay` in step with its `start` |
| IcsParser.ScanCoherent | src/App.js:82-120 | every object the loop creates stays coherent |
| IcsParser.ParsedEventsCoherent | src/App.js:77-123 | every returned event has `allDay` set exactly when `start` is, true for an all-day start and false for a timed one |
| IcsParser.ParseIsPermutation | src/App.js:122 | `parseICalData` returns the pushed objects, each as often as it was pushed, only reordered |
| IcsParser.TimedParseIsSorted | src/App.js:122 | when every pushed event is timed, the result ascends by start and events with equal starts keep push order |
| IcsParser.ScanOneBlock | src/App.js:85-92 | a one-block feed creates one object and pushes it once |
| IcsParser.SummaryAfterEndRenamesPushedEvent | src/App.js:85-92 | a `SUMMARY:` line after `END:VEVENT` renames the event already pushed, even to an empty summary |
| IcsParser.RepeatedEndPushesTwice | src/App.js:87-90 | a second `END:VEVENT` pushes the same event again |
| Activity.ActivityTypes | src/App.js:18 | the list `['Launch', 'Unstake', 'Sell']`; `KeywordsAreLoweredNames` states that its lower-cased names are the keywords `getActivityType` tests |
| Activity.GetActivityType | src/App.js:125-131 | the definition: the first of "launch", "unstake" and "sell" that the lower-cased summary contains decides the type, otherwise Other; `TrackedIffKeyword`, `FirstKeywordWins` and `ClassIgnoresCase` state its properties |
| Activity.KeywordsAreLoweredNames | src/App.js:18 | each keyword `getActivityType` tests is the lower-cased name of a type in `ACTIVITY_TYPES`, and the type returned is named by it |
| Activity.TrackedIffKeyword | src/App.js:125-131 | a summary is classed as a tracked type exactly when its lower-cased text contains the lower-cased name of one of `ACTIVITY_TYPES` |
| Activity.FirstKeywordWins | src/App.js:125-131 | a tracked summary is classed by the first type in `ACTIVITY_TYPES` whose keyword it contains, so "launch" beats "unstake", which beats "sell" |
| Activity.ClassIgnoresCase | src/App.js:126 | a summary, its upper-case form and its lower-case form get the same class |
| Pipeline.Filter | src/App.js:42-57 | `filter` keeps exactly the elements that satisfy the predicate, and no more elements than it had |
| Pipeline.FilterCount | src/App.js:42-57 | `filter` keeps every satisfying element as often as it occurs, and drops the rest |
| Pipeline.FilterOrdered | src/App.js:167-170 | a list ordered by a key stays ordered by that key after `filter` |
| Pipeline.FilterAll | src/App.js:167-170 | filtering with a predicate every element satisfies changes nothing |
| Pipeline.KeywordMatch | src/App.js:42-46 | the definition of the keyword filter's test: a truthy summary that contains, ignoring case, the name of one of `ACTIVITY_TYPES`; `KeywordMatchIffTracked` ties it to `getActivityType` |
| Pipeline.KeywordMatchIffTracked | src/App.js:42-46 | the keyword filter keeps exactly the events that `getActivityType` does not class as Other |
| Pipeline.IsUpcoming | src/App.js:50-57 | the definition of the "today or later" test: the event's date is valid and not before today at midnight; `UpcomingIffNotBeforeToday` states it field by field |
| Pipeline.UpcomingIffNotBeforeToday | src/App.js:48-57 | an event with an all-day or timed start passes the "today or later" filter exactly when its year, month, day and time do not come before today's date at 00:00:00 |
| Pipeline.Kept | src/App.js:42-57 | the definition of what the two filters leave: the keyword filter, then the "today or later" filter; `UpcomingIsPermutation` and `UpcomingAreTrackedAndDue` state its properties |
| Pipeline.Stored | src/App.js:59-63 | the definition of what `setEvents` receives: the events that pass both filters, sorted by date; the `Upcoming…` rows state its properties |
| Pipeline.FetchCalendarEvents | src/App.js:36-63 | the method stores the parsed events that pass both filters, sorted in place by date |
| Pipeline.UpcomingIsPermutation | src/App.js:42-63 | the stored events are the parsed events that pass both filters, each exactly as often as parsed |
| Pipeline.UpcomingAreTrackedAndDue | src/App.js:42-57 | every stored event is a tracked type and is dated on or after today at midnight |
| Pipeline.UpcomingAscend | src/App.js:59-63 | every stored event has a date, and the dates ascend |
| Pipeline.UpcomingStable | src/App.js:59-63 | stored events with the same date keep the order the filters left them in |
| Pipeline.OrderedValuesAscend | src/App.js:59-63 | with every key defined, an ordered list has ascending key values |
| Pipeline.SortedDatesAscend | src/App.js:59-63 | sorting a list whose dates are all defined gives ascending dates |
| Pipeline.OfType | src/App.js:224-232 | the definition of the count predicate `getActivityType(e.summary) === t`; `CountType`, `CountsAddUp` and `StatsAddUp` state its properties |
| Pipeline.CountType | src/App.js:224-232 | a per-type count is at most the number of events, and is zero exactly when no event is classed as that type |
| Pipeline.CountsAddUp | src/App.js:224-232 | when no event is classed as Other, the Launch, Unstake and Sell counts add up to the number of events |
| Pipeline.StatsAddUp | src/App.js:220-232 | over the stored events, the three per-type counts add up to "Total Activities" |
| Pipeline.SearchTerm | src/App.js:12 | the search term, the empty string, which nothing ever changes; `EmptySearchKeepsAll` and `WidgetWithoutSearch` state what it means for the widget |
| Pipeline.MatchesSearch | src/App.js:167-170 | the definition of the search test: the lower-cased summary contains the lower-cased term, or the event has a start whose formatted date contains it |
| Pipeline.SearchFilter | src/App.js:167-170 | the search filter keeps exactly the events that match the term, and no more events than it had |
| Pipeline.EmptySearchKeepsAll | src/App.js:12 | with the constant empty search term, the search filter keeps the list as it is |
| Pipeline.NextEvents | src/App.js:173 | `slice(0, 5)` is the prefix of the first five events, or all of them when there are fewer |
| Pipeline.SearchKeepsOrder | src/App.js:167-170 | the search filter keeps a dated, ascending list dated and ascending |
| Pipeline.WidgetShowsEarliest | src/App.js:167-173 | on a date-ordered list, the widget shows only events that match the search, in date order, and none of the matches it leaves out is dated before one it shows |
| Pipeline.WidgetWithoutSearch | src/App.js:167-173 | with the constant empty search term, the widget shows the first five stored events |

## Left out

- React state, hooks and rendering (src/App.js:7-12, 73-75, 178 onwards): user interface, not logic.
- The axios download, the proxy URL, the loading and error state and the `try`/`catch` (src/App.js:20-40, 64-70): I/O. `FetchCalendarEvents` takes the downloaded text as a parameter.
- `console.log` and `console.error` calls: side effects with no effect on the results.
- `oneMonthFromNow` (src/App.js:27-28): it is computed but never used.
- `new Date()` and `setHours(0,0,0,0)` (src/App.js:48-49): today's date is the parameter `today`, and its midnight is the stamp `Midnight(today)`.
- `formatDate` (src/App.js:142-164): locale formatting by the engine. It is an uninterpreted parameter of the search filter.
- `getActivityColor` (src/App.js:133-140): a styling table.
- The calendar highlighting and day selection with `toISOString` (src/App.js:176 and the JSX after it): UTC conversion that depends on the time zone.
- The generic `new Date(token)` fallback (src/App.js:114): its parse is implementation-defined. Its result is the opaque start `Opaque(token)`, taken to be an invalid date that compares as `NaN`.
- Calendar.StartKey: dates are compared as the wall-clock number `YYYYMMDDHHMMSS`. Time zones, daylight-saving gaps and milliseconds are not modelled, and digit groups are not checked against the calendar, so a month of 13 or a day of 32 still gets a key where the engine would make the date invalid or roll it over.
- Calendar.UpcomingKey: digit groups are not checked against the calendar, so a month of 13 or a day of 32 still gets a key. The engine would make that date invalid or roll it over.
- Calendar.UpcomingKey: an all-day start whose `allDay` is not true, or a timed start whose `allDay` is true, gets no key. Neither can come out of the parser (`IcsParser.ParsedEventsCoherent`).
- Strings.Lower: only ASCII letters change case. `toLowerCase` also maps other Unicode letters.
- Strings.JoinSplitLines: the round trip is stated only for text without carriage returns, because `split(/\r?\n/)` drops the carriage return before each line feed. Text with `\r\n` separators is covered from the other side by `Strings.SplitJoinCRLF`.
- Sorting.SortInPlace: the engine's sort algorithm is unspecified. It is modelled as a stable insertion sort. When every key is defined, its result is the unique stable ascending order, which any stable engine sort returns. When some key is `NaN`, only the permutation is proved, matching what the line-122 comparator guarantees.
- IcsParser.ParseICalData: the pushed objects are copied to values (`Snapshot`) before the sort. The source sorts the references, but nothing writes to the objects after the loop, so the result is the same.
- Line 106 (`/^\d{8}T\d{6}$/`) is covered by line 110 (`/^\d{8}T\d{6}/`): both branches build the same start, so `DateToken.HasDateTimePrefix` stands for both.
- An unset summary and an empty summary are both the empty string. Both are falsy, and they never behave differently: line 44 calls `toLowerCase` only behind an `event.summary &&` guard, and lines 168 and 126 (the latter reached from lines 224-232) only see stored events, which have a non-empty summary.
- Line folding (RFC 5545 section 3.1) and parameters such as `TZID` are not interpreted, because the source does not interpret them either.
