/** The event object `parseICalData` builds, and the two comparison keys the app sorts and
    filters by (src/App.js:51-56, 60-61 and 122). */
module Calendar {
  import opened Wrappers
  import opened DateToken

  /** One `currentEvent` object, as a value. `summary` is `""` both where the source has
      `undefined` and where it has an empty string: both are falsy, and an object that is ever
      pushed has a defined summary, so the two never behave differently. `start` and `allDay`
      are `None` until a DTSTART line sets them, `description` until a DESCRIPTION line does. */
  datatype CalendarEvent = CalendarEvent(
    summary: string,
    start: Option<Start>,
    allDay: Option<bool>,
    description: Option<string>)

  /** The fresh accumulator `{}`. */
  const Empty := CalendarEvent("", None, None, None)

  /** `allDay` agrees with the tag of `start`, as every DTSTART branch sets them together, and the
      fields of a digit-shaped start fit two digits. */
  predicate Coherent(e: CalendarEvent) {
    && (e.start.None? <==> e.allDay.None?)
    && (e.start.Some? && e.start.value.DateOnly? ==> e.allDay == Some(true))
    && (e.start.Some? && e.start.value.DateTime? ==> e.allDay == Some(false))
    && (e.start.Some? && !e.start.value.Opaque? ==> TwoDigitFields(ClockFields(e.start.value)))
  }

  /** The number `a.start - b.start` is taken from at src/App.js:122: a timed start is a `Date`;
      an all-day start is a string and a missing start `undefined`, which subtract to `NaN`; an
      opaque `new Date(token)` is taken to be an invalid date, also `NaN`. `None` stands for `NaN`. */
  function StartKey(e: CalendarEvent): (k: Option<int>)
    ensures k.Some? <==> e.start.Some? && e.start.value.DateTime?
  {
    match e.start
    case Some(DateTime(_, _, _, _, _, _)) => Some(Stamp(ClockFields(e.start.value)))
    case _ => None
  }

  /** The `Date` of an event at src/App.js:51-56 and 60-61: for `allDay` events the stored
      `YYYY-MM-DD` at local midnight, otherwise `new Date(event.start)`. Wall-clock time is compared
      as the number `YYYYMMDDHHMMSS`; `None` is an invalid date (`NaN`). */
  function UpcomingKey(e: CalendarEvent): (k: Option<int>)
    ensures Coherent(e) ==> (k.Some? <==> e.start.Some? && !e.start.value.Opaque?)
  {
    if e.allDay == Some(true) then
      match e.start
      case Some(DateOnly(_, _, _)) => Some(Stamp(ClockFields(e.start.value)))
      case _ => None
    else
      match e.start
      case Some(DateTime(_, _, _, _, _, _)) => Some(Stamp(ClockFields(e.start.value)))
      case _ => None
  }

  /** For events with an all-day or timed start, comparing `UpcomingKey`s is comparing the starts
      field by field, year first, then month, day, hour, minute and second; equal keys are equal
      wall-clock times. */
  lemma UpcomingKeyOrder(a: CalendarEvent, b: CalendarEvent)
    requires Coherent(a) && a.start.Some? && !a.start.value.Opaque?
    requires Coherent(b) && b.start.Some? && !b.start.value.Opaque?
    ensures UpcomingKey(a).Some? && UpcomingKey(b).Some?
    ensures UpcomingKey(a).value < UpcomingKey(b).value
        <==> LexLess(ClockFields(a.start.value), ClockFields(b.start.value))
    ensures UpcomingKey(a).value == UpcomingKey(b).value
        <==> ClockFields(a.start.value) == ClockFields(b.start.value)
  {
    StampOrder(ClockFields(a.start.value), ClockFields(b.start.value));
  }

  /** The calendar day the caller supplies as `today`. */
  datatype Day = Day(year: nat, month: nat, day: nat)

  /** `today` with `setHours(0,0,0,0)`, as a key. */
  function Midnight(d: Day): int {
    Stamp([d.year, d.month, d.day, 0, 0, 0])
  }

}
