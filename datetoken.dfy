/** The DTSTART value parser of `parseICalData` (src/App.js:93-116): the text after the first
    colon, a trailing `Z` dropped without any conversion, and three token shapes — eight digits
    (an all-day DATE value, RFC 5545 section 3.3.4), eight digits, `T` and six digits (a DATE-TIME
    value, section 3.3.5, read as naive wall-clock time), and anything else, which goes to the
    engine's generic `new Date` parser and is kept here as an opaque value. */
module DateToken {
  import opened Wrappers
  import opened Strings

  /** The `start` field of an event. `DateOnly` is the `"YYYY-MM-DD"` string the source stores
      (kept as its three numbers; `IsoDate` gives the string back), `DateTime` the `Date` built from
      the digit groups, `Opaque` the result of `new Date(token)`, which this model does not interpret. */
  datatype Start =
    | DateOnly(year: nat, month: nat, day: nat)
    | DateTime(year: nat, month: nat, day: nat, hour: nat, minute: nat, second: nat)
    | Opaque(text: string)

  /** What one DTSTART line assigns: `currentEvent.start` and `currentEvent.allDay`. */
  datatype DtStart = DtStart(start: Start, allDay: bool)

  // ---------------------------------------------------------------------------------------
  // Decimal digit groups (`substr` of a digit token, read as a number)

  function DigitValue(c: char): nat
    requires IsDigit(c)
  {
    c as int - '0' as int
  }

  function DigitChar(n: nat): char
    requires n < 10
  {
    ('0' as int + n) as char
  }

  function Pow10(n: nat): nat {
    if n == 0 then 1 else 10 * Pow10(n - 1)
  }

  /** The value of a string of decimal digits. */
  function Number(ds: string): nat
    requires AllDigits(ds)
  {
    if ds == [] then 0 else Number(ds[..|ds| - 1]) * 10 + DigitValue(ds[|ds| - 1])
  }

  /** `n` written with exactly `width` digits, zero-padded on the left (higher digits dropped). */
  function Digits(n: nat, width: nat): (r: string)
    ensures |r| == width && AllDigits(r)
  {
    if width == 0 then [] else Digits(n / 10, width - 1) + [DigitChar(n % 10)]
  }

  /** A group of `k` digits denotes a number below 10^k; two-digit groups are below 100. */
  lemma {:induction false} NumberBound(ds: string)
    requires AllDigits(ds)
    ensures Number(ds) < Pow10(|ds|)
  {
    if ds != [] {
      NumberBound(ds[..|ds| - 1]);
    }
  }

  /** Writing the value of a digit group back with the group's width gives the group back. */
  lemma {:induction false} DigitsOfNumber(ds: string)
    requires AllDigits(ds)
    ensures Digits(Number(ds), |ds|) == ds
  {
    if ds != [] {
      var p := ds[..|ds| - 1];
      DigitsOfNumber(p);
      var n := Number(ds);
      assert n / 10 == Number(p) && n % 10 == DigitValue(ds[|ds| - 1]);
      assert ds == p + [ds[|ds| - 1]];
    }
  }

  /** And reading a number written with enough digits gives the number back. */
  lemma {:induction false} NumberOfDigits(n: nat, width: nat)
    requires n < Pow10(width)
    ensures Number(Digits(n, width)) == n
  {
    if width > 0 {
      NumberOfDigits(n / 10, width - 1);
      var r := Digits(n, width);
      assert r[..|r| - 1] == Digits(n / 10, width - 1);
    }
  }

  // ---------------------------------------------------------------------------------------
  // The texts the source builds from a token

  /** The all-day value the source stores: `YYYY-MM-DD`. */
  function IsoDate(year: nat, month: nat, day: nat): string {
    Digits(year, 4) + "-" + Digits(month, 2) + "-" + Digits(day, 2)
  }

  function RemoveDashes(s: string): string {
    if s == [] then []
    else (if s[0] == '-' then [] else [s[0]]) + RemoveDashes(s[1..])
  }

  lemma {:induction false} RemoveDashesAppend(a: string, b: string)
    ensures RemoveDashes(a + b) == RemoveDashes(a) + RemoveDashes(b)
  {
    if a == [] {
      assert a + b == b;
    } else {
      var head := if a[0] == '-' then [] else [a[0]];
      RemoveDashesAppend(a[1..], b);
      var ab := a + b;
      assert ab[0] == a[0] && ab[1..] == a[1..] + b;
      assert RemoveDashes(ab) == head + RemoveDashes(a[1..] + b);
      assert RemoveDashes(a) == head + RemoveDashes(a[1..]);
    }
  }

  lemma {:induction false} RemoveDashesOfDigits(ds: string)
    requires AllDigits(ds)
    ensures RemoveDashes(ds) == ds
  {
    if ds != [] {
      RemoveDashesOfDigits(ds[1..]);
    }
  }

  /** A timed value written back in the compact form of the token, `YYYYMMDDTHHMMSS`. */
  function CompactText(s: Start): string
    requires s.DateTime?
  {
    (Digits(s.year, 4) + Digits(s.month, 2) + Digits(s.day, 2)) + "T" +
    (Digits(s.hour, 2) + Digits(s.minute, 2) + Digits(s.second, 2))
  }

  // ---------------------------------------------------------------------------------------
  // Taking a DTSTART line apart

  /** `line.split(':')[1]`: the text between the first and the second colon (or the end);
      `None` (JavaScript `undefined`) when the line has no colon. */
  function FieldAfterColon(line: string): (r: Option<string>)
    ensures r.None? <==> ':' !in line
    ensures r.Some? ==> ':' !in r.value
  {
    var k := IndexOf(line, ':');
    if k == |line| then None
    else
      var rest := line[k + 1..];
      Some(rest[..IndexOf(rest, ':')])
  }

  /** `FieldAfterColon` undoes building a line from a colon-free name, a colon, a colon-free value
      and anything that starts with a further colon. */
  lemma FieldAfterColonOf(name: string, value: string, rest: string)
    requires ':' !in name && ':' !in value
    requires rest == [] || rest[0] == ':'
    ensures FieldAfterColon(name + ":" + value + rest) == Some(value)
  {
    var line := name + ":" + value + rest;
    assert IndexOf(line, ':') == |name| by {
      assert line[|name|] == ':';
      assert forall i :: 0 <= i < |name| ==> line[i] == name[i];
    }
    var tail := line[|name| + 1..];
    assert tail == value + rest;
    assert IndexOf(tail, ':') == |value| by {
      if rest != [] {
        assert tail[|value|] == ':';
      }
      assert forall i :: 0 <= i < |value| ==> tail[i] == value[i];
    }
  }

  /** `replace(/Z$/, '')`: one `Z` at the very end removed, and nothing converted. */
  function StripZ(s: string): (r: string)
    ensures |s| > 0 && s[|s| - 1] == 'Z' ==> s == r + "Z"
    ensures !(|s| > 0 && s[|s| - 1] == 'Z') ==> r == s
  {
    if |s| > 0 && s[|s| - 1] == 'Z' then s[..|s| - 1] else s
  }

  /** `/^\d{8}$/` */
  predicate IsDateToken(t: string) {
    |t| == 8 && AllDigits(t)
  }

  /** `/^\d{8}T\d{6}/`, which also covers the exact `/^\d{8}T\d{6}$/` of src/App.js:106. */
  predicate HasDateTimePrefix(t: string) {
    |t| >= 15 && AllDigits(t[..8]) && t[8] == 'T' && AllDigits(t[9..15])
  }

  /** The all-day value the source stores, `YYYY-MM-DD`, made of the token's digit groups. */
  function DayStart(token: string): (s: Start)
    requires IsDateToken(token)
    ensures s.DateOnly? && s.year < 10000 && s.month < 100 && s.day < 100
    ensures IsoDate(s.year, s.month, s.day) == token[..4] + "-" + token[4..6] + "-" + token[6..8]
  {
    DateGroups(token);
    DateOnly(Number(token[..4]), Number(token[4..6]), Number(token[6..8]))
  }

  /** The `Date` the source builds from `YYYY-MM-DDTHH:MM:SS`, made of the token's digit groups. */
  function TimedStart(token: string): (s: Start)
    requires HasDateTimePrefix(token)
    ensures s.DateTime? && s.year < 10000 && s.month < 100 && s.day < 100
    ensures s.hour < 100 && s.minute < 100 && s.second < 100
  {
    var date, time := token[..8], token[9..15];
    DateGroups(date);
    ClockGroups(time);
    DateTime(Number(date[..4]), Number(date[4..6]), Number(date[6..8]),
             Number(time[..2]), Number(time[2..4]), Number(time[4..6]))
  }

  /** The groups `YYYY`, `MM` and `DD` of eight digits fit four, two and two digits, and are
      written back as they stand. */
  lemma DateGroups(date: string)
    requires |date| == 8 && AllDigits(date)
    ensures Number(date[..4]) < 10000 && Number(date[4..6]) < 100 && Number(date[6..8]) < 100
    ensures Digits(Number(date[..4]), 4) == date[..4]
    ensures Digits(Number(date[4..6]), 2) == date[4..6] && Digits(Number(date[6..8]), 2) == date[6..8]
  {
    assert Pow10(2) == 100 && Pow10(4) == 10000;
    DigitGroup(date, 0, 4);
    assert date[0..4] == date[..4];
    DigitGroup(date, 4, 6);
    DigitGroup(date, 6, 8);
  }

  /** The groups `HH`, `MM` and `SS` of six digits fit two digits each. */
  lemma ClockGroups(time: string)
    requires |time| == 6 && AllDigits(time)
    ensures Number(time[..2]) < 100 && Number(time[2..4]) < 100 && Number(time[4..6]) < 100
  {
    TwoDigitGroup(time, 0);
    assert time[0..2] == time[..2];
    TwoDigitGroup(time, 2);
    TwoDigitGroup(time, 4);
  }

  /** Two digits read as a number stay below 100. */
  lemma TwoDigitGroup(t: string, i: nat)
    requires AllDigits(t) && i + 2 <= |t|
    ensures Number(t[i..i + 2]) < 100
  {
    DigitGroup(t, i, i + 2);
    assert Pow10(2) == 100;
  }

  /** Written back in the compact form, a timed start is the first fifteen characters of the
      token it was read from: the digit groups are taken as they stand, with no offset applied. */
  lemma CompactTextOfTimedStart(token: string)
    requires HasDateTimePrefix(token)
    ensures CompactText(TimedStart(token)) == token[..15]
  {
    var date, time := token[..8], token[9..15];
    EightDigits(date);
    SixDigits(time);
    assert token[..15] == date + "T" + time;
  }

  lemma EightDigits(date: string)
    requires |date| == 8 && AllDigits(date)
    ensures Digits(Number(date[..4]), 4) + Digits(Number(date[4..6]), 2) + Digits(Number(date[6..8]), 2) == date
  {
    ThreeGroups(date, 4, 6, 8);
  }

  lemma SixDigits(time: string)
    requires |time| == 6 && AllDigits(time)
    ensures Digits(Number(time[..2]), 2) + Digits(Number(time[2..4]), 2) + Digits(Number(time[4..6]), 2) == time
  {
    ThreeGroups(time, 2, 4, 6);
  }

  /** A digit string cut in three is its three groups written back with their widths. */
  lemma ThreeGroups(t: string, i: nat, j: nat, n: nat)
    requires AllDigits(t) && i <= j <= n == |t|
    ensures Digits(Number(t[..i]), i) + Digits(Number(t[i..j]), j - i) + Digits(Number(t[j..n]), n - j) == t
  {
    var a, b, c := t[..i], t[i..j], t[j..n];
    assert t == a + b + c;
    DigitSlice(t, 0, i);
    assert t[0..i] == a;
    DigitSlice(t, i, j);
    DigitSlice(t, j, n);
    DigitsOfNumber(a);
    DigitsOfNumber(b);
    DigitsOfNumber(c);
  }

  /** A slice of a digit string is a digit string. */
  lemma DigitSlice(t: string, i: nat, j: nat)
    requires AllDigits(t) && i <= j <= |t|
    ensures AllDigits(t[i..j])
  {
    forall k | 0 <= k < j - i ensures IsDigit(t[i..j][k]) {
      assert t[i..j][k] == t[i + k];
    }
  }

  /** A slice of a digit string is a digit group: written back with its width it is itself,
      and its value fits that width. */
  lemma DigitGroup(t: string, i: nat, j: nat)
    requires AllDigits(t) && i <= j <= |t|
    ensures AllDigits(t[i..j])
    ensures Digits(Number(t[i..j]), j - i) == t[i..j]
    ensures Number(t[i..j]) < Pow10(j - i)
  {
    assert forall k :: 0 <= k < j - i ==> t[i..j][k] == t[i + k];
    DigitsOfNumber(t[i..j]);
    NumberBound(t[i..j]);
  }

  /** The three-way classification of a stripped, trimmed, non-empty token. */
  function Classify(token: string, isAllDay: bool): DtStart {
    if IsDateToken(token) then
      DtStart(DayStart(token), true)
    else if HasDateTimePrefix(token) then
      DtStart(TimedStart(token), false)
    else
      DtStart(Opaque(token), isAllDay)
  }

  /** The token of a DTSTART line, as the source tests it: after the first colon, one
      trailing `Z` stripped, then trimmed. */
  function Token(raw: string): (t: string)
    ensures t != [] ==> !IsSpace(t[0]) && !IsSpace(t[|t| - 1])
  {
    Trim(StripZ(raw))
  }

  /** What a line starting with `DTSTART` assigns, or `None` when the source `continue`s
      because `split(':')[1]` is missing or empty. */
  function ParseDtstart(line: string): Option<DtStart> {
    match FieldAfterColon(line)
    case None => None
    case Some(raw) =>
      if raw == "" then None
      else Some(Classify(Token(raw), Contains(line, ";VALUE=DATE")))
  }

  // ---------------------------------------------------------------------------------------
  // Properties of the DTSTART parser

  /** A missing or empty value assigns nothing. */
  lemma EmptyValueIsSkipped(line: string)
    requires FieldAfterColon(line) == None || FieldAfterColon(line) == Some("")
    ensures ParseDtstart(line) == None
  {
  }

  /** Any other value assigns a start. */
  lemma NonEmptyValueAssigns(line: string)
    requires FieldAfterColon(line).Some? && FieldAfterColon(line).value != ""
    ensures ParseDtstart(line).Some?
  {
  }

  lemma {:induction false} RemoveDashesAround(x: string, y: string)
    ensures RemoveDashes(x + "-" + y) == RemoveDashes(x) + RemoveDashes(y)
  {
    RemoveDashesAppend(x + "-", y);
    RemoveDashesAppend(x, "-");
    assert RemoveDashes("-") == [];
  }

  /** Deleting the dashes from `YYYY-MM-DD` gives `YYYYMMDD`. */
  lemma RemoveDashesOfIsoDate(y: string, m: string, d: string)
    requires AllDigits(y) && AllDigits(m) && AllDigits(d)
    ensures RemoveDashes(y + "-" + m + "-" + d) == y + m + d
  {
    RemoveDashesAround(y + "-" + m, d);
    RemoveDashesAround(y, m);
    RemoveDashesOfDigits(y);
    RemoveDashesOfDigits(m);
    RemoveDashesOfDigits(d);
  }

  /** An eight-digit token gives an all-day start whose stored text is `YYYY-MM-DD` made of the
      token's digit groups, and from which deleting the dashes gives back the token. */
  lemma AllDayToken(line: string, raw: string)
    requires FieldAfterColon(line) == Some(raw)
    requires IsDateToken(Token(raw))
    ensures ParseDtstart(line) == Some(DtStart(DayStart(Token(raw)), true))
    ensures var s := ParseDtstart(line).value.start;
      RemoveDashes(IsoDate(s.year, s.month, s.day)) == Token(raw)
  {
    AllDayTokenParses(line, raw);
    DashesOfDayStart(Token(raw));
  }

  lemma AllDayTokenParses(line: string, raw: string)
    requires FieldAfterColon(line) == Some(raw)
    requires IsDateToken(Token(raw))
    ensures ParseDtstart(line) == Some(DtStart(DayStart(Token(raw)), true))
  {
    assert raw != "";
  }

  lemma DashesOfDayStart(t: string)
    requires IsDateToken(t)
    ensures var s := DayStart(t); RemoveDashes(IsoDate(s.year, s.month, s.day)) == t
  {
    var y, m, d := t[..4], t[4..6], t[6..8];
    assert AllDigits(y) && AllDigits(m) && AllDigits(d);
    RemoveDashesOfIsoDate(y, m, d);
    assert y + m + d == t;
  }

  /** The characters of a `YYYYMMDDTHHMMSS` token are digits and `T`: no colon, no white space. */
  lemma TimedTokenCharacters(token: string)
    requires |token| == 15 && HasDateTimePrefix(token)
    ensures forall i :: 0 <= i < |token| ==> token[i] != ':' && !IsSpace(token[i])
  {
    forall i | 0 <= i < |token| ensures token[i] != ':' && !IsSpace(token[i]) {
      if i < 8 {
        assert token[i] == token[..8][i];
      } else if i > 8 {
        assert token[i] == token[9..15][i - 9];
      }
    }
  }

  /** The value of `name:` followed by such a token, with or without `Z`, reads back as the token. */
  lemma TimedTokenValue(name: string, token: string, z: string)
    requires ':' !in name
    requires |token| == 15 && HasDateTimePrefix(token)
    requires z == "" || z == "Z"
    ensures FieldAfterColon(name + ":" + token + z) == Some(token + z)
    ensures Token(token + z) == token
  {
    var raw := token + z;
    TimedTokenCharacters(token);
    assert ':' !in raw by {
      forall i | 0 <= i < |raw| ensures raw[i] != ':' {
        if i < |token| {
          assert raw[i] == token[i];
        }
      }
    }
    FieldAfterColonOf(name, raw, "");
    assert name + ":" + raw + "" == name + ":" + token + z;
    if z == "" {
      assert token[14] == token[9..15][5];
      assert raw == token;
    } else {
      assert raw[..|raw| - 1] == token;
    }
    assert StripZ(raw) == token;
    TrimNoSpace(token);
  }

  /** A `YYYYMMDDTHHMMSS` token, written with or without the trailing `Z`, gives the same timed
      start, `allDay` false, with no offset applied: writing the start back in compact form gives
      the token. */
  lemma TimedToken(name: string, token: string, z: string)
    requires ':' !in name
    requires |token| == 15 && HasDateTimePrefix(token)
    requires z == "" || z == "Z"
    ensures ParseDtstart(name + ":" + token + z) == Some(DtStart(TimedStart(token), false))
    ensures CompactText(TimedStart(token)) == token
  {
    TimedTokenParses(name, token, z);
    TimedStartIsToken(token);
  }

  lemma TimedTokenParses(name: string, token: string, z: string)
    requires ':' !in name
    requires |token| == 15 && HasDateTimePrefix(token)
    requires z == "" || z == "Z"
    ensures ParseDtstart(name + ":" + token + z) == Some(DtStart(TimedStart(token), false))
  {
    TimedTokenValue(name, token, z);
    assert !IsDateToken(token);
  }

  lemma TimedStartIsToken(token: string)
    requires |token| == 15 && HasDateTimePrefix(token)
    ensures CompactText(TimedStart(token)) == token
  {
    CompactTextOfTimedStart(token);
    assert token[..15] == token;
  }

  /** A token of neither shape keeps the `;VALUE=DATE` flag of the line as `allDay`. */
  lemma OtherTokenKeepsFlag(line: string, raw: string)
    requires FieldAfterColon(line) == Some(raw) && raw != ""
    requires !IsDateToken(Token(raw)) && !HasDateTimePrefix(Token(raw))
    ensures ParseDtstart(line) == Some(DtStart(Opaque(Token(raw)), Contains(line, ";VALUE=DATE")))
  {
  }

  // ---------------------------------------------------------------------------------------
  // Wall-clock comparison keys

  /** Fields read most significant first, folded into one number, two decimal places per field
      after the first: `[y, mo, d, h, mi, s]` becomes `YYYYMMDDHHMMSS`. */
  function Stamp(fields: seq<nat>): nat {
    if fields == [] then 0 else Stamp(fields[..|fields| - 1]) * 100 + fields[|fields| - 1]
  }

  /** Lexicographic order on equally long field lists: an earlier field decides first. */
  predicate LexLess(a: seq<nat>, b: seq<nat>)
    requires |a| == |b|
  {
    |a| > 0 &&
    (LexLess(a[..|a| - 1], b[..|b| - 1]) || (a[..|a| - 1] == b[..|b| - 1] && a[|a| - 1] < b[|b| - 1]))
  }

  /** Every field after the first fits in two decimal digits. */
  predicate TwoDigitFields(a: seq<nat>) {
    forall i :: 1 <= i < |a| ==> a[i] < 100
  }

  /** Comparing stamps is comparing field lists lexicographically, and equal stamps mean equal fields. */
  lemma {:induction false} StampOrder(a: seq<nat>, b: seq<nat>)
    requires |a| == |b| && TwoDigitFields(a) && TwoDigitFields(b)
    ensures Stamp(a) < Stamp(b) <==> LexLess(a, b)
    ensures Stamp(a) == Stamp(b) <==> a == b
  {
    if |a| > 0 {
      var pa, pb := a[..|a| - 1], b[..|b| - 1];
      StampOrder(pa, pb);
      var la, lb := a[|a| - 1], b[|b| - 1];
      if |a| > 1 {
        assert la < 100 && lb < 100;
      } else {
        assert pa == [] && pb == [];
      }
      assert a == pa + [la] && b == pb + [lb];
    }
  }

  /** The wall-clock fields of an all-day or timed start (midnight for all-day). */
  function ClockFields(s: Start): (f: seq<nat>)
    requires !s.Opaque?
    ensures |f| == 6
  {
    match s
    case DateOnly(y, mo, d) => [y, mo, d, 0, 0, 0]
    case DateTime(y, mo, d, h, mi, sec) => [y, mo, d, h, mi, sec]
  }

  /** A start classified from the digit shapes has two-digit month, day, hour, minute and second. */
  lemma ClassifiedFieldsAreTwoDigit(token: string, isAllDay: bool)
    requires !Classify(token, isAllDay).start.Opaque?
    ensures TwoDigitFields(ClockFields(Classify(token, isAllDay).start))
  {
  }

  /** A DTSTART line that assigns a start sets `allDay` in step with it: true for an all-day
      start, false for a timed one; a digit-shaped start has two-digit fields. */
  lemma ParsedStartIsCoherent(line: string)
    requires ParseDtstart(line).Some?
    ensures var d := ParseDtstart(line).value;
      && (d.start.DateOnly? ==> d.allDay)
      && (d.start.DateTime? ==> !d.allDay)
      && (!d.start.Opaque? ==> TwoDigitFields(ClockFields(d.start)))
  {
    var token := Token(FieldAfterColon(line).value);
    var flag := Contains(line, ";VALUE=DATE");
    assert ParseDtstart(line).value == Classify(token, flag);
    ClassifiedIsCoherent(token, flag);
  }

  /** The classification sets the flag in step with the start it builds. */
  lemma ClassifiedIsCoherent(token: string, isAllDay: bool)
    ensures var d := Classify(token, isAllDay);
      && (d.start.DateOnly? ==> d.allDay)
      && (d.start.DateTime? ==> !d.allDay)
      && (!d.start.Opaque? ==> TwoDigitFields(ClockFields(d.start)))
  {
    if !Classify(token, isAllDay).start.Opaque? {
      ClassifiedFieldsAreTwoDigit(token, isAllDay);
    }
  }

}
