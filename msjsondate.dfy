/**
 * The class methods of MSJSONDate: the `/Date(<ms>[±HHMM])/` literal used by
 * ASP.NET and WCF JSON serialisers, and the two-field DateTimeOffset object
 * `{ DateTime: "/Date(<ms>)/", OffsetMinutes: "<minutes>" }`.
 *
 * An instant is a signed count of milliseconds since 1970-01-01T00:00:00Z;
 * a time zone is a fixed offset from GMT in whole minutes, east positive.
 * A nil argument or a nil result is `None`.
 */
module MSJSONDate {
  import opened Wrappers
  import opened Decimal

  /** Milliseconds since the epoch; negative before 1970. */
  type Instant = int

  /** Offset from GMT in whole minutes. */
  type OffsetMinutes = int

  /** The ambient local time zone: its offset at each instant. */
  type LocalTimeZone = Instant -> OffsetMinutes

  const MillisecondsPerMinute: int := 60000

  /** Key of the parse result holding the instant in milliseconds since the epoch. */
  const MSJSONDateInMilliseconds: string := "MSJSONDateInMilliseconds"

  /** Key of the parse result holding the time zone offset in milliseconds from GMT. */
  const MSJSONTimeZoneOffsetInMilliseconds: string := "MSJSONTimeZoneOffsetInMilliseconds"

  /** Field names of the DateTimeOffset object. */
  const DateTimeKey: string := "DateTime"
  const OffsetMinutesKey: string := "OffsetMinutes"

  const LiteralOpen: string := "/Date("
  const LiteralClose: string := ")/"

  /** What parseString: finds: the instant and, when the literal has a suffix, the offset in milliseconds. */
  datatype ParsedDate = ParsedDate(dateInMilliseconds: Instant, timeZoneOffsetInMilliseconds: Option<int>)

  /** A DateTimeOffset object; a field that is absent is a key that is not in the map. */
  type OffsetObject = map<string, string>

  // ---------------------------------------------------------------------------
  // The literal grammar
  //   literal := "/Date(" ms [ suffix ] ")/"
  //   ms      := ["-"] 1*DIGIT
  //   suffix  := ("+" / "-") 4DIGIT          ; HHMM
  // ---------------------------------------------------------------------------

  predicate IsFramed(s: string) {
    |s| >= |LiteralOpen| + |LiteralClose| &&
    s[..|LiteralOpen|] == LiteralOpen && s[|s| - |LiteralClose|..] == LiteralClose
  }

  /** The text between `/Date(` and `)/`. */
  function Body(s: string): string
    requires IsFramed(s)
  {
    s[|LiteralOpen|..|s| - |LiteralClose|]
  }

  predicate IsOffsetSuffix(t: string) {
    |t| == 5 && (t[0] == '+' || t[0] == '-') &&
    IsDigit(t[1]) && IsDigit(t[2]) && IsDigit(t[3]) && IsDigit(t[4])
  }

  /** A body of the form `ms ±HHMM`. */
  predicate IsOffsetBody(m: string) {
    |m| >= 5 && IsIntLiteral(m[..|m| - 5]) && IsOffsetSuffix(m[|m| - 5..])
  }

  predicate IsLiteral(s: string) {
    IsFramed(s) && (IsIntLiteral(Body(s)) || IsOffsetBody(Body(s)))
  }

  predicate IsLiteralWithOffset(s: string) {
    IsFramed(s) && IsOffsetBody(Body(s))
  }

  /** The HHMM suffix read as hours and minutes: sign × (HH × 60 + MM). */
  function SuffixMinutes(t: string): (o: OffsetMinutes)
    requires IsOffsetSuffix(t)
    ensures t[0] == '-' ==> o <= 0
    ensures t[0] == '+' ==> o >= 0
    ensures -6039 <= o <= 6039
  {
    var hours := DigitValue(t[1]) * 10 + DigitValue(t[2]);
    var minutes := DigitValue(t[3]) * 10 + DigitValue(t[4]);
    if t[0] == '-' then -(hours * 60 + minutes) else hours * 60 + minutes
  }

  // ---------------------------------------------------------------------------
  // Literal parser
  // ---------------------------------------------------------------------------

  function ParseBody(m: string): (r: Option<ParsedDate>)
    ensures r.Some? <==> IsIntLiteral(m) || IsOffsetBody(m)
    ensures r.Some? ==> (r.value.timeZoneOffsetInMilliseconds.Some? <==> IsOffsetBody(m))
  {
    if IsOffsetBody(m) then
      var offset := SuffixMinutes(m[|m| - 5..]) * MillisecondsPerMinute;
      Some(ParsedDate(ParseInt(m[..|m| - 5]).value, Some(offset)))
    else
      match ParseInt(m)
      case None => None
      case Some(ms) => Some(ParsedDate(ms, None))
  }

  /** parseString: — None when the string is not a literal. */
  function ParseString(s: string): (r: Option<ParsedDate>)
    ensures r.Some? <==> IsLiteral(s)
    ensures r.Some? ==> (r.value.timeZoneOffsetInMilliseconds.Some? <==> IsLiteralWithOffset(s))
    ensures r.Some? && r.value.timeZoneOffsetInMilliseconds.Some? ==>
              r.value.timeZoneOffsetInMilliseconds.value % MillisecondsPerMinute == 0
  {
    if IsFramed(s) then ParseBody(Body(s)) else None
  }

  /** The NSDictionary that parseString: returns, keyed by the two key constants. */
  function Dictionary(p: ParsedDate): (d: map<string, int>)
    ensures MSJSONDateInMilliseconds in d && d[MSJSONDateInMilliseconds] == p.dateInMilliseconds
    ensures MSJSONTimeZoneOffsetInMilliseconds in d <==> p.timeZoneOffsetInMilliseconds.Some?
    ensures MSJSONTimeZoneOffsetInMilliseconds in d ==>
              Some(d[MSJSONTimeZoneOffsetInMilliseconds]) == p.timeZoneOffsetInMilliseconds
    ensures d.Keys <= {MSJSONDateInMilliseconds, MSJSONTimeZoneOffsetInMilliseconds}
  {
    match p.timeZoneOffsetInMilliseconds
    case None => map[MSJSONDateInMilliseconds := p.dateInMilliseconds]
    case Some(z) => map[MSJSONDateInMilliseconds := p.dateInMilliseconds,
                        MSJSONTimeZoneOffsetInMilliseconds := z]
  }

  /** dateWithJSON: — None for anything that is not a literal. */
  function DateWithJSON(dateTime: string): (r: Option<Instant>)
    ensures r.Some? <==> IsLiteral(dateTime)
    ensures r.Some? ==> r.value == ParseString(dateTime).value.dateInMilliseconds
  {
    match ParseString(dateTime)
    case None => None
    case Some(p) => Some(p.dateInMilliseconds)
  }

  /** timeZoneWithJSON: — None unless the string is a literal with a `±HHMM` suffix. */
  function TimeZoneWithJSON(dateTime: string): (r: Option<OffsetMinutes>)
    ensures r.Some? <==> IsLiteralWithOffset(dateTime)
    ensures r.Some? ==>
              Some(r.value * MillisecondsPerMinute) == ParseString(dateTime).value.timeZoneOffsetInMilliseconds
  {
    match ParseString(dateTime)
    case None => None
    case Some(p) =>
      match p.timeZoneOffsetInMilliseconds
      case None => None
      case Some(z) => Some(z / MillisecondsPerMinute)
  }

  // ---------------------------------------------------------------------------
  // Literal formatter
  // ---------------------------------------------------------------------------

  /** The magnitude of an offset. */
  function Abs(o: OffsetMinutes): nat {
    if o < 0 then -o else o
  }

  /** The `±HHMM` suffix of an offset: one sign ('+' for zero), then |o| div 60 and |o| mod 60, each zero-padded. */
  function FormatOffset(o: OffsetMinutes): (t: string)
    ensures |t| >= 5 && (t[0] == '-' <==> o < 0) && (t[0] == '+' <==> o >= 0)
    ensures AllDigits(t[1..])
    ensures -6000 < o < 6000 <==> |t| == 5
  {
    var hh := ZeroPad2(Abs(o) / 60);
    var mm := ZeroPad2(Abs(o) % 60);
    assert (hh + mm) == (['+'] + hh + mm)[1..] == (['-'] + hh + mm)[1..];
    [if o < 0 then '-' else '+'] + hh + mm
  }

  /** jsonWithDate: — `/Date(<ms>)/`, None when the date is nil. */
  function JsonWithDate(date: Option<Instant>): (r: Option<string>)
    ensures r.Some? <==> date.Some?
    ensures r.Some? ==> IsLiteral(r.value) && !IsLiteralWithOffset(r.value)
    ensures r.Some? ==> IsFramed(r.value) && Body(r.value) == IntToString(date.value)
  {
    match date
    case None => None
    case Some(d) =>
      LiteralOfBody(IntToString(d));
      Some(LiteralOpen + IntToString(d) + LiteralClose)
  }

  /** jsonWithDate:timeZone: — with a zone, the `±HHMM` suffix is appended; without one, the base form. */
  function JsonWithDateTimeZone(date: Option<Instant>, timeZone: Option<OffsetMinutes>): (r: Option<string>)
    ensures r.Some? <==> date.Some?
    ensures timeZone.None? ==> r == JsonWithDate(date)
    ensures r.Some? && timeZone.Some? ==>
              IsFramed(r.value) && Body(r.value) == IntToString(date.value) + FormatOffset(timeZone.value)
  {
    match date
    case None => None
    case Some(d) =>
      match timeZone
      case None => JsonWithDate(date)
      case Some(o) =>
        var body := IntToString(d) + FormatOffset(o);
        LiteralOfBody(body);
        Some(LiteralOpen + body + LiteralClose)
  }

  /** The ambient zone's offset at the date, or None when there is no date to ask about. */
  function CurrentTimeZone(date: Option<Instant>, local: LocalTimeZone): (tz: Option<OffsetMinutes>)
    ensures tz.Some? <==> date.Some?
    ensures tz.Some? ==> tz.value == local(date.value)
  {
    match date
    case None => None
    case Some(d) => Some(local(d))
  }

  /** jsonWithDate:appendTimeZone: — the suffix, when asked for, is the ambient zone's offset at the date. */
  function JsonWithDateAppendTimeZone(date: Option<Instant>, appendCurrentTimeZone: bool, local: LocalTimeZone): (r: Option<string>)
    ensures r.Some? <==> date.Some?
    ensures !appendCurrentTimeZone ==> r == JsonWithDate(date)
    ensures appendCurrentTimeZone ==> r == JsonWithDateTimeZone(date, CurrentTimeZone(date, local))
  {
    if appendCurrentTimeZone then JsonWithDateTimeZone(date, CurrentTimeZone(date, local))
    else JsonWithDate(date)
  }

  // ---------------------------------------------------------------------------
  // DateTimeOffset object
  // ---------------------------------------------------------------------------

  /** dateWithOffsetJSON: — the DateTime field read as a literal; None when it is missing or invalid. */
  function DateWithOffsetJSON(dateTimeOffset: OffsetObject): (r: Option<Instant>)
    ensures r.Some? <==> DateTimeKey in dateTimeOffset && IsLiteral(dateTimeOffset[DateTimeKey])
    ensures r.Some? ==> r == DateWithJSON(dateTimeOffset[DateTimeKey])
  {
    if DateTimeKey in dateTimeOffset then DateWithJSON(dateTimeOffset[DateTimeKey]) else None
  }

  /** timeZoneWithOffsetJSON: — the OffsetMinutes field read as a flat signed minute count (not HHMM). */
  function TimeZoneWithOffsetJSON(dateTimeOffset: OffsetObject): (r: Option<OffsetMinutes>)
    ensures r.Some? <==> OffsetMinutesKey in dateTimeOffset && IsIntLiteral(dateTimeOffset[OffsetMinutesKey])
    ensures r.Some? ==> r == ParseInt(dateTimeOffset[OffsetMinutesKey])
  {
    if OffsetMinutesKey in dateTimeOffset then ParseInt(dateTimeOffset[OffsetMinutesKey]) else None
  }

  /** offsetJSONWithDate:timeZone: — a field whose value is unknown is left out, never zero-filled. */
  function OffsetJSONWithDateTimeZone(date: Option<Instant>, timeZone: Option<OffsetMinutes>): (r: OffsetObject)
    ensures r.Keys <= {DateTimeKey, OffsetMinutesKey}
    ensures DateTimeKey in r <==> date.Some?
    ensures OffsetMinutesKey in r <==> timeZone.Some?
    ensures DateTimeKey in r ==> Some(r[DateTimeKey]) == JsonWithDate(date)
    ensures OffsetMinutesKey in r ==> ParseInt(r[OffsetMinutesKey]) == timeZone
    ensures OffsetMinutesKey in r ==> r[OffsetMinutesKey] == IntToString(timeZone.value)
  {
    var dateField: OffsetObject :=
      match JsonWithDate(date)
      case None => map[]
      case Some(literal) => map[DateTimeKey := literal];
    match timeZone
    case None => dateField
    case Some(o) =>
      ParseIntToString(o);
      dateField[OffsetMinutesKey := IntToString(o)]
  }

  /** offsetJSONWithDate: — OffsetMinutes from the ambient zone at the date. */
  function OffsetJSONWithDate(date: Option<Instant>, local: LocalTimeZone): (r: OffsetObject)
    ensures r == OffsetJSONWithDateTimeZone(date, CurrentTimeZone(date, local))
    ensures DateTimeKey in r <==> date.Some?
    ensures OffsetMinutesKey in r <==> date.Some?
    ensures date.Some? ==> ParseInt(r[OffsetMinutesKey]) == Some(local(date.value))
  {
    OffsetJSONWithDateTimeZone(date, CurrentTimeZone(date, local))
  }

  // ---------------------------------------------------------------------------
  // Properties
  // ---------------------------------------------------------------------------

  /** Framing a body with `/Date(` and `)/` gives back that body. */
  lemma LiteralOfBody(m: string)
    ensures IsFramed(LiteralOpen + m + LiteralClose)
    ensures Body(LiteralOpen + m + LiteralClose) == m
  {
  }

  /** `/Date(<ms>)/` parses to `<ms>` with no offset key, whatever the digits (leading zeros, `-0`). */
  lemma ParsePlainLiteral(ms: string)
    requires IsIntLiteral(ms)
    ensures ParseString(LiteralOpen + ms + LiteralClose) == Some(ParsedDate(ParseInt(ms).value, None))
  {
  }

  /** `/Date(<ms>±HHMM)/` also yields the offset sign × (HH × 60 + MM) × 60000. */
  lemma ParseOffsetLiteral(ms: string, suffix: string)
    requires IsIntLiteral(ms) && IsOffsetSuffix(suffix)
    ensures ParseString(LiteralOpen + ms + suffix + LiteralClose) ==
            Some(ParsedDate(ParseInt(ms).value, Some(SuffixMinutes(suffix) * MillisecondsPerMinute)))
  {
    var m := ms + suffix;
    assert LiteralOpen + ms + suffix + LiteralClose == LiteralOpen + m + LiteralClose;
    LiteralOfBody(m);
    assert m[..|m| - 5] == ms;
    assert m[|m| - 5..] == suffix;
  }

  /** Reading back the base form recovers the instant, sign included, and finds no zone. */
  lemma JsonWithDateRoundTrip(d: Instant)
    ensures ParseString(JsonWithDate(Some(d)).value) == Some(ParsedDate(d, None))
    ensures DateWithJSON(JsonWithDate(Some(d)).value) == Some(d)
    ensures TimeZoneWithJSON(JsonWithDate(Some(d)).value) == None
  {
    ParseIntToString(d);
    ParsePlainLiteral(IntToString(d));
  }

  /** Under 100 hours the suffix's HH digits are |o| div 60 and its MM digits |o| mod 60, whatever the sign. */
  lemma FormatOffsetFields(o: OffsetMinutes)
    requires -6000 < o < 6000
    ensures var t := FormatOffset(o);
              DigitValue(t[1]) * 10 + DigitValue(t[2]) == Abs(o) / 60 &&
              DigitValue(t[3]) * 10 + DigitValue(t[4]) == Abs(o) % 60
  {
  }

  /** The HHMM suffix of an offset under 100 hours reads back as that offset; a zero offset is `+0000`. */
  lemma SuffixRoundTrip(o: OffsetMinutes)
    requires -6000 < o < 6000
    ensures IsOffsetSuffix(FormatOffset(o))
    ensures SuffixMinutes(FormatOffset(o)) == o
    ensures FormatOffset(0) == "+0000"
  {
    FormatOffsetFields(0);
  }

  /** With a zone under 100 hours, both the instant and the zone read back from the literal. */
  lemma JsonWithDateTimeZoneRoundTrip(d: Instant, o: OffsetMinutes)
    requires -6000 < o < 6000
    ensures ParseString(JsonWithDateTimeZone(Some(d), Some(o)).value) ==
            Some(ParsedDate(d, Some(o * MillisecondsPerMinute)))
    ensures DateWithJSON(JsonWithDateTimeZone(Some(d), Some(o)).value) == Some(d)
    ensures TimeZoneWithJSON(JsonWithDateTimeZone(Some(d), Some(o)).value) == Some(o)
  {
    ParseIntToString(d);
    SuffixRoundTrip(o);
    ParseOffsetLiteral(IntToString(d), FormatOffset(o));
  }

  /** Without a zone, jsonWithDate:timeZone: writes the base form: the instant reads back and no zone does. */
  lemma JsonWithDateNoTimeZoneRoundTrip(d: Instant)
    ensures DateWithJSON(JsonWithDateTimeZone(Some(d), None).value) == Some(d)
    ensures TimeZoneWithJSON(JsonWithDateTimeZone(Some(d), None).value) == None
  {
    JsonWithDateRoundTrip(d);
  }

  /**
   * An offset of 100 hours or more gets a suffix longer than four digits, and
   * the literal it produces is rejected by the parser.
   */
  lemma OversizedOffsetUnreadable(d: Instant, o: OffsetMinutes)
    requires o <= -6000 || 6000 <= o
    ensures ParseString(JsonWithDateTimeZone(Some(d), Some(o)).value) == None
  {
    var ms := IntToString(d);
    var t := FormatOffset(o);
    var m := ms + t;
    var s := JsonWithDateTimeZone(Some(d), Some(o)).value;
    assert Body(s) == m;
    // The fifth character from the end is a digit of the suffix, not a sign.
    assert m[|m| - 5] == t[|t| - 5];
    assert t[|t| - 5] == t[1..][|t| - 6];
    assert !IsOffsetBody(m);
    // The sign of the suffix sits after the first character, where a number has only digits.
    assert m[|ms|] == t[0];
    assert !IsIntLiteral(m) by {
      if m[0] == '-' {
        assert m[1..][|ms| - 1] == m[|ms|];
      }
    }
  }

  /**
   * The two offset encodings differ: the four digits of an HHMM suffix, read as
   * a flat minute count the way OffsetMinutes is read, give 100 × HH + MM,
   * which is the offset only when it is under one hour.
   */
  lemma HhmmIsNotFlatMinutes(o: OffsetMinutes)
    requires -6000 < o < 6000
    ensures ParseInt(FormatOffset(o)[1..]) == Some(100 * (Abs(o) / 60) + Abs(o) % 60)
    ensures ParseInt(FormatOffset(o)[1..]) == Some(Abs(o)) <==> Abs(o) < 60
  {
    var t := FormatOffset(o);
    var digits := t[1..];
    FormatOffsetFields(o);
    assert digits == [t[1], t[2]] + [t[3]] + [t[4]];
    assert [t[1], t[2]] == [t[1]] + [t[2]];
    ParseNatDigit(t[1]);
    ParseNatSnoc([t[1]], t[2]);
    ParseNatSnoc([t[1], t[2]], t[3]);
    ParseNatSnoc([t[1], t[2]] + [t[3]], t[4]);
  }

  /** The object's two parsers invert its formatter, for any date and any zone (flat minutes have no range limit). */
  lemma OffsetObjectRoundTrip(date: Option<Instant>, timeZone: Option<OffsetMinutes>)
    ensures DateWithOffsetJSON(OffsetJSONWithDateTimeZone(date, timeZone)) == date
    ensures TimeZoneWithOffsetJSON(OffsetJSONWithDateTimeZone(date, timeZone)) == timeZone
  {
    if date.Some? {
      JsonWithDateRoundTrip(date.value);
    }
  }

  /** The DateTime field of the object is always the base form: the zone lives only in OffsetMinutes. */
  lemma OffsetObjectDateTimeHasNoSuffix(d: Instant, timeZone: Option<OffsetMinutes>)
    ensures TimeZoneWithJSON(OffsetJSONWithDateTimeZone(Some(d), timeZone)[DateTimeKey]) == None
  {
  }

  // ---------------------------------------------------------------------------
  // The examples of the header comment
  // ---------------------------------------------------------------------------

  lemma ExamplePlainLiteral()
    ensures ParseString("/Date(1198908717056)/") == Some(ParsedDate(1198908717056, None))
  {
    var s := "/Date(1198908717056)/";
    assert |s| == 21;
    assert s[..6] == "/Date(";
    assert s[19..] == ")/";
    assert s[6..19] == "1198908717056";
    ParsePlainLiteral("1198908717056");
    ParseNatDigits13();
  }

  lemma ExampleOffsetLiteral()
    ensures ParseString("/Date(1198908717056+0500)/") == Some(ParsedDate(1198908717056, Some(18000000)))
  {
    var s := "/Date(1198908717056+0500)/";
    var m := "1198908717056+0500";
    assert |s| == 26;
    assert s[..6] == "/Date(";
    assert s[24..] == ")/";
    assert s[6..24] == m;
    assert m[..|m| - 5] == "1198908717056" && m[|m| - 5..] == "+0500";
    ParseNatDigits13();
    assert ParseInt("1198908717056") == Some(1198908717056);
    assert SuffixMinutes("+0500") == 300;
    assert ParseBody(m) == Some(ParsedDate(1198908717056, Some(18000000)));
  }

  lemma ExampleOffsetMinutes()
    ensures TimeZoneWithOffsetJSON(map[DateTimeKey := "/Date(1198908717056)/", OffsetMinutesKey := "-360"]) == Some(-360)
    ensures DateWithOffsetJSON(map[DateTimeKey := "/Date(1198908717056)/", OffsetMinutesKey := "-360"]) == Some(1198908717056)
  {
    ExamplePlainLiteral();
    assert "-360"[1..] == "360";
    ParseNatDigit('3');
    ParseNatSnoc("3", '6');
    assert "3" + ['6'] == "36";
    ParseNatSnoc("36", '0');
    assert "36" + ['0'] == "360";
  }

  lemma ExampleRejected()
    ensures ParseString("not a date") == None
    ensures ParseString("/Date(abc)/") == None
  {
  }

  /** The value of the thirteen digits used in the examples. */
  lemma ParseNatDigits13()
    ensures ParseNat("1198908717056") == Some(1198908717056)
  {
    ParseNatDigit('1');
    ParseNatSnoc("1", '1');
    assert "1" + ['1'] == "11";
    ParseNatSnoc("11", '9');
    assert "11" + ['9'] == "119";
    ParseNatSnoc("119", '8');
    assert "119" + ['8'] == "1198";
    ParseNatSnoc("1198", '9');
    assert "1198" + ['9'] == "11989";
    ParseNatSnoc("11989", '0');
    assert "11989" + ['0'] == "119890";
    ParseNatSnoc("119890", '8');
    assert "119890" + ['8'] == "1198908";
    ParseNatSnoc("1198908", '7');
    assert "1198908" + ['7'] == "11989087";
    ParseNatSnoc("11989087", '1');
    assert "11989087" + ['1'] == "119890871";
    ParseNatSnoc("119890871", '7');
    assert "119890871" + ['7'] == "1198908717";
    ParseNatSnoc("1198908717", '0');
    assert "1198908717" + ['0'] == "11989087170";
    ParseNatSnoc("11989087170", '5');
    assert "11989087170" + ['5'] == "119890871705";
    ParseNatSnoc("119890871705", '6');
    assert "119890871705" + ['6'] == "1198908717056";
  }
}
