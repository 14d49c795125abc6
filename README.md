# MSJSONDate in Dafny

A model of MSJSONDate, the Objective-C codec for the date formats that the
ASP.NET and WCF JSON serialisers use:

1. the literal `/Date(1198908717056)/`, epoch milliseconds;
2. the same literal with a `±HHMM` offset suffix, `/Date(1198908717056+0500)/`;
3. the DateTimeOffset object `{ DateTime: "/Date(1198908717056)/", OffsetMinutes: "-360" }`,
   whose offset is a flat signed count of minutes rather than `HHMM`.

Every operation is a pure function. This follows the source, where each
operation is a class method or a side-effect-free category accessor.

- An `NSDate` is an `int` count of milliseconds since 1970-01-01T00:00:00Z (`Instant`).
- An `NSTimeZone` is its offset from GMT in whole minutes.
- nil is `None` of `Option`.
- The ambient local time zone is a parameter `local: Instant -> int`, giving the offset at each instant.
- The dictionary returned by `parseString:` is the datatype `ParsedDate`. `Dictionary` gives its NSDictionary view under the two key constants.
- The DateTimeOffset object is a `map<string, string>`. An omitted field is a key that is not in the map.

Modules:

- `Wrappers` holds `Option`.
- `Decimal` is a hand-written lexer and printer for `["-"] 1*DIGIT`. Both the milliseconds part and the `OffsetMinutes` field use this syntax.
- `MSJSONDate` holds the class methods and the key constants.
- `NSDateMSJSONDate` holds the `NSDate (MSJSONDate)` category forwarders.

The implementation file `MSJSONDate.m` is not part of this model. The
behaviour modelled is the one that the comments and examples of the header
`MSJSONDate/MSJSONDate.h` promise. Where the header leaves
something open, the model makes these choices:

- The literal must match this grammar over the whole string, `/Date(` ms [suffix] `)/`:
  - ms is `["-"] 1*DIGIT`;
  - suffix is `("+"|"-") 4DIGIT`, read as HH then MM.
  A body such as `-0500` with no milliseconds before the sign reads as the instant -500, with no offset.
- The formatter writes one sign. That sign is `+` for a zero offset, so 0 is `+0000`. After it come `|offset| div 60` and `|offset| mod 60`, each zero-padded to two digits.
- An hour count of 100 or more is printed in full. The literal that results has more than four suffix digits, and the parser rejects it (`OversizedOffsetUnreadable`). The literal round trip therefore holds for `|offset| < 6000` minutes.
- The header's line 100 says that with a nil time zone the offset is "not omitted". Its line 238, on the forwarder, says it is omitted. The model omits the suffix, following line 238.
- The comments at lines 152-154, 172-173, 258-260 and 276-278 list the parse-result keys `MSJSONDateInMilliseconds` and `MSJSONTimeZoneOffsetInMilliseconds` as the contents of the DateTimeOffset object. This contradicts the `DateTime` / `OffsetMinutes` examples just above them. The model builds the object with `DateTime` and `OffsetMinutes`.
- `offsetJSONWithDate:` with a nil date leaves out both fields. There is no instant at which to ask the current zone for its offset.

## Model

| member | source | states |
|---|---|---|
| `Decimal.ParseNat` | MSJSONDate/MSJSONDate.h:32 | a digit run is read exactly when it is non-empty and all digits |
| `Decimal.ParseInt` | MSJSONDate/MSJSONDate.h:38 | `["-"] 1*DIGIT` is accepted exactly when it is well formed; a leading minus gives a value <= 0, no minus gives a value >= 0 |
| `Decimal.IntToString` | MSJSONDate/MSJSONDate.h:32 | the printed text is a well-formed integer that starts with a minus sign exactly when the value is negative, and has no leading zero: a text starting with `0` is exactly `"0"`, and no `0` follows the minus sign |
| `Decimal.ParseNatToString` | MSJSONDate/MSJSONDate.h:32 | printing a natural number and reading it back gives the number |
| `Decimal.ParseIntToString` | MSJSONDate/MSJSONDate.h:38 | printing an integer and reading it back gives the integer, sign included |
| `Decimal.NatToStringCanonical` | MSJSONDate/MSJSONDate.h:32 | a digit run with no leading zero, other than `0` itself, is exactly the printed form of its value |
| `Decimal.IntToStringCanonical` | MSJSONDate/MSJSONDate.h:32 | a well-formed integer text with no leading zero and no `-0` is exactly the printed form of its value, so the printed form is the only canonical text of an integer |
| `MSJSONDate.ParseString` | MSJSONDate/MSJSONDate.h:47-53 | there is a result exactly when the string matches the literal grammar; the offset key is present exactly when there is a `±HHMM` suffix; the offset is a multiple of 60000 ms |
| `MSJSONDate.Dictionary` | MSJSONDate/MSJSONDate.h:188-204 | `MSJSONDateInMilliseconds` is always present with the instant; `MSJSONTimeZoneOffsetInMilliseconds` is present exactly when an offset was found; no other key appears |
| `MSJSONDate.SuffixMinutes` | MSJSONDate/MSJSONDate.h:34 | a `-` suffix gives an offset <= 0, a `+` suffix an offset >= 0; the magnitude is at most 99 h 99 min |
| `MSJSONDate.ParsePlainLiteral` | MSJSONDate/MSJSONDate.h:32 | `/Date(<ms>)/` parses to the value of `<ms>`, sign kept, with no offset key |
| `MSJSONDate.ParseOffsetLiteral` | MSJSONDate/MSJSONDate.h:34 | `/Date(<ms>±HHMM)/` parses to `<ms>` and the offset sign × (HH×60+MM) × 60000 |
| `MSJSONDate.DateWithJSON` | MSJSONDate/MSJSONDate.h:55-62 | None exactly when the string is not a literal; otherwise the instant `parseString:` found |
| `MSJSONDate.TimeZoneWithJSON` | MSJSONDate/MSJSONDate.h:64-72 | None exactly when the string is not a literal or has no `±HHMM` suffix; otherwise the offset in minutes, which times 60000 is the parsed offset |
| `MSJSONDate.JsonWithDate` | MSJSONDate/MSJSONDate.h:74-82 | nil exactly when the date is nil; otherwise a literal of the grammar that carries no offset suffix, whose body is exactly the shortest decimal text of the instant |
| `MSJSONDate.JsonWithDateRoundTrip` | MSJSONDate/MSJSONDate.h:74-82 | `parseString:` of `jsonWithDate:` gives back the instant, negative ones included, with no offset; `dateWithJSON:` recovers it and `timeZoneWithJSON:` gives nil |
| `MSJSONDate.FormatOffset` | MSJSONDate/MSJSONDate.h:95-106 | the suffix has one sign, `-` exactly for negative offsets, followed by digits only; it is exactly five characters when the offset is under 100 hours |
| `MSJSONDate.JsonWithDateTimeZone` | MSJSONDate/MSJSONDate.h:95-106 | nil exactly when the date is nil; with no zone it equals `jsonWithDate:`; with a zone the body is the instant followed by the `±HHMM` suffix |
| `MSJSONDate.FormatOffsetFields` | MSJSONDate/MSJSONDate.h:95-106 | for an offset under 100 hours, negative ones as well as positive, the HH digits of the suffix are \|o\| div 60 and the MM digits \|o\| mod 60 |
| `MSJSONDate.SuffixRoundTrip` | MSJSONDate/MSJSONDate.h:34 | for an offset under 100 hours the suffix is a valid `±HHMM` and reads back as the same offset, +0000 for zero |
| `MSJSONDate.JsonWithDateTimeZoneRoundTrip` | MSJSONDate/MSJSONDate.h:95-106 | for an offset under 100 hours, `parseString:` gives back the instant and the offset × 60000; `dateWithJSON:` and `timeZoneWithJSON:` recover each |
| `MSJSONDate.JsonWithDateNoTimeZoneRoundTrip` | MSJSONDate/MSJSONDate.h:233-243 | with no zone the literal has no suffix: the instant reads back and the zone reads as nil |
| `MSJSONDate.OversizedOffsetUnreadable` | MSJSONDate/MSJSONDate.h:95-106 | an offset of 100 hours or more gives a literal that `parseString:` rejects |
| `MSJSONDate.CurrentTimeZone` | MSJSONDate/MSJSONDate.h:148 | the current zone's offset is the ambient zone's offset at the given instant, and is unknown when there is no instant |
| `MSJSONDate.JsonWithDateAppendTimeZone` | MSJSONDate/MSJSONDate.h:84-93 | nil exactly when the date is nil; without the flag it equals `jsonWithDate:`; with it, it equals `jsonWithDate:timeZone:` at the current zone's offset |
| `MSJSONDate.DateWithOffsetJSON` | MSJSONDate/MSJSONDate.h:111-123 | None exactly when `DateTime` is missing or is not a literal; otherwise `dateWithJSON:` of it |
| `MSJSONDate.TimeZoneWithOffsetJSON` | MSJSONDate/MSJSONDate.h:125-138 | None exactly when `OffsetMinutes` is missing or is not a signed integer; otherwise that flat minute count |
| `MSJSONDate.OffsetJSONWithDateTimeZone` | MSJSONDate/MSJSONDate.h:161-179 | only `DateTime` and `OffsetMinutes` can appear; `DateTime` is present exactly when the date is, and equals `jsonWithDate:`; `OffsetMinutes` is present exactly when the zone is, and is the shortest decimal text of the zone's minute count, which reads back as that count; nothing is zero-filled |
| `MSJSONDate.OffsetJSONWithDate` | MSJSONDate/MSJSONDate.h:140-159 | equals `offsetJSONWithDate:timeZone:` at the current zone at the date; both fields are present exactly when the date is, and `OffsetMinutes` reads back as the ambient offset |
| `MSJSONDate.OffsetObjectRoundTrip` | MSJSONDate/MSJSONDate.h:140-179 | `dateWithOffsetJSON:` and `timeZoneWithOffsetJSON:` invert `offsetJSONWithDate:timeZone:` for every date and zone, nil included, and with no range limit |
| `MSJSONDate.OffsetObjectDateTimeHasNoSuffix` | MSJSONDate/MSJSONDate.h:143-146 | the object's `DateTime` literal carries no offset suffix; the zone lives only in `OffsetMinutes` |
| `MSJSONDate.HhmmIsNotFlatMinutes` | MSJSONDate/MSJSONDate.h:34-39 | for any offset, positive or negative, under 100 hours: the four suffix digits read as flat minutes give 100×HH+MM with HH = \|o\| div 60 and MM = \|o\| mod 60, which equals \|o\| exactly when \|o\| is under one hour |
| `MSJSONDate.ExamplePlainLiteral` | MSJSONDate/MSJSONDate.h:32 | `/Date(1198908717056)/` parses to 1198908717056 with no offset |
| `MSJSONDate.ExampleOffsetLiteral` | MSJSONDate/MSJSONDate.h:34 | `/Date(1198908717056+0500)/` parses to 1198908717056 with offset 18000000 ms |
| `MSJSONDate.ExampleOffsetMinutes` | MSJSONDate/MSJSONDate.h:36-39 | the header's example object reads as instant 1198908717056 and offset -360 minutes |
| `MSJSONDate.ExampleRejected` | MSJSONDate/MSJSONDate.h:59-60 | `not a date` and `/Date(abc)/` give no result |
| `NSDateMSJSONDate.JsonValue` | MSJSONDate/MSJSONDate.h:215-222 | equals `jsonWithDate:` on the receiver; the instant reads back and no zone does |
| `NSDateMSJSONDate.JsonValueWithCurrentTimeZone` | MSJSONDate/MSJSONDate.h:224-231 | equals `jsonWithDate:appendTimeZone:YES` and `jsonWithDate:timeZone:` at the ambient offset; under 100 hours both instant and offset read back, otherwise the literal is unreadable |
| `NSDateMSJSONDate.JsonValueWithTimeZone` | MSJSONDate/MSJSONDate.h:233-243 | equals `jsonWithDate:timeZone:` on the receiver and `jsonValue` when the zone is nil; under 100 hours instant and zone read back, otherwise the literal is unreadable |
| `NSDateMSJSONDate.OffsetJSONValue` | MSJSONDate/MSJSONDate.h:248-264 | equals `offsetJSONWithDate:` on the receiver; has exactly the two fields, which read back as the receiver and the ambient offset |
| `NSDateMSJSONDate.OffsetJSONValueWithTimeZone` | MSJSONDate/MSJSONDate.h:266-283 | equals `offsetJSONWithDate:timeZone:` on the receiver; `OffsetMinutes` is there exactly when the zone is; both parsers recover receiver and zone |

## Left out

- `NSDate` is a floating-point `NSTimeInterval` in seconds, and the source converts it to milliseconds. The model takes integer milliseconds, so that conversion and its rounding are not modelled.
- An explicit `NSTimeZone` is modelled as one fixed offset in whole minutes. Named and regional zones, daylight-saving changes of an explicit zone, and sub-minute GMT offsets are left out. The ambient zone is a function of the instant, so its daylight-saving changes are covered.
- The lookup of the ambient local zone is environment state. It is passed in as the parameter `local`, which gives whole minutes: a sub-minute ambient offset, such as local mean time at very early instants, is left out here too.
- A nil string passed to `parseString:`, `dateWithJSON:` or `timeZoneWithJSON:` is not modelled; the parsers take a string.
- Non-string dictionary values are left out: a `DateTime` that is not a string, and an `OffsetMinutes` given as an `NSNumber`. The object maps field names to strings.
- `OffsetMinutes` is read with the same `["-"] 1*DIGIT` syntax as the milliseconds. A leading `+` or surrounding white space is rejected.
- The two key constants are declared `extern` in the header, and their string values live in the implementation file. The model gives each constant its own identifier as its value.
- The implementation's regular expression or scanner is not modelled. In particular, whether it also finds a literal inside a longer string is not known. The model matches the grammar against the whole string.
- General JSON tokenising and serialisation are out of scope.
- MSJSONDate.JsonWithDateTimeZoneRoundTrip: stated only for offsets under 100 hours, because the header fixes no encoding for larger hour counts. `OversizedOffsetUnreadable` states what happens above that bound.
- MSJSONDate.SuffixRoundTrip: stated only for offsets under 100 hours, for the same reason.
