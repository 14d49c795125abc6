/**
 * The NSDate (MSJSONDate) category: accessors on a date that forward to the
 * MSJSONDate class methods with the receiver as the date. A receiver always
 * exists, so the literal accessors always produce a string.
 */
module NSDateMSJSONDate {
  import opened Wrappers
  import opened Decimal
  import opened MSJSONDate

  /** jsonValue — jsonWithDate: on the receiver; reads back as the receiver. */
  function JsonValue(receiver: Instant): (r: string)
    ensures JsonWithDate(Some(receiver)) == Some(r)
    ensures DateWithJSON(r) == Some(receiver) && TimeZoneWithJSON(r) == None
  {
    JsonWithDateRoundTrip(receiver);
    JsonWithDate(Some(receiver)).value
  }

  /** jsonValueWithCurrentTimeZone — jsonWithDate:appendTimeZone:YES on the receiver. */
  function JsonValueWithCurrentTimeZone(receiver: Instant, local: LocalTimeZone): (r: string)
    ensures JsonWithDateAppendTimeZone(Some(receiver), true, local) == Some(r)
    ensures JsonWithDateTimeZone(Some(receiver), Some(local(receiver))) == Some(r)
    ensures -6000 < local(receiver) < 6000 ==>
              DateWithJSON(r) == Some(receiver) && TimeZoneWithJSON(r) == Some(local(receiver))
    ensures !(-6000 < local(receiver) < 6000) ==> DateWithJSON(r) == None
  {
    var r := JsonWithDateAppendTimeZone(Some(receiver), true, local).value;
    if -6000 < local(receiver) < 6000 then
      JsonWithDateTimeZoneRoundTrip(receiver, local(receiver));
      r
    else
      OversizedOffsetUnreadable(receiver, local(receiver));
      r
  }

  /** jsonValueWithTimeZone: — jsonWithDate:timeZone: on the receiver; no suffix when the zone is nil. */
  function JsonValueWithTimeZone(receiver: Instant, timeZone: Option<OffsetMinutes>): (r: string)
    ensures JsonWithDateTimeZone(Some(receiver), timeZone) == Some(r)
    ensures timeZone.None? ==> r == JsonValue(receiver)
    ensures timeZone.None? || -6000 < timeZone.value < 6000 ==>
              DateWithJSON(r) == Some(receiver) && TimeZoneWithJSON(r) == timeZone
    ensures timeZone.Some? && !(-6000 < timeZone.value < 6000) ==> DateWithJSON(r) == None
  {
    match timeZone
    case None =>
      JsonWithDateRoundTrip(receiver);
      JsonWithDate(Some(receiver)).value
    case Some(o) =>
      var r := JsonWithDateTimeZone(Some(receiver), timeZone).value;
      if -6000 < o < 6000 then
        JsonWithDateTimeZoneRoundTrip(receiver, o);
        r
      else
        OversizedOffsetUnreadable(receiver, o);
        r
  }

  /** offsetJSONValue — offsetJSONWithDate: on the receiver; both fields are present and read back. */
  function OffsetJSONValue(receiver: Instant, local: LocalTimeZone): (r: OffsetObject)
    ensures r == OffsetJSONWithDate(Some(receiver), local)
    ensures r.Keys == {DateTimeKey, OffsetMinutesKey}
    ensures DateWithOffsetJSON(r) == Some(receiver)
    ensures TimeZoneWithOffsetJSON(r) == Some(local(receiver))
  {
    OffsetObjectRoundTrip(Some(receiver), Some(local(receiver)));
    OffsetJSONWithDate(Some(receiver), local)
  }

  /** offsetJSONValueWithTimeZone: — offsetJSONWithDate:timeZone: on the receiver; OffsetMinutes omitted when the zone is nil. */
  function OffsetJSONValueWithTimeZone(receiver: Instant, timeZone: Option<OffsetMinutes>): (r: OffsetObject)
    ensures r == OffsetJSONWithDateTimeZone(Some(receiver), timeZone)
    ensures DateTimeKey in r && (OffsetMinutesKey in r <==> timeZone.Some?)
    ensures DateWithOffsetJSON(r) == Some(receiver)
    ensures TimeZoneWithOffsetJSON(r) == timeZone
  {
    OffsetObjectRoundTrip(Some(receiver), timeZone);
    OffsetJSONWithDateTimeZone(Some(receiver), timeZone)
  }
}
