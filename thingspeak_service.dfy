/** The ThingSpeak client helpers the dashboard relies on: reading a field
    value safely, the field-number check before a field request, and the
    choice of the latest entry. */
module ThingSpeakService {
  import opened Wrappers
  import opened Text
  import opened JsNumbers

  /** One feed entry; a field the channel did not send is `None`. */
  datatype Feed = Feed(
    createdAt: string,
    entryId: int,
    field1: Option<string>,
    field2: Option<string>,
    field3: Option<string>,
    field4: Option<string>,
    field5: Option<string>,
    field6: Option<string>,
    field7: Option<string>,
    field8: Option<string>)
  {
    /** `feed[`field${n}`]`; no such property outside 1..8. */
    function Field(n: int): Option<string> {
      if n == 1 then field1
      else if n == 2 then field2
      else if n == 3 then field3
      else if n == 4 then field4
      else if n == 5 then field5
      else if n == 6 then field6
      else if n == 7 then field7
      else if n == 8 then field8
      else None
    }
  }

  /** `parseFieldValue(value, defaultValue)`: a missing or empty text and a
      text `parseFloat` cannot read give the default. */
  function ParseFieldValue(value: Option<string>, defaultValue: real): (r: real)
    ensures value.None? || value.value == [] ==> r == defaultValue
    ensures value.Some? && value.value != [] && ParseFloat(value.value).None? ==> r == defaultValue
    ensures value.Some? && value.value != [] && ParseFloat(value.value).Some? ==> r == ParseFloat(value.value).value
  {
    if value.None? || value.value == [] then defaultValue
    else
      var parsed := ParseFloat(value.value);
      if parsed.None? then defaultValue else parsed.value
  }

  /** A field holding an integer written out in decimal reads back as that
      integer, whatever the default; "0" gives 0, not the default. */
  lemma ParseFieldValueOfInteger(n: int, defaultValue: real)
    ensures ParseFieldValue(Some(IntToDecimal(n)), defaultValue) == n as real
  {
    ParseFloatOfInteger(n, []);
    assert IntToDecimal(n) + [] == IntToDecimal(n);
  }

  /** A field whose text, after white space and a sign, starts with neither
      a digit nor a point gives the default. */
  lemma ParseFieldValueOfText(s: string, defaultValue: real)
    requires var rest := Sign(TrimStart(s)).1; rest == [] || !(IsDigit(rest[0]) || rest[0] == '.')
    ensures ParseFieldValue(Some(s), defaultValue) == defaultValue
  {
    ParseFloatDefined(s);
  }

  const BaseUrl: string := "https://api.thingspeak.com"
  const ChannelId: string := "3148652"

  /** The request `readChannelField(fieldNumber, results)` makes, or the
      error it throws before making one. */
  function FieldRequest(fieldNumber: int, results: int): (r: Result<string, string>)
    ensures r.Err? <==> fieldNumber < 1 || fieldNumber > 8
    ensures r.Ok? ==> r.value == BaseUrl + "/channels/" + ChannelId + "/fields/" + NatToDecimal(fieldNumber) + ".json?results=" + IntToDecimal(results)
  {
    if fieldNumber < 1 || fieldNumber > 8 then Err("Field number must be between 1 and 8")
    else Ok(BaseUrl + "/channels/" + ChannelId + "/fields/" + IntToDecimal(fieldNumber) + ".json?results=" + IntToDecimal(results))
  }

  /** `getLatestEntry()` given the outcome of reading one entry: the first
      feed, or `null` for an empty list and for a failed request. */
  function LatestEntry(outcome: Result<seq<Feed>, string>): (r: Option<Feed>)
    ensures r.None? <==> outcome.Err? || outcome.value == []
    ensures r.Some? ==> r.value == outcome.value[0]
  {
    match outcome
    case Err(_) => None
    case Ok(feeds) => if |feeds| > 0 then Some(feeds[0]) else None
  }
}
