/** The slice of `encoding/json` the enum decoders rely on: whether the raw
    value is a JSON string, and the string-enum decoding pattern shared by
    every `UnmarshalJSON` method of the program. */
module Json {
  import opened Wrappers

  /** A raw JSON value handed to `UnmarshalJSON`: a string, or anything else. */
  datatype JsonValue = JsonString(text: string) | JsonOther

  /** Why an enum decoder refused its input. */
  datatype EnumError =
    | NotAString    // `json.Unmarshal(data, &s)` into a Go string failed
    | InvalidValue  // a string outside the accepted constants

  /** The receiver after `UnmarshalJSON(data)` and the error it returned: the
      receiver is overwritten only when the string is one of `accepted`. */
  function DecodeEnum(data: JsonValue, receiver: string, accepted: set<string>): (r: (string, Option<EnumError>))
    ensures r.1 == None <==> data.JsonString? && data.text in accepted
    ensures r.1 == None ==> r.0 == data.text
    ensures r.1 != None ==> r.0 == receiver
    ensures data.JsonOther? ==> r.1 == Some(NotAString)
  {
    match data
    case JsonOther => (receiver, Some(NotAString))
    case JsonString(s) => if s in accepted then (s, None) else (receiver, Some(InvalidValue))
  }
}
