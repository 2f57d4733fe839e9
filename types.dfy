/** Package `types`: the service-facing record types, their enum decoders
    (types.go) and entity validation (entity.go). */
module Types {
  import opened Wrappers
  import opened Json
  import opened Validation

  /** `types.Entity`; `Validate` has a value receiver and leaves it as it is. */
  datatype Entity = Entity(id: string, name: string) {

    /** One `RequiredError` per empty field, the id's before the name's. */
    function Validate(): (errs: ErrorList)
      ensures errs == [] <==> id != "" && name != ""
      ensures |errs| == (if id == "" then 1 else 0) + (if name == "" then 1 else 0)
      ensures id == "" ==> errs[0] == RequiredError("id")
      ensures name == "" ==> errs[|errs| - 1] == RequiredError("name")
      ensures forall d :: d in errs ==> d.field in {"id", "name"}
    {
      var errorList := [];
      var errorList := if id == "" then errorList + [RequiredError("id")] else errorList;
      var errorList := if name == "" then errorList + [RequiredError("name")] else errorList;
      errorList
    }
  }

  const CommandStatusPending := "pending"
  const CommandStatusSuccess := "success"
  const CommandStatusFailure := "failure"
  const ReportTypeState := "state"
  const ReportTypeMetric := "metric"

  /** `CommandStatus.UnmarshalJSON` of types.go. */
  function UnmarshalCommandStatus(data: JsonValue, receiver: string): (r: (string, Option<EnumError>))
    ensures r.1 == None <==> data in {JsonString("pending"), JsonString("success"), JsonString("failure")}
    ensures r.0 == (if r.1 == None then data.text else receiver)
    ensures data.JsonOther? ==> r.1 == Some(NotAString)
  {
    DecodeEnum(data, receiver, {CommandStatusPending, CommandStatusSuccess, CommandStatusFailure})
  }

  /** `ReportType.UnmarshalJSON` of types.go. */
  function UnmarshalReportType(data: JsonValue, receiver: string): (r: (string, Option<EnumError>))
    ensures r.1 == None <==> data in {JsonString("state"), JsonString("metric")}
    ensures r.0 == (if r.1 == None then data.text else receiver)
    ensures data.JsonOther? ==> r.1 == Some(NotAString)
  {
    DecodeEnum(data, receiver, {ReportTypeState, ReportTypeMetric})
  }

  /** Every constant of types.go decodes from its JSON string to itself. */
  lemma ConstantsRoundTrip(receiver: string)
    ensures forall s :: s in {CommandStatusPending, CommandStatusSuccess, CommandStatusFailure} ==>
      UnmarshalCommandStatus(JsonString(s), receiver) == (s, None)
    ensures forall s :: s in {ReportTypeState, ReportTypeMetric} ==>
      UnmarshalReportType(JsonString(s), receiver) == (s, None)
  {
  }
}
