/** Package `models`: the stored record shapes and their enum decoders.
    The package is mid-refactor: command.go and models.go both declare
    `CommandStatus`, with "failure" and "failed" respectively as the third
    value; each declaration is modelled on its own. */
module Models {
  import opened Wrappers
  import opened Json

  datatype Entity = Entity(id: string, name: string)

  /** A value inside a command's desired state (`map[string]any`).
      `Unencodable` stands for the Go values `json.Marshal` refuses
      (channels, functions, NaN). */
  datatype StateValue = Text(text: string) | Number(number: int) | Flag(flag: bool) | Unencodable

  type DesiredState = map<string, StateValue>

  /** Timestamps are integers; `ResolvedAt` is a nil-able pointer. */
  datatype Command = Command(
    id: string,
    entityId: string,
    desiredState: DesiredState,
    status: string,
    issuedAt: int,
    resolvedAt: Option<int>)

  datatype ReportSubscription = ReportSubscription(
    id: int,
    entityId: string,
    reportType: string,
    metric: Option<string>,
    isActive: bool,
    updatedAt: int)

  // command.go
  const StatusPending := "pending"
  const StatusSuccess := "success"
  const StatusFailure := "failure"
  // models.go
  const StatusFailed := "failed"
  // report_subscription.go
  const ReportTypeState := "state"
  const ReportTypeMetric := "metric"

  /** `CommandStatus.UnmarshalJSON` as declared in command.go. */
  function UnmarshalCommandStatus(data: JsonValue, receiver: string): (r: (string, Option<EnumError>))
    ensures r.1 == None <==> data in {JsonString("pending"), JsonString("success"), JsonString("failure")}
    ensures r.0 == (if r.1 == None then data.text else receiver)
    ensures data.JsonOther? ==> r.1 == Some(NotAString)
  {
    DecodeEnum(data, receiver, {StatusPending, StatusSuccess, StatusFailure})
  }

  /** `CommandStatus.UnmarshalJSON` as declared in models.go. */
  function UnmarshalLegacyCommandStatus(data: JsonValue, receiver: string): (r: (string, Option<EnumError>))
    ensures r.1 == None <==> data in {JsonString("pending"), JsonString("success"), JsonString("failed")}
    ensures r.0 == (if r.1 == None then data.text else receiver)
    ensures data.JsonOther? ==> r.1 == Some(NotAString)
  {
    DecodeEnum(data, receiver, {StatusPending, StatusSuccess, StatusFailed})
  }

  /** `ReportType.UnmarshalJSON`. */
  function UnmarshalReportType(data: JsonValue, receiver: string): (r: (string, Option<EnumError>))
    ensures r.1 == None <==> data in {JsonString("state"), JsonString("metric")}
    ensures r.0 == (if r.1 == None then data.text else receiver)
    ensures data.JsonOther? ==> r.1 == Some(NotAString)
  {
    DecodeEnum(data, receiver, {ReportTypeState, ReportTypeMetric})
  }

  /** The package compiles with only one of its two `CommandStatus`
      declarations, and nothing in the repository settles which: every read
      of a stored command is therefore parametrised by the declaration in force. */
  datatype StatusDeclaration = CommandGo | ModelsGo

  /** The statuses the declaration's `UnmarshalJSON` accepts. */
  function Statuses(decl: StatusDeclaration): (s: set<string>)
    ensures StatusPending in s && StatusSuccess in s
  {
    match decl
    case CommandGo => {StatusPending, StatusSuccess, StatusFailure}
    case ModelsGo => {StatusPending, StatusSuccess, StatusFailed}
  }

  /** `CommandStatus.UnmarshalJSON` of the declaration in force. */
  function DecodeStatus(decl: StatusDeclaration, data: JsonValue, receiver: string): (r: (string, Option<EnumError>))
    ensures r.1 == None <==> data.JsonString? && data.text in Statuses(decl)
    ensures r.0 == (if r.1 == None then data.text else receiver)
  {
    match decl
    case CommandGo => UnmarshalCommandStatus(data, receiver)
    case ModelsGo => UnmarshalLegacyCommandStatus(data, receiver)
  }

  /** Each constant of command.go decodes from its own JSON string to itself. */
  lemma CommandStatusRoundTrip(s: string, receiver: string)
    requires s in {StatusPending, StatusSuccess, StatusFailure}
    ensures UnmarshalCommandStatus(JsonString(s), receiver) == (s, None)
  {
  }

  lemma LegacyCommandStatusRoundTrip(s: string, receiver: string)
    requires s in {StatusPending, StatusSuccess, StatusFailed}
    ensures UnmarshalLegacyCommandStatus(JsonString(s), receiver) == (s, None)
  {
  }

  lemma ReportTypeRoundTrip(s: string, receiver: string)
    requires s in {ReportTypeState, ReportTypeMetric}
    ensures UnmarshalReportType(JsonString(s), receiver) == (s, None)
  {
  }

  /** The two declarations disagree on the third status: "failed" (the value the
      command fixtures store) decodes only under models.go, "failure" only under
      command.go; "random" under neither. */
  lemma StatusDeclarationsDisagree(receiver: string)
    ensures UnmarshalCommandStatus(JsonString("failed"), receiver) == (receiver, Some(InvalidValue))
    ensures UnmarshalLegacyCommandStatus(JsonString("failed"), receiver) == ("failed", None)
    ensures UnmarshalLegacyCommandStatus(JsonString("failure"), receiver) == (receiver, Some(InvalidValue))
    ensures UnmarshalCommandStatus(JsonString("random"), receiver).1 == Some(InvalidValue)
    ensures UnmarshalLegacyCommandStatus(JsonString("random"), receiver).1 == Some(InvalidValue)
    ensures UnmarshalReportType(JsonString("random"), receiver).1 == Some(InvalidValue)
  {
  }
}
