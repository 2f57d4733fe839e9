/** The JSON documents the repositories store. JSON text itself is not
    modelled: a stored value is either the encoding of a record or text that
    does not decode as one (truncated JSON, an enum string its decoder refuses). */
module Codec {
  import opened Wrappers
  import opened Json
  import opened Models

  datatype Record =
    | EntityRecord(entity: Entity)
    | CommandRecord(command: Command)
    | SubscriptionRecord(subscription: ReportSubscription)

  datatype Document = Valid(record: Record) | Malformed

  /** `json.Marshal` succeeds on a desired state exactly when none of its values is unencodable. */
  predicate Encodable(ds: DesiredState)
  {
    forall k :: k in ds ==> ds[k] != Unencodable
  }

  function MarshalEntity(e: Entity): Document
  {
    Valid(EntityRecord(e))
  }

  function MarshalCommand(c: Command): (d: Option<Document>)
    ensures d.Some? <==> Encodable(c.desiredState)
  {
    if Encodable(c.desiredState) then Some(Valid(CommandRecord(c))) else None
  }

  function MarshalSubscription(s: ReportSubscription): Document
  {
    Valid(SubscriptionRecord(s))
  }

  function UnmarshalEntity(d: Document): (r: Option<Entity>)
    ensures r.Some? <==> d.Valid? && d.record.EntityRecord?
  {
    if d.Valid? && d.record.EntityRecord? then Some(d.record.entity) else None
  }

  /** Whether the `status` field of a stored command decodes under the
      declaration in force; a refused string makes `json.Unmarshal` fail as a whole. */
  predicate StatusAccepted(decl: StatusDeclaration, status: string)
  {
    status in Statuses(decl)
  }

  /** `StatusAccepted` is exactly the verdict of the declaration's `UnmarshalJSON`. */
  lemma StatusAcceptedDecodes(decl: StatusDeclaration, status: string, receiver: string)
    ensures StatusAccepted(decl, status) <==> DecodeStatus(decl, JsonString(status), receiver).1 == None
  {
  }

  /** Whether the `report_type` field of a stored subscription decodes. */
  predicate ReportTypeAccepted(reportType: string)
  {
    reportType in {ReportTypeState, ReportTypeMetric}
  }

  /** `ReportTypeAccepted` is exactly the verdict of `ReportType.UnmarshalJSON`. */
  lemma ReportTypeAcceptedDecodes(reportType: string, receiver: string)
    ensures ReportTypeAccepted(reportType) <==> UnmarshalReportType(JsonString(reportType), receiver).1 == None
  {
  }

  /** A stored value decodes as a command exactly when it is a command record
      whose status the declaration in force accepts. */
  function UnmarshalCommand(decl: StatusDeclaration, d: Document): (r: Option<Command>)
    ensures r.Some? <==> d.Valid? && d.record.CommandRecord? && StatusAccepted(decl, d.record.command.status)
    ensures r.Some? ==> r.value == d.record.command
  {
    if d.Valid? && d.record.CommandRecord? && StatusAccepted(decl, d.record.command.status) then Some(d.record.command)
    else None
  }

  /** A stored value decodes as a subscription exactly when it is a
      subscription record whose report type the decoder accepts. */
  function UnmarshalSubscription(d: Document): (r: Option<ReportSubscription>)
    ensures r.Some? <==> d.Valid? && d.record.SubscriptionRecord? && d.record.subscription.reportType in {"state", "metric"}
    ensures r.Some? ==> r.value == d.record.subscription
  {
    if d.Valid? && d.record.SubscriptionRecord? && ReportTypeAccepted(d.record.subscription.reportType)
    then Some(d.record.subscription)
    else None
  }

  /** Entities always read back; a command or subscription reads back exactly
      when its enum field is one its decoder accepts, and is refused otherwise. */
  lemma MarshalRoundTrip(decl: StatusDeclaration, e: Entity, c: Command, s: ReportSubscription)
    ensures UnmarshalEntity(MarshalEntity(e)) == Some(e)
    ensures MarshalCommand(c).Some? ==>
      UnmarshalCommand(decl, MarshalCommand(c).value) == if c.status in Statuses(decl) then Some(c) else None
    ensures UnmarshalSubscription(MarshalSubscription(s)) == if s.reportType in {"state", "metric"} then Some(s) else None
  {
  }
}
