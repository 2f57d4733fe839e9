/** Package `filters`: builder-style filters whose `Check` is the conjunction
    of the conditions set so far. An unset (nil) condition is vacuously true;
    time comparisons are strict. */
module Filters {
  import opened Wrappers
  import opened Models

  /** One condition a command filter can carry. */
  datatype CommandCondition =
    | EntityIs(entityId: string)
    | StatusIs(status: string)
    | IssuedAfter(threshold: int)
    | IssuedBefore(threshold: int)

  predicate CommandHolds(k: CommandCondition, c: Command)
  {
    match k
    case EntityIs(id) => c.entityId == id
    case StatusIs(s) => c.status == s
    case IssuedAfter(t) => c.issuedAt > t
    case IssuedBefore(t) => c.issuedAt < t
  }

  /** filters/command.go: four optional conditions, each a nil-able pointer. */
  class CommandFilter {
    var entityId: Option<string>
    var status: Option<string>
    var issuedAfter: Option<int>
    var issuedBefore: Option<int>

    /** `NewCommandFilter()`, equally the zero value `CommandFilter{}`. */
    constructor ()
      ensures entityId == None && status == None && issuedAfter == None && issuedBefore == None
      ensures Conditions() == {}
    {
      entityId, status, issuedAfter, issuedBefore := None, None, None, None;
    }

    /** The set conditions, as a set of independent conditions. */
    ghost function Conditions(): set<CommandCondition>
      reads this
    {
      (if entityId.Some? then {EntityIs(entityId.value)} else {})
      + (if status.Some? then {StatusIs(status.value)} else {})
      + (if issuedAfter.Some? then {IssuedAfter(issuedAfter.value)} else {})
      + (if issuedBefore.Some? then {IssuedBefore(issuedBefore.value)} else {})
    }

    method ByEntityID(id: string) returns (f: CommandFilter)
      modifies this
      ensures f == this
      ensures entityId == Some(id)
      ensures status == old(status) && issuedAfter == old(issuedAfter) && issuedBefore == old(issuedBefore)
      ensures old(entityId) == None ==> Conditions() == old(Conditions()) + {EntityIs(id)}
    {
      entityId := Some(id);
      return this;
    }

    method ByStatus(s: string) returns (f: CommandFilter)
      modifies this
      ensures f == this
      ensures status == Some(s)
      ensures entityId == old(entityId) && issuedAfter == old(issuedAfter) && issuedBefore == old(issuedBefore)
      ensures old(status) == None ==> Conditions() == old(Conditions()) + {StatusIs(s)}
    {
      status := Some(s);
      return this;
    }

    method ByTimeAfterIssuing(threshold: int) returns (f: CommandFilter)
      modifies this
      ensures f == this
      ensures issuedAfter == Some(threshold)
      ensures entityId == old(entityId) && status == old(status) && issuedBefore == old(issuedBefore)
      ensures old(issuedAfter) == None ==> Conditions() == old(Conditions()) + {IssuedAfter(threshold)}
    {
      issuedAfter := Some(threshold);
      return this;
    }

    method ByTimeBeforeIssuing(threshold: int) returns (f: CommandFilter)
      modifies this
      ensures f == this
      ensures issuedBefore == Some(threshold)
      ensures entityId == old(entityId) && status == old(status) && issuedAfter == old(issuedAfter)
      ensures old(issuedBefore) == None ==> Conditions() == old(Conditions()) + {IssuedBefore(threshold)}
    {
      issuedBefore := Some(threshold);
      return this;
    }

    /** True exactly when every set condition holds of the command. */
    function Check(c: Command): (r: bool)
      reads this
      ensures r <==> forall k :: k in Conditions() ==> CommandHolds(k, c)
    {
      if entityId.Some? && entityId.value != c.entityId then
        assert EntityIs(entityId.value) in Conditions(); false
      else if status.Some? && status.value != c.status then
        assert StatusIs(status.value) in Conditions(); false
      else if issuedAfter.Some? && !(c.issuedAt > issuedAfter.value) then
        assert IssuedAfter(issuedAfter.value) in Conditions(); false
      else if issuedBefore.Some? && !(c.issuedAt < issuedBefore.value) then
        assert IssuedBefore(issuedBefore.value) in Conditions(); false
      else true
    }
  }

  /** A filter with nothing set accepts every command. */
  lemma CommandFilterEmptyAcceptsAll(f: CommandFilter, c: Command)
    requires f.Conditions() == {}
    ensures f.Check(c)
  {
  }

  /** More conditions, fewer matches: a filter whose conditions include
      another's accepts only what the other accepts. */
  lemma CommandFilterMonotone(f: CommandFilter, g: CommandFilter, c: Command)
    requires f.Conditions() <= g.Conditions()
    ensures g.Check(c) ==> f.Check(c)
  {
  }

  /** The issue-time bounds are strict: a command issued at the threshold is
      rejected by either, so equal bounds accept nothing. */
  lemma CommandFilterStrictBounds(f: CommandFilter, c: Command)
    requires f.issuedAfter == Some(c.issuedAt) || f.issuedBefore == Some(c.issuedAt)
      || (f.issuedAfter.Some? && f.issuedAfter == f.issuedBefore)
    ensures !f.Check(c)
  {
  }

  /** One condition a report-subscription filter can carry. */
  datatype SubscriptionCondition =
    | SubscribedEntityIs(entityId: string)
    | ReportTypeIs(reportType: string)
    | ActiveIs(isActive: bool)
    | UpdatedAfter(threshold: int)
    | UpdatedBefore(threshold: int)

  predicate SubscriptionHolds(k: SubscriptionCondition, s: ReportSubscription)
  {
    match k
    case SubscribedEntityIs(id) => s.entityId == id
    case ReportTypeIs(t) => s.reportType == t
    case ActiveIs(a) => s.isActive == a
    case UpdatedAfter(t) => s.updatedAt > t
    case UpdatedBefore(t) => s.updatedAt < t
  }

  /** filters/report_subscription.go: five optional conditions. */
  class ReportSubscriptionFilter {
    var entityId: Option<string>
    var reportType: Option<string>
    var isActive: Option<bool>
    var updatedAfter: Option<int>
    var updatedBefore: Option<int>

    /** `NewReportSubscriptionFilter()`. */
    constructor ()
      ensures entityId == None && reportType == None && isActive == None
      ensures updatedAfter == None && updatedBefore == None
      ensures Conditions() == {}
    {
      entityId, reportType, isActive, updatedAfter, updatedBefore := None, None, None, None, None;
    }

    ghost function Conditions(): set<SubscriptionCondition>
      reads this
    {
      (if entityId.Some? then {SubscribedEntityIs(entityId.value)} else {})
      + (if reportType.Some? then {ReportTypeIs(reportType.value)} else {})
      + (if isActive.Some? then {ActiveIs(isActive.value)} else {})
      + (if updatedAfter.Some? then {UpdatedAfter(updatedAfter.value)} else {})
      + (if updatedBefore.Some? then {UpdatedBefore(updatedBefore.value)} else {})
    }

    method ByEntityID(id: string) returns (f: ReportSubscriptionFilter)
      modifies this
      ensures f == this
      ensures entityId == Some(id)
      ensures reportType == old(reportType) && isActive == old(isActive)
      ensures updatedAfter == old(updatedAfter) && updatedBefore == old(updatedBefore)
      ensures old(entityId) == None ==> Conditions() == old(Conditions()) + {SubscribedEntityIs(id)}
    {
      entityId := Some(id);
      return this;
    }

    method ByReportType(t: string) returns (f: ReportSubscriptionFilter)
      modifies this
      ensures f == this
      ensures reportType == Some(t)
      ensures entityId == old(entityId) && isActive == old(isActive)
      ensures updatedAfter == old(updatedAfter) && updatedBefore == old(updatedBefore)
      ensures old(reportType) == None ==> Conditions() == old(Conditions()) + {ReportTypeIs(t)}
    {
      reportType := Some(t);
      return this;
    }

    method ByIsActive(a: bool) returns (f: ReportSubscriptionFilter)
      modifies this
      ensures f == this
      ensures isActive == Some(a)
      ensures entityId == old(entityId) && reportType == old(reportType)
      ensures updatedAfter == old(updatedAfter) && updatedBefore == old(updatedBefore)
      ensures old(isActive) == None ==> Conditions() == old(Conditions()) + {ActiveIs(a)}
    {
      isActive := Some(a);
      return this;
    }

    method ByTimeAfterUpdated(threshold: int) returns (f: ReportSubscriptionFilter)
      modifies this
      ensures f == this
      ensures updatedAfter == Some(threshold)
      ensures entityId == old(entityId) && reportType == old(reportType)
      ensures isActive == old(isActive) && updatedBefore == old(updatedBefore)
      ensures old(updatedAfter) == None ==> Conditions() == old(Conditions()) + {UpdatedAfter(threshold)}
    {
      updatedAfter := Some(threshold);
      return this;
    }

    method ByTimeBeforeUpdated(threshold: int) returns (f: ReportSubscriptionFilter)
      modifies this
      ensures f == this
      ensures updatedBefore == Some(threshold)
      ensures entityId == old(entityId) && reportType == old(reportType)
      ensures isActive == old(isActive) && updatedAfter == old(updatedAfter)
      ensures old(updatedBefore) == None ==> Conditions() == old(Conditions()) + {UpdatedBefore(threshold)}
    {
      updatedBefore := Some(threshold);
      return this;
    }

    /** True exactly when every set condition holds of the subscription. */
    function Check(s: ReportSubscription): (r: bool)
      reads this
      ensures r <==> forall k :: k in Conditions() ==> SubscriptionHolds(k, s)
    {
      if entityId.Some? && entityId.value != s.entityId then
        assert SubscribedEntityIs(entityId.value) in Conditions(); false
      else if reportType.Some? && reportType.value != s.reportType then
        assert ReportTypeIs(reportType.value) in Conditions(); false
      else if isActive.Some? && isActive.value != s.isActive then
        assert ActiveIs(isActive.value) in Conditions(); false
      else if updatedAfter.Some? && !(s.updatedAt > updatedAfter.value) then
        assert UpdatedAfter(updatedAfter.value) in Conditions(); false
      else if updatedBefore.Some? && !(s.updatedAt < updatedBefore.value) then
        assert UpdatedBefore(updatedBefore.value) in Conditions(); false
      else true
    }
  }

  lemma SubscriptionFilterEmptyAcceptsAll(f: ReportSubscriptionFilter, s: ReportSubscription)
    requires f.Conditions() == {}
    ensures f.Check(s)
  {
  }

  lemma SubscriptionFilterMonotone(f: ReportSubscriptionFilter, g: ReportSubscriptionFilter, s: ReportSubscription)
    requires f.Conditions() <= g.Conditions()
    ensures g.Check(s) ==> f.Check(s)
  {
  }

  /** Strict update-time bounds: a subscription updated exactly at a threshold
      is rejected by either bound. */
  lemma SubscriptionFilterStrictBounds(f: ReportSubscriptionFilter, s: ReportSubscription)
    requires f.updatedAfter == Some(s.updatedAt) || f.updatedBefore == Some(s.updatedAt)
      || (f.updatedAfter.Some? && f.updatedAfter == f.updatedBefore)
    ensures !f.Check(s)
  {
  }
}
