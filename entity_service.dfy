/** entity.go: the entity service. Its CRUD methods translate storage errors
    into service errors; `ProcessCommand` persists a pending command and then
    publishes it, two steps with no atomicity between them. */
module EntityService {
  import opened Wrappers
  import opened Errors
  import opened Models
  import opened Codec
  import opened Bolt
  import opened Tables
  import opened Broker
  import RepoEntity
  import RepoCommand

  /** The translation used by Get, Delete and the lookup in `ProcessCommand`. */
  function NotFoundOr(e: StoreError): (r: ServiceError)
    ensures r == EntityNotFound <==> e == RecordNotFound
    ensures r != EntityAlreadyExists
  {
    if e == RecordNotFound then EntityNotFound else InternalError
  }

  /** The translation used by Add. */
  function DuplicateOr(e: StoreError): (r: ServiceError)
    ensures r == EntityAlreadyExists <==> e == DuplicateRecord
    ensures r != EntityNotFound
  {
    if e == DuplicateRecord then EntityAlreadyExists else InternalError
  }

  /** The command `ProcessCommand` stores: fresh id, pending, issued now, unresolved. */
  function PendingCommand(commandId: string, entityId: string, desiredState: DesiredState, now: int): (c: Command)
    ensures c.id == commandId && c.entityId == entityId && c.desiredState == desiredState
    ensures c.status == StatusPending && c.issuedAt == now && c.resolvedAt == None
  {
    Command(commandId, entityId, desiredState, StatusPending, now, None)
  }

  /** The logical topic an entity's commands are published on, before `Format`. */
  function UpdateTopic(entityId: string): (t: string)
    ensures |t| == |entityId| + 16
    ensures t[..9] == "entities/" && t[|t| - 7..] == "/update"
    ensures t[9..|t| - 7] == entityId
  {
    "entities/" + entityId + "/update"
  }

  class BaseEntityService {
    const db: DB
    const broker: Broker

    constructor (db: DB, broker: Broker)
      ensures this.db == db && this.broker == broker
    {
      this.db := db;
      this.broker := broker;
    }

    method GetEntityByID(id: string) returns (entity: Entity, err: Option<ServiceError>)
      ensures RepoEntity.EntityByID(db.buckets, id).Success? ==>
        err == None && entity == RepoEntity.EntityByID(db.buckets, id).value
      ensures RepoEntity.EntityByID(db.buckets, id).Failure? ==>
        err == Some(NotFoundOr(RepoEntity.EntityByID(db.buckets, id).error)) && entity == RepoEntity.ZeroEntity
    {
      var found, e := RepoEntity.GetEntityByID(db, id);
      if e.Some? {
        return RepoEntity.ZeroEntity, Some(NotFoundOr(e.value));
      }
      return found, None;
    }

    /** Every listing error, missing bucket included, becomes an internal error. */
    method ListEntities() returns (list: seq<Entity>, err: Option<ServiceError>)
      ensures RepoEntity.EntityList(db.buckets).Success? ==>
        err == None && list == RepoEntity.EntityList(db.buckets).value
      ensures RepoEntity.EntityList(db.buckets).Failure? ==> err == Some(InternalError) && list == []
    {
      var found, e := RepoEntity.ListEntities(db);
      if e.Some? {
        return [], Some(InternalError);
      }
      return found, None;
    }

    method AddEntity(entity: Entity) returns (err: Option<ServiceError>)
      requires db.Valid()
      modifies db
      ensures db.Valid()
      ensures RepoEntity.AddEntityOutcome(old(db.buckets), entity.id, entity.name).Success? ==>
        err == None && db.buckets == RepoEntity.AddEntityOutcome(old(db.buckets), entity.id, entity.name).value
      ensures RepoEntity.AddEntityOutcome(old(db.buckets), entity.id, entity.name).Failure? ==>
        && err == Some(DuplicateOr(RepoEntity.AddEntityOutcome(old(db.buckets), entity.id, entity.name).error))
        && db.buckets == old(db.buckets)
    {
      var e := RepoEntity.AddEntity(db, entity.id, entity.name);
      if e.Some? {
        return Some(DuplicateOr(e.value));
      }
      return None;
    }

    method DeleteEntity(id: string) returns (err: Option<ServiceError>)
      requires db.Valid()
      modifies db
      ensures db.Valid()
      ensures DeleteOutcome(old(db.buckets), BucketEntity, id).Success? ==>
        err == None && db.buckets == DeleteOutcome(old(db.buckets), BucketEntity, id).value
      ensures DeleteOutcome(old(db.buckets), BucketEntity, id).Failure? ==>
        err == Some(NotFoundOr(DeleteOutcome(old(db.buckets), BucketEntity, id).error)) && db.buckets == old(db.buckets)
    {
      var e := RepoEntity.DeleteEntity(db, id);
      if e.Some? {
        return Some(NotFoundOr(e.value));
      }
      return None;
    }

    /** Check the entity, persist a pending command under the fresh id
        `commandId` (the `uuid.NewString` result), then publish its desired
        state keyed by that id. A failed publish leaves the command stored. */
    method ProcessCommand(entityId: string, desiredState: DesiredState, commandId: string, now: int)
      returns (id: string, err: Option<ServiceError>)
      requires db.Valid()
      modifies db, broker
      ensures db.Valid()
      ensures broker.connected == old(broker.connected)
      ensures RepoEntity.EntityByID(old(db.buckets), entityId).Failure? ==>
        && id == "" && err == Some(NotFoundOr(RepoEntity.EntityByID(old(db.buckets), entityId).error))
        && db.buckets == old(db.buckets) && broker.published == old(broker.published)
      ensures RepoEntity.EntityByID(old(db.buckets), entityId).Success? ==>
        var added := RepoCommand.AddCommandOutcome(old(db.buckets), PendingCommand(commandId, entityId, desiredState, now));
        && (added.Failure? ==>
              id == "" && err == Some(InternalError)
              && db.buckets == old(db.buckets) && broker.published == old(broker.published))
        && (added.Success? && old(broker.connected) ==>
              id == commandId && err == None && db.buckets == added.value
              && broker.published == old(broker.published)
                 + [Publication(broker.format(UpdateTopic(entityId)), Message(commandId, desiredState))])
        && (added.Success? && !old(broker.connected) ==>
              id == "" && err == Some(InternalError)
              && db.buckets == added.value && broker.published == old(broker.published))
    {
      var _, lookupErr := RepoEntity.GetEntityByID(db, entityId);
      if lookupErr.Some? {
        return "", Some(NotFoundOr(lookupErr.value));
      }
      var command := PendingCommand(commandId, entityId, desiredState, now);
      var addErr := RepoCommand.AddCommand(db, command);
      if addErr.Some? {
        return "", Some(InternalError);
      }
      var topic := broker.format(UpdateTopic(entityId));
      if !Encodable(desiredState) {
        return "", Some(InternalError);
      }
      var publishErr := broker.Publish(topic, Message(commandId, desiredState));
      if publishErr.Some? {
        return "", Some(InternalError);
      }
      return commandId, None;
    }
  }

  /** After a successful issue the command is found under the returned id,
      pending, unresolved, for the given entity and desired state. */
  lemma IssuedCommandIsPending(decl: StatusDeclaration, bs: Buckets, entityId: string, desiredState: DesiredState, commandId: string, now: int)
    requires RepoCommand.AddCommandOutcome(bs, PendingCommand(commandId, entityId, desiredState, now)).Success?
    ensures var after := RepoCommand.AddCommandOutcome(bs, PendingCommand(commandId, entityId, desiredState, now)).value;
      var found := RepoCommand.CommandByID(decl, after, commandId);
      && found.Success?
      && found.value.id == commandId && found.value.entityId == entityId
      && found.value.desiredState == desiredState
      && found.value.status == StatusPending && found.value.resolvedAt == None
  {
    RepoCommand.AddThenGet(decl, bs, PendingCommand(commandId, entityId, desiredState, now));
  }

  /** The command is persisted only if its desired state can be encoded, so the
      payload encoding that precedes the publish cannot fail after a stored command. */
  lemma StoredStateIsEncodable(bs: Buckets, entityId: string, desiredState: DesiredState, commandId: string, now: int)
    requires RepoCommand.AddCommandOutcome(bs, PendingCommand(commandId, entityId, desiredState, now)).Success?
    ensures Encodable(desiredState)
  {
  }

  /** Issuing a command leaves the entity bucket alone, so the entity it was
      issued for is still found afterwards. */
  lemma IssueKeepsEntities(bs: Buckets, entityId: string, desiredState: DesiredState, commandId: string, now: int)
    requires RepoCommand.AddCommandOutcome(bs, PendingCommand(commandId, entityId, desiredState, now)).Success?
    ensures var after := RepoCommand.AddCommandOutcome(bs, PendingCommand(commandId, entityId, desiredState, now)).value;
      forall id :: RepoEntity.EntityByID(after, id) == RepoEntity.EntityByID(bs, id)
  {
  }

  /** Two issues for the same entity with distinct fresh ids both remain
      retrievable, under either `CommandStatus` declaration: both accept
      the status "pending". */
  lemma SuccessiveIssuesBothStored(decl: StatusDeclaration, bs: Buckets, entityId: string,
                                   id1: string, ds1: DesiredState, t1: int,
                                   id2: string, ds2: DesiredState, t2: int)
    requires id1 != id2
    requires RepoCommand.AddCommandOutcome(bs, PendingCommand(id1, entityId, ds1, t1)).Success?
    requires RepoCommand.AddCommandOutcome(RepoCommand.AddCommandOutcome(bs, PendingCommand(id1, entityId, ds1, t1)).value,
                                           PendingCommand(id2, entityId, ds2, t2)).Success?
    ensures var once := RepoCommand.AddCommandOutcome(bs, PendingCommand(id1, entityId, ds1, t1)).value;
      var after := RepoCommand.AddCommandOutcome(once, PendingCommand(id2, entityId, ds2, t2)).value;
      && RepoCommand.CommandByID(decl, after, id1) == Success(PendingCommand(id1, entityId, ds1, t1))
      && RepoCommand.CommandByID(decl, after, id2) == Success(PendingCommand(id2, entityId, ds2, t2))
  {
  }
}
