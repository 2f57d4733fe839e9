/** repo_entity.go: the entity repository over the `Entity` bucket. Entities
    are stored under their own id as key. */
module RepoEntity {
  import opened Wrappers
  import opened Errors
  import opened Models
  import opened Codec
  import opened Bolt
  import opened Tables

  const ZeroEntity := Entity("", "")

  /** What `GetEntityByID(id)` returns, checks taken in the order of the source. */
  function EntityByID(bs: Buckets, id: string): (r: Result<Entity, StoreError>)
    ensures BucketEntity !in bs ==> r == Failure(TableDoesNotExist)
    ensures BucketEntity in bs && id !in bs[BucketEntity].Contents() ==> r == Failure(RecordNotFound)
    ensures BucketEntity in bs && id in bs[BucketEntity].Contents() ==>
      match UnmarshalEntity(bs[BucketEntity].Contents()[id])
      case None => r == Failure(InvalidData)
      case Some(e) => r == Success(e)
  {
    match Fetch(bs, BucketEntity, id)
    case Failure(e) => Failure(e)
    case Success(data) =>
      var entity := UnmarshalEntity(data);
      if entity.None? then Failure(InvalidData) else Success(entity.value)
  }

  /** A read-only transaction: every error comes with the zero entity. */
  method GetEntityByID(db: DB, id: string) returns (entity: Entity, err: Option<StoreError>)
    ensures err == None ==> EntityByID(db.buckets, id) == Success(entity)
    ensures err != None ==> EntityByID(db.buckets, id) == Failure(err.value) && entity == ZeroEntity
  {
    if BucketEntity !in db.buckets {
      return ZeroEntity, Some(TableDoesNotExist);
    }
    var data := db.buckets[BucketEntity].Get(id);
    if data.None? {
      return ZeroEntity, Some(RecordNotFound);
    }
    var decoded := UnmarshalEntity(data.value);
    if decoded.None? {
      return ZeroEntity, Some(InvalidData);
    }
    return decoded.value, None;
  }

  ghost predicate AllEntities(es: seq<Entry>)
  {
    forall i :: 0 <= i < |es| ==> UnmarshalEntity(es[i].value).Some?
  }

  /** The decoded entities, in the order `ForEach` visits the entries. */
  function Entities(es: seq<Entry>): (r: seq<Entity>)
    requires AllEntities(es)
    ensures |r| == |es|
    ensures forall i :: 0 <= i < |es| ==> UnmarshalEntity(es[i].value) == Some(r[i])
  {
    if es == [] then []
    else Entities(es[..|es| - 1]) + [UnmarshalEntity(es[|es| - 1].value).value]
  }

  /** What `ListEntities` returns: one malformed value anywhere fails the call. */
  ghost function EntityList(bs: Buckets): (r: Result<seq<Entity>, StoreError>)
    ensures BucketEntity !in bs ==> r == Failure(TableDoesNotExist)
    ensures BucketEntity in bs ==>
      var es := bs[BucketEntity].entries;
      r == if AllEntities(es) then Success(Entities(es)) else Failure(InvalidData)
  {
    if BucketEntity !in bs then Failure(TableDoesNotExist)
    else if AllEntities(bs[BucketEntity].entries) then Success(Entities(bs[BucketEntity].entries))
    else Failure(InvalidData)
  }

  /** The `ForEach` loop appending each decoded entity; the list is nil on error. */
  method ListEntities(db: DB) returns (list: seq<Entity>, err: Option<StoreError>)
    ensures err == None ==> EntityList(db.buckets) == Success(list)
    ensures err != None ==> EntityList(db.buckets) == Failure(err.value) && list == []
  {
    if BucketEntity !in db.buckets {
      return [], Some(TableDoesNotExist);
    }
    var es := db.buckets[BucketEntity].entries;
    list := [];
    var i := 0;
    while i < |es|
      invariant 0 <= i <= |es|
      invariant AllEntities(es[..i])
      invariant list == Entities(es[..i])
    {
      var decoded := UnmarshalEntity(es[i].value);
      if decoded.None? {
        return [], Some(InvalidData);
      }
      assert es[..i + 1][..i] == es[..i];
      list := list + [decoded.value];
      i := i + 1;
    }
    assert es[..i] == es;
    return list, None;
  }

  /** The store after `AddEntity(id, name)` commits, or the error that rolls it back. */
  function AddEntityOutcome(bs: Buckets, id: string, name: string): (r: Result<Buckets, StoreError>)
    ensures BucketEntity !in bs ==> r == Failure(TableDoesNotExist)
    ensures BucketEntity in bs && id in bs[BucketEntity].Contents() ==> r == Failure(DuplicateRecord)
    ensures BucketEntity in bs && id !in bs[BucketEntity].Contents() && id == "" ==> r == Failure(TransactionFailed)
    ensures BucketEntity in bs && id !in bs[BucketEntity].Contents() && id != "" ==>
      && r.Success?
      && r.value.Keys == bs.Keys
      && r.value[BucketEntity].Contents() == bs[BucketEntity].Contents()[id := MarshalEntity(Entity(id, name))]
      && (forall n :: n in bs && n != BucketEntity ==> r.value[n] == bs[n])
    ensures r.Success? && WellFormed(bs) ==> WellFormed(r.value)
  {
    if BucketEntity !in bs then Failure(TableDoesNotExist)
    else if bs[BucketEntity].Get(id).Some? then Failure(DuplicateRecord)
    else
      var written := bs[BucketEntity].Put(id, MarshalEntity(Entity(id, name)));
      if written.None? then Failure(TransactionFailed)
      else Success(bs[BucketEntity := written.value])
  }

  /** One `Update`: the key must be new; `Put` refuses an empty key. Marshalling
      a two-string entity cannot fail. */
  method AddEntity(db: DB, id: string, name: string) returns (err: Option<StoreError>)
    requires db.Valid()
    modifies db
    ensures db.Valid()
    ensures AddEntityOutcome(old(db.buckets), id, name).Success? ==>
      err == None && db.buckets == AddEntityOutcome(old(db.buckets), id, name).value
    ensures AddEntityOutcome(old(db.buckets), id, name).Failure? ==>
      err == Some(AddEntityOutcome(old(db.buckets), id, name).error) && db.buckets == old(db.buckets)
  {
    var tx := db.buckets;
    if BucketEntity !in tx {
      return Some(TableDoesNotExist);
    }
    var bucket := tx[BucketEntity];
    if bucket.Get(id).Some? {
      return Some(DuplicateRecord);
    }
    var newEntity := Entity(id, name);
    var data := MarshalEntity(newEntity);
    var written := bucket.Put(id, data);
    if written.None? {
      return Some(TransactionFailed);
    }
    tx := tx[BucketEntity := written.value];
    db.buckets := tx;
    return None;
  }

  method DeleteEntity(db: DB, id: string) returns (err: Option<StoreError>)
    requires db.Valid()
    modifies db
    ensures db.Valid()
    ensures DeleteOutcome(old(db.buckets), BucketEntity, id).Success? ==>
      err == None && db.buckets == DeleteOutcome(old(db.buckets), BucketEntity, id).value
    ensures DeleteOutcome(old(db.buckets), BucketEntity, id).Failure? ==>
      err == Some(DeleteOutcome(old(db.buckets), BucketEntity, id).error) && db.buckets == old(db.buckets)
  {
    err := DeleteRecord(db, BucketEntity, id);
  }

  /** A successful add is visible to a later get. */
  lemma AddThenGet(bs: Buckets, id: string, name: string)
    requires AddEntityOutcome(bs, id, name).Success?
    ensures EntityByID(AddEntityOutcome(bs, id, name).value, id) == Success(Entity(id, name))
  {
  }

  /** A second add of the same id is refused and the store stays as it was. */
  lemma AddTwiceIsDuplicate(bs: Buckets, id: string, name: string, other: string)
    requires AddEntityOutcome(bs, id, name).Success?
    ensures AddEntityOutcome(AddEntityOutcome(bs, id, name).value, id, other) == Failure(DuplicateRecord)
  {
  }

  /** After a successful delete, both a get and a second delete report the record missing. */
  lemma DeleteThenMissing(bs: Buckets, id: string)
    requires DeleteOutcome(bs, BucketEntity, id).Success?
    ensures EntityByID(DeleteOutcome(bs, BucketEntity, id).value, id) == Failure(RecordNotFound)
    ensures DeleteOutcome(DeleteOutcome(bs, BucketEntity, id).value, BucketEntity, id) == Failure(RecordNotFound)
  {
  }

  /** Add then delete of a new id restores the entity bucket's contents. */
  lemma AddThenDeleteRestores(bs: Buckets, id: string, name: string)
    requires AddEntityOutcome(bs, id, name).Success?
    ensures var after := DeleteOutcome(AddEntityOutcome(bs, id, name).value, BucketEntity, id);
      after.Success? && after.value[BucketEntity].Contents() == bs[BucketEntity].Contents()
  {
    var added := AddEntityOutcome(bs, id, name).value;
    assert added[BucketEntity].Contents() - {id} == bs[BucketEntity].Contents();
  }
}
