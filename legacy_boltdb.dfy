/** boltdb.go: the earlier entity store of package `boltdb`, which declares
    its own `Entity` bucket name and creates only that bucket. Its entity
    operations are those of the entity repository, over the same bucket. */
module LegacyBoltDB {
  import opened Wrappers
  import opened Errors
  import opened Models
  import opened Bolt
  import Tables
  import RepoEntity

  const BucketEntity := "Entity"

  /** The store after this variant's `CreateTables` commits: only `Entity`
      is created if missing, every other bucket is left as it was. */
  function EntityTableCreated(bs: Buckets): (r: Buckets)
    ensures r.Keys == bs.Keys + {BucketEntity}
    ensures forall n :: n in bs ==> r[n] == bs[n]
    ensures BucketEntity !in bs ==> r[BucketEntity] == EmptyBucket
    ensures WellFormed(bs) ==> WellFormed(r)
  {
    CreateBucketIfNotExists(bs, BucketEntity)
  }

  method CreateTables(db: DB) returns (err: Option<StoreError>)
    requires db.Valid()
    modifies db
    ensures db.Valid()
    ensures err == None && db.buckets == EntityTableCreated(old(db.buckets))
  {
    var tx := db.buckets;
    tx := CreateBucketIfNotExists(tx, BucketEntity);
    db.buckets := tx;
    return None;
  }

  /** A second `CreateTables` changes nothing. */
  lemma CreateTablesIdempotent(bs: Buckets)
    ensures EntityTableCreated(EntityTableCreated(bs)) == EntityTableCreated(bs)
  {
  }

  /** This variant names the same bucket as `tables.go`, so its schema is
      contained in the one the newer `CreateTables` builds. */
  lemma SchemaContained(bs: Buckets)
    ensures BucketEntity == Tables.BucketEntity
    ensures Tables.TablesCreated(bs) == CreateBucketIfNotExists(EntityTableCreated(bs), Tables.BucketCommand)
  {
  }

  /** On a fresh store the entity bucket exists and is empty, so listing
      succeeds with no entities and every lookup reports the record missing. */
  lemma FreshStoreIsEmpty(id: string)
    ensures RepoEntity.EntityList(EntityTableCreated(map[])) == Success([])
    ensures RepoEntity.EntityByID(EntityTableCreated(map[]), id) == Failure(RecordNotFound)
  {
  }

  method GetEntityByID(db: DB, id: string) returns (entity: Entity, err: Option<StoreError>)
    ensures err == None ==> RepoEntity.EntityByID(db.buckets, id) == Success(entity)
    ensures err != None ==> RepoEntity.EntityByID(db.buckets, id) == Failure(err.value) && entity == RepoEntity.ZeroEntity
  {
    entity, err := RepoEntity.GetEntityByID(db, id);
  }

  method GetAllEntities(db: DB) returns (list: seq<Entity>, err: Option<StoreError>)
    ensures err == None ==> RepoEntity.EntityList(db.buckets) == Success(list)
    ensures err != None ==> RepoEntity.EntityList(db.buckets) == Failure(err.value) && list == []
  {
    list, err := RepoEntity.ListEntities(db);
  }

  method AddEntity(db: DB, id: string, name: string) returns (err: Option<StoreError>)
    requires db.Valid()
    modifies db
    ensures db.Valid()
    ensures RepoEntity.AddEntityOutcome(old(db.buckets), id, name).Success? ==>
      err == None && db.buckets == RepoEntity.AddEntityOutcome(old(db.buckets), id, name).value
    ensures RepoEntity.AddEntityOutcome(old(db.buckets), id, name).Failure? ==>
      err == Some(RepoEntity.AddEntityOutcome(old(db.buckets), id, name).error) && db.buckets == old(db.buckets)
  {
    err := RepoEntity.AddEntity(db, id, name);
  }

  method DeleteEntity(db: DB, id: string) returns (err: Option<StoreError>)
    requires db.Valid()
    modifies db
    ensures db.Valid()
    ensures DeleteOutcome(old(db.buckets), BucketEntity, id).Success? ==>
      err == None && db.buckets == DeleteOutcome(old(db.buckets), BucketEntity, id).value
    ensures DeleteOutcome(old(db.buckets), BucketEntity, id).Failure? ==>
      err == Some(DeleteOutcome(old(db.buckets), BucketEntity, id).error) && db.buckets == old(db.buckets)
  {
    err := RepoEntity.DeleteEntity(db, id);
  }
}
