/** bbolt.go: the oldest, read-only entity store. Entities are looked up by
    an integer id, whose decimal text is the key. */
module LegacyBBolt {
  import opened Wrappers
  import opened Errors
  import opened Keys
  import opened Models
  import opened Codec
  import opened Bolt
  import RepoEntity

  const BucketEntity := "Entity"

  /** The store after `CreateTables` commits: only `Entity` is created if missing. */
  function EntityTableCreated(bs: Buckets): (r: Buckets)
    ensures r.Keys == bs.Keys + {BucketEntity}
    ensures forall n :: n in bs ==> r[n] == bs[n]
    ensures BucketEntity !in bs ==> r[BucketEntity] == EmptyBucket
    ensures WellFormed(bs) ==> WellFormed(r)
  {
    CreateBucketIfNotExists(bs, BucketEntity)
  }

  method CreateTables(db: DB) returns (err: Option<StoreError>)
    requires db.Valid()
    modifies db
    ensures db.Valid()
    ensures err == None && db.buckets == EntityTableCreated(old(db.buckets))
  {
    var tx := db.buckets;
    tx := CreateBucketIfNotExists(tx, BucketEntity);
    db.buckets := tx;
    return None;
  }

  lemma CreateTablesIdempotent(bs: Buckets)
    ensures EntityTableCreated(EntityTableCreated(bs)) == EntityTableCreated(bs)
  {
  }

  /** What `GetEntityByID(id)` returns: the lookup under the key `Itoa(id)`. */
  function EntityByNumber(bs: Buckets, id: int): (r: Result<Entity, StoreError>)
    ensures BucketEntity !in bs ==> r == Failure(TableDoesNotExist)
    ensures BucketEntity in bs && Itoa(id) !in bs[BucketEntity].Contents() ==> r == Failure(RecordNotFound)
    ensures BucketEntity in bs && Itoa(id) in bs[BucketEntity].Contents() ==>
      match UnmarshalEntity(bs[BucketEntity].Contents()[Itoa(id)])
      case None => r == Failure(InvalidData)
      case Some(e) => r == Success(e)
  {
    RepoEntity.EntityByID(bs, Itoa(id))
  }

  /** A read-only transaction; nothing in the store changes. */
  method GetEntityByID(db: DB, id: int) returns (entity: Entity, err: Option<StoreError>)
    ensures err == None ==> EntityByNumber(db.buckets, id) == Success(entity)
    ensures err != None ==> EntityByNumber(db.buckets, id) == Failure(err.value) && entity == RepoEntity.ZeroEntity
  {
    if BucketEntity !in db.buckets {
      return RepoEntity.ZeroEntity, Some(TableDoesNotExist);
    }
    var key := Itoa(id);
    var data := db.buckets[BucketEntity].Get(key);
    if data.None? {
      return RepoEntity.ZeroEntity, Some(RecordNotFound);
    }
    var decoded := UnmarshalEntity(data.value);
    if decoded.None? {
      return RepoEntity.ZeroEntity, Some(InvalidData);
    }
    return decoded.value, None;
  }

  method GetAllEntities(db: DB) returns (list: seq<Entity>, err: Option<StoreError>)
    ensures err == None ==> RepoEntity.EntityList(db.buckets) == Success(list)
    ensures err != None ==> RepoEntity.EntityList(db.buckets) == Failure(err.value) && list == []
  {
    list, err := RepoEntity.ListEntities(db);
  }

  /** Distinct ids never read the same record. */
  lemma DistinctIdsDistinctKeys(m: int, n: int)
    requires m != n
    ensures Itoa(m) != Itoa(n)
  {
    if Itoa(m) == Itoa(n) {
      ItoaInjective(m, n);
    }
  }

  /** A record stored under a key that is not decimal text, such as an
      entity id like "lamp", is out of reach of every integer lookup. */
  lemma {:induction false} NonNumericKeyUnreachable(key: string, id: int)
    requires |key| > 0 && key[0] != '-' && !('0' <= key[0] <= '9')
    ensures Itoa(id) != key
  {
    if id >= 0 {
      assert Itoa(id) == Digits(id);
      assert '0' <= Digits(id)[0] <= '9';
    }
  }

  const TestEntity1 := Entity("1", "TestEntity")
  const TestEntity2 := Entity("2", "TestEntity2")

  /** The store the package's tests preload: two valid entities and one
      malformed value under keys "1", "2" and "3". The test names values
      `MockEntityValid1` and `MockEntityValid2` that the mocks file does not
      define, so the names here are illustrative: entity 1 carries the name
      the test expects back, entity 2 the name of the other mock. */
  function Fixture(): (bs: Buckets)
    ensures WellFormed(bs)
  {
    var es := [
      Entry("1", Valid(EntityRecord(TestEntity1))),
      Entry("2", Valid(EntityRecord(TestEntity2))),
      Entry("3", Malformed)];
    assert Below("1", "2") && Below("2", "3") && Below("1", "3");
    map[BucketEntity := Bucket(es, 0)]
  }

  /** Id 1 is found, id 3 is malformed, id 4 is absent, and listing fails
      because of the malformed value. */
  lemma FixtureOutcomes()
    ensures EntityByNumber(Fixture(), 1) == Success(TestEntity1)
    ensures EntityByNumber(Fixture(), 3) == Failure(InvalidData)
    ensures EntityByNumber(Fixture(), 4) == Failure(RecordNotFound)
    ensures RepoEntity.EntityList(Fixture()) == Failure(InvalidData)
  {
    var es := Fixture()[BucketEntity].entries;
    assert Itoa(1) == "1" && Itoa(3) == "3" && Itoa(4) == "4";
    assert ContentsOf(es[1..][1..][1..]) == map[];
    assert ContentsOf(es[1..][1..]) == map["3" := Malformed];
    assert ContentsOf(es[1..]) == map["3" := Malformed]["2" := Valid(EntityRecord(TestEntity2))];
    assert Fixture()[BucketEntity].Contents()
      == map["3" := Malformed]["2" := Valid(EntityRecord(TestEntity2))]["1" := Valid(EntityRecord(TestEntity1))];
    assert UnmarshalEntity(es[2].value).None?;
  }
}
