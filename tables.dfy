/** tables.go: the bucket names of package `boltdb` and schema creation. */
module Tables {
  import opened Wrappers
  import opened Errors
  import opened Bolt

  const BucketEntity := "Entity"
  const BucketCommand := "Command"
  const BucketReportSubscription := "ReportSubscription"

  /** The store after `CreateTables` commits: `Entity` and `Command` exist,
      every bucket that existed is untouched, and `ReportSubscription` is not
      created. */
  function TablesCreated(bs: Buckets): (r: Buckets)
    ensures r.Keys == bs.Keys + {BucketEntity, BucketCommand}
    ensures forall n :: n in bs ==> r[n] == bs[n]
    ensures BucketReportSubscription in r <==> BucketReportSubscription in bs
    ensures WellFormed(bs) ==> WellFormed(r)
  {
    CreateBucketIfNotExists(CreateBucketIfNotExists(bs, BucketEntity), BucketCommand)
  }

  /** One `Update` creating both buckets if missing. With constant, non-empty
      names bbolt cannot refuse either creation, so the call always commits. */
  method CreateTables(db: DB) returns (err: Option<StoreError>)
    requires db.Valid()
    modifies db
    ensures db.Valid()
    ensures err == None && db.buckets == TablesCreated(old(db.buckets))
  {
    var tx := db.buckets;
    tx := CreateBucketIfNotExists(tx, BucketEntity);
    tx := CreateBucketIfNotExists(tx, BucketCommand);
    db.buckets := tx;
    return None;
  }

  /** Calling `CreateTables` twice gives the store that one call gives. */
  lemma TablesCreatedIdempotent(bs: Buckets)
    ensures TablesCreated(TablesCreated(bs)) == TablesCreated(bs)
  {
  }

  /** On an empty file the schema holds two empty buckets and no `ReportSubscription`. */
  lemma TablesOnFreshStore()
    ensures TablesCreated(map[]) == map[BucketEntity := EmptyBucket, BucketCommand := EmptyBucket]
    ensures BucketReportSubscription !in TablesCreated(map[])
  {
  }
}
