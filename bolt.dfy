/** The embedded key/value engine as the repositories see it: a database is a
    map from bucket name to bucket; a bucket keeps its entries in strict key
    order (the order `ForEach` visits them) and a sequence counter for
    `NextSequence`. B+tree pages, mmap and locking are not modelled. */
module Bolt {
  import opened Wrappers
  import opened Errors
  import opened Keys
  import opened Codec

  datatype Entry = Entry(key: string, value: Document)

  /** Keys strictly increase along the entries. */
  ghost predicate Ordered(es: seq<Entry>)
  {
    forall i, j :: 0 <= i < j < |es| ==> Below(es[i].key, es[j].key)
  }

  /** The map view of a run of entries. */
  function ContentsOf(es: seq<Entry>): map<string, Document>
  {
    if es == [] then map[] else ContentsOf(es[1..])[es[0].key := es[0].value]
  }

  /** Every key of the map view comes from an entry holding that key and value. */
  lemma {:induction false} ContentsEntry(es: seq<Entry>, key: string) returns (i: nat)
    requires key in ContentsOf(es)
    ensures i < |es| && es[i].key == key && es[i].value == ContentsOf(es)[key]
  {
    if es[0].key == key {
      i := 0;
    } else {
      var j := ContentsEntry(es[1..], key);
      i := j + 1;
    }
  }

  /** `Bucket.Get`: the value under `key`, or nil. */
  function Lookup(es: seq<Entry>, key: string): (r: Option<Document>)
    ensures r.Some? <==> key in ContentsOf(es)
    ensures r.Some? ==> r.value == ContentsOf(es)[key]
  {
    if es == [] then None
    else if es[0].key == key then Some(es[0].value)
    else Lookup(es[1..], key)
  }

  /** Writing `key` in place, or inserting it at its place in key order. */
  function Insert(es: seq<Entry>, key: string, v: Document): (r: seq<Entry>)
    ensures ContentsOf(r) == ContentsOf(es)[key := v]
  {
    if es == [] then [Entry(key, v)]
    else if es[0].key == key then [Entry(key, v)] + es[1..]
    else if Below(key, es[0].key) then [Entry(key, v)] + es
    else
      var rest := Insert(es[1..], key, v);
      assert ([es[0]] + rest)[1..] == rest;
      [es[0]] + rest
  }

  /** Dropping every entry under `key`. */
  function Remove(es: seq<Entry>, key: string): (r: seq<Entry>)
    ensures ContentsOf(r) == ContentsOf(es) - {key}
  {
    if es == [] then []
    else if es[0].key == key then Remove(es[1..], key)
    else
      var rest := Remove(es[1..], key);
      assert ([es[0]] + rest)[1..] == rest;
      [es[0]] + rest
  }

  lemma {:induction false} InsertAbove(es: seq<Entry>, key: string, v: Document, lo: string)
    requires Below(lo, key)
    requires forall i :: 0 <= i < |es| ==> Below(lo, es[i].key)
    ensures forall i :: 0 <= i < |Insert(es, key, v)| ==> Below(lo, Insert(es, key, v)[i].key)
  {
    if es != [] && es[0].key != key && !Below(key, es[0].key) {
      InsertAbove(es[1..], key, v, lo);
    }
  }

  /** Insertion keeps the entries in key order. */
  lemma {:induction false} InsertOrdered(es: seq<Entry>, key: string, v: Document)
    ensures Ordered(es) ==> Ordered(Insert(es, key, v))
  {
    var r := Insert(es, key, v);
    if !Ordered(es) || es == [] {
    } else if es[0].key == key {
      assert forall i :: 0 <= i < |r| ==> r[i].key == es[i].key;
    } else if Below(key, es[0].key) {
      forall j | 1 <= j < |r|
        ensures Below(key, r[j].key)
      {
        if j > 1 {
          BelowTransitive(key, es[0].key, es[j - 1].key);
        }
      }
    } else {
      BelowTotal(key, es[0].key);
      InsertOrdered(es[1..], key, v);
      InsertAbove(es[1..], key, v, es[0].key);
    }
  }

  /** A key found among entries that all lie above `lo` lies above `lo` too. */
  lemma {:induction false} LookupAbove(es: seq<Entry>, key: string, lo: string)
    requires Lookup(es, key).Some?
    requires forall i :: 0 <= i < |es| ==> Below(lo, es[i].key)
    ensures Below(lo, key)
  {
    if es[0].key != key {
      LookupAbove(es[1..], key, lo);
    }
  }

  /** Writing back the value a key already holds leaves ordered entries as they were. */
  lemma {:induction false} InsertPresent(es: seq<Entry>, key: string, v: Document)
    requires Ordered(es) && Lookup(es, key) == Some(v)
    ensures Insert(es, key, v) == es
  {
    if es[0].key != key {
      LookupAbove(es[1..], key, es[0].key);
      if Below(key, es[0].key) {
        BelowTransitive(key, es[0].key, key);
        BelowIrreflexive(key);
      }
      InsertPresent(es[1..], key, v);
    }
  }

  lemma {:induction false} RemoveAbove(es: seq<Entry>, key: string, lo: string)
    requires forall i :: 0 <= i < |es| ==> Below(lo, es[i].key)
    ensures forall i :: 0 <= i < |Remove(es, key)| ==> Below(lo, Remove(es, key)[i].key)
  {
    if es != [] {
      RemoveAbove(es[1..], key, lo);
    }
  }

  /** Removal keeps the entries in key order. */
  lemma {:induction false} RemoveOrdered(es: seq<Entry>, key: string)
    ensures Ordered(es) ==> Ordered(Remove(es, key))
  {
    if Ordered(es) && es != [] {
      RemoveOrdered(es[1..], key);
      if es[0].key != key {
        RemoveAbove(es[1..], key, es[0].key);
      }
    }
  }

  datatype Bucket = Bucket(entries: seq<Entry>, sequence: nat) {

    ghost predicate Valid()
    {
      Ordered(entries)
    }

    function Contents(): map<string, Document>
    {
      ContentsOf(entries)
    }

    function Get(key: string): (r: Option<Document>)
      ensures r.Some? <==> key in Contents()
      ensures r.Some? ==> r.value == Contents()[key]
    {
      Lookup(entries, key)
    }

    /** `Bucket.Put`: bbolt refuses an empty key (ErrKeyRequired); otherwise the
        key is bound to the value and nothing else changes. */
    function Put(key: string, v: Document): (r: Option<Bucket>)
      ensures r.Some? <==> key != ""
      ensures r.Some? ==> r.value.Contents() == Contents()[key := v]
      ensures r.Some? ==> r.value.sequence == sequence
      ensures r.Some? && Valid() ==> r.value.Valid()
    {
      if key == "" then None
      else
        InsertOrdered(entries, key, v);
        Some(Bucket(Insert(entries, key, v), sequence))
    }

    /** `Bucket.Delete`: removes `key`, leaving the sequence as it was. */
    function Delete(key: string): (r: Bucket)
      ensures r.Contents() == Contents() - {key}
      ensures r.sequence == sequence
      ensures Valid() ==> r.Valid()
    {
      RemoveOrdered(entries, key);
      Bucket(Remove(entries, key), sequence)
    }
  }

  const EmptyBucket := Bucket([], 0)

  type Buckets = map<string, Bucket>

  ghost predicate WellFormed(bs: Buckets)
  {
    forall name :: name in bs ==> bs[name].Valid()
  }

  /** `Tx.CreateBucketIfNotExists` for a valid (non-empty) bucket name: an
      existing bucket is kept as it is, a missing one is created empty. */
  function CreateBucketIfNotExists(bs: Buckets, name: string): (r: Buckets)
    ensures r.Keys == bs.Keys + {name}
    ensures forall n :: n in bs ==> r[n] == bs[n]
    ensures name !in bs ==> r[name] == EmptyBucket
    ensures WellFormed(bs) ==> WellFormed(r)
  {
    if name in bs then bs else bs[name := EmptyBucket]
  }

  /** The first two checks of every point operation: the bucket must exist and
      the key must be present. */
  function Fetch(bs: Buckets, name: string, key: string): (r: Result<Document, StoreError>)
    ensures name !in bs ==> r == Failure(TableDoesNotExist)
    ensures name in bs && key !in bs[name].Contents() ==> r == Failure(RecordNotFound)
    ensures name in bs && key in bs[name].Contents() ==> r == Success(bs[name].Contents()[key])
  {
    if name !in bs then Failure(TableDoesNotExist)
    else
      var data := bs[name].Get(key);
      if data.None? then Failure(RecordNotFound) else Success(data.value)
  }

  /** The shared shape of `DeleteEntity`, `DeleteCommand` and
      `DeleteReportSubscription`: the store after the committed write, or the
      error that rolled it back. */
  function DeleteOutcome(bs: Buckets, name: string, key: string): (r: Result<Buckets, StoreError>)
    ensures name !in bs ==> r == Failure(TableDoesNotExist)
    ensures name in bs && key !in bs[name].Contents() ==> r == Failure(RecordNotFound)
    ensures name in bs && key in bs[name].Contents() ==>
      && r.Success?
      && r.value.Keys == bs.Keys
      && r.value[name].Contents() == bs[name].Contents() - {key}
      && r.value[name].sequence == bs[name].sequence
      && (forall n :: n in bs && n != name ==> r.value[n] == bs[n])
    ensures r.Success? && WellFormed(bs) ==> WellFormed(r.value)
  {
    if name !in bs then Failure(TableDoesNotExist)
    else if bs[name].Get(key).None? then Failure(RecordNotFound)
    else Success(bs[name := bs[name].Delete(key)])
  }

  /** A bbolt database handle: the buckets of one file. */
  class DB {
    var buckets: Buckets

    ghost predicate Valid()
      reads this
    {
      WellFormed(buckets)
    }

    /** A freshly created, empty database file. */
    constructor ()
      ensures buckets == map[] && Valid()
    {
      buckets := map[];
    }
  }

  /** The transaction behind every `Delete*` repository call: one `Update`
      that checks the bucket and the key, then deletes. */
  method DeleteRecord(db: DB, name: string, key: string) returns (err: Option<StoreError>)
    requires db.Valid()
    modifies db
    ensures db.Valid()
    ensures DeleteOutcome(old(db.buckets), name, key).Success? ==>
      err == None && db.buckets == DeleteOutcome(old(db.buckets), name, key).value
    ensures DeleteOutcome(old(db.buckets), name, key).Failure? ==>
      err == Some(DeleteOutcome(old(db.buckets), name, key).error) && db.buckets == old(db.buckets)
  {
    var tx := db.buckets;
    if name !in tx {
      return Some(TableDoesNotExist);
    }
    var bucket := tx[name];
    if bucket.Get(key).None? {
      return Some(RecordNotFound);
    }
    tx := tx[name := bucket.Delete(key)];
    db.buckets := tx;
    return None;
  }
}
