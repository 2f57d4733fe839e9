/** repo_report_subscription.go: the report-subscription repository over the
    `ReportSubscription` bucket. A subscription with integer id `n` is stored
    under the decimal text of `n`; ids come from the bucket's sequence. */
module RepoReportSubscription {
  import opened Wrappers
  import opened Errors
  import opened Keys
  import opened Models
  import opened Codec
  import opened Bolt
  import opened Tables
  import opened Filters

  const ZeroSubscription := ReportSubscription(0, "", "", None, false, 0)

  /** What `GetReportSubscriptionByID(id)` returns. */
  function SubscriptionByID(bs: Buckets, id: int): (r: Result<ReportSubscription, StoreError>)
    ensures BucketReportSubscription !in bs ==> r == Failure(TableDoesNotExist)
    ensures BucketReportSubscription in bs && Itoa(id) !in bs[BucketReportSubscription].Contents() ==>
      r == Failure(RecordNotFound)
    ensures BucketReportSubscription in bs && Itoa(id) in bs[BucketReportSubscription].Contents() ==>
      match UnmarshalSubscription(bs[BucketReportSubscription].Contents()[Itoa(id)])
      case None => r == Failure(InvalidData)
      case Some(s) => r == Success(s)
  {
    match Fetch(bs, BucketReportSubscription, Itoa(id))
    case Failure(e) => Failure(e)
    case Success(data) =>
      var subscription := UnmarshalSubscription(data);
      if subscription.None? then Failure(InvalidData) else Success(subscription.value)
  }

  method GetReportSubscriptionByID(db: DB, id: int) returns (subscription: ReportSubscription, err: Option<StoreError>)
    ensures err == None ==> SubscriptionByID(db.buckets, id) == Success(subscription)
    ensures err != None ==> SubscriptionByID(db.buckets, id) == Failure(err.value) && subscription == ZeroSubscription
  {
    if BucketReportSubscription !in db.buckets {
      return ZeroSubscription, Some(TableDoesNotExist);
    }
    var key := Itoa(id);
    var data := db.buckets[BucketReportSubscription].Get(key);
    if data.None? {
      return ZeroSubscription, Some(RecordNotFound);
    }
    var decoded := UnmarshalSubscription(data.value);
    if decoded.None? {
      return ZeroSubscription, Some(InvalidData);
    }
    return decoded.value, None;
  }

  ghost predicate AllSubscriptions(es: seq<Entry>)
  {
    forall i :: 0 <= i < |es| ==> UnmarshalSubscription(es[i].value).Some?
  }

  /** The decoded subscriptions the filter accepts, in the order `ForEach` visits them. */
  function Matching(es: seq<Entry>, f: ReportSubscriptionFilter): (r: seq<ReportSubscription>)
    requires AllSubscriptions(es)
    reads f
    ensures |r| <= |es|
    ensures forall s :: s in r ==> f.Check(s)
    ensures forall i :: 0 <= i < |es| && f.Check(UnmarshalSubscription(es[i].value).value) ==>
      UnmarshalSubscription(es[i].value).value in r
  {
    if es == [] then []
    else
      var init := Matching(es[..|es| - 1], f);
      var s := UnmarshalSubscription(es[|es| - 1].value).value;
      if f.Check(s) then init + [s] else init
  }

  /** An empty filter lists every subscription, in key order. */
  lemma {:induction false} MatchingEmptyFilter(es: seq<Entry>, f: ReportSubscriptionFilter)
    requires AllSubscriptions(es) && f.Conditions() == {}
    ensures |Matching(es, f)| == |es|
    ensures forall i :: 0 <= i < |es| ==> Some(Matching(es, f)[i]) == UnmarshalSubscription(es[i].value)
  {
    if es != [] {
      MatchingEmptyFilter(es[..|es| - 1], f);
      SubscriptionFilterEmptyAcceptsAll(f, UnmarshalSubscription(es[|es| - 1].value).value);
    }
  }

  /** The positions of the entries the filter keeps, in visiting order. */
  ghost function Kept(es: seq<Entry>, f: ReportSubscriptionFilter): (idx: seq<nat>)
    requires AllSubscriptions(es)
    reads f
    ensures |idx| == |Matching(es, f)|
    ensures forall j :: 0 <= j < |idx| ==> idx[j] < |es|
    ensures forall j, k :: 0 <= j < k < |idx| ==> idx[j] < idx[k]
  {
    if es == [] then []
    else
      var prev := Kept(es[..|es| - 1], f);
      if f.Check(UnmarshalSubscription(es[|es| - 1].value).value) then prev + [|es| - 1] else prev
  }

  /** The j-th listed subscription is the decoding of the j-th kept entry. */
  lemma {:induction false} KeptDecode(es: seq<Entry>, f: ReportSubscriptionFilter)
    requires AllSubscriptions(es)
    ensures forall j :: 0 <= j < |Kept(es, f)| ==> UnmarshalSubscription(es[Kept(es, f)[j]].value) == Some(Matching(es, f)[j])
  {
    if es != [] {
      var n := |es| - 1;
      KeptDecode(es[..n], f);
      assert forall i :: 0 <= i < n ==> es[..n][i] == es[i];
    }
  }

  /** Every entry the filter accepts is kept. */
  lemma {:induction false} KeptComplete(es: seq<Entry>, f: ReportSubscriptionFilter)
    requires AllSubscriptions(es)
    ensures forall i :: 0 <= i < |es| && f.Check(UnmarshalSubscription(es[i].value).value) ==> i in Kept(es, f)
  {
    if es != [] {
      var n := |es| - 1;
      KeptComplete(es[..n], f);
      assert forall i :: 0 <= i < n ==> es[..n][i] == es[i];
    }
  }

  /** The listing is a filtered walk in key order: the j-th listed subscription
      is the decoding of the entry at the j-th kept position, the positions
      strictly increase, so in an ordered bucket the keys do too, and every
      entry the filter accepts is kept, once. */
  lemma MatchingInKeyOrder(es: seq<Entry>, f: ReportSubscriptionFilter)
    requires AllSubscriptions(es)
    ensures var idx := Kept(es, f);
      && |idx| == |Matching(es, f)|
      && (forall j :: 0 <= j < |idx| ==> idx[j] < |es| && UnmarshalSubscription(es[idx[j]].value) == Some(Matching(es, f)[j]))
      && (forall j, k :: 0 <= j < k < |idx| ==> idx[j] < idx[k])
      && (forall i :: 0 <= i < |es| && f.Check(UnmarshalSubscription(es[i].value).value) ==> i in idx)
      && (Ordered(es) ==> forall j, k :: 0 <= j < k < |idx| ==> Below(es[idx[j]].key, es[idx[k]].key))
  {
    KeptDecode(es, f);
    KeptComplete(es, f);
  }

  /** Adding conditions to the filter only drops subscriptions from the listing. */
  lemma {:induction false} MatchingMonotone(es: seq<Entry>, f: ReportSubscriptionFilter, g: ReportSubscriptionFilter)
    requires AllSubscriptions(es) && f.Conditions() <= g.Conditions()
    ensures forall s :: s in Matching(es, g) ==> s in Matching(es, f)
  {
    if es != [] {
      MatchingMonotone(es[..|es| - 1], f, g);
      SubscriptionFilterMonotone(f, g, UnmarshalSubscription(es[|es| - 1].value).value);
    }
  }

  /** What `ListReportSubscriptions(filter)` returns. */
  ghost function SubscriptionList(bs: Buckets, f: ReportSubscriptionFilter): (r: Result<seq<ReportSubscription>, StoreError>)
    reads f
    ensures BucketReportSubscription !in bs ==> r == Failure(TableDoesNotExist)
    ensures BucketReportSubscription in bs ==>
      var es := bs[BucketReportSubscription].entries;
      r == if AllSubscriptions(es) then Success(Matching(es, f)) else Failure(InvalidData)
  {
    if BucketReportSubscription !in bs then Failure(TableDoesNotExist)
    else if AllSubscriptions(bs[BucketReportSubscription].entries) then
      Success(Matching(bs[BucketReportSubscription].entries, f))
    else Failure(InvalidData)
  }

  method ListReportSubscriptions(db: DB, f: ReportSubscriptionFilter) returns (list: seq<ReportSubscription>, err: Option<StoreError>)
    ensures err == None ==> SubscriptionList(db.buckets, f) == Success(list)
    ensures err != None ==> SubscriptionList(db.buckets, f) == Failure(err.value) && list == []
  {
    if BucketReportSubscription !in db.buckets {
      return [], Some(TableDoesNotExist);
    }
    var es := db.buckets[BucketReportSubscription].entries;
    list := [];
    var i := 0;
    while i < |es|
      invariant 0 <= i <= |es|
      invariant AllSubscriptions(es[..i])
      invariant list == Matching(es[..i], f)
    {
      var decoded := UnmarshalSubscription(es[i].value);
      if decoded.None? {
        return [], Some(InvalidData);
      }
      assert es[..i + 1][..i] == es[..i];
      if f.Check(decoded.value) {
        list := list + [decoded.value];
      }
      i := i + 1;
    }
    assert es[..i] == es;
    return list, None;
  }

  /** The store after `AddReportSubscription(s)` commits. The caller's id is
      ignored: the bucket's sequence is bumped and its new value becomes both
      the record's id and, as decimal text, its key. */
  function AddOutcome(bs: Buckets, s: ReportSubscription): (r: Result<Buckets, StoreError>)
    ensures BucketReportSubscription !in bs ==> r == Failure(TableDoesNotExist)
    ensures BucketReportSubscription in bs ==>
      var old_ := bs[BucketReportSubscription];
      var id := old_.sequence + 1;
      && r.Success?
      && r.value.Keys == bs.Keys
      && r.value[BucketReportSubscription].sequence == id
      && r.value[BucketReportSubscription].Contents()
         == old_.Contents()[Itoa(id) := MarshalSubscription(s.(id := id))]
      && (forall n :: n in bs && n != BucketReportSubscription ==> r.value[n] == bs[n])
    ensures r.Success? && WellFormed(bs) ==> WellFormed(r.value)
  {
    if BucketReportSubscription !in bs then Failure(TableDoesNotExist)
    else
      var id := bs[BucketReportSubscription].sequence + 1;
      var bucket := bs[BucketReportSubscription].(sequence := id);
      var written := bucket.Put(Itoa(id), MarshalSubscription(s.(id := id)));
      if written.None? then Failure(TransactionFailed)
      else Success(bs[BucketReportSubscription := written.value])
  }

  method AddReportSubscription(db: DB, s: ReportSubscription) returns (err: Option<StoreError>)
    requires db.Valid()
    modifies db
    ensures db.Valid()
    ensures AddOutcome(old(db.buckets), s).Success? ==>
      err == None && db.buckets == AddOutcome(old(db.buckets), s).value
    ensures AddOutcome(old(db.buckets), s).Failure? ==>
      err == Some(AddOutcome(old(db.buckets), s).error) && db.buckets == old(db.buckets)
  {
    var tx := db.buckets;
    if BucketReportSubscription !in tx {
      return Some(TableDoesNotExist);
    }
    var bucket := tx[BucketReportSubscription];
    var id := bucket.sequence + 1;
    bucket := bucket.(sequence := id);
    var subscription := s.(id := id);
    var data := MarshalSubscription(subscription);
    var written := bucket.Put(Itoa(id), data);
    if written.None? {
      return Some(TransactionFailed);
    }
    tx := tx[BucketReportSubscription := written.value];
    db.buckets := tx;
    return None;
  }

  method DeleteReportSubscription(db: DB, id: int) returns (err: Option<StoreError>)
    requires db.Valid()
    modifies db
    ensures db.Valid()
    ensures DeleteOutcome(old(db.buckets), BucketReportSubscription, Itoa(id)).Success? ==>
      err == None && db.buckets == DeleteOutcome(old(db.buckets), BucketReportSubscription, Itoa(id)).value
    ensures DeleteOutcome(old(db.buckets), BucketReportSubscription, Itoa(id)).Failure? ==>
      err == Some(DeleteOutcome(old(db.buckets), BucketReportSubscription, Itoa(id)).error)
      && db.buckets == old(db.buckets)
  {
    err := DeleteRecord(db, BucketReportSubscription, Itoa(id));
  }

  /** The store after `Activate`/`DeactivateReportSubscription(id)` commits:
      `IsActive` is set and every other field, `UpdatedAt` included, is kept. */
  function SetActiveOutcome(bs: Buckets, id: int, active: bool): (r: Result<Buckets, StoreError>)
    ensures SubscriptionByID(bs, id).Failure? ==> r == Failure(SubscriptionByID(bs, id).error)
    ensures SubscriptionByID(bs, id).Success? ==>
      var s := SubscriptionByID(bs, id).value;
      && r.Success?
      && r.value.Keys == bs.Keys
      && r.value[BucketReportSubscription].sequence == bs[BucketReportSubscription].sequence
      && r.value[BucketReportSubscription].Contents()
         == bs[BucketReportSubscription].Contents()[Itoa(id) := MarshalSubscription(s.(isActive := active))]
      && (forall n :: n in bs && n != BucketReportSubscription ==> r.value[n] == bs[n])
    ensures r.Success? && WellFormed(bs) ==> WellFormed(r.value)
  {
    match SubscriptionByID(bs, id)
    case Failure(e) => Failure(e)
    case Success(s) =>
      var written := bs[BucketReportSubscription].Put(Itoa(id), MarshalSubscription(s.(isActive := active)));
      if written.None? then Failure(TransactionFailed)
      else Success(bs[BucketReportSubscription := written.value])
  }

  method ActivateReportSubscription(db: DB, id: int) returns (err: Option<StoreError>)
    requires db.Valid()
    modifies db
    ensures db.Valid()
    ensures SetActiveOutcome(old(db.buckets), id, true).Success? ==>
      err == None && db.buckets == SetActiveOutcome(old(db.buckets), id, true).value
    ensures SetActiveOutcome(old(db.buckets), id, true).Failure? ==>
      err == Some(SetActiveOutcome(old(db.buckets), id, true).error) && db.buckets == old(db.buckets)
  {
    var tx := db.buckets;
    if BucketReportSubscription !in tx {
      return Some(TableDoesNotExist);
    }
    var bucket := tx[BucketReportSubscription];
    var data := bucket.Get(Itoa(id));
    if data.None? {
      return Some(RecordNotFound);
    }
    var decoded := UnmarshalSubscription(data.value);
    if decoded.None? {
      return Some(InvalidData);
    }
    var subscription := decoded.value.(isActive := true);
    var written := bucket.Put(Itoa(id), MarshalSubscription(subscription));
    if written.None? {
      return Some(TransactionFailed);
    }
    tx := tx[BucketReportSubscription := written.value];
    db.buckets := tx;
    return None;
  }

  method DeactivateReportSubscription(db: DB, id: int) returns (err: Option<StoreError>)
    requires db.Valid()
    modifies db
    ensures db.Valid()
    ensures SetActiveOutcome(old(db.buckets), id, false).Success? ==>
      err == None && db.buckets == SetActiveOutcome(old(db.buckets), id, false).value
    ensures SetActiveOutcome(old(db.buckets), id, false).Failure? ==>
      err == Some(SetActiveOutcome(old(db.buckets), id, false).error) && db.buckets == old(db.buckets)
  {
    var tx := db.buckets;
    if BucketReportSubscription !in tx {
      return Some(TableDoesNotExist);
    }
    var bucket := tx[BucketReportSubscription];
    var data := bucket.Get(Itoa(id));
    if data.None? {
      return Some(RecordNotFound);
    }
    var decoded := UnmarshalSubscription(data.value);
    if decoded.None? {
      return Some(InvalidData);
    }
    var subscription := decoded.value.(isActive := false);
    var written := bucket.Put(Itoa(id), MarshalSubscription(subscription));
    if written.None? {
      return Some(TransactionFailed);
    }
    tx := tx[BucketReportSubscription := written.value];
    db.buckets := tx;
    return None;
  }

  /** A new subscription is found under the id the sequence gave it, provided
      its report type is one the decoder accepts; with any other report type
      the stored record reads back as invalid data. */
  lemma AddThenGet(bs: Buckets, s: ReportSubscription)
    requires BucketReportSubscription in bs
    ensures var id := bs[BucketReportSubscription].sequence + 1;
      SubscriptionByID(AddOutcome(bs, s).value, id)
      == if ReportTypeAccepted(s.reportType) then Success(s.(id := id)) else Failure(InvalidData)
  {
  }

  /** Two successive adds get consecutive, hence distinct, ids and keys, and
      the second leaves the first in place. */
  lemma {:induction false} SuccessiveAddsDistinct(bs: Buckets, s1: ReportSubscription, s2: ReportSubscription)
    requires BucketReportSubscription in bs
    ensures var n := bs[BucketReportSubscription].sequence;
      var once := AddOutcome(bs, s1).value;
      var twice := AddOutcome(once, s2).value;
      && twice[BucketReportSubscription].sequence == n + 2
      && Itoa(n + 1) != Itoa(n + 2)
      && SubscriptionByID(twice, n + 1)
         == (if ReportTypeAccepted(s1.reportType) then Success(s1.(id := n + 1)) else Failure(InvalidData))
      && SubscriptionByID(twice, n + 2)
         == (if ReportTypeAccepted(s2.reportType) then Success(s2.(id := n + 2)) else Failure(InvalidData))
  {
    var n := bs[BucketReportSubscription].sequence;
    if Itoa(n + 1) == Itoa(n + 2) {
      ItoaInjective(n + 1, n + 2);
    }
  }

  /** Activating twice gives the same store as activating once. */
  lemma {:induction false} ActivateIdempotent(bs: Buckets, id: int)
    requires WellFormed(bs)
    requires SetActiveOutcome(bs, id, true).Success?
    ensures SetActiveOutcome(SetActiveOutcome(bs, id, true).value, id, true) == SetActiveOutcome(bs, id, true)
  {
    var once := SetActiveOutcome(bs, id, true).value;
    var b := once[BucketReportSubscription];
    var doc := b.Contents()[Itoa(id)];
    assert SubscriptionByID(once, id) == Success(UnmarshalSubscription(doc).value);
    assert b.Get(Itoa(id)) == Some(doc);
    InsertPresent(b.entries, Itoa(id), doc);
    assert once[BucketReportSubscription := b] == once;
  }

  /** Activation changes `IsActive` only, `UpdatedAt` included. */
  lemma SetActiveThenGet(bs: Buckets, id: int, active: bool)
    requires SetActiveOutcome(bs, id, active).Success?
    ensures SubscriptionByID(SetActiveOutcome(bs, id, active).value, id)
      == Success(SubscriptionByID(bs, id).value.(isActive := active))
  {
  }

  /** A stored subscription whose report type the decoder refuses (the
      fixtures' "random") is invalid data to every read: get, activate,
      deactivate and any listing. */
  lemma RefusedReportTypeIsInvalidData(bs: Buckets, id: int, active: bool, f: ReportSubscriptionFilter)
    requires BucketReportSubscription in bs && Itoa(id) in bs[BucketReportSubscription].Contents()
    requires var d := bs[BucketReportSubscription].Contents()[Itoa(id)];
      d.Valid? && d.record.SubscriptionRecord? && !ReportTypeAccepted(d.record.subscription.reportType)
    ensures SubscriptionByID(bs, id) == Failure(InvalidData)
    ensures SetActiveOutcome(bs, id, active) == Failure(InvalidData)
    ensures SubscriptionList(bs, f) == Failure(InvalidData)
  {
    var i := ContentsEntry(bs[BucketReportSubscription].entries, Itoa(id));
  }

  /** `CreateTables` does not create this bucket, so on a fresh store every
      subscription operation reports the missing table. */
  lemma FreshStoreHasNoSubscriptions(id: int, s: ReportSubscription, active: bool)
    ensures SubscriptionByID(TablesCreated(map[]), id) == Failure(TableDoesNotExist)
    ensures AddOutcome(TablesCreated(map[]), s) == Failure(TableDoesNotExist)
    ensures SetActiveOutcome(TablesCreated(map[]), id, active) == Failure(TableDoesNotExist)
    ensures DeleteOutcome(TablesCreated(map[]), BucketReportSubscription, Itoa(id)) == Failure(TableDoesNotExist)
  {
    TablesOnFreshStore();
  }
}
