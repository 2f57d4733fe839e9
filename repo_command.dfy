/** repo_command.go: the command repository over the `Command` bucket.
    Commands are stored under their own id as key. */
module RepoCommand {
  import opened Wrappers
  import opened Errors
  import opened Keys
  import opened Models
  import opened Codec
  import opened Bolt
  import opened Tables
  import opened Filters

  const ZeroCommand := Command("", "", map[], "", 0, None)

  /** What `GetCommandByID(decl, id)` returns, checks taken in the order of the source. */
  function CommandByID(decl: StatusDeclaration, bs: Buckets, id: string): (r: Result<Command, StoreError>)
    ensures BucketCommand !in bs ==> r == Failure(TableDoesNotExist)
    ensures BucketCommand in bs && id !in bs[BucketCommand].Contents() ==> r == Failure(RecordNotFound)
    ensures BucketCommand in bs && id in bs[BucketCommand].Contents() ==>
      match UnmarshalCommand(decl, bs[BucketCommand].Contents()[id])
      case None => r == Failure(InvalidData)
      case Some(c) => r == Success(c)
  {
    match Fetch(bs, BucketCommand, id)
    case Failure(e) => Failure(e)
    case Success(data) =>
      var command := UnmarshalCommand(decl, data);
      if command.None? then Failure(InvalidData) else Success(command.value)
  }

  /** A read-only transaction: every error comes with the zero command. */
  method GetCommandByID(decl: StatusDeclaration, db: DB, id: string) returns (command: Command, err: Option<StoreError>)
    ensures err == None ==> CommandByID(decl, db.buckets, id) == Success(command)
    ensures err != None ==> CommandByID(decl, db.buckets, id) == Failure(err.value) && command == ZeroCommand
  {
    if BucketCommand !in db.buckets {
      return ZeroCommand, Some(TableDoesNotExist);
    }
    var data := db.buckets[BucketCommand].Get(id);
    if data.None? {
      return ZeroCommand, Some(RecordNotFound);
    }
    var decoded := UnmarshalCommand(decl, data.value);
    if decoded.None? {
      return ZeroCommand, Some(InvalidData);
    }
    return decoded.value, None;
  }

  ghost predicate AllCommands(decl: StatusDeclaration, es: seq<Entry>)
  {
    forall i :: 0 <= i < |es| ==> UnmarshalCommand(decl, es[i].value).Some?
  }

  /** The decoded commands the filter accepts, in the order `ForEach` visits them. */
  function Matching(decl: StatusDeclaration, es: seq<Entry>, f: CommandFilter): (r: seq<Command>)
    requires AllCommands(decl, es)
    reads f
    ensures |r| <= |es|
    ensures forall c :: c in r ==> f.Check(c)
    ensures forall i :: 0 <= i < |es| && f.Check(UnmarshalCommand(decl, es[i].value).value) ==>
      UnmarshalCommand(decl, es[i].value).value in r
  {
    if es == [] then []
    else
      var init := Matching(decl, es[..|es| - 1], f);
      var c := UnmarshalCommand(decl, es[|es| - 1].value).value;
      if f.Check(c) then init + [c] else init
  }

  /** An empty filter lists every command, in key order. */
  lemma {:induction false} MatchingEmptyFilter(decl: StatusDeclaration, es: seq<Entry>, f: CommandFilter)
    requires AllCommands(decl, es) && f.Conditions() == {}
    ensures |Matching(decl, es, f)| == |es|
    ensures forall i :: 0 <= i < |es| ==> Some(Matching(decl, es, f)[i]) == UnmarshalCommand(decl, es[i].value)
  {
    if es != [] {
      var n := |es| - 1;
      var init := es[..n];
      MatchingEmptyFilter(decl, init, f);
      var c := UnmarshalCommand(decl, es[n].value).value;
      CommandFilterEmptyAcceptsAll(f, c);
      var listed := Matching(decl, es, f);
      assert listed == Matching(decl, init, f) + [c];
      forall i | 0 <= i < |es|
        ensures Some(listed[i]) == UnmarshalCommand(decl, es[i].value)
      {
        if i < n {
          assert es[i] == init[i];
        }
      }
    }
  }

  /** The positions of the entries the filter keeps, in visiting order. */
  ghost function Kept(decl: StatusDeclaration, es: seq<Entry>, f: CommandFilter): (idx: seq<nat>)
    requires AllCommands(decl, es)
    reads f
    ensures |idx| == |Matching(decl, es, f)|
    ensures forall j :: 0 <= j < |idx| ==> idx[j] < |es|
    ensures forall j, k :: 0 <= j < k < |idx| ==> idx[j] < idx[k]
  {
    if es == [] then []
    else
      var prev := Kept(decl, es[..|es| - 1], f);
      if f.Check(UnmarshalCommand(decl, es[|es| - 1].value).value) then prev + [|es| - 1] else prev
  }

  /** The j-th listed command is the decoding of the j-th kept entry. */
  lemma {:induction false} KeptDecode(decl: StatusDeclaration, es: seq<Entry>, f: CommandFilter)
    requires AllCommands(decl, es)
    ensures forall j :: 0 <= j < |Kept(decl, es, f)| ==> UnmarshalCommand(decl, es[Kept(decl, es, f)[j]].value) == Some(Matching(decl, es, f)[j])
  {
    if es != [] {
      var n := |es| - 1;
      KeptDecode(decl, es[..n], f);
      assert forall i :: 0 <= i < n ==> es[..n][i] == es[i];
    }
  }

  /** Every entry the filter accepts is kept. */
  lemma {:induction false} KeptComplete(decl: StatusDeclaration, es: seq<Entry>, f: CommandFilter)
    requires AllCommands(decl, es)
    ensures forall i :: 0 <= i < |es| && f.Check(UnmarshalCommand(decl, es[i].value).value) ==> i in Kept(decl, es, f)
  {
    if es != [] {
      var n := |es| - 1;
      var init := es[..n];
      KeptComplete(decl, init, f);
      var prev := Kept(decl, init, f);
      var last := f.Check(UnmarshalCommand(decl, es[n].value).value);
      assert Kept(decl, es, f) == if last then prev + [n] else prev;
      forall i | 0 <= i < |es| && f.Check(UnmarshalCommand(decl, es[i].value).value)
        ensures i in Kept(decl, es, f)
      {
        if i < n {
          assert es[i] == init[i];
          assert i in prev;
        }
      }
    }
  }

  /** The listing is a filtered walk in key order: the j-th listed command
      is the decoding of the entry at the j-th kept position, the positions
      strictly increase, so in an ordered bucket the keys do too, and every
      entry the filter accepts is kept, once. */
  lemma MatchingInKeyOrder(decl: StatusDeclaration, es: seq<Entry>, f: CommandFilter)
    requires AllCommands(decl, es)
    ensures var idx := Kept(decl, es, f);
      && |idx| == |Matching(decl, es, f)|
      && (forall j :: 0 <= j < |idx| ==> idx[j] < |es| && UnmarshalCommand(decl, es[idx[j]].value) == Some(Matching(decl, es, f)[j]))
      && (forall j, k :: 0 <= j < k < |idx| ==> idx[j] < idx[k])
      && (forall i :: 0 <= i < |es| && f.Check(UnmarshalCommand(decl, es[i].value).value) ==> i in idx)
      && (Ordered(es) ==> forall j, k :: 0 <= j < k < |idx| ==> Below(es[idx[j]].key, es[idx[k]].key))
  {
    KeptDecode(decl, es, f);
    KeptComplete(decl, es, f);
  }

  /** Adding conditions to the filter only drops commands from the listing. */
  lemma {:induction false} MatchingMonotone(decl: StatusDeclaration, es: seq<Entry>, f: CommandFilter, g: CommandFilter)
    requires AllCommands(decl, es) && f.Conditions() <= g.Conditions()
    ensures forall c :: c in Matching(decl, es, g) ==> c in Matching(decl, es, f)
  {
    if es != [] {
      MatchingMonotone(decl, es[..|es| - 1], f, g);
      CommandFilterMonotone(f, g, UnmarshalCommand(decl, es[|es| - 1].value).value);
    }
  }

  /** What `ListCommands(decl, filter)` returns: a malformed value anywhere fails the
      call, whether or not the filter would have accepted it. */
  ghost function CommandList(decl: StatusDeclaration, bs: Buckets, f: CommandFilter): (r: Result<seq<Command>, StoreError>)
    reads f
    ensures BucketCommand !in bs ==> r == Failure(TableDoesNotExist)
    ensures BucketCommand in bs ==>
      var es := bs[BucketCommand].entries;
      r == if AllCommands(decl, es) then Success(Matching(decl, es, f)) else Failure(InvalidData)
  {
    if BucketCommand !in bs then Failure(TableDoesNotExist)
    else if AllCommands(decl, bs[BucketCommand].entries) then Success(Matching(decl, bs[BucketCommand].entries, f))
    else Failure(InvalidData)
  }

  /** The state of the listing loop after visiting the first `i` entries:
      all of them decode, and `list` holds the accepted ones. */
  ghost predicate ListedUpTo(decl: StatusDeclaration, es: seq<Entry>, i: nat, f: CommandFilter, list: seq<Command>)
    reads f
  {
    i <= |es| && AllCommands(decl, es[..i]) && list == Matching(decl, es[..i], f)
  }

  /** One step of the listing loop: visiting entry `i` extends the listing of
      the entries before it by that command when the filter accepts it. */
  lemma MatchingStep(decl: StatusDeclaration, es: seq<Entry>, i: nat, f: CommandFilter, list: seq<Command>)
    requires ListedUpTo(decl, es, i, f, list) && i < |es| && UnmarshalCommand(decl, es[i].value).Some?
    ensures var c := UnmarshalCommand(decl, es[i].value).value;
      ListedUpTo(decl, es, i + 1, f, if f.Check(c) then list + [c] else list)
  {
    assert es[..i + 1][..i] == es[..i];
  }

  /** The `ForEach` loop appending each accepted command; it stops at the
      first value that does not decode. */
  method CollectCommands(decl: StatusDeclaration, es: seq<Entry>, f: CommandFilter) returns (list: seq<Command>, ok: bool)
    ensures ok <==> AllCommands(decl, es)
    ensures ok ==> list == Matching(decl, es, f)
  {
    list := [];
    var i := 0;
    while i < |es|
      invariant ListedUpTo(decl, es, i, f, list)
    {
      var decoded := UnmarshalCommand(decl, es[i].value);
      if decoded.None? {
        return [], false;
      }
      MatchingStep(decl, es, i, f, list);
      if f.Check(decoded.value) {
        list := list + [decoded.value];
      }
      i := i + 1;
    }
    assert es[..i] == es;
    return list, true;
  }

  /** The listing transaction; the list is nil on error. */
  method ListCommands(decl: StatusDeclaration, db: DB, f: CommandFilter) returns (list: seq<Command>, err: Option<StoreError>)
    ensures err == None ==> CommandList(decl, db.buckets, f) == Success(list)
    ensures err != None ==> CommandList(decl, db.buckets, f) == Failure(err.value) && list == []
  {
    if BucketCommand !in db.buckets {
      return [], Some(TableDoesNotExist);
    }
    var ok;
    list, ok := CollectCommands(decl, db.buckets[BucketCommand].entries, f);
    if !ok {
      return [], Some(InvalidData);
    }
    return list, None;
  }

  /** The store after `AddCommand(c)` commits, or the error that rolls it back.
      There is no duplicate check: an existing record under `c.id` is replaced. */
  function AddCommandOutcome(bs: Buckets, c: Command): (r: Result<Buckets, StoreError>)
    ensures BucketCommand !in bs ==> r == Failure(TableDoesNotExist)
    ensures BucketCommand in bs && !Encodable(c.desiredState) ==> r == Failure(InvalidData)
    ensures BucketCommand in bs && Encodable(c.desiredState) && c.id == "" ==> r == Failure(TransactionFailed)
    ensures BucketCommand in bs && Encodable(c.desiredState) && c.id != "" ==>
      && r.Success?
      && r.value.Keys == bs.Keys
      && r.value[BucketCommand].Contents() == bs[BucketCommand].Contents()[c.id := Valid(CommandRecord(c))]
      && (forall n :: n in bs && n != BucketCommand ==> r.value[n] == bs[n])
    ensures r.Success? && WellFormed(bs) ==> WellFormed(r.value)
  {
    if BucketCommand !in bs then Failure(TableDoesNotExist)
    else
      var data := MarshalCommand(c);
      if data.None? then Failure(InvalidData)
      else
        var written := bs[BucketCommand].Put(c.id, data.value);
        if written.None? then Failure(TransactionFailed)
        else Success(bs[BucketCommand := written.value])
  }

  method AddCommand(db: DB, c: Command) returns (err: Option<StoreError>)
    requires db.Valid()
    modifies db
    ensures db.Valid()
    ensures AddCommandOutcome(old(db.buckets), c).Success? ==>
      err == None && db.buckets == AddCommandOutcome(old(db.buckets), c).value
    ensures AddCommandOutcome(old(db.buckets), c).Failure? ==>
      err == Some(AddCommandOutcome(old(db.buckets), c).error) && db.buckets == old(db.buckets)
  {
    var tx := db.buckets;
    if BucketCommand !in tx {
      return Some(TableDoesNotExist);
    }
    var data := MarshalCommand(c);
    if data.None? {
      return Some(InvalidData);
    }
    var written := tx[BucketCommand].Put(c.id, data.value);
    if written.None? {
      return Some(TransactionFailed);
    }
    tx := tx[BucketCommand := written.value];
    db.buckets := tx;
    return None;
  }

  /** The command `ResolveCommand` writes back: status and resolution time set,
      every other field as decoded. */
  function Resolved(c: Command, status: string, now: int): (r: Command)
    ensures r.status == status && r.resolvedAt == Some(now)
    ensures r.id == c.id && r.entityId == c.entityId && r.desiredState == c.desiredState
    ensures r.issuedAt == c.issuedAt
  {
    c.(status := status, resolvedAt := Some(now))
  }

  /** The store after `ResolveCommand(decl, id, status)` at time `now` commits, or the
      error that rolls it back. The current status is not checked, and the
      record is written back under its decoded `id`, not under the argument. */
  function ResolveOutcome(decl: StatusDeclaration, bs: Buckets, id: string, status: string, now: int): (r: Result<Buckets, StoreError>)
    ensures CommandByID(decl, bs, id).Failure? ==> r == Failure(CommandByID(decl, bs, id).error)
    ensures CommandByID(decl, bs, id).Success? ==>
      var c := CommandByID(decl, bs, id).value;
      if !Encodable(c.desiredState) then r == Failure(InvalidData)
      else if c.id == "" then r == Failure(TransactionFailed)
      else
        && r.Success?
        && r.value.Keys == bs.Keys
        && r.value[BucketCommand].Contents()
           == bs[BucketCommand].Contents()[c.id := Valid(CommandRecord(Resolved(c, status, now)))]
        && (forall n :: n in bs && n != BucketCommand ==> r.value[n] == bs[n])
    ensures r.Success? && WellFormed(bs) ==> WellFormed(r.value)
  {
    match CommandByID(decl, bs, id)
    case Failure(e) => Failure(e)
    case Success(c) =>
      var updated := Resolved(c, status, now);
      var data := MarshalCommand(updated);
      if data.None? then Failure(InvalidData)
      else
        var written := bs[BucketCommand].Put(updated.id, data.value);
        if written.None? then Failure(TransactionFailed)
        else Success(bs[BucketCommand := written.value])
  }

  /** A read-modify-write inside one `Update`; `now` stands for `time.Now()`. */
  method ResolveCommand(decl: StatusDeclaration, db: DB, id: string, status: string, now: int) returns (err: Option<StoreError>)
    requires db.Valid()
    modifies db
    ensures db.Valid()
    ensures ResolveOutcome(decl, old(db.buckets), id, status, now).Success? ==>
      err == None && db.buckets == ResolveOutcome(decl, old(db.buckets), id, status, now).value
    ensures ResolveOutcome(decl, old(db.buckets), id, status, now).Failure? ==>
      err == Some(ResolveOutcome(decl, old(db.buckets), id, status, now).error) && db.buckets == old(db.buckets)
  {
    var tx := db.buckets;
    if BucketCommand !in tx {
      return Some(TableDoesNotExist);
    }
    var bucket := tx[BucketCommand];
    var data := bucket.Get(id);
    if data.None? {
      return Some(RecordNotFound);
    }
    var decoded := UnmarshalCommand(decl, data.value);
    if decoded.None? {
      return Some(InvalidData);
    }
    var command := decoded.value;
    command := command.(status := status, resolvedAt := Some(now));
    var encoded := MarshalCommand(command);
    if encoded.None? {
      return Some(InvalidData);
    }
    var written := bucket.Put(command.id, encoded.value);
    if written.None? {
      return Some(TransactionFailed);
    }
    tx := tx[BucketCommand := written.value];
    db.buckets := tx;
    return None;
  }

  method DeleteCommand(db: DB, id: string) returns (err: Option<StoreError>)
    requires db.Valid()
    modifies db
    ensures db.Valid()
    ensures DeleteOutcome(old(db.buckets), BucketCommand, id).Success? ==>
      err == None && db.buckets == DeleteOutcome(old(db.buckets), BucketCommand, id).value
    ensures DeleteOutcome(old(db.buckets), BucketCommand, id).Failure? ==>
      err == Some(DeleteOutcome(old(db.buckets), BucketCommand, id).error) && db.buckets == old(db.buckets)
  {
    err := DeleteRecord(db, BucketCommand, id);
  }

  /** A successful add is visible to a later get, even over an existing
      record, provided its status is one the declaration in force accepts; with
      any other status the stored record reads back as invalid data. */
  lemma AddThenGet(decl: StatusDeclaration, bs: Buckets, c: Command)
    requires AddCommandOutcome(bs, c).Success?
    ensures CommandByID(decl, AddCommandOutcome(bs, c).value, c.id)
      == if StatusAccepted(decl, c.status) then Success(c) else Failure(InvalidData)
  {
  }

  /** Resolving a command stored under its own id makes a later get return it
      with only status and resolution time changed, when the new status is an
      accepted one; any other status leaves a record that reads back as
      invalid data. */
  lemma ResolveThenGet(decl: StatusDeclaration, bs: Buckets, id: string, status: string, now: int)
    requires ResolveOutcome(decl, bs, id, status, now).Success?
    requires CommandByID(decl, bs, id).value.id == id
    ensures CommandByID(decl, ResolveOutcome(decl, bs, id, status, now).value, id)
      == if StatusAccepted(decl, status) then Success(Resolved(CommandByID(decl, bs, id).value, status, now))
         else Failure(InvalidData)
  {
  }

  /** Nothing guards a terminal status: a command resolved with an accepted
      status can be resolved again, and the second resolution wins. After a
      refused status the record no longer decodes, so the second call fails. */
  lemma ResolveTwice(decl: StatusDeclaration, bs: Buckets, id: string, s1: string, t1: int, s2: string, t2: int)
    requires ResolveOutcome(decl, bs, id, s1, t1).Success?
    requires CommandByID(decl, bs, id).value.id == id
    ensures var once := ResolveOutcome(decl, bs, id, s1, t1).value;
      && (StatusAccepted(decl, s1) ==>
            && ResolveOutcome(decl, once, id, s2, t2).Success?
            && CommandByID(decl, ResolveOutcome(decl, once, id, s2, t2).value, id)
               == if StatusAccepted(decl, s2) then Success(Resolved(CommandByID(decl, bs, id).value, s2, t2))
                  else Failure(InvalidData))
      && (!StatusAccepted(decl, s1) ==> ResolveOutcome(decl, once, id, s2, t2) == Failure(InvalidData))
  {
    var once := ResolveOutcome(decl, bs, id, s1, t1).value;
    ResolveThenGet(decl, bs, id, s1, t1);
    if StatusAccepted(decl, s1) {
      ResolveThenGet(decl, once, id, s2, t2);
    }
  }

  /** When a record's own id differs from its key, resolving it leaves the
      record under the key as it was and writes the resolved copy elsewhere. */
  lemma ResolveWritesUnderRecordId(decl: StatusDeclaration, bs: Buckets, id: string, status: string, now: int)
    requires ResolveOutcome(decl, bs, id, status, now).Success?
    requires CommandByID(decl, bs, id).value.id != id
    ensures CommandByID(decl, ResolveOutcome(decl, bs, id, status, now).value, id) == CommandByID(decl, bs, id)
  {
  }

  /** A stored command whose status the decoder refuses (the fixtures'
      "random") is invalid data to every read: get, resolve and any listing. */
  lemma RefusedStatusIsInvalidData(decl: StatusDeclaration, bs: Buckets, id: string, status: string, now: int, f: CommandFilter)
    requires BucketCommand in bs && id in bs[BucketCommand].Contents()
    requires var d := bs[BucketCommand].Contents()[id];
      d.Valid? && d.record.CommandRecord? && !StatusAccepted(decl, d.record.command.status)
    ensures CommandByID(decl, bs, id) == Failure(InvalidData)
    ensures ResolveOutcome(decl, bs, id, status, now) == Failure(InvalidData)
    ensures CommandList(decl, bs, f) == Failure(InvalidData)
  {
    var i := ContentsEntry(bs[BucketCommand].entries, id);
  }

  /** An absent id is reported and nothing is written. */
  lemma ResolveAbsent(decl: StatusDeclaration, bs: Buckets, id: string, status: string, now: int)
    requires BucketCommand in bs && id !in bs[BucketCommand].Contents()
    ensures ResolveOutcome(decl, bs, id, status, now) == Failure(RecordNotFound)
  {
  }

  // The records the listing tests store (timestamps as Unix seconds).
  const MockCommand1Pending := Command("cmd1", "1", map["power" := Text("on")], StatusPending, 1257894000, None)
  const MockCommand1Success := Command("cmd2", "1", map["power" := Text("off")], StatusSuccess, 1289430000, Some(1289430010))
  const MockCommand2Failed := Command("cmd3", "2", map["power" := Text("off")], StatusFailed, 1320966000, Some(1320966010))

  /** The store of the listing tests: the three records under "cmd1", "cmd2" and "cmd3". */
  function ListingFixture(): (bs: Buckets)
    ensures WellFormed(bs)
  {
    var es := [
      Entry("cmd1", Valid(CommandRecord(MockCommand1Pending))),
      Entry("cmd2", Valid(CommandRecord(MockCommand1Success))),
      Entry("cmd3", Valid(CommandRecord(MockCommand2Failed)))];
    assert Below("cmd1", "cmd2") && Below("cmd2", "cmd3") && Below("cmd1", "cmd3");
    map[BucketCommand := Bucket(es, 0)]
  }

  /** How each record of the listing store decodes under the two declarations. */
  lemma ListingFixtureDecodes()
    ensures var es := ListingFixture()[BucketCommand].entries;
      && UnmarshalCommand(ModelsGo, es[0].value) == Some(MockCommand1Pending)
      && UnmarshalCommand(ModelsGo, es[1].value) == Some(MockCommand1Success)
      && UnmarshalCommand(ModelsGo, es[2].value) == Some(MockCommand2Failed)
      && UnmarshalCommand(CommandGo, es[2].value) == None
  {
    assert StatusFailed != StatusPending && StatusFailed != StatusSuccess && StatusFailed != StatusFailure;
  }

  /** The unfiltered listing test expects all three records back, in key
      order. That is the outcome under the models.go declaration; under the
      command.go declaration the "failed" record fails the whole listing. */
  lemma NoFilterListing(f: CommandFilter)
    requires f.Conditions() == {}
    ensures CommandList(ModelsGo, ListingFixture(), f)
      == Success([MockCommand1Pending, MockCommand1Success, MockCommand2Failed])
    ensures CommandList(CommandGo, ListingFixture(), f) == Failure(InvalidData)
  {
    var es := ListingFixture()[BucketCommand].entries;
    ListingFixtureDecodes();
    assert AllCommands(ModelsGo, es);
    MatchingEmptyFilter(ModelsGo, es, f);
    var listed := Matching(ModelsGo, es, f);
    assert listed == [MockCommand1Pending, MockCommand1Success, MockCommand2Failed];
  }

}
