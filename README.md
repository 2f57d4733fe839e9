# esr-service persistence and dispatch core, in Dafny

This project models the core of esr-service, a Go service that stores
entities, the commands issued to them and report subscriptions in a bbolt
key/value file, and publishes each new command's desired state on a message
broker. It covers:

- the bbolt repositories for entities, commands and report subscriptions;
- bucket creation (`CreateTables`) and the two earlier entity stores
  (`boltdb.go`, `bbolt.go`);
- the command and report-subscription filters;
- the enum decoders for command status and report type;
- entity validation and its error details;
- the entity service, which maps errors and issues commands: persist, then publish.

The storage engine is modelled in module `Bolt`:

- A bucket is a strictly key-ordered sequence of entries plus bbolt's sequence counter.
- `Contents()` gives its map view.
- The store is a `DB` object whose `buckets` field maps bucket names to buckets.
- Every write method works on a copy of the buckets and assigns it back only when it succeeds. This is how a bbolt `Update` commits or rolls back.
- Each write method is proved against a pure `...Outcome` function that gives the new store or the error.
- Each read method is proved against a pure function that gives the value or the error.
- The lemmas then relate those functions to each other: add-then-get, delete-then-missing, idempotence, ordering, id allocation.

Stored values are JSON documents, abstracted as `Valid(record)` or
`Malformed`. A desired-state value may be `Unencodable`, which stands for the
Go values `json.Marshal` refuses, so the marshal-failure branches of the
source are reachable. Clock readings and freshly generated ids are
parameters (`now`, `commandId`). The broker is reduced to its `Format`
function and to whether its transport currently accepts a publish.

Where the code and the written design disagree, the model follows the code:

- `ActivateReportSubscription` and `DeactivateReportSubscription` set only
  `IsActive`. They do not refresh `UpdatedAt`, although the design says they do.
  `RepoReportSubscription.SetActiveThenGet` states what the code does.
- `AddCommand` does no duplicate check. Adding a command whose id is already
  stored overwrites it, although the design says every add refuses a
  duplicate key. Only `AddEntity` refuses one.
- `ResolveCommand` writes the resolved record back under the id decoded
  from the stored JSON, not under the key it looked up
  (`RepoCommand.ResolveWritesUnderRecordId`). Nothing stops re-resolving a
  terminal command (`RepoCommand.ResolveTwice`).
- `ProcessCommand` is documented as able to leave a persisted command
  unpublished when encoding the payload fails. In the code, `AddCommand`
  has already encoded the same desired state, so that branch cannot be
  taken after a successful add (`EntityService.StoredStateIsEncodable`).
  A refused publish does leave the command persisted.
- Package `models` declares `CommandStatus` twice, with "failure" in
  `command.go` and "failed" in `models.go`, and both files also declare a
  `Command` struct. The package compiles with only one of them, and the
  repository does not say which is meant. Both decoders are modelled
  (`Models.StatusDeclarationsDisagree` shows where they part). Every read
  of a stored command takes the declaration in force as a parameter
  (`Models.StatusDeclaration`), and every lemma about commands holds under
  either. A stored command whose status the declaration refuses reads back
  as invalid data, and Get, List and Resolve all report it
  (`RepoCommand.RefusedStatusIsInvalidData`); a subscription whose report
  type is neither "state" nor "metric" behaves the same way under Get,
  List, Activate and Deactivate
  (`RepoReportSubscription.RefusedReportTypeIsInvalidData`). The
  repository's listing test expects the `models.go` reading
  (`RepoCommand.NoFilterListing`).
- The service calls the datastore's `AddEntity` with one entity, but the
  repository takes an id and a name. The model passes the entity's two fields.

## Model

| member | source | states |
|---|---|---|
| Keys.BelowIrreflexive | internal/datastore/databases/boltdb/repo_entity.go:49 | the key order `ForEach` follows never puts a key before itself |
| Keys.BelowTransitive | internal/datastore/databases/boltdb/repo_entity.go:49 | the key order is transitive |
| Keys.BelowTotal | internal/datastore/databases/boltdb/repo_entity.go:49 | any two distinct keys are ordered one way or the other, so the visit order is determined |
| Keys.Itoa | internal/datastore/databases/boltdb/repo_report_subscription.go:22 | the decimal text of an id is non-empty and starts with '-' exactly for negative ids |
| Keys.ReadItoa | internal/datastore/databases/boltdb/repo_report_subscription.go:22 | the decimal text of an id reads back as that id, so the key determines the id |
| Keys.ItoaInjective | internal/datastore/databases/boltdb/repo_report_subscription.go:22 | equal decimal texts come from equal ids, so distinct subscription ids have distinct keys |
| Bolt.Lookup | internal/datastore/databases/boltdb/repo_entity.go:21-24 | a key-ordered lookup finds a value exactly when the key is in the bucket's contents, and finds that value |
| Bolt.ContentsEntry | internal/datastore/databases/boltdb/repo_entity.go:21-24 | every key in a bucket's contents sits at some entry of the ordered sequence, with that value |
| Bolt.Insert | internal/datastore/databases/boltdb/repo_entity.go:89 | storing a value makes the contents the old contents updated at that key |
| Bolt.InsertOrdered | internal/datastore/databases/boltdb/repo_entity.go:89 | storing keeps the entries strictly key-ordered |
| Bolt.InsertPresent | internal/datastore/databases/boltdb/repo_report_subscription.go:139 | storing the value already present under a key leaves the bucket unchanged |
| Bolt.Remove | internal/datastore/databases/boltdb/repo_entity.go:108 | deleting removes that key from the contents and nothing else |
| Bolt.RemoveOrdered | internal/datastore/databases/boltdb/repo_entity.go:108 | deleting keeps the entries strictly key-ordered |
| Bolt.Bucket.Put | internal/datastore/databases/boltdb/repo_entity.go:89-91 | `Put` fails exactly on an empty key; otherwise it updates that key, keeps the sequence and keeps the bucket ordered |
| Bolt.Bucket.Delete | internal/datastore/databases/boltdb/repo_entity.go:108-110 | `Delete` removes the key from the contents, keeps the sequence and keeps the bucket ordered |
| Bolt.CreateBucketIfNotExists | internal/datastore/databases/boltdb/tables.go:15-21 | the named bucket exists afterwards, empty if it was missing; existing buckets are untouched |
| Bolt.Fetch | internal/datastore/databases/boltdb/repo_entity.go:16-24 | a missing bucket gives ErrTableDoesNotExist, an absent key ErrRecordNotFound, otherwise the stored value |
| Bolt.DeleteOutcome | internal/datastore/databases/boltdb/repo_entity.go:97-114 | missing bucket, then absent key, are reported; otherwise only that key is removed from that bucket |
| Bolt.DeleteRecord | internal/datastore/databases/boltdb/repo_entity.go:97-114 | the delete transaction commits the outcome's store or leaves the store unchanged and returns its error |
| Json.DecodeEnum | internal/datastore/models/command.go:26-39 | a JSON value is accepted exactly when it is a string in the accepted set; the receiver is assigned only on acceptance; a non-string is rejected |
| Models.UnmarshalCommandStatus | internal/datastore/models/command.go:26-39 | accepts exactly "pending", "success", "failure"; on rejection the receiver is unchanged; non-strings are rejected |
| Models.UnmarshalLegacyCommandStatus | internal/datastore/models/models.go:22-35 | accepts exactly "pending", "success", "failed"; on rejection the receiver is unchanged; non-strings are rejected |
| Models.UnmarshalReportType | internal/datastore/models/report_subscription.go:25-38 | accepts exactly "state" and "metric"; on rejection the receiver is unchanged; non-strings are rejected |
| Models.CommandStatusRoundTrip | internal/datastore/models/command.go:20-35 | each status constant decodes from its own JSON string to itself |
| Models.LegacyCommandStatusRoundTrip | internal/datastore/models/models.go:16-31 | each status constant of models.go decodes from its JSON string to itself |
| Models.ReportTypeRoundTrip | internal/datastore/models/report_subscription.go:20-34 | both report types decode from their JSON strings to themselves |
| Models.StatusDeclarationsDisagree | internal/datastore/models/models.go:28-33 | "failed" decodes only under models.go, "failure" only under command.go, "random" under neither |
| Types.UnmarshalCommandStatus | internal/types/types.go:26-39 | accepts exactly "pending", "success", "failure"; on rejection the receiver is unchanged |
| Types.UnmarshalReportType | internal/types/types.go:64-77 | accepts exactly "state" and "metric"; rejects other strings and non-strings, receiver unchanged |
| Types.ConstantsRoundTrip | internal/types/types.go:20-35 | every status and report-type constant round-trips through its JSON string |
| Types.Entity.Validate | internal/types/entity.go:12-24 | the list is empty iff both fields are set; one entry per empty field; the id entry is RequiredError("id") and comes first, the name entry is RequiredError("name") and comes last |
| Validation.RequiredError | internal/validation/validation.go:14-19 | the detail names the field and its message is `'<field>' is required` |
| Validation.RequiredErrorInjective | internal/validation/validation.go:14-19 | distinct fields give details with distinct fields and distinct messages |
| Codec.MarshalCommand | internal/datastore/databases/boltdb/repo_command.go:82-85 | encoding a command succeeds exactly when its desired state is encodable (timestamps are unbounded integers here, see Left out) |
| Models.DecodeStatus | internal/datastore/models/command.go:26-39 | the decoder of the declaration in force accepts exactly a string among its statuses, and assigns the receiver only then |
| Codec.StatusAcceptedDecodes | internal/datastore/models/command.go:26-39 | a status is accepted exactly when the declaration's `UnmarshalJSON` returns no error for it |
| Codec.ReportTypeAcceptedDecodes | internal/datastore/models/report_subscription.go:25-38 | a report type is accepted exactly when `ReportType.UnmarshalJSON` returns no error for it |
| Codec.UnmarshalCommand | internal/datastore/databases/boltdb/repo_command.go:29-31 | a stored value decodes as a command exactly when it is a valid command document whose status the declaration in force accepts ("pending", "success" and "failure" under command.go, "failed" instead of "failure" under models.go), and then to that command |
| Codec.UnmarshalSubscription | internal/datastore/databases/boltdb/repo_report_subscription.go:28-30 | a stored value decodes as a subscription exactly when it is a valid subscription document whose report type is "state" or "metric", and then to that subscription |
| Codec.UnmarshalEntity | internal/datastore/databases/boltdb/repo_entity.go:26-28 | a stored value decodes as an entity exactly when it is a valid entity document |
| Codec.MarshalRoundTrip | internal/datastore/databases/boltdb/repo_command.go:82-87 | an encoded entity decodes back to itself; an encoded command or subscription decodes back to itself exactly when its status or report type is accepted, and otherwise is refused |
| Tables.TablesCreated | internal/datastore/databases/boltdb/tables.go:13-25 | Entity and Command exist afterwards, existing buckets are untouched, ReportSubscription is not created |
| Tables.CreateTables | internal/datastore/databases/boltdb/tables.go:13-25 | the transaction commits the schema of `TablesCreated` and reports no error |
| Tables.TablesCreatedIdempotent | internal/datastore/databases/boltdb/tables.go:13-25 | a second CreateTables changes nothing |
| Tables.TablesOnFreshStore | internal/datastore/databases/boltdb/tables.go:13-25 | a fresh file gets two empty buckets and no ReportSubscription bucket |
| RepoEntity.EntityByID | internal/datastore/databases/boltdb/repo_entity.go:12-38 | missing bucket, absent key, malformed value, or the stored entity, checked in that order |
| RepoEntity.GetEntityByID | internal/datastore/databases/boltdb/repo_entity.go:12-38 | the read returns `EntityByID`'s entity, or its error with the zero entity |
| RepoEntity.Entities | internal/datastore/databases/boltdb/repo_entity.go:49-58 | one decoded entity per stored entry, in key order |
| RepoEntity.EntityList | internal/datastore/databases/boltdb/repo_entity.go:40-66 | missing bucket is reported; any malformed value fails the whole listing; otherwise all entities in key order |
| RepoEntity.ListEntities | internal/datastore/databases/boltdb/repo_entity.go:40-66 | the `ForEach` loop returns `EntityList`'s list, or its error with a nil list |
| RepoEntity.AddEntityOutcome | internal/datastore/databases/boltdb/repo_entity.go:68-95 | missing bucket, existing key (duplicate) and empty key are refused; otherwise only `{id, name}` under id is added |
| RepoEntity.AddEntity | internal/datastore/databases/boltdb/repo_entity.go:68-95 | the transaction commits the outcome's store or rolls back with its error |
| RepoEntity.DeleteEntity | internal/datastore/databases/boltdb/repo_entity.go:97-114 | the transaction commits the delete outcome or rolls back with its error |
| RepoEntity.AddThenGet | internal/datastore/databases/boltdb/repo_entity.go:68-95 | a successful add is returned by a later get |
| RepoEntity.AddTwiceIsDuplicate | internal/datastore/databases/boltdb/repo_entity.go:75-77 | adding the same id again is refused as a duplicate |
| RepoEntity.DeleteThenMissing | internal/datastore/databases/boltdb/repo_entity.go:97-114 | after a delete, both a get and a second delete report the record missing |
| RepoEntity.AddThenDeleteRestores | internal/datastore/databases/boltdb/repo_entity.go:68-114 | adding a new id and deleting it restores the bucket's contents |
| Filters.CommandFilter.constructor | internal/datastore/filters/command.go:16-18 | a new filter has no conditions |
| Filters.CommandFilter.ByEntityID | internal/datastore/filters/command.go:20-23 | sets the entity condition in place, keeps the others, returns the same filter |
| Filters.CommandFilter.ByStatus | internal/datastore/filters/command.go:25-28 | sets the status condition in place, keeps the others, returns the same filter |
| Filters.CommandFilter.ByTimeAfterIssuing | internal/datastore/filters/command.go:30-33 | sets the lower time bound in place, keeps the others, returns the same filter |
| Filters.CommandFilter.ByTimeBeforeIssuing | internal/datastore/filters/command.go:35-38 | sets the upper time bound in place, keeps the others, returns the same filter |
| Filters.CommandFilter.Check | internal/datastore/filters/command.go:40-58 | a command passes exactly when it meets every condition that is set |
| Filters.CommandFilterEmptyAcceptsAll | internal/datastore/filters/command.go:40-58 | a filter with no conditions accepts every command |
| Filters.CommandFilterMonotone | internal/datastore/filters/command.go:40-58 | adding conditions never lets more commands through |
| Filters.CommandFilterStrictBounds | internal/datastore/filters/command.go:49-55 | a command issued exactly at either bound is rejected |
| Filters.ReportSubscriptionFilter.constructor | internal/datastore/filters/report_subscription.go:17-19 | a new filter has no conditions |
| Filters.ReportSubscriptionFilter.ByEntityID | internal/datastore/filters/report_subscription.go:21-24 | sets the entity condition in place, keeps the others, returns the same filter |
| Filters.ReportSubscriptionFilter.ByReportType | internal/datastore/filters/report_subscription.go:26-29 | sets the report-type condition in place, keeps the others |
| Filters.ReportSubscriptionFilter.ByIsActive | internal/datastore/filters/report_subscription.go:31-34 | sets the activity condition in place, keeps the others |
| Filters.ReportSubscriptionFilter.ByTimeAfterUpdated | internal/datastore/filters/report_subscription.go:36-39 | sets the lower time bound in place, keeps the others |
| Filters.ReportSubscriptionFilter.ByTimeBeforeUpdated | internal/datastore/filters/report_subscription.go:41-44 | sets the upper time bound in place, keeps the others |
| Filters.ReportSubscriptionFilter.Check | internal/datastore/filters/report_subscription.go:46-68 | a subscription passes exactly when it meets every condition that is set |
| Filters.SubscriptionFilterEmptyAcceptsAll | internal/datastore/filters/report_subscription.go:46-68 | a filter with no conditions accepts every subscription |
| Filters.SubscriptionFilterMonotone | internal/datastore/filters/report_subscription.go:46-68 | adding conditions never lets more subscriptions through |
| Filters.SubscriptionFilterStrictBounds | internal/datastore/filters/report_subscription.go:59-65 | a subscription updated exactly at either bound is rejected |
| RepoCommand.CommandByID | internal/datastore/databases/boltdb/repo_command.go:15-41 | missing bucket, absent key, a value that is malformed or whose status is refused (invalid data), or the stored command |
| RepoCommand.GetCommandByID | internal/datastore/databases/boltdb/repo_command.go:15-41 | the read returns `CommandByID`'s command, or its error with the zero command |
| RepoCommand.Matching | internal/datastore/databases/boltdb/repo_command.go:52-65 | the listing holds only commands the filter accepts, and every stored command it accepts |
| RepoCommand.Kept | internal/datastore/databases/boltdb/repo_command.go:52-65 | the positions the filter keeps: one per listed command, in bounds, strictly increasing |
| RepoCommand.KeptDecode | internal/datastore/databases/boltdb/repo_command.go:52-65 | the j-th listed command is the decoding of the entry at the j-th kept position |
| RepoCommand.KeptComplete | internal/datastore/databases/boltdb/repo_command.go:52-65 | every entry whose command the filter accepts is at a kept position |
| RepoCommand.MatchingInKeyOrder | internal/datastore/databases/boltdb/repo_command.go:52-65 | the listing is the accepted commands, one per accepted entry, in the order of their keys |
| RepoCommand.MatchingEmptyFilter | internal/datastore/databases/boltdb/repo_command.go:52-65 | with no conditions every stored command is listed, in key order |
| RepoCommand.MatchingMonotone | internal/datastore/databases/boltdb/repo_command.go:52-65 | a filter with more conditions lists a subset |
| RepoCommand.CommandList | internal/datastore/databases/boltdb/repo_command.go:43-73 | missing bucket is reported; any value that is malformed or has a refused status fails the listing; otherwise the matching commands |
| RepoCommand.MatchingStep | internal/datastore/databases/boltdb/repo_command.go:52-65 | visiting one more decodable entry extends the listing by that command exactly when the filter accepts it |
| RepoCommand.CollectCommands | internal/datastore/databases/boltdb/repo_command.go:52-65 | the `ForEach` loop succeeds exactly when every stored value decodes, and then returns the matching commands |
| RepoCommand.ListCommands | internal/datastore/databases/boltdb/repo_command.go:43-73 | the transaction returns `CommandList`'s list, or its error with a nil list |
| RepoCommand.AddCommandOutcome | internal/datastore/databases/boltdb/repo_command.go:75-93 | missing bucket, unencodable state and empty id are refused; otherwise the command is stored under its id, overwriting any earlier one |
| RepoCommand.AddCommand | internal/datastore/databases/boltdb/repo_command.go:75-93 | the transaction commits the outcome's store or rolls back with its error |
| RepoCommand.Resolved | internal/datastore/databases/boltdb/repo_command.go:112-113 | status and resolution time are set; id, entity, desired state and issue time are kept |
| RepoCommand.ResolveOutcome | internal/datastore/databases/boltdb/repo_command.go:95-126 | lookup errors are passed on; otherwise the resolved command is written under its decoded id |
| RepoCommand.ResolveCommand | internal/datastore/databases/boltdb/repo_command.go:95-126 | the read-modify-write commits the outcome's store or rolls back with its error |
| RepoCommand.DeleteCommand | internal/datastore/databases/boltdb/repo_command.go:128-145 | the transaction commits the delete outcome or rolls back with its error |
| RepoCommand.AddThenGet | internal/datastore/databases/boltdb/repo_command.go:75-93 | a successful add is returned by a later get when its status is accepted, and reads back as invalid data otherwise |
| RepoCommand.ResolveThenGet | internal/datastore/databases/boltdb/repo_command.go:95-126 | a command stored under its own id is read back resolved, with only status and resolution time changed, when the new status is accepted; a refused new status reads back as invalid data |
| RepoCommand.ResolveTwice | internal/datastore/databases/boltdb/repo_command.go:95-126 | a command resolved with an accepted status can be resolved again and the second resolution wins; after a refused status a second resolve reports invalid data |
| RepoCommand.ResolveWritesUnderRecordId | internal/datastore/databases/boltdb/repo_command.go:120 | when the record's id differs from its key, the record under the key is left as it was |
| RepoCommand.RefusedStatusIsInvalidData | internal/datastore/databases/boltdb/repo_command.go:29-31 | a stored command document whose status the decoder refuses makes Get, List and Resolve report invalid data |
| RepoCommand.ListingFixture | internal/datastore/databases/boltdb/repo_command_test.go:98-104 | the listing tests' store of three commands under "cmd1", "cmd2", "cmd3" is well formed |
| RepoCommand.ListingFixtureDecodes | internal/_data/mocks.go:9-37 | the pending and success records decode under both declarations, the "failed" record only under models.go |
| RepoCommand.NoFilterListing | internal/datastore/databases/boltdb/repo_command_test.go:98-109 | the unfiltered listing gives the three records in key order under the models.go declaration, as the test expects, and invalid data under the command.go declaration |
| RepoCommand.ResolveAbsent | internal/datastore/databases/boltdb/repo_command.go:102-105 | resolving an absent id reports it missing |
| RepoReportSubscription.SubscriptionByID | internal/datastore/databases/boltdb/repo_report_subscription.go:13-40 | the lookup under the id's decimal text: missing bucket, absent key, a value that is malformed or has a refused report type (invalid data), or the subscription |
| RepoReportSubscription.GetReportSubscriptionByID | internal/datastore/databases/boltdb/repo_report_subscription.go:13-40 | the read returns `SubscriptionByID`'s subscription, or its error with the zero subscription |
| RepoReportSubscription.Matching | internal/datastore/databases/boltdb/repo_report_subscription.go:51-63 | the listing holds only subscriptions the filter accepts, and every stored one it accepts |
| RepoReportSubscription.Kept | internal/datastore/databases/boltdb/repo_report_subscription.go:51-63 | the positions the filter keeps: one per listed subscription, in bounds, strictly increasing |
| RepoReportSubscription.KeptDecode | internal/datastore/databases/boltdb/repo_report_subscription.go:51-63 | the j-th listed subscription is the decoding of the entry at the j-th kept position |
| RepoReportSubscription.KeptComplete | internal/datastore/databases/boltdb/repo_report_subscription.go:51-63 | every entry whose subscription the filter accepts is at a kept position |
| RepoReportSubscription.MatchingInKeyOrder | internal/datastore/databases/boltdb/repo_report_subscription.go:51-63 | the listing is the accepted subscriptions, one per accepted entry, in the order of their keys |
| RepoReportSubscription.MatchingEmptyFilter | internal/datastore/databases/boltdb/repo_report_subscription.go:51-63 | with no conditions every stored subscription is listed, in key order |
| RepoReportSubscription.MatchingMonotone | internal/datastore/databases/boltdb/repo_report_subscription.go:51-63 | a filter with more conditions lists a subset |
| RepoReportSubscription.SubscriptionList | internal/datastore/databases/boltdb/repo_report_subscription.go:42-71 | missing bucket is reported; any value that is malformed or has a refused report type fails the listing; otherwise the matching subscriptions |
| RepoReportSubscription.ListReportSubscriptions | internal/datastore/databases/boltdb/repo_report_subscription.go:42-71 | the `ForEach` loop returns `SubscriptionList`'s list, or its error with a nil list |
| RepoReportSubscription.AddOutcome | internal/datastore/databases/boltdb/repo_report_subscription.go:73-94 | the sequence is bumped, the record gets the new value as id whatever the caller gave, and is stored under its decimal text |
| RepoReportSubscription.AddReportSubscription | internal/datastore/databases/boltdb/repo_report_subscription.go:73-94 | the transaction commits the outcome's store or rolls back with its error |
| RepoReportSubscription.DeleteReportSubscription | internal/datastore/databases/boltdb/repo_report_subscription.go:96-113 | deletes the key that is the id's decimal text, or rolls back with the delete outcome's error |
| RepoReportSubscription.SetActiveOutcome | internal/datastore/databases/boltdb/repo_report_subscription.go:115-177 | lookup errors, invalid data from a refused report type included, are passed on; otherwise only IsActive changes, UpdatedAt included unchanged |
| RepoReportSubscription.ActivateReportSubscription | internal/datastore/databases/boltdb/repo_report_subscription.go:115-145 | the read-modify-write commits the outcome with IsActive set, or rolls back with its error |
| RepoReportSubscription.DeactivateReportSubscription | internal/datastore/databases/boltdb/repo_report_subscription.go:147-177 | the read-modify-write commits the outcome with IsActive cleared, or rolls back with its error |
| RepoReportSubscription.AddThenGet | internal/datastore/databases/boltdb/repo_report_subscription.go:80-88 | a new subscription is found under the id the sequence gave it when its report type is accepted, and reads back as invalid data otherwise |
| RepoReportSubscription.SuccessiveAddsDistinct | internal/datastore/databases/boltdb/repo_report_subscription.go:80-88 | two adds get consecutive ids with distinct keys, and each remains retrievable when its report type is accepted |
| RepoReportSubscription.ActivateIdempotent | internal/datastore/databases/boltdb/repo_report_subscription.go:115-145 | activating twice gives the same store as activating once |
| RepoReportSubscription.SetActiveThenGet | internal/datastore/databases/boltdb/repo_report_subscription.go:133-139 | after (de)activation the subscription reads back with only IsActive changed |
| RepoReportSubscription.RefusedReportTypeIsInvalidData | internal/datastore/databases/boltdb/repo_report_subscription.go:28-30 | a stored subscription document whose report type the decoder refuses makes Get, List, Activate and Deactivate report invalid data |
| RepoReportSubscription.FreshStoreHasNoSubscriptions | internal/datastore/databases/boltdb/tables.go:13-25 | CreateTables does not create the bucket, so every subscription operation on a fresh store reports the missing table |
| LegacyBoltDB.EntityTableCreated | internal/datastore/databases/boltdb/boltdb.go:32-40 | only Entity is created if missing; every other bucket is left as it was |
| LegacyBoltDB.CreateTables | internal/datastore/databases/boltdb/boltdb.go:32-40 | the transaction commits `EntityTableCreated` and reports no error |
| LegacyBoltDB.CreateTablesIdempotent | internal/datastore/databases/boltdb/boltdb.go:32-40 | a second CreateTables changes nothing |
| LegacyBoltDB.SchemaContained | internal/datastore/databases/boltdb/boltdb.go:14 | the bucket name agrees with tables.go and the newer schema extends this one by Command |
| LegacyBoltDB.FreshStoreIsEmpty | internal/datastore/databases/boltdb/boltdb.go:32-96 | after CreateTables on a fresh file, listing gives no entities and every lookup reports the record missing |
| LegacyBoltDB.GetEntityByID | internal/datastore/databases/boltdb/boltdb.go:42-68 | missing bucket, absent key, malformed value, or the stored entity |
| LegacyBoltDB.GetAllEntities | internal/datastore/databases/boltdb/boltdb.go:70-96 | all entities in key order, or the first error with a nil list |
| LegacyBoltDB.AddEntity | internal/datastore/databases/boltdb/boltdb.go:98-125 | duplicate and empty keys refused; otherwise only `{id, name}` added; rollback on error |
| LegacyBoltDB.DeleteEntity | internal/datastore/databases/boltdb/boltdb.go:127-144 | absent key reported; otherwise only that key removed; rollback on error |
| LegacyBBolt.EntityTableCreated | internal/datastore/bbolt/bbolt.go:32-40 | only Entity is created if missing; every other bucket is left as it was |
| LegacyBBolt.CreateTables | internal/datastore/bbolt/bbolt.go:32-40 | the transaction commits `EntityTableCreated` and reports no error |
| LegacyBBolt.CreateTablesIdempotent | internal/datastore/bbolt/bbolt.go:32-40 | a second CreateTables changes nothing |
| LegacyBBolt.EntityByNumber | internal/datastore/bbolt/bbolt.go:42-69 | the lookup under the id's decimal text: missing bucket, absent key, malformed value, or the entity |
| LegacyBBolt.GetEntityByID | internal/datastore/bbolt/bbolt.go:42-69 | the read returns `EntityByNumber`'s entity, or its error with the zero entity; nothing changes |
| LegacyBBolt.GetAllEntities | internal/datastore/bbolt/bbolt.go:71-97 | all entities in key order, or the first error with a nil list; nothing changes |
| LegacyBBolt.DistinctIdsDistinctKeys | internal/datastore/bbolt/bbolt.go:51 | distinct integer ids look up distinct keys |
| LegacyBBolt.NonNumericKeyUnreachable | internal/datastore/bbolt/bbolt.go:51 | a key that does not start with a digit or '-' is never looked up |
| LegacyBBolt.Fixture | internal/datastore/bbolt/bbolt_test.go:88-100 | the preloaded test store is well formed |
| LegacyBBolt.FixtureOutcomes | internal/datastore/bbolt/bbolt_test.go:26-42 | on the test store id 1 is found, id 3 is invalid data, id 4 is not found, and listing fails as invalid data |
| Broker.Broker.constructor | internal/broker/broker.go:12-19 | a broker starts with its format function, its connection state and nothing published |
| Broker.Broker.Publish | internal/services/entity/entity.go:111 | a publish is delivered once when the transport is up and refused with nothing delivered otherwise |
| EntityService.NotFoundOr | internal/services/entity/entity.go:32-39 | ErrRecordNotFound becomes ErrEntityNotFound, and every other error ErrInternalError |
| EntityService.DuplicateOr | internal/services/entity/entity.go:54-61 | ErrDuplicateRecord becomes ErrEntityAlreadyExists, and every other error ErrInternalError |
| EntityService.PendingCommand | internal/services/entity/entity.go:93-99 | the new command has the fresh id, the entity, the desired state, status pending, issued now, unresolved |
| EntityService.UpdateTopic | internal/services/entity/entity.go:105 | the topic is "entities/" then the entity id then "/update" |
| EntityService.BaseEntityService.constructor | internal/services/entity/entity.go:23-28 | the service keeps the datastore and broker it was given |
| EntityService.BaseEntityService.GetEntityByID | internal/services/entity/entity.go:30-42 | the stored entity, or the lookup error translated by `NotFoundOr` |
| EntityService.BaseEntityService.ListEntities | internal/services/entity/entity.go:44-51 | the listing, or ErrInternalError for any listing error |
| EntityService.BaseEntityService.AddEntity | internal/services/entity/entity.go:53-64 | commits the add, or rolls back with the error translated by `DuplicateOr` |
| EntityService.BaseEntityService.DeleteEntity | internal/services/entity/entity.go:66-77 | commits the delete, or rolls back with the error translated by `NotFoundOr` |
| EntityService.BaseEntityService.ProcessCommand | internal/services/entity/entity.go:79-116 | an unknown entity or a failed add change nothing and publish nothing; otherwise the pending command is stored, and it is published on the formatted topic keyed by the command id when the transport is up, or left stored unpublished with ErrInternalError |
| EntityService.IssuedCommandIsPending | internal/services/entity/entity.go:91-103 | after a successful issue the command is found under its id, pending and unresolved, for the given entity and state |
| EntityService.StoredStateIsEncodable | internal/services/entity/entity.go:101-109 | a stored command's desired state is encodable, so the payload encoding cannot fail afterwards |
| EntityService.IssueKeepsEntities | internal/services/entity/entity.go:101-103 | issuing a command leaves every entity lookup as it was |
| EntityService.SuccessiveIssuesBothStored | internal/services/entity/entity.go:91-103 | two issues with distinct fresh ids both remain retrievable, under either status declaration, since both accept "pending" |

## Left out

- Opening the database file and connecting to the broker are file and network I/O and are not modelled. This covers `NewBoltDBDataStore`, `NewBBoltDataStore`, the RabbitMQ client and the `GetBroker` factory. `ErrConnectionFailed` is declared but never produced.
- bbolt's engine (B+tree pages, mmap, locking, concurrent transactions) is reduced to an ordered bucket with commit-or-rollback writes.
- bbolt's key and value size limits are not modelled. `Bolt.Bucket.Put` fails only on an empty key, bbolt's `ErrKeyRequired`.
- JSON text is not modelled. A stored value is a valid record or malformed, and an `Unencodable` desired-state value stands for what `json.Marshal` refuses. Decoding an encoded record is taken to give that record back exactly. Go's decoding differs in ways the API cannot reach: numbers inside a `map[string]any` come back as `float64`, missing fields get zero values and unknown fields are ignored, so a record of another kind stored in a bucket would decode in Go where the model reports invalid data.
- Codec.MarshalCommand: timestamps are unbounded integers, so the failure of Go's `time.Time` encoding for years outside 0 to 9999 is not modelled; a command whose desired state is encodable always encodes.
- Codec.MarshalSubscription: for the same reason a report subscription always encodes.
- RepoReportSubscription.AddOutcome: its marshal-failure branch (repo_report_subscription.go:85), reachable in Go only through an out-of-range `UpdatedAt`, is therefore not represented.
- RepoCommand.ResolveOutcome: the marshal failure of a resolved command with an out-of-range `ResolvedAt` (repo_command.go:117) is not represented. The model's other failure there, an unencodable desired state, is reachable only for a stored record holding `Unencodable`; a desired state Go decoded from stored JSON always encodes again, so in Go that branch is dead too.
- Timestamps are integers. `time.Now()` is the parameter `now`, and `uuid.NewString()` is the parameter `commandId`.
- `Broker.Broker.Publish`: the reasons a real broker refuses a message are reduced to one flag, `connected`.
- `Broker.Broker.constructor`: `Format` is an arbitrary function supplied at construction. The RabbitMQ broker in the repository declares no `Format` of its own.
- The subscriber side of the broker and `Close` are left out. The core does not use them.
- `RepoReportSubscription.AddOutcome`: bbolt's sequence counter is an unbounded natural number. The 64-bit counter's wrap-around and its conversion to Go `int` are not modelled.
- `Tables.CreateTables`: the rollback path when creating `Entity` fails cannot be reached, because bbolt refuses only empty or over-long bucket names and the names are constants. The method therefore always succeeds.
- Which `CommandStatus` declaration the package is meant to keep is left open. The repository's tests expect stored "failed" commands to decode, which is the `models.go` reading; the model states every command contract for both declarations instead of choosing.
- ListReportSubscriptions: Go takes the generic `datastore.Filter[T]` interface; the model takes the one implementation of it in the repository, `Filters.ReportSubscriptionFilter`, and likewise `ListCommands` takes `Filters.CommandFilter`.
- The HTTP handlers, configuration loading, `main` and the datastore factory are wiring with no behaviour of their own.
