# mox: persistence decision logic

This project models the decision logic of `mox`, a thin object-document
mapping layer over the MongoDB Go driver. Around its driver calls sit a few
pure rules, and those rules are the model:

- which identifier a model has;
- the order of the checks before a save, and whether the save inserts or updates;
- how the results of find, delete and exists become errors;
- which optional capabilities a model has (`Validatable`, `Hookable`, `Archive()`/`Restore()`);
- the declarative field validator and its combined message;
- the timestamp rule of `Base`;
- the query each relationship kind loads with;
- the filter merge of the query builder.

The driver is an oracle. Its insert, update, delete, find and decode outcomes
are parameters. Each persistence operation returns an `Outcome`: the ordered
steps it takes (model methods it calls, driver operations it issues) and the
error it reports. Reflection over a model is replaced by a record of what it
would find: the `ID` field is missing, an `ObjectID`, or another type. The
clock reading `now` is a parameter. A model's storage name (`Table()`) and the
results of its optional methods are recorded fields of `Model.Instance`.
`Validate()`, the hooks, `Archive()` and `Restore()` run on the model in
place, so an operation that calls them takes the model both before and after
the calls. The two must be of the same Go type (`Model.SameType`).

Files, one module each: `wrappers.dfy`, `values.dfy`, `errors.dfy`,
`hooks.dfy`, `identity.dfy`, `model.dfy`, `validation.dfy`, `collection.dfy`,
`relationships.dfy`, `query.dfy`.

`hasZeroID`/`getID` in `query/collection.go` are an identical copy of
`HasZeroID`/`GetID` in `bson/bson.go`. Both are modelled by the one pair in
`Identity`.

Behaviours of the code worth knowing:

- A delete that removes nothing reports the driver's `ErrNoDocuments`, not the package's `ErrNotFound`. `IsNotFound` does not recognise it (`Collection.DeleteRunsNoHooks`).
- `Delete` tests the deleted count before the driver error. A zero count hides any driver error.
- The `email`, `min` and `max` rules check nothing.
- An `embeds` relationship with a pipeline gets an empty first stage. It does not fall back to a match on `_id` (`Relationships.EmbedsPathsDiverge`).

## Model

| member | source | states |
|---|---|---|
| Values.ZeroMeansAllBytesZero | bson/bson.go:14-15 | an `ObjectID` is zero exactly when all twelve of its bytes are zero |
| Errors.IsNotFound | errors/errors.go:10-13 | only the `ErrNotFound` sentinel itself is recognised; its text is "document not found" |
| Errors.IsNoID | errors/errors.go:15-18 | only the `ErrNoID` sentinel itself is recognised; its text is "model has no valid ID" |
| Errors.SentinelsExclusive | errors/errors.go:5-8 | no error satisfies both predicates, because the sentinels are distinct |
| Errors.NilIsNoSentinel | errors/errors.go:11-18 | the nil error satisfies neither predicate |
| Errors.WrappedSentinelNotRecognised | errors/errors.go:11-18 | a wrapped sentinel is not recognised, and neither is a fresh error carrying the sentinel's text |
| Hooks.Dispatch | hooks/hooks.go:11-41 | a dispatcher invokes a hook exactly when the model is Hookable; it invokes the requested hook and reports that hook's result; otherwise it reports nil |
| Hooks.CallBeforeSave | hooks/hooks.go:11-17 | on a Hookable model it invokes BeforeSave and returns its result; on any other model it invokes nothing and returns nil |
| Hooks.CallAfterFind | hooks/hooks.go:19-25 | on a Hookable model it invokes AfterFind and returns its result; on any other model it invokes nothing and returns nil |
| Hooks.CallBeforeDelete | hooks/hooks.go:27-33 | on a Hookable model it invokes BeforeDelete and returns its result; on any other model it invokes nothing and returns nil |
| Hooks.CallAfterDelete | hooks/hooks.go:35-41 | on a Hookable model it invokes AfterDelete and returns its result; on any other model it invokes nothing and returns nil |
| Hooks.PartialHooksAreInert | hooks/hooks.go:3-9 | a model missing any one of the four methods is not Hookable, so every dispatcher is a no-op for it, even for the hooks it declares |
| Hooks.DispatchInvokesOnlyItsOwnHook | hooks/hooks.go:11-41 | a dispatcher never invokes a hook other than its own |
| Identity.HasZeroID | bson/bson.go:9-18 | a missing `ID` field counts as zero, and so does an `ID` field of a type other than `ObjectID`; an `ObjectID` field counts as zero iff all its bytes are zero; the argument must be a pointer to a struct |
| Identity.GetID | bson/bson.go:20-29 | nil exactly when the field is missing or of another type; otherwise the field's own `ObjectID` |
| Identity.NonZeroIdIsResolvable | query/collection.go:19-39 | `HasZeroID` is false exactly when `GetID` yields a non-nil, non-zero identifier |
| Identity.UnresolvableIdCountsAsZero | query/collection.go:30-39 | whenever `GetID` is nil, `HasZeroID` is true |
| Model.CollectionName | model/model.go:21-24 | every `Base` answers `"models"` |
| Model.SetTimestamps | model/model.go:26-33 | CreatedAt becomes `now` only while it is zero; UpdatedAt always becomes `now`; ID is untouched |
| Model.FreshBaseStampsAgree | model/model.go:28-32 | on a fresh `Base` the two instants come out equal |
| Model.StampTwice | model/model.go:27-33 | stamping with `now1` then `now2` (`now1` non-zero) gives CreatedAt `now1` and UpdatedAt `now2` |
| Model.CreatedAtIsSetOnce | model/model.go:29-32 | over any number of calls, a non-zero CreatedAt never changes, the ID never changes, and UpdatedAt is the last reading |
| Model.FirstReadingIsCreation | model/model.go:27-33 | from a fresh `Base`, the first non-zero reading stays CreatedAt for good |
| Model.TimestampsKeepIdentity | model/model.go:14-19 | a struct embedding `Base` has an `ObjectID`-typed `ID`, and stamping never changes how it resolves |
| Validation.ValidateDocument | model/validation.go:35-41 | a Validatable model gets its own `Validate()` result; any other model gets nil |
| Validation.EmptyValuesAre | model/validation.go:70-82 | empty means exactly nil, `""`, or an array, slice, ordered document or map of length zero |
| Validation.ZeroValuesArePresent | model/validation.go:76-81 | `0`, `false`, a nil pointer, a struct, the zero time and the zero `ObjectID` all count as present |
| Validation.ValidateFields | model/validation.go:43-68 | nil iff no field has a `required` rule on an empty value; otherwise one error whose text is the entries joined with `", "` |
| Validation.ValidateFieldsLoop | model/validation.go:44-67 | the loop over the fields, appending each field's entries and joining them at the end, computes exactly `ValidateFields` |
| Validation.FieldErrorsLoop | model/validation.go:48-61 | the loop over one field's rules, with the switch on the rule name, yields exactly that field's entries in rule order |
| Validation.RuleErrorsEmptyIff | model/validation.go:48-53 | a field contributes no entry iff it lacks a `required` rule or its value is present |
| Validation.NoViolationsIffNoFailure | model/validation.go:64-67 | the entry list is empty iff no field fails |
| Validation.ViolationsConcat | model/validation.go:47-53 | entries are field-major: the entries of a concatenation of field lists are the entries of the first list, then those of the second |
| Validation.NonRequiredRulesAreInert | model/validation.go:54-60 | `email`, `min`, `max`, unknown rule names and an empty rule list add nothing |
| Validation.DuplicateRequiredIsNotMerged | model/validation.go:48-53 | a field listing `required` twice contributes two identical entries |
| Validation.RuleErrorsAreRepeats | model/validation.go:48-61 | for any rule list, a field with an empty value contributes one `"<name> is required"` entry per `required` rule, repeats included, and a present value contributes none |
| Validation.RuleEntriesAreRequiredMessages | model/validation.go:50-52 | each entry of a field is `"<name> is required"`, and it appears only when the value is empty and a `required` rule is present |
| Validation.EntriesNameFailingFields | model/validation.go:47-53 | every entry is `"<name> is required"` for some failing field |
| Validation.FailingFieldIsReported | model/validation.go:47-53 | every failing field has its entry in the list |
| Validation.JoinContainsParts | model/validation.go:64-65 | every entry occurs verbatim in the joined text |
| Validation.MessageNamesFailingField | model/validation.go:64-65 | when a field fails, the error exists and its text contains that field's name |
| Collection.Save | query/collection.go:51-77 | a validation error is returned first, before any hook runs; a BeforeSave error is returned next, with no write; otherwise one write into the collection named before the hook ran: an insert of the model as the hook left it when its ID is zero, or a `$set` of that model addressed by its non-zero `GetID`; the driver error is returned verbatim |
| Collection.SaveWritesOnceOrNever | query/collection.go:53-76 | a save or a publish issues exactly one driver write when both checks pass; otherwise it issues none and reports an error |
| Collection.SaveInsertsIffZeroId | query/collection.go:67-76 | the write is an insert iff the identifier, as the checks left it, resolves to zero |
| Collection.HookAssignedIdIsUpdated | query/collection.go:63-76 | an `ObjectID` that BeforeSave assigns to a model that arrived with a zero ID makes the save an update by that ID, writing the model as the hook left it |
| Collection.FreshBaseIsInserted | query/collection.go:67-71 | a model built on a `Base` whose ID is still zero after the checks is inserted, as the checks left it, and nothing else is written |
| Collection.Publish | query/collection.go:106-128 | the checks in `Save`'s order with `Save`'s errors; otherwise one insert or `$set` update, decided on the model as the hook left it, into the collection named after the hook ran |
| Collection.PublishIsSave | query/collection.go:51-128 | `Publish` reports `Save`'s error on every input, and takes `Save`'s steps whenever the hook leaves the storage name unchanged |
| Collection.FindByID | query/collection.go:79-89 | one lookup on `{_id: id}`, then AfterFind iff decoding succeeded and the model is Hookable, and nothing else (two steps or one); the decode error is what is returned |
| Collection.AfterFindErrorIsSwallowed | query/collection.go:84-86 | a failing AfterFind still yields success after a good decode |
| Collection.Find | query/collection.go:91-94 | `Find` behaves exactly as `FindByID` |
| Collection.Delete | query/collection.go:96-104 | one delete on `{_id: id}`; a zero count reports `ErrNoDocuments` even if the driver also failed; otherwise the driver error is returned verbatim; the driver must supply a result |
| Collection.DeleteRunsNoHooks | query/collection.go:97-104 | a delete calls no hook, and its not-found error is not the package's `ErrNotFound` |
| Collection.Archive | query/collection.go:130-137 | with `Archive()` the model is mutated and then published, the checks running on the mutated model; without it a fixed error and no steps |
| Collection.Restore | query/collection.go:139-146 | with `Restore()` the model is mutated and then published, the checks running on the mutated model; without it a fixed error and no steps |
| Collection.ArchiveWritesLikeSave | query/collection.go:131-136 | archiving writes nothing without the capability; with it, it writes exactly when a save of the mutated model would, and the write is the one a publish issues |
| Collection.RestoreWritesLikeSave | query/collection.go:140-145 | restoring writes nothing without the capability; with it, it writes exactly when a save of the mutated model would, and the write is the one a publish issues |
| Collection.Where | query/collection.go:148-154 | a fresh builder with the single filter `{field: {"$"+op: value}}`, no sort, limit 0 and skip 0 |
| Collection.SortBy | query/collection.go:156-162 | a fresh builder holding only the sort `{field: direction}` |
| Collection.Limit | query/collection.go:164-170 | a fresh builder holding only the limit, with skip 0 |
| Collection.CombineKeysAreUnion | query/collection.go:202-210 | the merged keys are exactly the union of the filters' keys; no filters give the empty map |
| Collection.CombineIsLastWriteWins | query/collection.go:204-208 | each key maps to the value of the last filter holding it |
| Collection.MergeKeys | query/collection.go:205-207 | copying one filter's keys over the merge so far, in any key order, gives the merge overwritten by that filter |
| Collection.CombineFilters | query/collection.go:202-210 | the key-by-key loop merge, in any key order, equals `Combine` |
| Collection.Get | query/collection.go:181-200 | one find on the merged filter with the builder's sort, limit and skip; a find error stops it before decoding; a decode error discards the results |
| Collection.BuildersDoNotChain | query/collection.go:148-170 | each builder's query carries only its own criterion: a limit builder's query is unfiltered and unsorted, and a where builder's query is unlimited |
| Relationships.BelongsTo | model/relationships.go:18-24 | kind `belongsTo` on the given collection, with no pipeline and no options |
| Relationships.HasMany | model/relationships.go:26-32 | kind `hasMany` on the given collection, with no pipeline and no options |
| Relationships.WithPipeline | model/relationships.go:34-38 | replaces the pipeline and leaves every other field as it was |
| Relationships.WithOptions | model/relationships.go:40-44 | replaces the options and leaves every other field as it was |
| Relationships.MatchStage | model/relationships.go:51-58 | `$match` on `_id` for belongsTo and on `parent_id` for hasMany; an empty document for any other kind |
| Relationships.Load | model/relationships.go:46-74 | a non-empty pipeline runs as the match stage followed by the user stages in order (length plus one); otherwise belongsTo and embeds find by `_id`, hasMany finds by `parent_id` (both passing the options), and any other kind runs nothing |
| Relationships.AggregationIgnoresOptions | model/relationships.go:60-61 | on the aggregation path the options make no difference |
| Relationships.PathsSelectOnSameKey | model/relationships.go:52-68 | for belongsTo and hasMany, the match stage and the find filter select on the same key and value |
| Relationships.EmbedsPathsDiverge | model/relationships.go:52-70 | embeds finds by `_id` without a pipeline, but with one its first stage is empty |
| Relationships.FluentDescriptorsLoad | model/relationships.go:18-68 | the fluent constructors, with or without a pipeline, load with the query their kind promises |
| Relationships.HasOneLoadsNothing | model/relationships.go:71-72 | hasOne without a pipeline runs no query and reports no error |
| Query.FindOneByID | query/query.go:16-19 | a find whose filter is exactly `{_id: id}`, with the options unchanged |
| Query.UpdateOneByID | query/query.go:21-24 | an update whose filter is exactly `{_id: id}`, with the update and options unchanged |
| Query.DeleteOneByID | query/query.go:26-29 | a delete whose filter is exactly `{_id: id}`, with the options unchanged |
| Query.Exists | query/query.go:31-41 | a nil lookup error gives `(true, nil)`; `ErrNoDocuments` gives `(false, nil)`; any other error gives `(false, err)` |
| Query.ExistsIsConsistent | query/query.go:32-41 | never true together with an error; true iff the lookup succeeded; any error reported is the lookup's own |
| Query.OnlyTheSentinelMeansAbsent | query/query.go:37-40 | a wrapped `ErrNoDocuments`, or the package's `ErrNotFound`, is passed on as an error |

## Left out

- `Connect` (mox.go) is left out. It is network I/O under a 10-second timeout, and its option loop only keeps the last override.
- `Client.Collection`, `NewSession` and `WithTransaction` (mox.go) and the `session` package are left out. They pass straight through to the driver.
- Driver execution is not modelled: insert, update, find, decode, delete, aggregate, `cursor.All` and BSON encoding of structs. Their outcomes are inputs.
- Collection.Save: `Resolvable` is required where the source panics. `hasZeroID`/`getID` call `reflect.Value.Elem` and `FieldByName` (query/collection.go:21-22, 32-33), which panic unless the model is a pointer to a struct. The same requirement on `Publish`, `Archive` and `Restore` stands for the same panic.
- Collection.Save: each optional method has one recorded result per call, and `saved` is the model after both `Validate()` and `BeforeSave()`. A change `Validate()` makes to the storage name before `Save` looks it up is not separated from the model as handed in.
- Go reflection and `time.Now` are replaced by the recorded `ID` field and a `now` parameter.
- `Model.Instance.table` stands for the model's storage name. The `Model` interface declares `CollectionName()`, but the callers use `Table()`. The name is taken as given. `Save` asks for it before the BeforeSave hook and `Publish` after it, and the model keeps that difference.
- Effect of decoding on the model: in `FindByID` the decode fills the model's fields. The model value is not changed here; only hookability matters afterwards, and decoding does not change it.
- Effect of a model's own `Archive()`/`Restore()`: its result is the input `archived`/`restored`. The soft-delete document record is not part of this model, so no archive/restore round trip is stated.
- Error identity of fresh errors: each `errors.New` call makes a distinct error in Go. Here two `New(text)` values with equal text are equal. No code compares such errors.
- `Relationship.Field` and `Rule.Value` are never read by the source, so they are carried unread.
- Aliasing: `WithPipeline` and `WithOptions` return the same pointer they were given. The model returns the updated value instead, so sharing between references is not expressed.
- Integer widths: `int`/`int64` limits and counts are unbounded integers. The source only converts `int` to `int64`, which widens and never truncates.
