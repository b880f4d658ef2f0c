/**
 The persistence façade over one database: save, publish, find, delete,
 archive and restore, and the query builder. Every driver call is an input:
 each operation returns the steps it takes (the model methods it calls and
 the driver operations it issues, in order) and the error it reports, given
 what the driver answers.
 */
module Collection {
  import opened Wrappers
  import opened Values
  import opened Errors
  import opened Hooks
  import opened Identity
  import opened Model
  import opened Validation

  /** The update document `{"$set": model}`. */
  datatype Update = SetDocument(doc: Instance)

  /** A driver operation, addressed to a collection by name. */
  datatype DriverOp =
    | InsertOne(collection: string, doc: Instance)
    | UpdateByID(collection: string, id: ObjectID, update: Update)
    | FindOne(collection: string, filter: Document)
    | DeleteOne(collection: string, filter: Document)
    | FindMany(collection: string, filter: Document, sort: Option<Document>, limit: int, skip: int)

  /** One thing an operation does, in the order it does it. */
  datatype Step =
    | CalledValidate
    | CalledHook(hook: Hook)
    | CalledArchive
    | CalledRestore
    | Issued(op: DriverOp)

  datatype Outcome = Outcome(steps: seq<Step>, err: Option<Error>)

  /** How many driver operations a run of steps issues. */
  function Issues(steps: seq<Step>): nat
    decreases |steps|
  {
    if |steps| == 0 then 0
    else Issues(steps[..|steps| - 1]) + (if steps[|steps| - 1].Issued? then 1 else 0)
  }

  lemma {:induction false} IssuesConcat(a: seq<Step>, b: seq<Step>)
    ensures Issues(a + b) == Issues(a) + Issues(b)
    decreases |b|
  {
    if |b| == 0 {
      assert a + b == a;
    } else {
      assert (a + b)[..|a + b| - 1] == a + b[..|b| - 1];
      IssuesConcat(a, b[..|b| - 1]);
    }
  }

  /** The step a hook dispatch adds: the hook it invoked, if any. */
  function HookSteps(c: HookCall): seq<Step> {
    if c.invoked.Some? then [CalledHook(c.invoked.value)] else []
  }

  /** The calls a save makes before deciding on a write. */
  function CheckSteps(m: Instance): seq<Step> {
    (if m.validator.Validates? then [CalledValidate] else []) + HookSteps(CallBeforeSave(m.hooks))
  }

  lemma CheckStepsIssueNothing(m: Instance)
    ensures Issues(CheckSteps(m)) == 0
  {
    var v: seq<Step> := if m.validator.Validates? then [CalledValidate] else [];
    var h := HookSteps(CallBeforeSave(m.hooks));
    IssuesConcat(v, h);
    assert v == [] || v[..0] == [];
    assert h == [] || h[..0] == [];
  }

  /** Validation and the BeforeSave hook both let the save through. */
  predicate PassesChecks(m: Instance) {
    ValidateDocument(m).None? && CallBeforeSave(m.hooks).result.None?
  }

  /**
   Identifier resolution dereferences its argument, so a model that gets
   past the checks must be a pointer to a struct.
   */
  predicate Resolvable(m: Instance) {
    PassesChecks(m) ==> m.target.StructPointer?
  }

  /**
   Is `op` the write a save into collection `table` must issue, given the
   model as its checks left it: an insert of the model when its identifier
   is zero, otherwise a `$set` of the model by that identifier?
   */
  predicate IsSaveWrite(table: string, saved: Instance, op: DriverOp)
    requires saved.target.StructPointer?
  {
    if HasZeroID(saved.target) then op == InsertOne(table, saved)
    else op.UpdateByID? && op.collection == table && Some(op.id) == GetID(saved.target)
         && !IsZero(op.id) && op.update == SetDocument(saved)
  }

  /**
   The path `Save` and `Publish` share. `Validate()` and `BeforeSave()`
   run on the model in place, so `m` is the model handed in, whose methods
   decide the checks, and `saved` is the same model once they have run;
   the insert-or-update decision and the document written are taken from
   `saved`. The two operations differ only in when they look up the
   collection, hence `table`.
   */
  function SaveInto(table: string, m: Instance, saved: Instance, writeErr: Option<Error>): Outcome
    requires Resolvable(m) && SameType(m, saved)
  {
    if m.validator.Validates? && m.validator.result.Some? then
      Outcome([CalledValidate], m.validator.result)
    else
      var hook := CallBeforeSave(m.hooks);
      var checked := CheckSteps(m);
      if hook.result.Some? then
        Outcome(checked, hook.result)
      else if HasZeroID(saved.target) then
        Outcome(checked + [Issued(InsertOne(table, saved))], writeErr)
      else
        NonZeroIdIsResolvable(saved.target);
        Outcome(checked + [Issued(UpdateByID(table, GetID(saved.target).value, SetDocument(saved)))], writeErr)
  }

  /**
   `Save`: validate, then the BeforeSave hook, then insert the model when
   its identifier is zero or update it by identifier with `$set` otherwise.
   The first error stops it; the write's own error is returned verbatim.
   The collection is looked up between the two checks, under the name the
   model gives before its hook runs.
   */
  function Save(m: Instance, saved: Instance, writeErr: Option<Error>): (o: Outcome)
    requires Resolvable(m) && SameType(m, saved)
    ensures ValidateDocument(m).Some? ==> o == Outcome([CalledValidate], ValidateDocument(m))
    ensures ValidateDocument(m).None? && CallBeforeSave(m.hooks).result.Some? ==>
              o.err == CallBeforeSave(m.hooks).result && o.steps == CheckSteps(m)
              && o.steps[|o.steps| - 1] == CalledHook(BeforeSave)
    ensures PassesChecks(m) ==>
              o.err == writeErr && |o.steps| == |CheckSteps(m)| + 1
              && o.steps[..|CheckSteps(m)|] == CheckSteps(m)
              && o.steps[|o.steps| - 1].Issued? && IsSaveWrite(m.table, saved, o.steps[|o.steps| - 1].op)
  {
    SaveInto(m.table, m, saved, writeErr)
  }

  lemma SaveIntoWritesOnceOrNever(table: string, m: Instance, saved: Instance, writeErr: Option<Error>)
    requires Resolvable(m) && SameType(m, saved)
    ensures Issues(SaveInto(table, m, saved, writeErr).steps) == if PassesChecks(m) then 1 else 0
    ensures !PassesChecks(m) ==> SaveInto(table, m, saved, writeErr).err.Some?
  {
    var o := SaveInto(table, m, saved, writeErr);
    CheckStepsIssueNothing(m);
    if PassesChecks(m) {
      var n := |CheckSteps(m)|;
      assert o.steps == CheckSteps(m) + [o.steps[n]];
      IssuesConcat(CheckSteps(m), [o.steps[n]]);
      assert [o.steps[n]][..0] == [];
    } else if ValidateDocument(m).Some? {
      assert o.steps[..0] == [];
    }
  }

  /** A save or publish issues exactly one write when the checks pass and none otherwise. */
  lemma SaveWritesOnceOrNever(m: Instance, saved: Instance, writeErr: Option<Error>)
    requires Resolvable(m) && SameType(m, saved)
    ensures Issues(Save(m, saved, writeErr).steps) == if PassesChecks(m) then 1 else 0
    ensures Issues(Publish(m, saved, writeErr).steps) == if PassesChecks(m) then 1 else 0
    ensures !PassesChecks(m) ==> Save(m, saved, writeErr).err.Some? && Publish(m, saved, writeErr).err.Some?
  {
    SaveIntoWritesOnceOrNever(m.table, m, saved, writeErr);
    SaveIntoWritesOnceOrNever(saved.table, m, saved, writeErr);
  }

  /**
   The model is inserted exactly when its identifier, as the checks left
   it, resolves to zero; any other model is updated.
   */
  lemma SaveInsertsIffZeroId(m: Instance, saved: Instance, writeErr: Option<Error>)
    requires Resolvable(m) && SameType(m, saved) && PassesChecks(m)
    ensures var last := Save(m, saved, writeErr).steps[|Save(m, saved, writeErr).steps| - 1];
            last.Issued? && (last.op.InsertOne? <==> HasZeroID(saved.target))
  {
  }

  /**
   An identifier that `BeforeSave` assigns is the one the save updates by,
   even when the model arrived with a zero identifier; the document written
   is the model as the hook left it.
   */
  lemma HookAssignedIdIsUpdated(m: Instance, saved: Instance, id: ObjectID, writeErr: Option<Error>)
    requires Resolvable(m) && SameType(m, saved) && PassesChecks(m)
    requires saved.target == StructPointer(ObjectIdField(id)) && !IsZero(id)
    ensures Save(m, saved, writeErr) ==
            Outcome(CheckSteps(m) + [Issued(UpdateByID(m.table, id, SetDocument(saved)))], writeErr)
  {
    NonZeroIdIsResolvable(saved.target);
  }

  /** A model built on a fresh `Base` is inserted on its first save, as the checks left it. */
  lemma FreshBaseIsInserted(m: Instance, saved: Instance, b: Base, writeErr: Option<Error>)
    requires SameType(m, saved) && saved.target == BaseTarget(b) && IsZero(b.id) && PassesChecks(m)
    ensures Resolvable(m)
    ensures Save(m, saved, writeErr) == Outcome(CheckSteps(m) + [Issued(InsertOne(m.table, saved))], writeErr)
  {
  }

  /**
   `Publish`: the path of `Save`, except that the collection is looked up
   after the BeforeSave hook, under the name the model gives then.
   */
  function Publish(doc: Instance, saved: Instance, writeErr: Option<Error>): (o: Outcome)
    requires Resolvable(doc) && SameType(doc, saved)
    ensures ValidateDocument(doc).Some? ==> o == Outcome([CalledValidate], ValidateDocument(doc))
    ensures ValidateDocument(doc).None? && CallBeforeSave(doc.hooks).result.Some? ==>
              o.err == CallBeforeSave(doc.hooks).result && o.steps == CheckSteps(doc)
              && o.steps[|o.steps| - 1] == CalledHook(BeforeSave)
    ensures PassesChecks(doc) ==>
              o.err == writeErr && |o.steps| == |CheckSteps(doc)| + 1
              && o.steps[..|CheckSteps(doc)|] == CheckSteps(doc)
              && o.steps[|o.steps| - 1].Issued? && IsSaveWrite(saved.table, saved, o.steps[|o.steps| - 1].op)
  {
    SaveInto(saved.table, doc, saved, writeErr)
  }

  /**
   `Publish` and `Save` return the same error on every input, and take the
   same steps whenever the hook leaves the collection name alone.
   */
  lemma PublishIsSave(doc: Instance, saved: Instance, writeErr: Option<Error>)
    requires Resolvable(doc) && SameType(doc, saved)
    ensures Publish(doc, saved, writeErr).err == Save(doc, saved, writeErr).err
    ensures saved.table == doc.table ==> Publish(doc, saved, writeErr) == Save(doc, saved, writeErr)
  {
  }

  /**
   `FindByID`: one lookup by `_id`; AfterFind runs only when decoding
   succeeded, and whatever it returns is discarded.
   */
  function FindByID(m: Instance, id: Value, decodeErr: Option<Error>): (o: Outcome)
    ensures o.err == decodeErr
    ensures |o.steps| >= 1 && o.steps[0] == Issued(FindOne(m.table, ById(id)))
    ensures CalledHook(AfterFind) in o.steps <==> decodeErr.None? && Hookable(m.hooks)
    ensures forall k :: 1 <= k < |o.steps| ==> o.steps[k] == CalledHook(AfterFind)
    ensures |o.steps| == if decodeErr.None? && Hookable(m.hooks) then 2 else 1
  {
    var read := [Issued(FindOne(m.table, ById(id)))];
    if decodeErr.None? then
      var hook := CallAfterFind(m.hooks);
      Outcome(read + HookSteps(hook), decodeErr)
    else
      Outcome(read, decodeErr)
  }

  /** A failing AfterFind hook does not turn a successful lookup into a failure. */
  lemma AfterFindErrorIsSwallowed(m: Instance, id: Value)
    requires Hookable(m.hooks) && m.hooks[AfterFind].Some?
    ensures FindByID(m, id, None).err.None?
    ensures CalledHook(AfterFind) in FindByID(m, id, None).steps
  {
  }

  /** `Find`: an alias of `FindByID`. */
  function Find(m: Instance, id: Value, decodeErr: Option<Error>): (o: Outcome)
    ensures o == FindByID(m, id, decodeErr)
  {
    FindByID(m, id, decodeErr)
  }

  datatype DeleteResult = DeleteResult(deletedCount: int)

  /** What the driver's `DeleteOne` answers. */
  datatype DeleteReply = DeleteReply(result: Option<DeleteResult>, err: Option<Error>)

  /**
   `Delete`: one delete by `_id`; zero documents deleted reports the
   driver's no-documents error whatever else the driver said, otherwise the
   driver's own error is returned. The source reads the deleted count even
   when the driver failed, so the reply must carry a result.
   */
  function Delete(m: Instance, id: Value, reply: DeleteReply): (o: Outcome)
    requires reply.result.Some?
    ensures o.steps == [Issued(DeleteOne(m.table, ById(id)))]
    ensures reply.result.value.deletedCount == 0 ==> o.err == Some(NoDocuments)
    ensures reply.result.value.deletedCount != 0 ==> o.err == reply.err
  {
    var steps := [Issued(DeleteOne(m.table, ById(id)))];
    if reply.result.value.deletedCount == 0 then Outcome(steps, Some(NoDocuments))
    else Outcome(steps, reply.err)
  }

  /**
   A delete never runs the delete hooks, and a miss is not the package's
   own `ErrNotFound`.
   */
  lemma DeleteRunsNoHooks(m: Instance, id: Value, reply: DeleteReply)
    requires reply.result.Some?
    ensures forall s :: s in Delete(m, id, reply).steps ==> !s.CalledHook?
    ensures reply.result.value.deletedCount == 0 ==>
              !IsNotFound(Delete(m, id, reply).err) && Delete(m, id, reply).err.Some?
  {
  }

  const ArchiveUnsupported := New("document does not support archiving")
  const RestoreUnsupported := New("document does not support restoring")

  /**
   `Archive`: a model declaring `Archive()` has it called, which leaves the
   model as `archived`, and is then published, which leaves it as `saved`;
   any other model gets a fixed error and nothing is written.
   */
  function Archive(doc: Instance, archived: Instance, saved: Instance, writeErr: Option<Error>): (o: Outcome)
    requires doc.archivable ==> SameType(doc, archived) && Resolvable(archived) && SameType(archived, saved)
    ensures !doc.archivable ==> o == Outcome([], Some(ArchiveUnsupported))
    ensures doc.archivable ==>
              o.steps == [CalledArchive] + Publish(archived, saved, writeErr).steps
              && o.err == Publish(archived, saved, writeErr).err
  {
    if doc.archivable then
      var published := Publish(archived, saved, writeErr);
      Outcome([CalledArchive] + published.steps, published.err)
    else
      Outcome([], Some(ArchiveUnsupported))
  }

  /** `Restore`: as `Archive`, through the model's `Restore()` method. */
  function Restore(doc: Instance, restored: Instance, saved: Instance, writeErr: Option<Error>): (o: Outcome)
    requires doc.restorable ==> SameType(doc, restored) && Resolvable(restored) && SameType(restored, saved)
    ensures !doc.restorable ==> o == Outcome([], Some(RestoreUnsupported))
    ensures doc.restorable ==>
              o.steps == [CalledRestore] + Publish(restored, saved, writeErr).steps
              && o.err == Publish(restored, saved, writeErr).err
  {
    if doc.restorable then
      var published := Publish(restored, saved, writeErr);
      Outcome([CalledRestore] + published.steps, published.err)
    else
      Outcome([], Some(RestoreUnsupported))
  }

  /**
   With the capability, archiving writes exactly when saving the archived
   model would, and the write is the one a save would issue; without it,
   nothing is written.
   */
  lemma ArchiveWritesLikeSave(doc: Instance, archived: Instance, saved: Instance, writeErr: Option<Error>)
    requires doc.archivable ==> SameType(doc, archived) && Resolvable(archived) && SameType(archived, saved)
    ensures !doc.archivable ==> Issues(Archive(doc, archived, saved, writeErr).steps) == 0
    ensures doc.archivable ==>
              Issues(Archive(doc, archived, saved, writeErr).steps) == (if PassesChecks(archived) then 1 else 0)
    ensures doc.archivable && PassesChecks(archived) ==>
              var steps := Archive(doc, archived, saved, writeErr).steps;
              steps[|steps| - 1].Issued? && IsSaveWrite(saved.table, saved, steps[|steps| - 1].op)
  {
    if doc.archivable {
      var s := Publish(archived, saved, writeErr).steps;
      SaveWritesOnceOrNever(archived, saved, writeErr);
      IssuesConcat([CalledArchive], s);
      assert [CalledArchive][..0] == [];
    }
  }

  /**
   With the capability, restoring writes exactly when saving the restored
   model would, and the write is the one a save would issue; without it,
   nothing is written.
   */
  lemma RestoreWritesLikeSave(doc: Instance, restored: Instance, saved: Instance, writeErr: Option<Error>)
    requires doc.restorable ==> SameType(doc, restored) && Resolvable(restored) && SameType(restored, saved)
    ensures !doc.restorable ==> Issues(Restore(doc, restored, saved, writeErr).steps) == 0
    ensures doc.restorable ==>
              Issues(Restore(doc, restored, saved, writeErr).steps) == (if PassesChecks(restored) then 1 else 0)
    ensures doc.restorable && PassesChecks(restored) ==>
              var steps := Restore(doc, restored, saved, writeErr).steps;
              steps[|steps| - 1].Issued? && IsSaveWrite(saved.table, saved, steps[|steps| - 1].op)
  {
    if doc.restorable {
      var s := Publish(restored, saved, writeErr).steps;
      SaveWritesOnceOrNever(restored, saved, writeErr);
      IssuesConcat([CalledRestore], s);
      assert [CalledRestore][..0] == [];
    }
  }

  /** The criteria a builder holds. */
  datatype QueryBuilder = QueryBuilder(filters: seq<Document>, sort: Option<Document>, limit: int, skip: int)

  /** `Where`: a fresh builder holding the one filter `{field: {"$" + op: value}}`. */
  function Where(field: string, op: string, value: Value): (qb: QueryBuilder)
    ensures |qb.filters| == 1 && qb.filters[0].Keys == {field}
    ensures qb.filters[0][field] == M(map["$" + op := value])
    ensures qb.sort.None? && qb.limit == 0 && qb.skip == 0
  {
    QueryBuilder([map[field := M(map["$" + op := value])]], None, 0, 0)
  }

  /** `SortBy`: a fresh builder holding only the sort `{field: direction}`. */
  function SortBy(field: string, direction: string): (qb: QueryBuilder)
    ensures qb.filters == [] && qb.sort == Some(map[field := Str(direction)])
    ensures qb.limit == 0 && qb.skip == 0
  {
    QueryBuilder([], Some(map[field := Str(direction)]), 0, 0)
  }

  /** `Limit`: a fresh builder holding only the limit. */
  function Limit(count: int): (qb: QueryBuilder)
    ensures qb.filters == [] && qb.sort.None? && qb.limit == count && qb.skip == 0
  {
    QueryBuilder([], None, count, 0)
  }

  /** Is `k` absent from every filter after position `i`? */
  predicate NotOverriddenAfter(filters: seq<Document>, i: int, k: string) {
    forall j :: 0 <= j < |filters| && i < j ==> k !in filters[j]
  }

  /** `combineFilters`: later filters overwrite earlier ones key by key. */
  function Combine(filters: seq<Document>): Document
    decreases |filters|
  {
    if |filters| == 0 then map[]
    else Combine(filters[..|filters| - 1]) + filters[|filters| - 1]
  }

  /** The merged keys are the union of the filters' keys; no filters give the empty map. */
  lemma {:induction false} CombineKeysAreUnion(filters: seq<Document>)
    ensures |filters| == 0 ==> Combine(filters) == map[]
    ensures forall k :: k in Combine(filters) <==> exists i :: 0 <= i < |filters| && k in filters[i]
    decreases |filters|
  {
    if |filters| > 0 {
      CombineKeysAreUnion(filters[..|filters| - 1]);
      CombineKeysStep(filters, Combine(filters[..|filters| - 1]), Combine(filters));
    }
  }

  lemma CombineKeysStep(filters: seq<Document>, prev: Document, r: Document)
    requires |filters| > 0
    requires forall k :: k in prev <==> exists i :: 0 <= i < |filters| - 1 && k in filters[i]
    requires r == prev + filters[|filters| - 1]
    ensures forall k :: k in r <==> exists i :: 0 <= i < |filters| && k in filters[i]
  {
    var n := |filters| - 1;
    forall k | k in r
      ensures exists i :: 0 <= i < |filters| && k in filters[i]
    {
      if k !in filters[n] {
        var i :| 0 <= i < n && k in filters[i];
        assert k in filters[i];
      }
    }
  }

  /** Each key maps to the value of the last filter that holds it. */
  lemma {:induction false} CombineIsLastWriteWins(filters: seq<Document>)
    ensures forall i, k :: 0 <= i < |filters| && k in filters[i] && NotOverriddenAfter(filters, i, k)
                           ==> k in Combine(filters) && Combine(filters)[k] == filters[i][k]
    decreases |filters|
  {
    if |filters| > 0 {
      CombineIsLastWriteWins(filters[..|filters| - 1]);
      CombineValuesStep(filters, Combine(filters[..|filters| - 1]), Combine(filters));
    }
  }

  lemma CombineValuesStep(filters: seq<Document>, prev: Document, r: Document)
    requires |filters| > 0
    requires forall i, k :: 0 <= i < |filters| - 1 && k in filters[i] && NotOverriddenAfter(filters[..|filters| - 1], i, k)
                            ==> k in prev && prev[k] == filters[i][k]
    requires r == prev + filters[|filters| - 1]
    ensures forall i, k :: 0 <= i < |filters| && k in filters[i] && NotOverriddenAfter(filters, i, k)
                           ==> k in r && r[k] == filters[i][k]
  {
    var n := |filters| - 1;
    var init := filters[..n];
    forall i, k | 0 <= i < |filters| && k in filters[i] && NotOverriddenAfter(filters, i, k)
      ensures k in r && r[k] == filters[i][k]
    {
      if i < n {
        assert k !in filters[n];
        assert init[i] == filters[i];
        assert NotOverriddenAfter(init, i, k);
      }
    }
  }

  /** The part of `filter` on the keys in `keys`. */
  function Restrict(filter: Document, keys: set<string>): Document
    requires keys <= filter.Keys
  {
    map k | k in keys :: filter[k]
  }

  lemma RestrictStep(before: Document, filter: Document, pending: set<string>, key: string)
    requires key in pending && pending <= filter.Keys
    ensures (before + Restrict(filter, filter.Keys - pending))[key := filter[key]]
         == before + Restrict(filter, filter.Keys - (pending - {key}))
  {
  }

  lemma RestrictAll(filter: Document)
    ensures Restrict(filter, filter.Keys) == filter
  {
  }

  lemma CombineSnoc(filters: seq<Document>, i: nat)
    requires i < |filters|
    ensures Combine(filters[..i + 1]) == Combine(filters[..i]) + filters[i]
  {
    assert filters[..i + 1][..i] == filters[..i];
  }

  /** The inner loop of the merge: copy one filter's keys over, one at a time. */
  method MergeKeys(before: Document, filter: Document) returns (combined: Document)
    ensures combined == before + filter
  {
    combined := before;
    var pending := filter.Keys;
    while pending != {}
      invariant pending <= filter.Keys
      invariant combined == before + Restrict(filter, filter.Keys - pending)
      decreases pending
    {
      var key :| key in pending;
      RestrictStep(before, filter, pending, key);
      combined := combined[key := filter[key]];
      pending := pending - {key};
    }
    RestrictAll(filter);
  }

  /** The merge as the source writes it: nested loops, one key at a time. */
  method CombineFilters(filters: seq<Document>) returns (combined: Document)
    ensures combined == Combine(filters)
  {
    combined := map[];
    for i := 0 to |filters|
      invariant combined == Combine(filters[..i])
    {
      combined := MergeKeys(combined, filters[i]);
      CombineSnoc(filters, i);
    }
    assert filters[..|filters|] == filters;
  }

  /** What `cursor.All` answers. */
  datatype Fetch = Fetched(docs: seq<Value>) | FetchFailed(err: Error)

  /** The query `Get` issues, and what it returns. */
  datatype GetOutcome = GetOutcome(query: DriverOp, results: Option<seq<Value>>, err: Option<Error>)

  /**
   `Get`: one find on the model's collection with the merged filter and the
   builder's sort, limit and skip; a find error stops it before any
   decoding, a decoding error discards the results.
   */
  function Get(qb: QueryBuilder, m: Instance, findErr: Option<Error>, fetch: Fetch): (g: GetOutcome)
    ensures g.query == FindMany(m.table, Combine(qb.filters), qb.sort, qb.limit, qb.skip)
    ensures findErr.Some? ==> g.results.None? && g.err == findErr
    ensures findErr.None? && fetch.FetchFailed? ==> g.results.None? && g.err == Some(fetch.err)
    ensures findErr.None? && fetch.Fetched? ==> g.results == Some(fetch.docs) && g.err.None?
  {
    var query := FindMany(m.table, Combine(qb.filters), qb.sort, qb.limit, qb.skip);
    if findErr.Some? then GetOutcome(query, None, findErr)
    else match fetch
      case FetchFailed(e) => GetOutcome(query, None, Some(e))
      case Fetched(docs) => GetOutcome(query, Some(docs), None)
  }

  /**
   The modifiers do not accumulate: each builder's query carries only its
   own criterion, so a `Where` followed by a `Limit` leaves the second
   query unfiltered and the first unlimited.
   */
  lemma BuildersDoNotChain(m: Instance, field: string, op: string, value: Value, count: int,
                           findErr: Option<Error>, fetch: Fetch)
    ensures Get(Where(field, op, value), m, findErr, fetch).query
         == FindMany(m.table, map[field := M(map["$" + op := value])], None, 0, 0)
    ensures Get(Limit(count), m, findErr, fetch).query == FindMany(m.table, map[], None, count, 0)
    ensures Get(SortBy(field, op), m, findErr, fetch).query
         == FindMany(m.table, map[], Some(map[field := Str(op)]), 0, 0)
  {
    var w := Where(field, op, value).filters;
    assert w[..0] == [];
    assert Combine(w) == map[] + w[0];
    assert map[] + w[0] == w[0];
  }
}
