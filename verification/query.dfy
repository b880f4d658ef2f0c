/**
 The collection wrapper's by-identifier helpers and the existence check
 built on them. Each helper is modelled as the driver command it forwards.
 */
module Query {
  import opened Wrappers
  import opened Values
  import opened Errors

  /** An options value of the driver, passed through unread. */
  datatype Options = Options(settings: Document)

  /** A forwarded driver call: its filter, update and variadic options. */
  datatype Command =
    | FindOneCall(filter: Document, opts: seq<Options>)
    | UpdateOneCall(filter: Document, update: Value, opts: seq<Options>)
    | DeleteOneCall(filter: Document, opts: seq<Options>)

  /** `FindOneByID`: a find on exactly `{"_id": id}`, options unchanged. */
  function FindOneByID(id: Value, opts: seq<Options>): (c: Command)
    ensures c.FindOneCall? && c.filter.Keys == {"_id"} && c.filter["_id"] == id && c.opts == opts
  {
    FindOneCall(ById(id), opts)
  }

  /** `UpdateOneByID`: an update on exactly `{"_id": id}`, update and options unchanged. */
  function UpdateOneByID(id: Value, update: Value, opts: seq<Options>): (c: Command)
    ensures c.UpdateOneCall? && c.filter.Keys == {"_id"} && c.filter["_id"] == id
    ensures c.update == update && c.opts == opts
  {
    UpdateOneCall(ById(id), update, opts)
  }

  /** `DeleteOneByID`: a delete on exactly `{"_id": id}`, options unchanged. */
  function DeleteOneByID(id: Value, opts: seq<Options>): (c: Command)
    ensures c.DeleteOneCall? && c.filter.Keys == {"_id"} && c.filter["_id"] == id && c.opts == opts
  {
    DeleteOneCall(ById(id), opts)
  }

  /** The lookup `Exists` makes and what it answers. */
  datatype ExistsOutcome = ExistsOutcome(lookup: Command, found: bool, err: Option<Error>)

  /**
   `Exists`: a successful lookup means present; the driver's no-documents
   error means absent without error; any other error is passed on.
   */
  function Exists(id: Value, opts: seq<Options>, lookupErr: Option<Error>): (e: ExistsOutcome)
    ensures e.lookup == FindOneByID(id, opts)
    ensures lookupErr.None? ==> e.found && e.err.None?
    ensures lookupErr == Some(NoDocuments) ==> !e.found && e.err.None?
    ensures lookupErr.Some? && lookupErr != Some(NoDocuments) ==> !e.found && e.err == lookupErr
  {
    var lookup := FindOneByID(id, opts);
    if lookupErr.None? then ExistsOutcome(lookup, true, None)
    else if lookupErr == Some(NoDocuments) then ExistsOutcome(lookup, false, None)
    else ExistsOutcome(lookup, false, lookupErr)
  }

  /**
   `Exists` never reports presence together with an error, reports presence
   exactly when the lookup succeeded, and any error it reports is the
   lookup's own.
   */
  lemma ExistsIsConsistent(id: Value, opts: seq<Options>, lookupErr: Option<Error>)
    ensures var e := Exists(id, opts, lookupErr);
            !(e.found && e.err.Some?)
            && (e.found <==> lookupErr.None?)
            && (e.err.Some? ==> e.err == lookupErr && lookupErr != Some(NoDocuments))
  {
  }

  /**
   Only the driver's sentinel itself means absent: a wrapped one, or the
   package's own `ErrNotFound`, is passed on as an error.
   */
  lemma OnlyTheSentinelMeansAbsent(id: Value, opts: seq<Options>, text: string)
    ensures Exists(id, opts, Some(Wrapped(text, NoDocuments))).err == Some(Wrapped(text, NoDocuments))
    ensures Exists(id, opts, Some(NotFound)).err == Some(NotFound)
  {
  }
}
