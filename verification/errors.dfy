/**
 Error values and the package's two sentinel predicates. Go compares errors
 by identity, so every sentinel is a constructor of its own: an error that
 merely carries the same text, or wraps a sentinel, is a different value.
 `None` of `Option<Error>` is the nil error.
 */
module Errors {
  import opened Wrappers

  datatype Error =
    | NotFound                               // ErrNotFound
    | NoID                                   // ErrNoID
    | NoDocuments                            // the driver's ErrNoDocuments
    | New(text: string)                      // an errors.New value made elsewhere
    | Wrapped(text: string, cause: Error)    // an error wrapping another one
    | Driver(text: string)                   // any other driver failure

  /**
   The text each error prints. The package fixes only the sentinels' texts
   (and the driver fixes `ErrNoDocuments`); every other error carries the
   text whoever made it gave it.
   */
  function Message(e: Error): string {
    match e
    case NotFound => "document not found"
    case NoID => "model has no valid ID"
    case NoDocuments => "mongo: no documents in result"
    case New(text) => text
    case Wrapped(text, _) => text
    case Driver(text) => text
  }

  /** `IsNotFound`: only the sentinel itself is recognised. */
  function IsNotFound(err: Option<Error>): (r: bool)
    ensures r ==> err.Some? && Message(err.value) == "document not found"
    ensures r <==> err.Some? && err.value.NotFound?
  {
    err == Some(NotFound)
  }

  /** `IsNoID`: only the sentinel itself is recognised. */
  function IsNoID(err: Option<Error>): (r: bool)
    ensures r ==> err.Some? && Message(err.value) == "model has no valid ID"
    ensures r <==> err.Some? && err.value.NoID?
  {
    err == Some(NoID)
  }

  /** The two sentinels are distinct, so no error satisfies both predicates. */
  lemma SentinelsExclusive(err: Option<Error>)
    ensures !(IsNotFound(err) && IsNoID(err))
  {
  }

  /** The nil error is neither sentinel. */
  lemma NilIsNoSentinel()
    ensures !IsNotFound(None) && !IsNoID(None)
  {
  }

  /** Wrapping a sentinel, or copying its text, hides it from the predicates. */
  lemma WrappedSentinelNotRecognised(text: string)
    ensures !IsNotFound(Some(Wrapped(text, NotFound)))
    ensures !IsNoID(Some(Wrapped(text, NoID)))
    ensures !IsNotFound(Some(New(Message(NotFound))))
    ensures !IsNoID(Some(New(Message(NoID))))
  {
  }
}
