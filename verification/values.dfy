/**
 The values that flow through the layer: object identifiers, the dynamic
 values held in `interface{}` slots, and BSON documents (`bson.M` maps and
 ordered `bson.D` element lists).
 */
module Values {
  import opened Wrappers

  newtype byte = x: int | 0 <= x < 256

  /** `primitive.ObjectID`: a fixed array of twelve bytes. */
  type ObjectID = s: seq<byte> | |s| == 12 witness [0, 0, 0, 0, 0, 0, 0, 0, 0, 0, 0, 0]

  /** The zero value of `primitive.ObjectID` (`primitive.NilObjectID`). */
  const NilObjectID: ObjectID := [0, 0, 0, 0, 0, 0, 0, 0, 0, 0, 0, 0]

  /** `ObjectID.IsZero`: comparison with the zero identifier. */
  predicate IsZero(id: ObjectID) {
    id == NilObjectID
  }

  /** An identifier is zero exactly when each of its twelve bytes is zero. */
  lemma ZeroMeansAllBytesZero(id: ObjectID)
    ensures IsZero(id) <==> forall i :: 0 <= i < 12 ==> id[i] == 0
  {
    if forall i :: 0 <= i < 12 ==> id[i] == 0 {
      assert id == NilObjectID;
    }
  }

  /** An instant of `time.Time`; the zero instant is `0`. */
  type Instant = int

  const ZeroInstant: Instant := 0

  /**
   A dynamic Go value as held by an `interface{}`. Each constructor is one
   reflect kind the layer distinguishes; a nil slice is `Slice([])` and a
   nil map is `M(map[])`, while a nil pointer is `Ptr(None)`.
   */
  datatype Value =
    | Null                                  // the untyped nil interface
    | Str(s: string)
    | Int(i: int)
    | Bool(b: bool)
    | Oid(id: ObjectID)                     // an array of kind Array, length 12
    | Time(at: Instant)                     // time.Time, a struct
    | Array(items: seq<Value>)              // a fixed-size array
    | Slice(items: seq<Value>)
    | M(entries: map<string, Value>)        // bson.M or any other map
    | D(elems: seq<Elem>)                   // bson.D, a slice of elements
    | Struct(fields: seq<Elem>)
    | Ptr(target: Option<Value>)

  /** One key/value pair of an ordered document (`primitive.E`). */
  datatype Elem = Elem(key: string, value: Value)

  /** An unordered document, `bson.M`. */
  type Document = map<string, Value>

  /** An ordered document, `bson.D`. */
  type OrderedDocument = seq<Elem>

  /** The filter `{"_id": id}` that every by-identifier operation uses. */
  function ById(id: Value): (filter: Document)
    ensures filter.Keys == {"_id"} && filter["_id"] == id
  {
    map["_id" := id]
  }
}
