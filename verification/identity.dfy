/**
 Identifier resolution. The source looks up a struct field named `ID` by
 reflection and trusts it only when its declared type is `ObjectID`. The
 model records what that lookup finds instead of performing it.
 */
module Identity {
  import opened Wrappers
  import opened Values

  /** What reflection finds under the field name `ID`. */
  datatype IdField =
    | Missing                          // no field named ID
    | ObjectIdField(oid: ObjectID)     // declared as primitive.ObjectID
    | OtherType(value: Value)          // declared with any other type

  /**
   The argument passed in. Only a pointer to a struct can be dereferenced
   and searched; anything else makes `Elem` or `FieldByName` panic.
   */
  datatype Target =
    | StructPointer(id: IdField)
    | NotStructPointer

  /** `HasZeroID`: true unless an `ObjectID` field holds a non-zero value. */
  function HasZeroID(t: Target): (r: bool)
    requires t.StructPointer?
    ensures t.id.Missing? ==> r
    ensures t.id.OtherType? ==> r
    ensures t.id.ObjectIdField? ==> (r <==> forall i :: 0 <= i < 12 ==> t.id.oid[i] == 0)
  {
    ZeroMeansAllBytesZeroAt(t);
    match t.id
    case ObjectIdField(oid) => IsZero(oid)
    case _ => true
  }

  lemma ZeroMeansAllBytesZeroAt(t: Target)
    ensures t.StructPointer? && t.id.ObjectIdField? ==>
      (IsZero(t.id.oid) <==> forall i :: 0 <= i < 12 ==> t.id.oid[i] == 0)
  {
    if t.StructPointer? && t.id.ObjectIdField? {
      ZeroMeansAllBytesZero(t.id.oid);
    }
  }

  /** `GetID`: the identifier when the field is an `ObjectID`, nil otherwise. */
  function GetID(t: Target): (r: Option<ObjectID>)
    requires t.StructPointer?
    ensures r.None? <==> t.id.Missing? || t.id.OtherType?
    ensures r.Some? ==> t.id == ObjectIdField(r.value)
  {
    match t.id
    case ObjectIdField(oid) => Some(oid)
    case _ => None
  }

  /**
   The two functions agree: whenever the identifier is not zero, `GetID`
   yields a non-nil, non-zero identifier.
   */
  lemma NonZeroIdIsResolvable(t: Target)
    requires t.StructPointer?
    ensures !HasZeroID(t) <==> GetID(t).Some? && !IsZero(GetID(t).value)
  {
  }

  /** A nil `GetID` always comes with a zero verdict from `HasZeroID`. */
  lemma UnresolvableIdCountsAsZero(t: Target)
    requires t.StructPointer?
    ensures GetID(t).None? ==> HasZeroID(t)
  {
  }

  /**
   Two targets of the same Go type: both pointers to a struct or neither,
   and then the field `ID` absent in both or declared with the same type.
   A method called on the value can change what it holds, never its type.
   */
  predicate SameShape(a: Target, b: Target) {
    a.StructPointer? == b.StructPointer?
    && (a.StructPointer? && b.StructPointer? ==>
          a.id.Missing? == b.id.Missing? && a.id.ObjectIdField? == b.id.ObjectIdField?)
  }
}
