/**
 The model contract: the `Base` record with its timestamp rule, and the
 general shape of a value handed to the persistence layer together with the
 optional capabilities it may implement.
 */
module Model {
  import opened Wrappers
  import opened Values
  import opened Errors
  import opened Hooks
  import opened Identity

  /** `Base`: identifier plus creation and last-update instants. */
  datatype Base = Base(id: ObjectID, createdAt: Instant, updatedAt: Instant)

  /** `Base.CollectionName`: every Base answers the same fixed name. */
  function CollectionName(b: Base): (name: string)
    ensures name == "models"
  {
    "models"
  }

  /**
   `Base.SetTimestamps`, with the clock reading passed in: the creation
   instant is set only while it is still zero, the update instant always.
   */
  function SetTimestamps(b: Base, now: Instant): (b': Base)
    ensures b'.id == b.id
    ensures b'.updatedAt == now
    ensures b.createdAt != ZeroInstant ==> b'.createdAt == b.createdAt
    ensures b.createdAt == ZeroInstant ==> b'.createdAt == now
  {
    var created := if b.createdAt == ZeroInstant then now else b.createdAt;
    Base(b.id, created, now)
  }

  /** On a fresh Base both instants come from the same reading. */
  lemma FreshBaseStampsAgree(b: Base, now: Instant)
    requires b.createdAt == ZeroInstant
    ensures SetTimestamps(b, now).createdAt == SetTimestamps(b, now).updatedAt == now
  {
  }

  /** Stamping twice keeps the first creation instant and the second update instant. */
  lemma StampTwice(b: Base, now1: Instant, now2: Instant)
    requires b.createdAt == ZeroInstant && now1 != ZeroInstant
    ensures SetTimestamps(SetTimestamps(b, now1), now2) == Base(b.id, now1, now2)
  {
  }

  /** The Base after one `SetTimestamps` call per clock reading, in order. */
  function StampAll(b: Base, nows: seq<Instant>): Base
    decreases |nows|
  {
    if |nows| == 0 then b else SetTimestamps(StampAll(b, nows[..|nows| - 1]), nows[|nows| - 1])
  }

  /**
   Over any run of saves the creation instant, once non-zero, never moves,
   the update instant is the latest reading, and the identifier is untouched.
   */
  lemma {:induction false} CreatedAtIsSetOnce(b: Base, nows: seq<Instant>)
    requires b.createdAt != ZeroInstant
    ensures StampAll(b, nows).createdAt == b.createdAt
    ensures StampAll(b, nows).id == b.id
    ensures |nows| > 0 ==> StampAll(b, nows).updatedAt == nows[|nows| - 1]
    decreases |nows|
  {
    if |nows| > 0 {
      CreatedAtIsSetOnce(b, nows[..|nows| - 1]);
    }
  }

  /**
   Starting from a fresh Base, the first non-zero reading becomes the
   creation instant for good.
   */
  lemma {:induction false} FirstReadingIsCreation(b: Base, nows: seq<Instant>)
    requires b.createdAt == ZeroInstant
    requires |nows| > 0 && nows[0] != ZeroInstant
    ensures StampAll(b, nows).createdAt == nows[0]
    ensures StampAll(b, nows).updatedAt == nows[|nows| - 1]
    decreases |nows|
  {
    if |nows| > 1 {
      FirstReadingIsCreation(b, nows[..|nows| - 1]);
    } else {
      assert nows[..0] == [];
    }
  }

  /**
   How reflection sees a pointer to a struct that embeds `Base`: the
   promoted `ID` field has type `ObjectID`.
   */
  function BaseTarget(b: Base): Target {
    StructPointer(ObjectIdField(b.id))
  }

  /** Stamping never changes how the identifier resolves. */
  lemma TimestampsKeepIdentity(b: Base, now: Instant)
    ensures HasZeroID(BaseTarget(SetTimestamps(b, now))) == HasZeroID(BaseTarget(b))
    ensures GetID(BaseTarget(SetTimestamps(b, now))) == GetID(BaseTarget(b)) == Some(b.id)
  {
  }

  /** `Validate()` of the `Validatable` interface, if the model has it. */
  datatype Validator = NotValidatable | Validates(result: Option<Error>)

  /**
   A value satisfying the `Model` interface, as the persistence layer sees
   it. The driver-facing parts are recorded, not computed: what its
   storage-name method answers, what reflection finds, what its optional
   methods return, and which of `Archive()`/`Restore()` it declares.
   `data` stands for the field values the driver serialises when the model
   is written.
   */
  datatype Instance = Instance(
    table: string,
    target: Target,
    validator: Validator,
    hooks: Methods,
    archivable: bool,
    restorable: bool,
    data: Document)

  /**
   What the model's own methods (`Validate()`, the hooks, `Archive()`,
   `Restore()`) cannot change when they run on it in place: which optional
   methods its type declares and the shape of its identifier field.
   */
  predicate SameType(a: Instance, b: Instance) {
    a.validator.Validates? == b.validator.Validates?
    && a.hooks.Keys == b.hooks.Keys
    && SameShape(a.target, b.target)
    && a.archivable == b.archivable
    && a.restorable == b.restorable
  }
}
