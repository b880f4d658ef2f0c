/**
 Relationship descriptors and the query `Load` chooses for each kind: an
 aggregation whose first stage matches the parent identifier when a custom
 pipeline is attached, a plain filtered find otherwise.
 */
module Relationships {
  import opened Wrappers
  import opened Values

  const BelongsToKind := "belongsTo"
  const HasManyKind := "hasMany"
  const HasOneKind := "hasOne"
  const EmbedsKind := "embeds"

  /** `options.FindOptions`, carried through without being read. */
  datatype FindOptions = FindOptions(settings: Document)

  /** The `Type` field is free text; the four kinds above are the ones it is meant to hold. */
  datatype Relationship = Relationship(
    kind: string,
    collection: string,
    field: string,
    pipeline: seq<OrderedDocument>,
    options: Option<FindOptions>)

  /** `BelongsTo`: a one-to-one descriptor with no pipeline and no options. */
  function BelongsTo(collection: string): (r: Relationship)
    ensures r.kind == BelongsToKind && r.collection == collection
    ensures r.field == "" && r.pipeline == [] && r.options.None?
  {
    Relationship(BelongsToKind, collection, "", [], None)
  }

  /** `HasMany`: a one-to-many descriptor with no pipeline and no options. */
  function HasMany(collection: string): (r: Relationship)
    ensures r.kind == HasManyKind && r.collection == collection
    ensures r.field == "" && r.pipeline == [] && r.options.None?
  {
    Relationship(HasManyKind, collection, "", [], None)
  }

  /** `WithPipeline`: replaces the pipeline and nothing else. */
  function WithPipeline(r: Relationship, pipeline: seq<OrderedDocument>): (r': Relationship)
    ensures r'.pipeline == pipeline
    ensures r'.kind == r.kind && r'.collection == r.collection && r'.field == r.field && r'.options == r.options
  {
    r.(pipeline := pipeline)
  }

  /** `WithOptions`: replaces the options and nothing else. */
  function WithOptions(r: Relationship, options: Option<FindOptions>): (r': Relationship)
    ensures r'.options == options
    ensures r'.kind == r.kind && r'.collection == r.collection && r'.field == r.field && r'.pipeline == r.pipeline
  {
    r.(options := options)
  }

  /** The query `Load` would run; `NoQuery` is its `(nil, nil)` answer. */
  datatype LoadPlan =
    | Aggregate(collection: string, stages: seq<OrderedDocument>)
    | FindWith(collection: string, filter: Document, options: Option<FindOptions>)
    | NoQuery

  /** `{"$match": {key: id}}` as an ordered document. */
  function MatchOn(key: string, id: Value): OrderedDocument {
    [Elem("$match", D([Elem(key, id)]))]
  }

  /**
   The stage prepended to a custom pipeline: a match on `_id` for
   belongsTo, on `parent_id` for hasMany, and an empty document for every
   other kind.
   */
  function MatchStage(kind: string, parentID: Value): (stage: OrderedDocument)
    ensures kind == BelongsToKind ==> stage == MatchOn("_id", parentID)
    ensures kind == HasManyKind ==> stage == MatchOn("parent_id", parentID)
    ensures kind != BelongsToKind && kind != HasManyKind ==> stage == []
  {
    if kind == BelongsToKind then MatchOn("_id", parentID)
    else if kind == HasManyKind then MatchOn("parent_id", parentID)
    else []
  }

  /** `Load`, as the query it chooses rather than the cursor it returns. */
  function Load(r: Relationship, parentID: Value): (p: LoadPlan)
    ensures |r.pipeline| > 0 ==>
              p.Aggregate? && p.collection == r.collection && |p.stages| == |r.pipeline| + 1
              && p.stages[0] == MatchStage(r.kind, parentID) && p.stages[1..] == r.pipeline
    ensures |r.pipeline| == 0 && (r.kind == BelongsToKind || r.kind == EmbedsKind) ==>
              p == FindWith(r.collection, ById(parentID), r.options)
    ensures |r.pipeline| == 0 && r.kind == HasManyKind ==>
              p == FindWith(r.collection, map["parent_id" := parentID], r.options)
    ensures |r.pipeline| == 0 && r.kind != BelongsToKind && r.kind != HasManyKind && r.kind != EmbedsKind ==>
              p == NoQuery
  {
    if |r.pipeline| > 0 then
      Aggregate(r.collection, [MatchStage(r.kind, parentID)] + r.pipeline)
    else if r.kind == BelongsToKind then FindWith(r.collection, ById(parentID), r.options)
    else if r.kind == HasManyKind then FindWith(r.collection, map["parent_id" := parentID], r.options)
    else if r.kind == EmbedsKind then FindWith(r.collection, ById(parentID), r.options)
    else NoQuery
  }

  /** On the aggregation path the options play no part. */
  lemma AggregationIgnoresOptions(r: Relationship, options: Option<FindOptions>, parentID: Value)
    requires |r.pipeline| > 0
    ensures Load(WithOptions(r, options), parentID) == Load(r, parentID)
  {
  }

  /**
   For belongsTo and hasMany both paths select on the same key: the match
   stage's key is the find filter's only key.
   */
  lemma PathsSelectOnSameKey(r: Relationship, pipeline: seq<OrderedDocument>, parentID: Value)
    requires r.kind == BelongsToKind || r.kind == HasManyKind
    requires |pipeline| > 0
    ensures var found := Load(WithPipeline(r, []), parentID);
            var aggregated := Load(WithPipeline(r, pipeline), parentID);
            found.FindWith? && aggregated.Aggregate?
            && found.filter.Keys == {aggregated.stages[0][0].value.elems[0].key}
            && found.filter[aggregated.stages[0][0].value.elems[0].key] == parentID
  {
  }

  /**
   An embeds descriptor selects on `_id` without a pipeline, but with one
   its first stage is an empty document that does not mention the parent.
   */
  lemma EmbedsPathsDiverge(r: Relationship, parentID: Value)
    requires r.kind == EmbedsKind
    ensures Load(WithPipeline(r, []), parentID).FindWith?
    ensures Load(WithPipeline(r, []), parentID).filter == ById(parentID)
    ensures |r.pipeline| > 0 ==> Load(r, parentID).stages[0] == []
  {
  }

  /** The fluent constructors reach the queries their kinds promise. */
  lemma FluentDescriptorsLoad(collection: string, pipeline: seq<OrderedDocument>, parentID: Value)
    requires |pipeline| > 0
    ensures Load(BelongsTo(collection), parentID) == FindWith(collection, ById(parentID), None)
    ensures Load(HasMany(collection), parentID) == FindWith(collection, map["parent_id" := parentID], None)
    ensures Load(WithPipeline(BelongsTo(collection), pipeline), parentID)
         == Aggregate(collection, [MatchOn("_id", parentID)] + pipeline)
    ensures Load(WithPipeline(HasMany(collection), pipeline), parentID)
         == Aggregate(collection, [MatchOn("parent_id", parentID)] + pipeline)
  {
  }

  /** A hasOne descriptor without a pipeline runs nothing and reports nothing. */
  lemma HasOneLoadsNothing(collection: string, parentID: Value)
    ensures Load(Relationship(HasOneKind, collection, "", [], None), parentID) == NoQuery
  {
  }
}
