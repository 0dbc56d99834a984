/** RelationKinds: a relation as the schema stores it. The abstract base
    contributes the related class, the optional explicit foreign key and the
    optional query callback; the four concrete relations differ in shape. */
module RelationKinds {
  import opened Values
  import opened Keys
  import opened Queries

  /** A junction table: its name and the map related primary-key column =>
      junction column. */
  datatype Junction = Junction(table: string, columns: Arr<string>)

  datatype Shape =
    | BelongsTo
    | HasOneOrMany(hasMany: bool)
    | ShareOneOrMany(junction: Option<Junction>, hasMany: bool)
    | HasOneOrManyThrough(junction: Option<Junction>, hasMany: bool)

  datatype Relation = Relation(
    entityClass: string,
    foreignKey: Option<ForeignKey>,
    queryCallback: Option<QueryCallback>,
    shape: Shape)

  /** `Relation::query($callback)` */
  function WithQueryCallback(rel: Relation, callback: QueryCallback): (r: Relation)
    ensures r.queryCallback == Some(callback)
    ensures r.entityClass == rel.entityClass && r.foreignKey == rel.foreignKey && r.shape == rel.shape
  {
    rel.(queryCallback := Some(callback))
  }

  /** The foreign key a relation works with: its own, or the default the
      operation supplies (which the source then stores in the field). */
  function EffectiveForeignKey(rel: Relation, default: ForeignKey): ForeignKey {
    if rel.foreignKey.Some? then rel.foreignKey.value else default
  }

  /** Storing the effective foreign key into the relation's field. */
  function MemoiseForeignKey(rel: Relation, default: ForeignKey): Relation {
    rel.(foreignKey := Some(EffectiveForeignKey(rel, default)))
  }

  /** Once memoised, the key no longer depends on the default a later call
      supplies, and memoising does not change the key of this call. */
  lemma MemoisedForeignKeyStable(rel: Relation, first: ForeignKey, later: ForeignKey)
    ensures EffectiveForeignKey(MemoiseForeignKey(rel, first), later) == EffectiveForeignKey(rel, first)
    ensures MemoiseForeignKey(MemoiseForeignKey(rel, first), later) == MemoiseForeignKey(rel, first)
  {
  }
}
