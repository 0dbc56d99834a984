/** RelationPlans: the pure part of the four relation shapes. The default
    junction table is named from the two tables in sorted order; the query
    `getResult` sends is built from the owner's raw columns, then handed to
    the relation's callback and to the caller's, in that order; the related
    rows come from the storage oracle. */
module RelationPlans {
  import opened Values
  import opened Keys
  import opened Queries
  import opened RelationKinds
  import opened Schema

  // ---------------------------------------------------------------------
  // Junction naming

  /** The order `sort()` puts two table names in: by character code, a
      proper prefix first. */
  predicate StrLess(a: string, b: string)
    decreases |a|
  {
    if a == [] then b != []
    else if b == [] then false
    else if a[0] != b[0] then a[0] < b[0]
    else StrLess(a[1..], b[1..])
  }

  lemma {:induction false} StrLessAsymmetric(a: string, b: string)
    ensures !(StrLess(a, b) && StrLess(b, a))
    decreases |a|
  {
    if a != [] && b != [] && a[0] == b[0] {
      StrLessAsymmetric(a[1..], b[1..]);
    }
  }

  lemma {:induction false} StrLessTotal(a: string, b: string)
    ensures a == b || StrLess(a, b) || StrLess(b, a)
    decreases |a|
  {
    if a != [] && b != [] && a[0] == b[0] {
      StrLessTotal(a[1..], b[1..]);
      if a[1..] == b[1..] {
        assert a == [a[0]] + a[1..] && b == [b[0]] + b[1..];
      }
    }
  }

  /** `implode('_', sort([$ownerTable, $relatedTable]))` */
  function JunctionTableName(ownerTable: string, relatedTable: string): string {
    if StrLess(relatedTable, ownerTable) then relatedTable + "_" + ownerTable
    else ownerTable + "_" + relatedTable
  }

  /** The name does not depend on which side owns the relation, and it is
      the smaller name, `_`, then the other one. */
  lemma JunctionTableNameSpec(a: string, b: string)
    ensures JunctionTableName(a, b) == JunctionTableName(b, a)
    ensures JunctionTableName(a, b) == if StrLess(a, b) then a + "_" + b else b + "_" + a
  {
    StrLessAsymmetric(a, b);
    StrLessTotal(a, b);
  }

  lemma JunctionTableNameExample()
    ensures JunctionTableName("users", "tags") == "tags_users"
    ensures JunctionTableName("tags", "users") == "tags_users"
  {
    assert StrLess("tags", "users");
    JunctionTableNameSpec("tags", "users");
  }

  /** `buildJunction()` of `ShareOneOrMany`: the sorted table names and the
      related schema's foreign-key columns. */
  function BuildJunction(owner: SchemaView, related: SchemaView): (j: Junction)
    ensures j.table == JunctionTableName(owner.table, related.table)
    ensures j.columns == related.foreignKey.columns
  {
    Junction(JunctionTableName(owner.table, related.table), related.foreignKey.columns)
  }

  /** The message PHP raises for the anonymous junction class that
      `HasOneOrManyThrough::buildJunction()` instantiates without arguments. */
  const TooFewArguments: string := "Too few arguments to function Junction@anonymous::__construct()"

  /** The junction a many-to-many relation works with: its own, else the
      default. Only `ShareOneOrMany` can build the default. */
  function JunctionOf(shape: Shape, owner: SchemaView, related: SchemaView): (r: Result<Junction>)
    requires shape.ShareOneOrMany? || shape.HasOneOrManyThrough?
    ensures shape.junction.Some? ==> r == Ok(shape.junction.value)
    ensures shape.junction.None? && shape.ShareOneOrMany? ==> r == Ok(BuildJunction(owner, related))
    ensures shape.junction.None? && shape.HasOneOrManyThrough? ==> r.Err?
  {
    if shape.junction.Some? then Ok(shape.junction.value)
    else if shape.ShareOneOrMany? then Ok(BuildJunction(owner, related))
    else Err(LanguageError(TooFewArguments))
  }

  // ---------------------------------------------------------------------
  // Condition lists

  /** `foreach ($values as $column => $value) $select->where($prefix . $column)->is($value)` */
  function EqConditions(prefix: string, values: Arr<Value>): (cs: seq<Condition>)
    ensures |cs| == |values.keys|
    ensures forall i :: 0 <= i < |cs| ==> cs[i] == Eq(prefix + values.keys[i], values.vals[values.keys[i]])
  {
    seq(|values.keys|, i requires 0 <= i < |values.keys| => Eq(prefix + values.keys[i], values.vals[values.keys[i]]))
  }

  /** The join condition of the many-to-many `getResult`: for every junction
      pair (related primary-key column, junction column), the junction
      column equals the related primary-key column. */
  function JunctionJoin(junction: Junction, joinTable: string): (on: seq<JoinOn>)
    ensures |on| == |junction.columns.keys|
    ensures forall i :: 0 <= i < |on| ==>
              on[i] == JoinOn(junction.table + "." + junction.columns.vals[junction.columns.keys[i]],
                              joinTable + "." + junction.columns.keys[i])
  {
    seq(|junction.columns.keys|, i requires 0 <= i < |junction.columns.keys| =>
      JoinOn(junction.table + "." + junction.columns.vals[junction.columns.keys[i]], joinTable + "." + junction.columns.keys[i]))
  }

  /** The relation's callback, then the caller's, on the same query. */
  function ApplyCallbacks(q: QueryState, relationCallback: Option<QueryCallback>, callback: Option<QueryCallback>): QueryState {
    var q1 := if relationCallback.Some? then relationCallback.value(q) else q;
    if callback.Some? then callback.value(q1) else q1
  }

  // ---------------------------------------------------------------------
  // getResult

  /** The query `getResult` runs and whether it asks for all rows or one. */
  datatype ResultPlan = ResultPlan(query: QueryState, hasMany: bool)

  /** The message PHP raises for `$data->getColumns()`, which the data
      mapper does not define. */
  const UndefinedGetColumns: string := "Call to undefined method DataMapper::getColumns()"

  /** The query of `getResult` before the callbacks run. */
  function BaseResultQuery(rel: Relation, owner: SchemaView, related: SchemaView, ownerRaw: Row): Result<ResultPlan> {
    match rel.shape
    case BelongsTo =>
      var fk := EffectiveForeignKey(rel, related.foreignKey);
      var sql := EmptySql().(wheres := EqConditions("", GetInverseValue(fk, ownerRaw, true).m));
      Ok(ResultPlan(NewQuery(sql, None), false))
    case HasOneOrMany(hasMany) =>
      var fk := EffectiveForeignKey(rel, owner.foreignKey);
      var sql := EmptySql().(wheres := EqConditions("", GetValue(fk, ownerRaw, true).m));
      Ok(ResultPlan(NewQuery(sql, None), hasMany))
    case ShareOneOrMany(_, hasMany) =>
      var junction :- JunctionOf(rel.shape, owner, related);
      var fk := EffectiveForeignKey(rel, owner.foreignKey);
      var joinTable := related.table;
      var sql := Sql([], [Join(joinTable, JunctionJoin(junction, joinTable))],
                     EqConditions(junction.table + ".", GetValue(fk, ownerRaw, true).m),
                     [Column(joinTable + ".*", None)]);
      Ok(ResultPlan(NewQuery(sql, Some(junction.table)), hasMany))
    case HasOneOrManyThrough(_, _) =>
      var _ :- JunctionOf(rel.shape, owner, related);
      Err(LanguageError(UndefinedGetColumns))
  }

  /** `getResult($data, $callback)` up to the point where the query runs. */
  function ResultQuery(rel: Relation, owner: SchemaView, related: SchemaView, ownerRaw: Row, callback: Option<QueryCallback>): Result<ResultPlan> {
    var plan :- BaseResultQuery(rel, owner, related, ownerRaw);
    Ok(plan.(query := ApplyCallbacks(plan.query, rel.queryCallback, callback)))
  }

  /** The statement `get()` / `all()` send for a query of the related schema. */
  function FinalQuery(q: QueryState, related: SchemaView): QueryState {
    QueryRun(q, related.table, related.primaryKey.Owners(), related.supportsSoftDelete, q.includedColumns.GetOr([]))
  }

  /** `get()`: the first row or nothing; `all()`: every row. */
  function Fetch(db: Storage, q: QueryState, related: SchemaView, hasMany: bool): (r: Related)
    ensures hasMany ==> r == Many(db.rows(FinalQuery(q, related).sql))
    ensures !hasMany ==> (r == NoEntity <==> db.rows(FinalQuery(q, related).sql) == [])
    ensures !hasMany && r != NoEntity ==> r == One(db.rows(FinalQuery(q, related).sql)[0])
  {
    var sql := FinalQuery(q, related).sql;
    if hasMany then Many(db.rows(sql))
    else match FirstRow(db, sql)
      case None => NoEntity
      case Some(row) => One(row)
  }

  /** `getResult($data, $callback)` */
  function RelationResult(db: Storage, rel: Relation, owner: SchemaView, related: SchemaView, ownerRaw: Row,
                          callback: Option<QueryCallback>): Result<Related> {
    var plan :- ResultQuery(rel, owner, related, ownerRaw, callback);
    Ok(Fetch(db, plan.query, related, plan.hasMany))
  }

  // ---------------------------------------------------------------------
  // Properties of getResult

  /** `BelongsTo`: one equality per owner-side column of the key (the
      related primary key), read from the owner's foreign-key column; a
      single entity. */
  lemma BelongsToConditions(rel: Relation, owner: SchemaView, related: SchemaView, ownerRaw: Row)
    requires rel.shape.BelongsTo?
    ensures BaseResultQuery(rel, owner, related, ownerRaw).Ok?
    ensures var plan := BaseResultQuery(rel, owner, related, ownerRaw).value;
            var fk := EffectiveForeignKey(rel, related.foreignKey);
            && !plan.hasMany && plan.query.junctionTable.None? && plan.query.sql.joins == []
            && |plan.query.sql.wheres| == |fk.Owners()|
            && forall i :: 0 <= i < |fk.Owners()| ==>
                 plan.query.sql.wheres[i] == Eq(fk.Owners()[i], Lookup(ownerRaw, fk.Targets()[i], Null))
  {
    var fk := EffectiveForeignKey(rel, related.foreignKey);
    var cs := EqConditions("", GetInverseValue(fk, ownerRaw, true).m);
    assert BaseResultQuery(rel, owner, related, ownerRaw) == Ok(ResultPlan(NewQuery(EmptySql().(wheres := cs), None), false));
    GetInverseValueMapped(fk, ownerRaw, true);
  }

  /** `HasOneOrMany`: one equality per related-side column of the key,
      read from the owner's column it maps from; all rows exactly when the
      relation has many. */
  lemma HasOneOrManyConditions(rel: Relation, owner: SchemaView, related: SchemaView, ownerRaw: Row)
    requires rel.shape.HasOneOrMany?
    requires Distinct(EffectiveForeignKey(rel, owner.foreignKey).Targets())
    ensures BaseResultQuery(rel, owner, related, ownerRaw).Ok?
    ensures var plan := BaseResultQuery(rel, owner, related, ownerRaw).value;
            var fk := EffectiveForeignKey(rel, owner.foreignKey);
            && plan.hasMany == rel.shape.hasMany && plan.query.sql.joins == []
            && |plan.query.sql.wheres| == |fk.Owners()|
            && forall i :: 0 <= i < |fk.Owners()| ==>
                 plan.query.sql.wheres[i] == Eq(fk.Targets()[i], Lookup(ownerRaw, fk.Owners()[i], Null))
  {
    var fk := EffectiveForeignKey(rel, owner.foreignKey);
    var cs := EqConditions("", GetValue(fk, ownerRaw, true).m);
    assert BaseResultQuery(rel, owner, related, ownerRaw) == Ok(ResultPlan(NewQuery(EmptySql().(wheres := cs), None), rel.shape.hasMany));
    KeyConditions("", fk, ownerRaw);
    forall i | 0 <= i < |fk.Owners()|
      ensures cs[i] == Eq(fk.Targets()[i], Lookup(ownerRaw, fk.Owners()[i], Null))
    {
      assert "" + fk.Targets()[i] == fk.Targets()[i];
    }
  }

  /** One equality per key column, on the owner row's value. */
  lemma KeyConditions(prefix: string, fk: ForeignKey, ownerRaw: Row)
    requires Distinct(fk.Targets())
    ensures var w := EqConditions(prefix, GetValue(fk, ownerRaw, true).m);
            && |w| == |fk.Owners()|
            && forall i :: 0 <= i < |fk.Owners()| ==> w[i] == Eq(prefix + fk.Targets()[i], Lookup(ownerRaw, fk.Owners()[i], Null))
  {
    var m := GetValue(fk, ownerRaw, true).m;
    GetValueMapped(fk, ownerRaw, true);
    forall i | 0 <= i < |fk.Owners()|
      ensures EqConditions(prefix, m)[i] == Eq(prefix + fk.Targets()[i], Lookup(ownerRaw, fk.Owners()[i], Null))
    {
      assert m.keys[i] == fk.Targets()[i];
    }
  }

  /** `ShareOneOrMany`: the query selects from the junction table, joins the
      related table with one condition per junction pair, keeps the rows
      whose junction foreign-key columns equal the owner's values, and
      selects the related table's columns. */
  lemma ShareConditions(rel: Relation, owner: SchemaView, related: SchemaView, ownerRaw: Row)
    requires rel.shape.ShareOneOrMany?
    requires Distinct(EffectiveForeignKey(rel, owner.foreignKey).Targets())
    ensures BaseResultQuery(rel, owner, related, ownerRaw).Ok?
    ensures var plan := BaseResultQuery(rel, owner, related, ownerRaw).value;
            var fk := EffectiveForeignKey(rel, owner.foreignKey);
            var junction := JunctionOf(rel.shape, owner, related).value;
            && plan.hasMany == rel.shape.hasMany
            && plan.query.junctionTable == Some(junction.table)
            && plan.query.sql.joins == [Join(related.table, JunctionJoin(junction, related.table))]
            && plan.query.sql.columns == [Column(related.table + ".*", None)]
            && |plan.query.sql.wheres| == |fk.Owners()|
            && forall i :: 0 <= i < |fk.Owners()| ==>
                 plan.query.sql.wheres[i] == Eq(junction.table + "." + fk.Targets()[i], Lookup(ownerRaw, fk.Owners()[i], Null))
  {
    var fk := EffectiveForeignKey(rel, owner.foreignKey);
    var junction := JunctionOf(rel.shape, owner, related).value;
    var plan := BaseResultQuery(rel, owner, related, ownerRaw).value;
    assert plan.query.sql.wheres == EqConditions(junction.table + ".", GetValue(fk, ownerRaw, true).m);
    KeyConditions(junction.table + ".", fk, ownerRaw);
  }

  /** `HasOneOrManyThrough::getResult` never reaches the database: without
      an explicit junction the default one cannot be built, and with one
      the owner's columns are read through an undefined method. */
  lemma ThroughResultFails(db: Storage, rel: Relation, owner: SchemaView, related: SchemaView, ownerRaw: Row,
                           callback: Option<QueryCallback>)
    requires rel.shape.HasOneOrManyThrough?
    ensures RelationResult(db, rel, owner, related, ownerRaw, callback).Err?
    ensures RelationResult(db, rel, owner, related, ownerRaw, callback).error ==
              LanguageError(if rel.shape.junction.None? then TooFewArguments else UndefinedGetColumns)
  {
  }

  /** The relation's own callback sees the query first and the caller's
      callback sees what it returned. */
  lemma CallbackOrder(rel: Relation, owner: SchemaView, related: SchemaView, ownerRaw: Row, callback: QueryCallback)
    requires rel.queryCallback.Some? && BaseResultQuery(rel, owner, related, ownerRaw).Ok?
    ensures ResultQuery(rel, owner, related, ownerRaw, Some(callback)).Ok?
    ensures ResultQuery(rel, owner, related, ownerRaw, Some(callback)).value.query ==
              callback(rel.queryCallback.value(BaseResultQuery(rel, owner, related, ownerRaw).value.query))
    ensures ResultQuery(rel, owner, related, ownerRaw, None).value.query ==
              rel.queryCallback.value(BaseResultQuery(rel, owner, related, ownerRaw).value.query)
  {
  }

  /** The many-to-many queries are locked onto the junction table: the
      statement sent selects from it and never adds the primary key to the
      selected columns. */
  lemma ShareQueryLocked(rel: Relation, owner: SchemaView, related: SchemaView, ownerRaw: Row)
    requires rel.shape.ShareOneOrMany? && rel.queryCallback.None?
    ensures var plan := ResultQuery(rel, owner, related, ownerRaw, None).value;
            var sent := FinalQuery(plan.query, related);
            && sent.locked
            && sent.sql.tables == [JunctionOf(rel.shape, owner, related).value.table]
            && sent.sql.columns == [Column(related.table + ".*", None)] + AsColumns(plan.query.includedColumns.GetOr([]))
  {
  }
}
