/** Queries: the part of the SQL layer the mapping engine talks to, kept
    abstract. A query is a list of tables, joins, WHERE conditions and
    selected columns; storage is an oracle that answers a SELECT with rows
    and a write statement with an affected-row count or a failure. */
module Queries {
  import opened Values
  import opened Keys

  /** One WHERE condition. `InMissing` is `->in(null)` (a key column with
      no collected values); `InGroups` is `->in($ids)` with `$ids` an array
      of value lists keyed by column. */
  datatype Condition =
    | Eq(column: string, value: Value)
    | In(column: string, values: seq<Value>)
    | InMissing(column: string)
    | InGroups(column: string, groups: Arr<seq<Value>>)
    | IsNull(column: string)
    | NotNull(column: string)

  datatype JoinOn = JoinOn(left: string, right: string)

  datatype Join = Join(table: string, on: seq<JoinOn>)

  /** A selected column, optionally aliased. */
  datatype Column = Column(expr: string, alias: Option<string>)

  datatype Sql = Sql(tables: seq<string>, joins: seq<Join>, wheres: seq<Condition>, columns: seq<Column>)

  function EmptySql(): Sql {
    Sql([], [], [], [])
  }

  /** A callback handed `new Query($statement)`: it may add to the statement. */
  type SqlCallback = Sql -> Sql

  /** A registered query filter, called as `$filter($query, $data)`. */
  type FilterCallback = (Sql, Value) -> Sql

  /** One eager-loaded relation as the `with` list of a query holds it: its
      name, its callback and the nested relations to load with it. */
  datatype EagerLoad = EagerLoad(name: string, callback: Option<SqlCallback>, extra: seq<EagerLoad>)

  /** The state of an entity query. `junctionTable` is set for the queries
      the many-to-many relations build: their `buildQuery` locks the query
      and selects from the junction table. */
  datatype QueryState = QueryState(
    sql: Sql,
    locked: bool,
    junctionTable: Option<string>,
    includedColumns: Option<seq<string>>,
    withSoftDeleted: bool,
    onlySoftDeleted: bool,
    with: seq<EagerLoad>,
    immediate: bool)

  /** A relation's or a caller's callback on the query object. */
  type QueryCallback = QueryState -> QueryState

  function NewQuery(sql: Sql, junctionTable: Option<string>): QueryState {
    QueryState(sql, false, junctionTable, None, false, false, [], false)
  }

  function Where(q: QueryState, c: Condition): (r: QueryState)
    ensures r.sql.wheres == q.sql.wheres + [c]
    ensures r == q.(sql := r.sql) && r.sql == q.sql.(wheres := r.sql.wheres)
  {
    q.(sql := q.sql.(wheres := q.sql.wheres + [c]))
  }

  /** The soft-delete filter of a query, with the column name hard-coded
      as `deleted_at`: none, `IS NULL` or `IS NOT NULL`. */
  function SoftDeleteFilter(supportsSoftDelete: bool, withSoftDeleted: bool, onlySoftDeleted: bool): seq<Condition> {
    if !supportsSoftDelete then []
    else if !withSoftDeleted then [IsNull("deleted_at")]
    else if onlySoftDeleted then [NotNull("deleted_at")]
    else []
  }

  function AsColumns(names: seq<string>): (r: seq<Column>)
    ensures |r| == |names| && forall i :: 0 <= i < |r| ==> r[i] == Column(names[i], None)
  {
    seq(|names|, i requires 0 <= i < |names| => Column(names[i], None))
  }

  /** The final query `EntityQuery::query($columns)` sends: `buildQuery`
      adds the table (the junction table, locking the query, for a
      many-to-many query); an unlocked query with explicit columns also
      selects the primary key columns; the soft-delete filter applies when
      the schema supports it. */
  function QueryRun(q: QueryState, table: string, pkNames: seq<string>, supportsSoftDelete: bool, columns: seq<string>): (r: QueryState)
    ensures r.locked == (q.locked || q.junctionTable.Some?)
    ensures r.sql.tables == q.sql.tables + [if q.junctionTable.Some? then q.junctionTable.value else table]
    ensures r.sql.wheres == q.sql.wheres + SoftDeleteFilter(supportsSoftDelete, q.withSoftDeleted, q.onlySoftDeleted)
    ensures r.sql.joins == q.sql.joins
    ensures r.sql.columns == q.sql.columns + AsColumns(columns) + (if !r.locked && columns != [] then AsColumns(pkNames) else [])
  {
    var locked := q.locked || q.junctionTable.Some?;
    var tables := q.sql.tables + [if q.junctionTable.Some? then q.junctionTable.value else table];
    var selected := if !locked && columns != [] then columns + pkNames else columns;
    assert AsColumns(selected) == AsColumns(columns) + (if !locked && columns != [] then AsColumns(pkNames) else []);
    var wheres := q.sql.wheres + SoftDeleteFilter(supportsSoftDelete, q.withSoftDeleted, q.onlySoftDeleted);
    q.(locked := locked, sql := Sql(tables, q.sql.joins, wheres, q.sql.columns + AsColumns(selected)))
  }

  /** `isReadOnly()`: any join makes the results read-only; the junction
      queries of the many-to-many relations always have one join of their
      own and become read-only from the second. */
  function IsReadOnly(q: QueryState): bool {
    if q.junctionTable.Some? then |q.sql.joins| > 1 else |q.sql.joins| > 0
  }

  // ---------------------------------------------------------------------
  // Lazy loaders and relation results

  /** What the second argument of a `LazyLoader` holds: the inverse flag of
      the one-to-many relations, or the link column alias of the
      many-to-many ones. */
  datatype LoaderArg = Inverse(flag: bool) | LinkColumn(alias: string)

  /** A `LazyLoader` as the relations build it: the prepared query of the
      related class, the key used to match results to owners (absent when
      the code passes an undefined variable), the second argument, whether
      it yields many results, and the immediate flag. */
  datatype LoaderSpec = LoaderSpec(
    relatedClass: string,
    query: QueryState,
    key: Option<ForeignKey>,
    arg: LoaderArg,
    hasMany: bool,
    immediate: bool)

  /** What `getRelated` memoises: no entity, one, or a list. Entities are
      represented by the rows they are built from. */
  datatype Related = NoEntity | One(row: Row) | Many(rows: seq<Row>)

  /** A write the engine issues. */
  datatype Statement =
    | Insert(table: string, values: Row)
    | Update(table: string, wheres: seq<Condition>, assignments: Row)
    | Delete(table: string, wheres: seq<Condition>)

  /** The database, as an oracle: the rows a SELECT returns, the outcome of
      a write (None when it raises a storage error, otherwise the affected
      row count), the value `lastInsertId($sequence)` reports, and what a
      lazy loader hands an owner whose columns are the given row. */
  datatype Storage = Storage(
    rows: Sql -> seq<Row>,
    outcome: Statement -> Option<int>,
    lastInsertId: string -> Value,
    loaded: (LoaderSpec, Row) -> Related)

  /** `->fetchAssoc()->first()` */
  function FirstRow(db: Storage, sql: Sql): (r: Option<Row>)
    ensures r.Some? <==> db.rows(sql) != []
    ensures r.Some? ==> r.value == db.rows(sql)[0]
  {
    if db.rows(sql) == [] then None else Some(db.rows(sql)[0])
  }

  /** The connection: the storage it talks to and the writes issued so far. */
  class Connection {
    const storage: Storage
    var log: seq<Statement>

    constructor (storage: Storage)
      ensures this.storage == storage && log == []
    {
      this.storage := storage;
      log := [];
    }

    /** Issue a write: it is logged and its outcome is the oracle's. */
    method Execute(st: Statement) returns (r: Option<int>)
      modifies this`log
      ensures log == old(log) + [st]
      ensures r == storage.outcome(st)
    {
      log := log + [st];
      r := storage.outcome(st);
    }
  }
}
