/** EntityQueries: the query object of one entity class
    (`Core\EntityQuery`). It adds conditions to its statement, runs the
    final SELECT and turns the rows into entities (with the eager loaders
    of the relations asked for), and issues the bulk UPDATE and DELETE. */
module EntityQueries {
  import opened Values
  import opened Keys
  import opened Queries
  import opened Schema
  import opened RelationPlans
  import opened Mapper
  import opened Entities
  import opened RelationOps

  // ---------------------------------------------------------------------
  // Filters

  /** An entry of the array `filter` receives: under an integer key the
      value is the filter's name and the filter gets no data. */
  datatype FilterEntry = Positional(name: string) | Named(name: string, data: Value)

  /** The argument of `filter`: a single name, or an array of entries. */
  datatype FilterNames = Single(name: string) | Entries(entries: seq<FilterEntry>)

  function EntryName(e: FilterEntry): string {
    match e
    case Positional(n) => n
    case Named(n, _) => n
  }

  function EntryData(e: FilterEntry): Value {
    match e
    case Positional(_) => Null
    case Named(_, d) => d
  }

  /** A single name is wrapped into a one-entry array. */
  function EntriesOf(names: FilterNames): seq<FilterEntry> {
    match names
    case Single(n) => [Positional(n)]
    case Entries(es) => es
  }

  /** The statement after the registered filters named by `entries` ran on
      it, in order. */
  function Filtered(filters: map<string, FilterCallback>, sql: Sql, entries: seq<FilterEntry>): Sql
    decreases |entries|
  {
    if entries == [] then sql
    else
      var last := entries[|entries| - 1];
      var before := Filtered(filters, sql, entries[..|entries| - 1]);
      if EntryName(last) in filters then filters[EntryName(last)](before, EntryData(last)) else before
  }

  /** Names without a registered filter are skipped. */
  lemma {:induction false} FilteredUnregistered(filters: map<string, FilterCallback>, sql: Sql, entries: seq<FilterEntry>)
    requires forall i :: 0 <= i < |entries| ==> EntryName(entries[i]) !in filters
    ensures Filtered(filters, sql, entries) == sql
    decreases |entries|
  {
    if entries != [] {
      FilteredUnregistered(filters, sql, entries[..|entries| - 1]);
    }
  }

  /** Filtering with `a` and then `b` is filtering with `a + b`. */
  lemma {:induction false} FilteredAppend(filters: map<string, FilterCallback>, sql: Sql, a: seq<FilterEntry>, b: seq<FilterEntry>)
    ensures Filtered(filters, sql, a + b) == Filtered(filters, Filtered(filters, sql, a), b)
    decreases |b|
  {
    if b == [] {
      assert a + b == a;
    } else {
      assert (a + b)[..|a + b| - 1] == a + b[..|b| - 1];
      FilteredAppend(filters, sql, a, b[..|b| - 1]);
    }
  }

  /** A single name runs its filter, when registered, with null data. */
  lemma FilteredSingle(filters: map<string, FilterCallback>, sql: Sql, name: string)
    ensures Filtered(filters, sql, EntriesOf(FilterNames.Single(name))) ==
              if name in filters then filters[name](sql, Null) else sql
  {
    assert EntriesOf(FilterNames.Single(name))[..0] == [];
  }

  // ---------------------------------------------------------------------
  // Lookups by id

  /** The argument of `find`: one id, or an array of column values. */
  datatype FindId = ById(value: Value) | ByColumns(columns: Arr<Value>)

  /** The conditions `find` adds: an equality per entry of an array, or one
      equality on the primary key (named by its string form). */
  function FindConditions(pk: ForeignKey, id: FindId): (cs: seq<Condition>)
    ensures id.ById? ==> cs == [Eq(ToString(pk), id.value)]
    ensures id.ByColumns? ==> |cs| == |id.columns.keys|
    ensures id.ByColumns? ==>
              forall i :: 0 <= i < |cs| ==> cs[i] == Eq(id.columns.keys[i], id.columns.vals[id.columns.keys[i]])
  {
    match id
    case ById(v) => [Eq(ToString(pk), v)]
    case ByColumns(cols) =>
      var cs := EqConditions("", cols);
      assert forall i :: 0 <= i < |cs| ==> "" + cols.keys[i] == cols.keys[i];
      cs
  }

  // ---------------------------------------------------------------------
  // Eager loading

  /** The loaders of the eager relations in `with` that the schema knows,
      for the fetched rows, in order; a later entry for the same name
      replaces an earlier one. The first loader that raises stops it. */
  function LoadersOf(env: Env, with: seq<EagerLoad>, immediate: bool, results: seq<Row>): Result<map<string, LoaderSpec>>
    decreases |with|
  {
    if with == [] then Ok(map[])
    else
      var acc :- LoadersOf(env, with[..|with| - 1], immediate, results);
      AddLoader(env, acc, with[|with| - 1], immediate, results)
  }

  /** One eager entry: a known relation adds (or replaces) its loader. */
  function AddLoader(env: Env, acc: map<string, LoaderSpec>, w: EagerLoad, immediate: bool, results: seq<Row>): Result<map<string, LoaderSpec>> {
    if w.name !in env.schema.relations then Ok(acc)
    else
      var loader :- EntryLoader(env, w, immediate, results);
      Ok(acc[w.name := loader])
  }

  /** The loaders of a prefix one entry longer. */
  lemma LoadersOfNext(env: Env, with: seq<EagerLoad>, immediate: bool, results: seq<Row>, i: nat)
    requires i < |with|
    ensures LoadersOf(env, with[..i], immediate, results).Err? ==>
              LoadersOf(env, with[..i + 1], immediate, results) == LoadersOf(env, with[..i], immediate, results)
    ensures LoadersOf(env, with[..i], immediate, results).Ok? ==>
              LoadersOf(env, with[..i + 1], immediate, results) ==
                AddLoader(env, LoadersOf(env, with[..i], immediate, results).value, with[i], immediate, results)
  {
    assert with[..i + 1][..i] == with[..i];
  }

  /** `getLazyLoaders($results)` */
  function LazyLoaders(env: Env, q: QueryState, results: seq<Row>): Result<map<string, LoaderSpec>> {
    if q.with == [] || results == [] then Ok(map[]) else LoadersOf(env, q.with, q.immediate, results)
  }

  /** The loader one eager entry gets. */
  function EntryLoader(env: Env, w: EagerLoad, immediate: bool, results: seq<Row>): Result<LoaderSpec>
    requires w.name in env.schema.relations
  {
    var rel := env.schema.relations[w.name];
    LazyLoaderOf(rel, env.schema, env.resolve(rel.entityClass), LoaderOptions(results, w.callback, w.extra, immediate))
  }

  /** The loaders are keyed by exactly the known relation names asked for. */
  lemma {:induction false} LoadersOfKeys(env: Env, with: seq<EagerLoad>, immediate: bool, results: seq<Row>, name: string)
    requires LoadersOf(env, with, immediate, results).Ok?
    ensures name in LoadersOf(env, with, immediate, results).value <==>
              name in env.schema.relations && exists i :: 0 <= i < |with| && with[i].name == name
    decreases |with|
  {
    if with != [] {
      var init := with[..|with| - 1];
      LoadersOfKeys(env, init, immediate, results, name);
      if name in env.schema.relations && (exists i :: 0 <= i < |init| && init[i].name == name) {
        var i :| 0 <= i < |init| && init[i].name == name;
        assert with[i] == init[i];
      }
      if exists i :: 0 <= i < |with| && with[i].name == name {
        var i :| 0 <= i < |with| && with[i].name == name;
        if i < |init| {
          assert init[i] == with[i];
        }
      }
    }
  }

  /** Each key holds the loader of the last entry with that name. */
  lemma {:induction false} LoadersOfLast(env: Env, with: seq<EagerLoad>, immediate: bool, results: seq<Row>, i: nat)
    requires LoadersOf(env, with, immediate, results).Ok?
    requires i < |with| && with[i].name in env.schema.relations
    requires forall j :: i < j < |with| ==> with[j].name != with[i].name
    ensures EntryLoader(env, with[i], immediate, results).Ok?
    ensures with[i].name in LoadersOf(env, with, immediate, results).value
    ensures LoadersOf(env, with, immediate, results).value[with[i].name] == EntryLoader(env, with[i], immediate, results).value
    decreases |with|
  {
    if i < |with| - 1 {
      var init := with[..|with| - 1];
      assert init[i] == with[i];
      LoadersOfLast(env, init, immediate, results, i);
    }
  }

  /** An eager relation whose loader raises makes the whole batch raise. */
  lemma {:induction false} LoadersOfErr(env: Env, with: seq<EagerLoad>, immediate: bool, results: seq<Row>, i: nat)
    requires i < |with| && with[i].name in env.schema.relations
    requires EntryLoader(env, with[i], immediate, results).Err?
    ensures LoadersOf(env, with, immediate, results).Err?
    decreases |with|
  {
    if i < |with| - 1 {
      LoadersOfErr(env, with[..|with| - 1], immediate, results, i);
    }
  }

  /** The relation read its own way: an entity built from a fetched row,
      whose mapper is not built yet. */
  ghost predicate Fetched(e: Entity, env: Env, row: Row, loaders: map<string, LoaderSpec>, readOnly: bool)
    reads e
  {
    && e.Valid() && e.dataMapper == null && e.dataMapperArgs.Some?
    && var a := e.dataMapperArgs.value;
       a.env == env && a.columns.vals == row && a.loaders == loaders && a.isReadOnly == readOnly && !a.isNew
  }

  /** `fetchAssoc()` hands each row as an array; the model keeps no column
      order for fetched rows. */
  method RowColumns(row: Row) returns (a: Arr<Value>)
    ensures a.vals == row
  {
    a := EmptyArr();
    var rest := row.Keys;
    while rest != {}
      invariant rest <= row.Keys
      invariant a.vals == map k | k in row && k !in rest :: row[k]
      decreases |rest|
    {
      var k :| k in rest;
      a := Put(a, k, row[k]);
      rest := rest - {k};
    }
  }

  /** The soft-delete UPDATE (with the column name `deleted_at` fixed) or
      the DELETE that `delete($force)` issues. */
  function DeleteStatement(schema: SchemaView, wheres: seq<Condition>, force: bool, now: string): (st: Statement)
    ensures st.Update? <==> !force && schema.supportsSoftDelete
    ensures st.Update? ==> st == Update(schema.table, wheres, map["deleted_at" := Str(now)])
    ensures st.Delete? ==> st == Delete(schema.table, wheres)
  {
    if !force && schema.supportsSoftDelete then Update(schema.table, wheres, map["deleted_at" := Str(now)])
    else Delete(schema.table, wheres)
  }

  /** The columns `update($columns)` sets: `updated_at` (name fixed) is
      stamped when the schema supports timestamps. */
  function UpdateAssignments(schema: SchemaView, columns: Row, now: string): (r: Row)
    ensures r.Keys == columns.Keys + (if schema.supportsTimestamp then {"updated_at"} else {})
    ensures forall k :: k in r ==>
              r[k] == if schema.supportsTimestamp && k == "updated_at" then Str(now) else columns[k]
  {
    if schema.supportsTimestamp then columns["updated_at" := Str(now)] else columns
  }

  // ---------------------------------------------------------------------
  // The query object

  class EntityQuery {
    /** The schema and storage of the entity manager. */
    const env: Env
    /** The connection writes go through. */
    const conn: Connection
    /** The statement and the query's flags. */
    var query: QueryState

    constructor (env: Env, conn: Connection)
      ensures this.env == env && this.conn == conn && query == NewQuery(EmptySql(), None)
    {
      this.env := env;
      this.conn := conn;
      query := NewQuery(EmptySql(), None);
    }

    /** `where($column)->is($value)` and the like: one more condition. */
    method AddWhere(c: Condition)
      modifies this`query
      ensures query == Where(old(query), c)
    {
      query := Where(query, c);
    }

    /** One `where(...)->is(...)` per condition, in order. */
    method AddConditions(cs: seq<Condition>)
      modifies this`query
      ensures query == old(query).(sql := old(query.sql).(wheres := old(query.sql.wheres) + cs))
    {
      var i := 0;
      while i < |cs|
        invariant 0 <= i <= |cs|
        invariant query == old(query).(sql := old(query.sql).(wheres := old(query.sql.wheres) + cs[..i]))
      {
        assert cs[..i + 1] == cs[..i] + [cs[i]];
        AddWhere(cs[i]);
        i := i + 1;
      }
      assert cs[..i] == cs;
    }

    /** `includeColumns(...$columns)` */
    method IncludeColumns(columns: seq<string>)
      modifies this`query
      ensures query == old(query).(includedColumns := Some(columns))
    {
      query := query.(includedColumns := Some(columns));
    }

    /** `filter($names)`: each entry whose name has a registered filter runs
      it on the statement, with the entry's data. */
    method Filter(names: FilterNames)
      modifies this`query
      ensures query == old(query).(sql := Filtered(env.schema.filters, old(query.sql), EntriesOf(names)))
    {
      var entries := EntriesOf(names);
      var filters := env.schema.filters;
      var i := 0;
      while i < |entries|
        invariant 0 <= i <= |entries|
        invariant query == old(query).(sql := Filtered(filters, old(query.sql), entries[..i]))
      {
        assert entries[..i + 1][..i] == entries[..i];
        var name := EntryName(entries[i]);
        if name in filters {
          query := query.(sql := filters[name](query.sql, EntryData(entries[i])));
        }
        i := i + 1;
      }
      assert entries[..i] == entries;
    }

    /** `query($columns)`: the statement is completed in place and run. */
    method Prepare() returns (rows: seq<Row>)
      modifies this`query
      ensures query == FinalQuery(old(query), env.schema)
      ensures rows == env.db.rows(query.sql)
    {
      query := FinalQuery(query, env.schema);
      rows := env.db.rows(query.sql);
    }

    /** `get()`: nothing without a row; otherwise an entity of the first
      row, not new, read-only exactly when the query joins. */
    method Get() returns (r: Option<Entity>)
      modifies this`query
      ensures query == FinalQuery(old(query), env.schema)
      ensures r.None? <==> env.db.rows(query.sql) == []
      ensures r.Some? ==> fresh(r.value) && Fetched(r.value, env, env.db.rows(query.sql)[0], map[], IsReadOnly(query))
    {
      var rows := Prepare();
      if rows == [] {
        return None;
      }
      var columns := RowColumns(rows[0]);
      var e := new Entity(MapperArgs(env, columns, map[], IsReadOnly(query), false));
      r := Some(e);
    }

    /** `getLazyLoaders($results)`: nothing without eager relations or rows;
      otherwise one loader per known relation asked for. */
    method GetLazyLoaders(results: seq<Row>) returns (r: Result<map<string, LoaderSpec>>)
      ensures r == LazyLoaders(env, query, results)
    {
      if query.with == [] || results == [] {
        return Ok(map[]);
      }
      var with := query.with;
      var loaders: map<string, LoaderSpec> := map[];
      var i := 0;
      while i < |with|
        invariant 0 <= i <= |with|
        invariant LoadersOf(env, with[..i], query.immediate, results) == Ok(loaders)
      {
        var next := AddEntryLoader(loaders, with[i], results);
        LoadersOfNext(env, with, query.immediate, results, i);
        if next.Err? {
          LoadersOfPrefixErr(env, with, query.immediate, results, i + 1);
          return Err(next.error);
        }
        loaders := next.value;
        i := i + 1;
      }
      assert with[..i] == with;
      r := Ok(loaders);
    }

    /** The loader of one eager entry, when its relation is known. */
    method AddEntryLoader(acc: map<string, LoaderSpec>, w: EagerLoad, results: seq<Row>) returns (r: Result<map<string, LoaderSpec>>)
      ensures r == AddLoader(env, acc, w, query.immediate, results)
    {
      if w.name !in env.schema.relations {
        return Ok(acc);
      }
      var rel := env.schema.relations[w.name];
      var loader := GetLazyLoader(rel, env.schema, env.resolve(rel.entityClass),
                                  LoaderOptions(results, w.callback, w.extra, query.immediate));
      if loader.Err? {
        return Err(loader.error);
      }
      r := Ok(acc[w.name := loader.value]);
    }

    /** `all()`: one entity per row, in row order, all sharing the loaders
      computed once; a loader that raises leaves no entity. */
    method All() returns (r: Result<seq<Entity>>)
      modifies this`query
      ensures query == FinalQuery(old(query), env.schema)
      ensures var rows := env.db.rows(query.sql);
              var loaders := LazyLoaders(env, query, rows);
              && (r.Ok? <==> loaders.Ok?)
              && (r.Err? ==> r.error == loaders.error)
              && (r.Ok? ==>
                    && |r.value| == |rows|
                    && (forall i :: 0 <= i < |rows| ==>
                          fresh(r.value[i]) && Fetched(r.value[i], env, rows[i], loaders.value, IsReadOnly(query)))
                    && (forall i, j :: 0 <= i < j < |rows| ==> r.value[i] != r.value[j]))
    {
      var rows := Prepare();
      var readOnly := IsReadOnly(query);
      var loaders := GetLazyLoaders(rows);
      if loaders.Err? {
        return Err(loaders.error);
      }
      var entities: seq<Entity> := [];
      var i := 0;
      while i < |rows|
        invariant 0 <= i <= |rows| && |entities| == i
        invariant query == FinalQuery(old(query), env.schema)
        invariant forall j :: 0 <= j < i ==> fresh(entities[j]) && Fetched(entities[j], env, rows[j], loaders.value, readOnly)
        invariant forall j, k :: 0 <= j < k < i ==> entities[j] != entities[k]
      {
        var columns := RowColumns(rows[i]);
        var e := new Entity(MapperArgs(env, columns, loaders.value, readOnly, false));
        entities := entities + [e];
        i := i + 1;
      }
      r := Ok(entities);
    }

    /** `find($id)`: the id's conditions, then `get()`. */
    method Find(id: FindId) returns (r: Option<Entity>)
      modifies this`query
      ensures query == FinalQuery(old(query).(sql := old(query.sql).(wheres := old(query.sql.wheres) + FindConditions(env.schema.primaryKey, id))), env.schema)
      ensures r.None? <==> env.db.rows(query.sql) == []
      ensures r.Some? ==> fresh(r.value) && Fetched(r.value, env, env.db.rows(query.sql)[0], map[], IsReadOnly(query))
    {
      AddConditions(FindConditions(env.schema.primaryKey, id));
      r := Get();
    }

    /** `delete($force)`: a soft delete stamps `deleted_at` unless forced
      or unsupported; a storage failure counts as zero rows. */
    method Delete(force: bool, now: string) returns (n: int)
      modifies conn`log
      ensures conn.log == old(conn.log) + [DeleteStatement(env.schema, query.sql.wheres, force, now)]
      ensures n == conn.storage.outcome(DeleteStatement(env.schema, query.sql.wheres, force, now)).GetOr(0)
    {
      var st := DeleteStatement(env.schema, query.sql.wheres, force, now);
      var outcome := conn.Execute(st);
      n := outcome.GetOr(0);
    }

    /** `update($columns)` */
    method Update(columns: Row, now: string) returns (n: int)
      modifies conn`log
      ensures conn.log == old(conn.log) + [Statement.Update(env.schema.table, query.sql.wheres, UpdateAssignments(env.schema, columns, now))]
      ensures n == conn.storage.outcome(Statement.Update(env.schema.table, query.sql.wheres, UpdateAssignments(env.schema, columns, now))).GetOr(0)
    {
      var st := Statement.Update(env.schema.table, query.sql.wheres, UpdateAssignments(env.schema, columns, now));
      var outcome := conn.Execute(st);
      n := outcome.GetOr(0);
    }
  }

  /** An entry that raises decides the outcome of every longer list. */
  lemma {:induction false} LoadersOfPrefixErr(env: Env, with: seq<EagerLoad>, immediate: bool, results: seq<Row>, k: nat)
    requires k <= |with| && LoadersOf(env, with[..k], immediate, results).Err?
    ensures LoadersOf(env, with, immediate, results) == LoadersOf(env, with[..k], immediate, results)
    decreases |with|
  {
    if k < |with| {
      var init := with[..|with| - 1];
      assert init[..k] == with[..k];
      LoadersOfPrefixErr(env, init, immediate, results, k);
    } else {
      assert with[..k] == with;
    }
  }
}
