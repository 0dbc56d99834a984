/** Manager: the entry point (`EntityManager`). It builds and memoises one
    schema mapper per entity class, creates entities, and persists them:
    `save` inserts a new record or writes the modified columns of a loaded
    one, `delete` removes (or soft-deletes) a saved one. */
module Manager {
  import opened Values
  import opened Keys
  import opened Queries
  import opened Schema
  import opened RelationPlans
  import opened Mapper
  import opened Entities
  import opened EntityQueries

  /** What reflection tells about a class name: whether it extends
      `Entity`, and the builder calls of its static `mapEntity` when it
      implements `IMappableEntity`. */
  datatype ClassInfo = ClassInfo(isEntity: bool, mapEntity: Option<seq<BuilderStep>>)

  const EntityBase: string := "Opis\\ORM\\Entity"

  // ---------------------------------------------------------------------
  // save

  /** The columns of the INSERT: the raw columns, then what the key
      generator returns (one value for the first key column, or a column
      map laid over them), then, with timestamps, `created_at` stamped and
      `updated_at` null (both names fixed). */
  function InsertColumns(schema: SchemaView, raw: Row, ts: string): Row {
    var generated :=
      if schema.generator.None? then raw
      else match schema.generator.value(raw)
        case PkScalar(v) => raw[schema.primaryKey.FirstOwner() := v]
        case PkMap(m) => raw + m.vals;
    if schema.supportsTimestamp then generated["created_at" := Str(ts)]["updated_at" := Null] else generated
  }

  /** The id `save` hands to `markAsSaved`: a generated single value that is
      not null, else what the connection reports for the sequence. */
  function InsertedId(schema: SchemaView, storage: Storage, raw: Row): Value {
    if schema.generator.Some? && schema.generator.value(raw).PkScalar? && schema.generator.value(raw).v != Null
    then schema.generator.value(raw).v
    else storage.lastInsertId(schema.sequence)
  }

  /** `array_intersect_key($raw, $modified)` where `$modified` is the list of
      modified names: the list's keys are the positions 0 to n-1, so the
      raw columns kept are those named by a position. */
  function IndexKeyed(raw: Row, n: nat): (r: Row)
    ensures r.Keys <= raw.Keys
    ensures forall k :: k in r ==> r[k] == raw[k]
    decreases n
  {
    if n == 0 then map[]
    else
      var name := NatToString(n - 1);
      var before := IndexKeyed(raw, n - 1);
      if name in raw then before[name := raw[name]] else before
  }

  /** The assignments of the UPDATE: the positional columns, and, with
      timestamps, `updated_at` stamped. */
  function UpdateColumns(schema: SchemaView, raw: Row, n: nat, ts: string): Row {
    var cols := IndexKeyed(raw, n);
    if schema.supportsTimestamp then cols["updated_at" := Str(ts)] else cols
  }

  /** What `save` returns, the state it leaves and the statements it
      writes. */
  datatype SaveOutcome = SaveOutcome(result: Result<bool>, next: MapperState, written: seq<Statement>)

  /** `save($entity)`, at the time `ts`. A storage failure inside the
      transaction turns into `false`; the mapper's own exceptions escape. */
  function SaveSpec(e: Env, storage: Storage, s: MapperState, ts: string): SaveOutcome {
    if s.deleted then SaveOutcome(Err(InvalidState("The record is deleted")), s, [])
    else if s.isNew then
      var st := Insert(e.schema.table, InsertColumns(e.schema, s.raw, ts));
      if storage.outcome(st).None? then SaveOutcome(Ok(false), s, [st])
      else
        var id := InsertedId(e.schema, storage, s.raw);
        if id == Bool(false) then SaveOutcome(Ok(false), s, [st])
        else
          var o := Saved(e, s, id);
          SaveOutcome(o.result, o.next, [st])
    else if !WasModified(s) then SaveOutcome(Ok(true), s, [])
    else if s.modified != {} then
      var cols := UpdateColumns(e.schema, s.raw, |s.modified|, ts);
      var o := Updated(e, s, if e.schema.supportsTimestamp then Some(ts) else None);
      if o.result.Err? then SaveOutcome(Err(o.result.error), o.next, [])
      else
        var st := Update(e.schema.table, EqConditions("", GetValue(e.schema.primaryKey, o.next.raw, true).m), cols);
        var n := storage.outcome(st);
        SaveOutcome(Ok(n.Some? && n.value != 0), o.next, [st])
    else
      var o := Flushed(s);
      SaveOutcome(o.result, o.next, [])
  }

  /** The INSERT keeps every raw column the generator and the timestamps do
      not set, takes the generated values, and stamps the timestamps. */
  lemma InsertColumnsSpec(schema: SchemaView, raw: Row, ts: string, k: string)
    ensures var cols := InsertColumns(schema, raw, ts);
            var gen := if schema.generator.Some? then Some(schema.generator.value(raw)) else None;
            && (k in cols <==>
                  || k in raw
                  || (gen.Some? && gen.value.PkScalar? && k == schema.primaryKey.FirstOwner())
                  || (gen.Some? && gen.value.PkMap? && k in gen.value.m.keys)
                  || (schema.supportsTimestamp && (k == "created_at" || k == "updated_at")))
            && (schema.supportsTimestamp && k == "created_at" ==> cols[k] == Str(ts))
            && (schema.supportsTimestamp && k == "updated_at" ==> cols[k] == Null)
            && (!(schema.supportsTimestamp && (k == "created_at" || k == "updated_at")) ==>
                  && (gen.Some? && gen.value.PkScalar? && k == schema.primaryKey.FirstOwner() ==> cols[k] == gen.value.v)
                  && (gen.Some? && gen.value.PkMap? && k in gen.value.m.keys ==> cols[k] == gen.value.m.vals[k])
                  && (var untouched := gen.None? || (gen.value.PkScalar? && k != schema.primaryKey.FirstOwner()) ||
                                       (gen.value.PkMap? && k !in gen.value.m.keys);
                      k in raw && untouched ==> cols[k] == raw[k]))
  {
  }

  /** The UPDATE only ever assigns columns named by a position, and
      `updated_at`: a modified column named otherwise is not written. */
  lemma {:induction false} IndexKeyedDigits(raw: Row, n: nat, k: string)
    requires k in IndexKeyed(raw, n)
    ensures AllDigits(k)
    decreases n
  {
    if n > 0 {
      if k == NatToString(n - 1) {
        NatToStringDigits(n - 1);
      } else {
        IndexKeyedDigits(raw, n - 1, k);
      }
    }
  }

  /** A modified column whose name is not a number is never in the
      UPDATE's assignments (unless it is `updated_at` itself). */
  lemma NamedColumnsNotUpdated(schema: SchemaView, raw: Row, n: nat, ts: string, k: string)
    requires !AllDigits(k) && k != "updated_at"
    ensures k !in UpdateColumns(schema, raw, n, ts)
  {
    if k in IndexKeyed(raw, n) {
      IndexKeyedDigits(raw, n, k);
    }
  }

  /** The columns named by the positions 0 .. n-1 are kept with their raw
      values. */
  lemma {:induction false} IndexKeyedSpec(raw: Row, n: nat, i: nat)
    requires i < n && NatToString(i) in raw
    ensures NatToString(i) in IndexKeyed(raw, n)
    decreases n
  {
    if i < n - 1 {
      IndexKeyedSpec(raw, n - 1, i);
    }
  }

  /** Exactly the raw columns named by a position below `n` are kept: the
      names `"0"` to the decimal form of `n - 1`, and no other name, not even
      one of digits such as `"00"` or a larger position. */
  lemma {:induction false} IndexKeyedExact(raw: Row, n: nat, k: string)
    ensures k in IndexKeyed(raw, n) <==> k in raw && exists i :: 0 <= i < n && k == NatToString(i)
    decreases n
  {
    if k in raw && exists i :: 0 <= i < n && k == NatToString(i) {
      var i :| 0 <= i < n && k == NatToString(i);
      IndexKeyedSpec(raw, n, i);
    }
    if n > 0 && k in IndexKeyed(raw, n) && k != NatToString(n - 1) {
      IndexKeyedExact(raw, n - 1, k);
      var i :| 0 <= i < n - 1 && k == NatToString(i);
      assert 0 <= i < n && k == NatToString(i);
    }
  }

  /** Which statement `save` writes: an INSERT exactly for a live new record;
      otherwise an UPDATE only when columns were modified and the pending
      queue let the update through; nothing for a deleted record, an
      unmodified one, or one with only queued links. */
  lemma SaveWrites(e: Env, storage: Storage, s: MapperState, ts: string)
    ensures var o := SaveSpec(e, storage, s, ts);
            && |o.written| <= 1
            && (o.written != [] && o.written[0].Insert? <==> !s.deleted && s.isNew)
            && (o.written != [] && o.written[0].Update? <==>
                  !s.deleted && !s.isNew && s.modified != {} && s.pending == [])
            && (o.written == [] ==> o.result != Ok(false))
  {
    if !s.deleted && !s.isNew && WasModified(s) {
      if s.modified != {} {
        UpdatedSpec(e, s, if e.schema.supportsTimestamp then Some(ts) else None);
      } else {
        FlushedSpec(s);
      }
    }
  }

  /** What `save` writes: the INSERT carries the insert columns of the raw
      columns before the save, the UPDATE the update columns. */
  lemma SaveWriteColumns(e: Env, storage: Storage, s: MapperState, ts: string)
    ensures var o := SaveSpec(e, storage, s, ts);
            && (o.written != [] && o.written[0].Insert? ==> o.written[0].values == InsertColumns(e.schema, s.raw, ts))
            && (o.written != [] && o.written[0].Update? ==>
                  o.written[0].assignments == UpdateColumns(e.schema, s.raw, |s.modified|, ts))
  {
    if !s.deleted && !s.isNew && WasModified(s) && s.modified != {} {
      var o := Updated(e, s, if e.schema.supportsTimestamp then Some(ts) else None);
      if o.result.Ok? {
        var st := Update(e.schema.table, EqConditions("", GetValue(e.schema.primaryKey, o.next.raw, true).m),
                         UpdateColumns(e.schema, s.raw, |s.modified|, ts));
        assert SaveSpec(e, storage, s, ts).written == [st];
      }
    }
  }

  /** `save` never succeeds on a deleted record, and a failed INSERT leaves
      the record new and untouched. */
  lemma SaveFailures(e: Env, storage: Storage, s: MapperState, ts: string)
    ensures s.deleted ==> SaveSpec(e, storage, s, ts) == SaveOutcome(Err(InvalidState("The record is deleted")), s, [])
    ensures !s.deleted && s.isNew && SaveSpec(e, storage, s, ts).result == Ok(false) ==>
              SaveSpec(e, storage, s, ts).next == s
  {
  }

  /** A successful `save` leaves a saved, unmodified record whose queue is
      empty. */
  lemma SaveSucceeded(e: Env, storage: Storage, s: MapperState, ts: string)
    requires SaveSpec(e, storage, s, ts).result == Ok(true)
    ensures var next := SaveSpec(e, storage, s, ts).next;
            !next.isNew && !next.deleted && !WasModified(next)
  {
    if s.isNew {
      var st := Insert(e.schema.table, InsertColumns(e.schema, s.raw, ts));
      var id := InsertedId(e.schema, storage, s.raw);
      assert SaveSpec(e, storage, s, ts).next == Saved(e, s, id).next;
      FlushedSpec(s.(raw := SavedColumns(e.schema.primaryKey, s.raw, id).value, stale := true, isNew := false, modified := {}));
    } else if s.modified != {} {
      UpdatedSpec(e, s, if e.schema.supportsTimestamp then Some(ts) else None);
    } else if WasModified(s) {
      FlushedSpec(s);
    }
  }

  /** After an update, the saved time is the record's updated column, and
      the conditions name the primary key columns as they now read. */
  lemma SaveUpdateStatement(e: Env, storage: Storage, s: MapperState, ts: string)
    requires !s.deleted && !s.isNew && s.modified != {} && s.pending == []
    ensures var o := SaveSpec(e, storage, s, ts);
            var pk := GetValue(e.schema.primaryKey, o.next.raw, true).m;
            && o.written[0].wheres == EqConditions("", pk)
            && (e.schema.supportsTimestamp ==> o.next.raw[e.schema.timestampColumns.1] == Str(ts))
            && o.next.modified == {}
  {
  }

  // ---------------------------------------------------------------------
  // delete

  /** `delete($entity)`, at the time `ts`: the record is marked deleted
      first, then a soft delete or a DELETE by primary key is issued. */
  function DeleteSpec(e: Env, storage: Storage, s: MapperState, ts: string): SaveOutcome {
    if s.deleted then SaveOutcome(Err(InvalidState("The record was already deleted")), s, [])
    else if s.isNew then SaveOutcome(Err(InvalidState("Can't delete an unsaved entity")), s, [])
    else
      var st := DeleteStatement(e.schema, EqConditions("", GetValue(e.schema.primaryKey, s.raw, true).m), false, ts);
      SaveOutcome(Ok(storage.outcome(st).GetOr(0) != 0), MarkedDeleted(s), [st])
  }

  /** Only a saved, live record is deleted; it is marked deleted even when
      the storage deletes nothing, and a second delete then raises. */
  lemma DeleteSpecProperties(e: Env, storage: Storage, s: MapperState, ts: string)
    ensures var o := DeleteSpec(e, storage, s, ts);
            && (o.result.Ok? <==> !s.deleted && !s.isNew)
            && (o.result.Ok? ==> o.next.deleted && o.next == s.(deleted := true) && |o.written| == 1)
            && (o.result.Ok? ==> DeleteSpec(e, storage, o.next, ts).result.Err?)
            && (o.result.Err? ==> o.next == s && o.written == [])
            && (o.written != [] ==> (o.written[0].Update? <==> e.schema.supportsSoftDelete))
  {
  }

  // ---------------------------------------------------------------------
  // The manager

  class EntityManager {
    /** The database connection. */
    const conn: Connection
    /** What reflection knows about each class name. */
    const classes: map<string, ClassInfo>
    /** The date format of the connection's SQL compiler. */
    const compilerDateFormat: string
    /** The schemas of related classes, as relations see them. */
    const related: string -> SchemaView
    var dateFormat: Option<string>
    var entityMappers: map<string, EntityMapper>
    var callbacks: map<string, seq<BuilderStep>>

    /** Each memoised mapper was built for the class it is filed under. */
    ghost predicate Valid()
      reads this
    {
      forall cls :: cls in entityMappers ==> entityMappers[cls].entityClass == cls
    }

    constructor (conn: Connection, classes: map<string, ClassInfo>, compilerDateFormat: string,
                 related: string -> SchemaView, callbacks: map<string, seq<BuilderStep>>)
      ensures Valid()
      ensures this.conn == conn && this.classes == classes && this.compilerDateFormat == compilerDateFormat
      ensures this.related == related && this.callbacks == callbacks
      ensures dateFormat == None && entityMappers == map[]
    {
      this.conn := conn;
      this.classes := classes;
      this.compilerDateFormat := compilerDateFormat;
      this.related := related;
      this.callbacks := callbacks;
      dateFormat := None;
      entityMappers := map[];
    }

    /** The format `getDateFormat()` answers. */
    function DateFormat(): string
      reads this
    {
      dateFormat.GetOr(compilerDateFormat)
    }

    /** `getDateFormat()`: asked of the compiler once, then remembered. */
    method GetDateFormat() returns (f: string)
      modifies this`dateFormat
      ensures f == old(DateFormat()) && dateFormat == Some(f) && DateFormat() == f
    {
      if dateFormat.None? {
        dateFormat := Some(compilerDateFormat);
      }
      f := dateFormat.value;
    }

    /** The builder calls a new mapper for `cls` receives: a registered
      callback, else the class's own `mapEntity`, else none. */
    function MapperSteps(cls: string): seq<BuilderStep>
      requires cls in classes
      reads this
    {
      if cls in callbacks then callbacks[cls]
      else if classes[cls].mapEntity.Some? then classes[cls].mapEntity.value
      else []
    }

    /** `registerEntityMapper($class, $callback)` */
    method RegisterEntityMapper(cls: string, steps: seq<BuilderStep>)
      modifies this`callbacks
      ensures callbacks == old(callbacks)[cls := steps]
    {
      callbacks := callbacks[cls := steps];
    }

    /** `resolveEntityMapper($class)`: a memoised mapper is returned as is;
      an unknown class or one that is not an entity raises; otherwise a
      new mapper is configured and remembered. */
    method ResolveEntityMapper(cls: string) returns (r: Result<EntityMapper>)
      requires Valid()
      modifies this`entityMappers
      ensures Valid()
      ensures r.Ok? ==> r.value.entityClass == cls && cls in entityMappers && entityMappers[cls] == r.value
      ensures cls in old(entityMappers) ==> r == Ok(old(entityMappers)[cls]) && entityMappers == old(entityMappers)
      ensures cls !in old(entityMappers) && cls !in classes ==>
                r == Err(InvalidState("Reflection error for '" + cls + "'")) && entityMappers == old(entityMappers)
      ensures cls !in old(entityMappers) && cls in classes && !classes[cls].isEntity ==>
                r == Err(InvalidState("The '" + cls + "' must extend " + EntityBase)) && entityMappers == old(entityMappers)
      ensures cls !in old(entityMappers) && cls in classes && classes[cls].isEntity ==>
                r.Ok? && fresh(r.value) && entityMappers == old(entityMappers)[cls := r.value] &&
                r.value.Config() == Configure(InitialConfiguration(), MapperSteps(cls))
    {
      if cls in entityMappers {
        return Ok(entityMappers[cls]);
      }
      if cls !in classes {
        return Err(InvalidState("Reflection error for '" + cls + "'"));
      }
      if !classes[cls].isEntity {
        return Err(InvalidState("The '" + cls + "' must extend " + EntityBase));
      }
      var mapper := new EntityMapper(cls);
      mapper.Run(MapperSteps(cls));
      entityMappers := entityMappers[cls := mapper];
      r := Ok(mapper);
    }

    /** The environment the entities and queries of a mapper see. */
    function EnvOf(mapper: EntityMapper): Env
      reads mapper
    {
      Env(mapper.View(), conn.storage, related)
    }

    /** `query($class)` */
    method Query(cls: string) returns (r: Result<EntityQuery>)
      requires Valid()
      modifies this`entityMappers
      ensures Valid()
      ensures r.Ok? <==> cls in entityMappers
      ensures r.Ok? ==> fresh(r.value) && r.value.env == EnvOf(entityMappers[cls]) && r.value.conn == conn &&
                        r.value.query == NewQuery(EmptySql(), None)
    {
      var mapper := ResolveEntityMapper(cls);
      if mapper.Err? {
        return Err(mapper.error);
      }
      var q := new EntityQuery(EnvOf(mapper.value), conn);
      r := Ok(q);
    }

    /** `create($class, $columns)`: a new entity holding the columns, whose
      mapper is built on first use. */
    method Create(cls: string, columns: Arr<Value>) returns (r: Result<Entity>)
      requires Valid()
      modifies this`entityMappers
      ensures Valid()
      ensures r.Ok? <==> cls in entityMappers
      ensures r.Ok? ==> fresh(r.value) && r.value.Valid() && r.value.dataMapper == null &&
                        r.value.dataMapperArgs == Some(MapperArgs(EnvOf(entityMappers[cls]), columns, map[], false, true))
    {
      var mapper := ResolveEntityMapper(cls);
      if mapper.Err? {
        return Err(mapper.error);
      }
      var e := new Entity(MapperArgs(EnvOf(mapper.value), columns, map[], false, true));
      r := Ok(e);
    }

    /** `save($entity)`, with the entity's mapper given and `clock` giving
      the current time in a format. */
    method Save(data: DataMapper, clock: string -> string) returns (r: Result<bool>)
      modifies data, conn`log, this`dateFormat
      ensures DateFormat() == old(DateFormat())
      ensures var o := SaveSpec(data.env, conn.storage, old(data.State()), clock(old(DateFormat())));
              r == o.result && data.State() == o.next && conn.log == old(conn.log) + o.written
    {
      var ts := clock(DateFormat());
      if data.deleted {
        return Err(InvalidState("The record is deleted"));
      }
      var schema := data.env.schema;
      if data.isNew {
        var raw := data.rawColumns;
        var columns := raw;
        if schema.generator.Some? {
          var generated := schema.generator.value(raw);
          match generated
          case PkScalar(v) =>
            columns := columns[schema.primaryKey.FirstOwner() := v];
          case PkMap(m) =>
            columns := Overlay(columns, m);
        }
        if schema.supportsTimestamp {
          var f := GetDateFormat();
          columns := columns["created_at" := Str(clock(f))]["updated_at" := Null];
        }
        assert columns == InsertColumns(schema, raw, ts);
        var inserted := conn.Execute(Insert(schema.table, columns));
        if inserted.None? {
          return Ok(false);
        }
        var id := InsertedId(schema, conn.storage, raw);
        if id == Bool(false) {
          return Ok(false);
        }
        r := data.MarkAsSaved(id);
        return;
      }
      if !data.IsModified() {
        return Ok(true);
      }
      if data.modified != {} {
        var updatedAt := None;
        var cols := IndexKeyed(data.rawColumns, |data.modified|);
        if schema.supportsTimestamp {
          var f := GetDateFormat();
          updatedAt := Some(clock(f));
          cols := cols["updated_at" := Str(clock(f))];
        }
        assert cols == UpdateColumns(schema, data.rawColumns, |data.modified|, ts);
        var marked := data.MarkAsUpdated(updatedAt);
        if marked.Err? {
          return Err(marked.error);
        }
        var wheres := EqConditions("", GetValue(schema.primaryKey, data.rawColumns, true).m);
        var n := conn.Execute(Update(schema.table, wheres, cols));
        return Ok(n.Some? && n.value != 0);
      }
      var flushed := data.ExecutePendingLinkage();
      if flushed.Err? {
        return Err(flushed.error);
      }
      r := Ok(true);
    }

    /** `delete($entity)`, with the entity's mapper given. */
    method Delete(data: DataMapper, clock: string -> string) returns (r: Result<bool>)
      modifies data, conn`log, this`dateFormat
      ensures DateFormat() == old(DateFormat())
      ensures var o := DeleteSpec(data.env, conn.storage, old(data.State()), clock(old(DateFormat())));
              r == o.result && data.State() == o.next && conn.log == old(conn.log) + o.written
    {
      if data.deleted {
        return Err(InvalidState("The record was already deleted"));
      }
      if data.isNew {
        return Err(InvalidState("Can't delete an unsaved entity"));
      }
      ghost var s0 := data.State();
      var pk := GetValue(data.env.schema.primaryKey, data.rawColumns, true).m;
      var wheres := EqConditions("", pk);
      var _ := data.MarkAsDeleted();
      var q := new EntityQuery(data.env, conn);
      q.AddConditions(wheres);
      assert q.query.sql.wheres == [] + wheres == wheres;
      var f := GetDateFormat();
      var n := q.Delete(false, clock(f));
      assert data.State() == MarkedDeleted(s0);
      r := Ok(n != 0);
    }
  }

  /** `$columns[$col] = $val` for each entry of a generated key map. */
  method Overlay(columns: Row, m: Arr<Value>) returns (r: Row)
    ensures r == columns + m.vals
  {
    r := columns;
    var i := 0;
    while i < |m.keys|
      invariant 0 <= i <= |m.keys|
      invariant forall k :: k in r <==> k in columns || k in m.keys[..i]
      invariant forall k :: k in r ==> r[k] == if k in m.keys[..i] then m.vals[k] else columns[k]
    {
      r := r[m.keys[i] := m.vals[m.keys[i]]];
      i := i + 1;
    }
  }
}
