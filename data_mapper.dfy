/** Mapper: the per-instance state of an entity (`Core\DataMapper`). It
    holds the raw columns, the computed-value cache, the set of modified
    columns, the relation cache, the lazy loaders, the queue of pending
    links and the flags new, read-only, stale and deleted. Each operation is
    specified by a function from the old state to an `Outcome` (the result
    and the new state, kept on error as PHP keeps what was done before the
    exception); the class's methods are proved to follow them. */
module Mapper {
  import opened Values
  import opened Keys
  import opened Queries
  import opened RelationKinds
  import opened Schema
  import opened RelationPlans

  /** What a data mapper reads but never changes: its schema, the storage
      behind the entity manager, and the manager's schema resolution. */
  datatype Env = Env(schema: SchemaView, db: Storage, resolve: string -> SchemaView)

  /** A queued `link` / `unlink`: the relation, the entity, and which. */
  datatype PendingLink = PendingLink(relation: Relation, entity: object, link: bool)

  datatype MapperState = MapperState(
    raw: Row,
    cache: map<string, Value>,
    modified: set<string>,
    relations: map<string, Related>,
    loaders: map<string, LoaderSpec>,
    pending: seq<PendingLink>,
    isNew: bool,
    readOnly: bool,
    stale: bool,
    deleted: bool)

  /** The result of an operation and the state it leaves behind. */
  datatype Outcome<+T> = Outcome(result: Result<T>, next: MapperState)

  /** `wasModified()` */
  predicate WasModified(s: MapperState) {
    s.modified != {} || s.pending != []
  }

  // ---------------------------------------------------------------------
  // Casts

  predicate IsNullable(cast: string) {
    cast != [] && cast[0] == '?'
  }

  function BaseCast(cast: string): string {
    if IsNullable(cast) then cast[1..] else cast
  }

  function InvalidCast(cast: string): Error {
    CastError("Invalid cast type '" + cast + "'")
  }

  /** `castGet($value, $cast)`: the value a column reads as. */
  function CastGet(v: Value, cast: string): Result<Value> {
    if IsNullable(cast) && v == Null then Ok(Null)
    else
      var base := BaseCast(cast);
      if base == "int" || base == "integer" then Ok(ToIntValue(v))
      else if base == "float" then Ok(Converted("float", v))
      else if base == "bool" || base == "boolean" then Ok(ToBoolValue(v))
      else if base == "string" then Ok(ToStringValue(v))
      else if base == "date" then Ok(Converted("date", v))
      else if base == "json" || base == "json-assoc" then Ok(Converted(base, v))
      else Err(InvalidCast(cast))
  }

  /** What `$value->format(...)` raises in the `date` case of `castSet`
      when the value is not a `DateTime`. It is a PHP `Error`, so the
      source's `catch (\Exception)` blocks do not stop it. */
  const DateFormatOnNonDate: string := "Call to a member function format() on a value that is not a DateTime"

  /** A `DateTime`, in the model: what a `date` cast reads a column as. */
  predicate IsDateTime(v: Value) {
    v.Converted? && v.kind == "date"
  }

  /** `castSet($value, $cast)`: the value a column is stored as. A boolean
      is stored as `(int)`; a `date` column stores only a `DateTime`. */
  function CastSet(v: Value, cast: string): Result<Value> {
    if IsNullable(cast) && v == Null then Ok(Null)
    else
      var base := BaseCast(cast);
      if base == "int" || base == "integer" then Ok(ToIntValue(v))
      else if base == "float" then Ok(Converted("float", v))
      else if base == "bool" || base == "boolean" then Ok(ToIntValue(v))
      else if base == "string" then Ok(ToStringValue(v))
      else if base == "date" then
        (if IsDateTime(v) then Ok(Converted("date-text", v)) else Err(LanguageError(DateFormatOnNonDate)))
      else if base == "json" || base == "json-assoc" then Ok(Converted("json-text", v))
      else Err(InvalidCast(cast))
  }

  // ---------------------------------------------------------------------
  // Hydration

  /** The SELECT that re-reads the row: the schema's table, one equality per
      primary-key column. */
  function HydrateQuery(schema: SchemaView, raw: Row): Sql {
    Sql([schema.table], [], EqConditions("", GetValue(schema.primaryKey, raw, true).m), [])
  }

  /** `hydrate()`: a stale mapper re-reads its row; with no row it becomes
      deleted (and stays stale). */
  function Hydrated(e: Env, s: MapperState): MapperState {
    if !s.stale then s
    else match FirstRow(e.db, HydrateQuery(e.schema, s.raw))
      case None => s.(deleted := true)
      case Some(row) => s.(raw := row, cache := map[], relations := map[], loaders := map[], stale := false)
  }

  // ---------------------------------------------------------------------
  // Columns

  const RecordDeleted: string := "The record was deleted"
  const RecordReadOnly: string := "The record is readonly"

  /** The value a raw column reads as once its cast has run: the getter
      applies, except to the column named like the primary key's string
      form. */
  function Computed(schema: SchemaView, name: string, casted: Value): Value {
    if name != ToString(schema.primaryKey) && name in schema.getters then schema.getters[name](casted) else casted
  }

  /** `getColumn($name)` */
  function ReadColumn(e: Env, s: MapperState, name: string): Outcome<Value> {
    var s1 := Hydrated(e, s);
    if s1.deleted then Outcome(Err(InvalidState(RecordDeleted)), s1)
    else if name in s1.cache then Outcome(Ok(s1.cache[name]), s1)
    else if name !in s1.raw then Outcome(Err(NotFound("Unknown column '" + name + "'")), s1)
    else match Decoded(e.schema, name, s1.raw[name])
      case Err(err) => Outcome(Err(err), s1)
      case Ok(w) => Outcome(Ok(w), s1.(cache := s1.cache[name := w]))
  }

  /** What a raw value reads as: its cast, then its getter. */
  function Decoded(schema: SchemaView, name: string, raw: Value): Result<Value> {
    var casted := if name in schema.casts then CastGet(raw, schema.casts[name]) else Ok(raw);
    match casted
    case Err(err) => Err(err)
    case Ok(v) => Ok(Computed(schema, name, v))
  }

  /** The value `setColumn` stores: the setter, then the cast. */
  function Stored(schema: SchemaView, name: string, v: Value): Result<Value> {
    var v1 := if name in schema.setters then schema.setters[name](v) else v;
    if name in schema.casts then CastSet(v1, schema.casts[name]) else Ok(v1)
  }

  /** Writing a stored value: the column is modified, its cached value
      dropped, its raw value replaced. */
  function Written(s: MapperState, name: string, v: Value): MapperState {
    s.(modified := s.modified + {name}, cache := s.cache - {name}, raw := s.raw[name := v])
  }

  /** `setColumn($name, $value)`: refused on a read-only, then on a deleted
      record; a stale record is hydrated first (and written even when the
      hydration finds it deleted). */
  function WriteColumn(e: Env, s: MapperState, name: string, v: Value): Outcome<()> {
    if s.readOnly then Outcome(Err(InvalidState(RecordReadOnly)), s)
    else if s.deleted then Outcome(Err(InvalidState(RecordDeleted)), s)
    else
      var s1 := Hydrated(e, s);
      match Stored(e.schema, name, v)
      case Err(err) => Outcome(Err(err), s1)
      case Ok(w) => Outcome(Ok(()), Written(s1, name, w))
  }

  /** `clearColumn($name)` */
  function ColumnCleared(s: MapperState, name: string): MapperState {
    s.(cache := s.cache - {name})
  }

  /** `setRawColumn($name, $value)`: no check and no conversion. */
  function RawColumnWritten(s: MapperState, name: string, v: Value): MapperState {
    Written(s, name, v)
  }

  /** The entries `assign` keeps, in order: those on the allow-list when
      there is one, else those not on the guarded list when there is one,
      else all. */
  function AssignedKeys(schema: SchemaView, columns: Arr<Value>): (names: seq<string>)
    ensures forall k :: k in names ==> k in columns.keys
  {
    if schema.assignable.Some? then FilterNames(columns.keys, schema.assignable.value, true)
    else if schema.guarded.Some? then FilterNames(columns.keys, schema.guarded.value, false)
    else columns.keys
  }

  /** The names of `names` that are (`keep`) or are not (`!keep`) in `list`. */
  function FilterNames(names: seq<string>, list: seq<string>, keep: bool): (r: seq<string>)
    ensures forall k :: k in r <==> k in names && ((k in list) == keep)
    decreases |names|
  {
    if names == [] then []
    else (if (names[0] in list) == keep then [names[0]] else []) + FilterNames(names[1..], list, keep)
  }

  /** `setColumn` on each name in turn, stopping at the first exception. */
  function SetColumns(e: Env, s: MapperState, names: seq<string>, values: map<string, Value>): Outcome<()>
    requires forall k :: k in names ==> k in values
    decreases |names|
  {
    if names == [] then Outcome(Ok(()), s)
    else
      var o := WriteColumn(e, s, names[0], values[names[0]]);
      if o.result.Err? then o else SetColumns(e, o.next, names[1..], values)
  }

  /** `assign($columns)` */
  function AssignColumns(e: Env, s: MapperState, columns: Arr<Value>): Outcome<()> {
    SetColumns(e, s, AssignedKeys(e.schema, columns), columns.vals)
  }

  /** `new DataMapper(...)`: a new record with columns assigns them to empty
      raw columns; any other record keeps them as given. */
  function Construct(e: Env, columns: Arr<Value>, loaders: map<string, LoaderSpec>, readOnly: bool, isNew: bool): Outcome<()> {
    var s := MapperState(columns.vals, map[], {}, map[], loaders, [], isNew, readOnly, false, false);
    if isNew && columns.keys != [] then AssignColumns(e, s.(raw := map[]), columns)
    else Outcome(Ok(()), s)
  }

  // ---------------------------------------------------------------------
  // Relations

  /** The text after the first ':' of a relation name, or the whole name. */
  function LookupName(name: string): (r: string)
    ensures |r| <= |name|
    decreases |name|
  {
    if ':' !in name then name
    else if name[0] == ':' then name[1..]
    else LookupName(name[1..])
  }

  const UndefinedLoader: string := "Call to a member function getResult() on null"

  /** `getRelated($name, $callback)` */
  function ReadRelated(e: Env, s: MapperState, name: string, callback: Option<QueryCallback>): Outcome<Related> {
    if name in s.relations then Outcome(Ok(s.relations[name]), s)
    else
      var lookup := LookupName(name);
      if lookup !in e.schema.relations then Outcome(Err(NotFound("Unknown relation '" + lookup + "'")), s)
      else
        var s1 := Hydrated(e, s);
        if name in s1.loaders then
          if lookup !in s1.loaders then Outcome(Err(LanguageError(UndefinedLoader)), s1)
          else
            var r := e.db.loaded(s1.loaders[lookup], s1.raw);
            Outcome(Ok(r), s1.(relations := s1.relations[name := r]))
        else
          var rel := e.schema.relations[lookup];
          match RelationResult(e.db, rel, e.schema, e.resolve(rel.entityClass), s1.raw, callback)
          case Err(err) => Outcome(Err(err), s1)
          case Ok(r) => Outcome(Ok(r), s1.(relations := s1.relations[name := r]))
  }

  /** `clearRelated($name, $loaders)` */
  function RelatedCleared(s: MapperState, name: string, clearLoaders: bool): MapperState {
    s.(relations := s.relations - {name},
       loaders := if clearLoaders then s.loaders - {LookupName(name)} else s.loaders)
  }

  /** `link` / `unlink`: only a `ShareOneOrMany` relation accepts them, and
      the request is only queued. */
  function LinkOrUnlink(e: Env, s: MapperState, relation: string, entity: object, link: bool): Outcome<()> {
    if relation !in e.schema.relations then Outcome(Err(NotFound("Unknown relation '" + relation + "'")), s)
    else if !e.schema.relations[relation].shape.ShareOneOrMany? then Outcome(Err(InvalidState("Unsupported relation type")), s)
    else Outcome(Ok(()), s.(pending := s.pending + [PendingLink(e.schema.relations[relation], entity, link)]))
  }

  // ---------------------------------------------------------------------
  // Life cycle

  /** `executePendingLinkage()`: every queued entry names a
      `ShareOneOrMany`, which has no `link` or `unlink` method, so the first
      entry raises and the queue stays as it was. */
  function PendingLinkage(s: MapperState): Outcome<()> {
    if s.pending == [] then Outcome(Ok(()), s)
    else
      var operation := if s.pending[0].link then "link" else "unlink";
      Outcome(Err(LanguageError("Call to undefined method ShareOneOrMany::" + operation + "()")), s)
  }

  /** The raw columns with the saved id written into the primary key: the
      one column of a simple key; for a composite key, `$id[$column]` per
      column, which reads null from a scalar and raises on a string. */
  function SavedColumns(pk: ForeignKey, raw: Row, id: Value): Result<Row> {
    if !pk.composite then Ok(raw[pk.FirstOwner() := id])
    else if id.Str? then Err(LanguageError("Cannot access offset of type string on string"))
    else Ok(NullColumns(raw, pk.Owners()))
  }

  /** `raw` with each of `names` set to null. */
  function NullColumns(raw: Row, names: seq<string>): Row
    decreases |names|
  {
    if names == [] then raw else NullColumns(raw, names[..|names| - 1])[names[|names| - 1] := Null]
  }

  /** The named columns read null, every other column keeps its value. */
  lemma {:induction false} NullColumnsSpec(raw: Row, names: seq<string>)
    ensures NullColumns(raw, names).Keys == raw.Keys + set k | k in names
    ensures forall k :: k in NullColumns(raw, names) ==> NullColumns(raw, names)[k] == if k in names then Null else raw[k]
    decreases |names|
  {
    if names != [] {
      var init := names[..|names| - 1];
      NullColumnsSpec(raw, init);
      assert names == init + [names[|names| - 1]];
    }
  }

  /** After the queue is flushed, the mapper operations return true. */
  function Flushed(s: MapperState): Outcome<bool> {
    var o := PendingLinkage(s);
    Outcome(if o.result.Err? then Err(o.result.error) else Ok(true), o.next)
  }

  /** `$this->rawColumns[$column] = $id[$column]` for each key column, on
      a scalar id. */
  method NullingColumns(raw: Row, names: seq<string>) returns (r: Row)
    ensures r == NullColumns(raw, names)
  {
    r := raw;
    var i := 0;
    while i < |names|
      invariant 0 <= i <= |names|
      invariant r == NullColumns(raw, names[..i])
    {
      assert names[..i + 1][..i] == names[..i];
      r := r[names[i] := Null];
      i := i + 1;
    }
    assert names[..i] == names;
  }

  /** Flushing changes nothing, and succeeds exactly when nothing is
      queued. */
  lemma FlushedSpec(s: MapperState)
    ensures Flushed(s).next == s
    ensures Flushed(s).result.Ok? <==> s.pending == []
  {
  }

  /** `markAsSaved($id)` */
  function Saved(e: Env, s: MapperState, id: Value): Outcome<bool> {
    match SavedColumns(e.schema.primaryKey, s.raw, id)
    case Err(err) => Outcome(Err(err), s)
    case Ok(raw) => Flushed(s.(raw := raw, stale := true, isNew := false, modified := {}))
  }

  /** `markAsUpdated($updatedAt)`: the configured updated column receives
      the time when one is given. */
  function Updated(e: Env, s: MapperState, updatedAt: Option<string>): Outcome<bool> {
    var col := e.schema.timestampColumns.1;
    var s1 := if updatedAt.Some? then s.(cache := s.cache - {col}, raw := s.raw[col := Str(updatedAt.value)]) else s;
    Flushed(s1.(modified := {}))
  }

  /** `markAsDeleted()` */
  function MarkedDeleted(s: MapperState): MapperState {
    s.(deleted := true)
  }

  // ---------------------------------------------------------------------
  // Properties

  /** `assign` keeps a column exactly when the allow-list has it, or, with
      no allow-list, when the guarded list does not; without either list
      it keeps every column. */
  lemma AssignedKeysSpec(schema: SchemaView, columns: Arr<Value>)
    ensures forall k :: k in AssignedKeys(schema, columns) <==>
              && k in columns.keys
              && (schema.assignable.Some? ==> k in schema.assignable.value)
              && (schema.assignable.None? && schema.guarded.Some? ==> k !in schema.guarded.value)
  {
  }

  /** Writing columns one by one into a live record: it fails exactly when
      some value cannot be stored; when it succeeds, exactly the written
      columns are added to the modified set, each holds its stored value,
      has no cached value, and every other column is unchanged. */
  lemma {:induction false} SetColumnsEffect(e: Env, s: MapperState, names: seq<string>, values: map<string, Value>)
    requires forall k :: k in names ==> k in values
    requires !s.readOnly && !s.deleted && !s.stale
    ensures var o := SetColumns(e, s, names, values);
            && (o.result.Ok? <==> forall k :: k in names ==> Stored(e.schema, k, values[k]).Ok?)
            && (o.result.Ok? ==>
                 && o.next.modified == s.modified + (set k | k in names)
                 && o.next.raw.Keys == s.raw.Keys + (set k | k in names)
                 && (forall k :: k in names ==> k !in o.next.cache && o.next.raw[k] == Stored(e.schema, k, values[k]).value)
                 && (forall k :: k in s.raw && k !in names ==> o.next.raw[k] == s.raw[k])
                 && (forall k :: k in o.next.cache ==> k in s.cache && o.next.cache[k] == s.cache[k])
                 && o.next.isNew == s.isNew && o.next.pending == s.pending && o.next.relations == s.relations
                 && !o.next.stale && !o.next.deleted && !o.next.readOnly)
  {
    SetColumnsOk(e, s, names, values);
    if SetColumns(e, s, names, values).result.Ok? {
      SetColumnsState(e, s, names, values);
    }
  }

  lemma {:induction false} SetColumnsOk(e: Env, s: MapperState, names: seq<string>, values: map<string, Value>)
    requires forall k :: k in names ==> k in values
    requires !s.readOnly && !s.deleted && !s.stale
    ensures SetColumns(e, s, names, values).result.Ok? <==> forall k :: k in names ==> Stored(e.schema, k, values[k]).Ok?
    decreases |names|
  {
    if names != [] {
      var first := WriteColumn(e, s, names[0], values[names[0]]);
      if first.result.Ok? {
        assert first.next == Written(s, names[0], Stored(e.schema, names[0], values[names[0]]).value);
        SetColumnsOk(e, first.next, names[1..], values);
        assert forall k :: k in names <==> k == names[0] || k in names[1..];
      }
    }
  }

  lemma {:induction false} SetColumnsState(e: Env, s: MapperState, names: seq<string>, values: map<string, Value>)
    requires forall k :: k in names ==> k in values
    requires !s.readOnly && !s.deleted && !s.stale
    requires forall k :: k in names ==> Stored(e.schema, k, values[k]).Ok?
    ensures var o := SetColumns(e, s, names, values);
            && o.next.modified == s.modified + (set k | k in names)
            && o.next.raw.Keys == s.raw.Keys + (set k | k in names)
            && (forall k :: k in names ==> k !in o.next.cache && o.next.raw[k] == Stored(e.schema, k, values[k]).value)
            && (forall k :: k in s.raw && k !in names ==> o.next.raw[k] == s.raw[k])
            && (forall k :: k in o.next.cache ==> k in s.cache && o.next.cache[k] == s.cache[k])
            && o.next.isNew == s.isNew && o.next.pending == s.pending && o.next.relations == s.relations
            && !o.next.stale && !o.next.deleted && !o.next.readOnly
    decreases |names|
  {
    if names != [] {
      var first := WriteColumn(e, s, names[0], values[names[0]]);
      assert first.next == Written(s, names[0], Stored(e.schema, names[0], values[names[0]]).value);
      SetColumnsState(e, first.next, names[1..], values);
      assert forall k :: k in names <==> k == names[0] || k in names[1..];
    }
  }

  /** A record that is not new, or has no columns, keeps the columns it was
      given verbatim and starts unmodified. */
  lemma ConstructLoaded(e: Env, columns: Arr<Value>, loaders: map<string, LoaderSpec>, readOnly: bool, isNew: bool)
    requires !isNew || columns.keys == []
    ensures Construct(e, columns, loaders, readOnly, isNew).result.Ok?
    ensures var s := Construct(e, columns, loaders, readOnly, isNew).next;
            s.raw == columns.vals && s.modified == {} && !WasModified(s) && s.loaders == loaders
  {
  }

  /** A new record with columns starts from no raw columns and assigns
      them: it is built exactly when every surviving column can be stored,
      and then its raw columns and its modified set are exactly the
      surviving columns. */
  lemma ConstructNew(e: Env, columns: Arr<Value>, loaders: map<string, LoaderSpec>)
    requires columns.keys != []
    ensures var names := AssignedKeys(e.schema, columns);
            var o := Construct(e, columns, loaders, false, true);
            && (o.result.Ok? <==> forall k :: k in names ==> Stored(e.schema, k, columns.vals[k]).Ok?)
            && (o.result.Ok? ==>
                 && o.next.modified == (set k | k in names)
                 && o.next.raw.Keys == (set k | k in names)
                 && (forall k :: k in names ==> o.next.raw[k] == Stored(e.schema, k, columns.vals[k]).value)
                 && o.next.isNew)
  {
    var s := MapperState(map[], map[], {}, map[], loaders, [], true, false, false, false);
    SetColumnsEffect(e, s, AssignedKeys(e.schema, columns), columns.vals);
  }

  /** A new read-only record cannot be given columns. */
  lemma ConstructNewReadOnly(e: Env, columns: Arr<Value>, loaders: map<string, LoaderSpec>)
    requires AssignedKeys(e.schema, columns) != []
    ensures Construct(e, columns, loaders, true, true).result == Err(InvalidState(RecordReadOnly))
  {
  }

  /** `hydrate` settles after one call: calling it again changes nothing. */
  lemma HydratedIdempotent(e: Env, s: MapperState)
    ensures Hydrated(e, Hydrated(e, s)) == Hydrated(e, s)
    ensures s.stale && FirstRow(e.db, HydrateQuery(e.schema, s.raw)).None? ==> Hydrated(e, s).deleted
    ensures !Hydrated(e, s).deleted ==> !Hydrated(e, s).stale
  {
    if s.stale {
      var s1 := Hydrated(e, s);
      if FirstRow(e.db, HydrateQuery(e.schema, s.raw)).None? {
        assert s1.raw == s.raw && s1.stale;
      }
    }
  }

  /** A successful `getColumn` is memoised: reading the column again gives
      the same value and changes nothing. */
  lemma ReadColumnMemoised(e: Env, s: MapperState, name: string)
    requires ReadColumn(e, s, name).result.Ok?
    ensures var o := ReadColumn(e, s, name);
            ReadColumn(e, o.next, name) == o && name in o.next.cache
  {
    HydratedIdempotent(e, s);
  }

  /** Reading a column never changes what a later read of any column
      returns: hydration settles after one call and the cache only ever
      holds what a read computes. */
  lemma ReadColumnKeepsReads(e: Env, s: MapperState, name: string)
    ensures forall other :: ReadColumn(e, ReadColumn(e, s, name).next, other).result == ReadColumn(e, s, other).result
  {
    HydratedIdempotent(e, s);
    var s1 := Hydrated(e, s);
    var next := ReadColumn(e, s, name).next;
    forall other
      ensures ReadColumn(e, next, other).result == ReadColumn(e, s, other).result
    {
      if !s1.deleted && name !in s1.cache && name in s1.raw && Decoded(e.schema, name, s1.raw[name]).Ok? {
        assert Hydrated(e, next) == next;
      }
    }
  }

  /** The checks of `getColumn`, in order: a deleted record (after
      hydration) is refused whatever the cache holds, then the cache
      answers, then an unknown column is refused. */
  lemma ReadColumnChecks(e: Env, s: MapperState, name: string)
    ensures Hydrated(e, s).deleted ==> ReadColumn(e, s, name) == Outcome(Err(InvalidState(RecordDeleted)), Hydrated(e, s))
    ensures !Hydrated(e, s).deleted && name in Hydrated(e, s).cache ==>
              ReadColumn(e, s, name) == Outcome(Ok(Hydrated(e, s).cache[name]), Hydrated(e, s))
    ensures !Hydrated(e, s).deleted && name !in Hydrated(e, s).cache && name !in Hydrated(e, s).raw ==>
              ReadColumn(e, s, name).result.Err? && ReadColumn(e, s, name).next == Hydrated(e, s)
  {
  }

  /** The getter never applies to the column named like the primary key's
      string form `implode(', ', $columns)`. For a single-column key that is
      the key's column, which therefore skips its getter; for a composite
      key it is longer than any of its columns, so each of them still goes
      through its getter. */
  lemma PrimaryKeyGetter(schema: SchemaView, c: string, v: Value)
    ensures |schema.primaryKey.columns.keys| == 1 ==>
              Computed(schema, schema.primaryKey.Targets()[0], v) == v
    ensures |schema.primaryKey.columns.keys| > 1 && c in schema.primaryKey.Targets() && c in schema.getters ==>
              Computed(schema, c, v) == schema.getters[c](v)
  {
    JoinLonger(schema.primaryKey.Targets(), ", ");
  }

  /** Example: with the key (a, b) the string form is "a, b", so `a` keeps
      its getter; with the key (a) it does not (the general rule is
      `PrimaryKeyGetter`). */
  lemma PrimaryKeyGetterExample(schema: SchemaView, getter: ValueHook, v: Value)
    requires schema.primaryKey == PrimaryKey(["a", "b"]) && schema.getters == map["a" := getter]
    ensures ToString(schema.primaryKey) == "a, b"
    ensures Computed(schema, "a", v) == getter(v)
    ensures Computed(schema.(primaryKey := PrimaryKey(["a"])), "a", v) == v
  {
    KeyNames();
    assert |"a"| != |"a, b"|;
  }

  /** The string forms of the two keys above. */
  lemma KeyNames()
    ensures ToString(PrimaryKey(["a", "b"])) == "a, b"
    ensures ToString(PrimaryKey(["a"])) == "a"
  {
    PrimaryKeyTargets(["a", "b"]);
    PrimaryKeyTargets(["a"]);
    assert ["a", "b"][1..] == ["b"];
    assert Values.Join(["a", "b"], ", ") == "a" + ", " + Values.Join(["b"], ", ");
  }

  /** `setColumn` refuses a read-only record before looking at anything
      else, then a deleted one; `setRawColumn` writes into either. */
  lemma WriteColumnGuards(e: Env, s: MapperState, name: string, v: Value)
    ensures s.readOnly ==> WriteColumn(e, s, name, v) == Outcome(Err(InvalidState(RecordReadOnly)), s)
    ensures !s.readOnly && s.deleted ==> WriteColumn(e, s, name, v) == Outcome(Err(InvalidState(RecordDeleted)), s)
    ensures RawColumnWritten(s, name, v).raw[name] == v && name in RawColumnWritten(s, name, v).modified
    ensures RawColumnWritten(s, name, v).readOnly == s.readOnly && RawColumnWritten(s, name, v).deleted == s.deleted
  {
  }

  /** A successful `setColumn` on a live record changes exactly one column:
      it is modified, uncached, and holds the setter's result after the
      cast; every other column, cached value and flag is unchanged. */
  lemma WriteColumnEffect(e: Env, s: MapperState, name: string, v: Value)
    requires !s.readOnly && !s.deleted && !s.stale
    ensures WriteColumn(e, s, name, v).result.Ok? <==> Stored(e.schema, name, v).Ok?
    ensures var o := WriteColumn(e, s, name, v);
            o.result.Ok? ==>
              && o.next.raw == s.raw[name := Stored(e.schema, name, v).value]
              && o.next.modified == s.modified + {name}
              && name !in o.next.cache
              && (forall k :: k in s.cache && k != name ==> k in o.next.cache && o.next.cache[k] == s.cache[k])
              && o.next.pending == s.pending && o.next.isNew == s.isNew && !o.next.stale && !o.next.deleted
  {
  }

  /** Round trip: right after `setColumn($name, $v)` succeeds on a live
      record, `getColumn($name)` reads the stored value through its cast
      and getter. */
  lemma WriteThenRead(e: Env, s: MapperState, name: string, v: Value)
    requires !s.readOnly && !s.deleted && !s.stale
    requires WriteColumn(e, s, name, v).result.Ok?
    ensures ReadColumn(e, WriteColumn(e, s, name, v).next, name).result ==
              Decoded(e.schema, name, Stored(e.schema, name, v).value)
  {
  }

  /** With an `int` cast and no setter or getter, writing "5" reads back 5. */
  lemma IntColumnRoundTrip(e: Env, s: MapperState, name: string)
    requires e.schema.casts == map[name := "int"] && name !in e.schema.setters && name !in e.schema.getters
    requires !s.readOnly && !s.deleted && !s.stale
    ensures WriteColumn(e, s, name, Str("5")).result.Ok?
    ensures ReadColumn(e, WriteColumn(e, s, name, Str("5")).next, name).result == Ok(Int(5))
  {
    IntStringRoundTrip(5);
    assert IntToString(5) == "5" && IsPhpInt(5);
    assert CastSet(Str("5"), "int") == Ok(Int(5));
    WriteThenRead(e, s, name, Str("5"));
  }

  /** A value that `castSet` accepts is read back by `castGet` of the same
      cast as follows: `int` and `string` give the stored value back, and
      `bool` gives back the boolean that was stored as 0 or 1. */
  lemma CastRoundTrip(v: Value)
    requires !v.Converted?
    ensures forall c :: c in ["int", "integer", "?int", "?integer"] ==> CastGet(CastSet(v, c).value, c) == CastSet(v, c)
    ensures forall c :: c in ["string", "?string"] ==> CastGet(CastSet(v, c).value, c) == CastSet(v, c)
  {
  }

  /** A boolean is stored as 0 or 1 and read back as itself. */
  lemma BoolCastRoundTrip(b: bool)
    ensures forall c :: c in ["bool", "boolean", "?bool", "?boolean"] ==>
              CastSet(Bool(b), c) == Ok(Int(if b then 1 else 0)) && CastGet(CastSet(Bool(b), c).value, c) == Ok(Bool(b))
  {
  }

  /** The nullable casts pass null through both ways. */
  lemma NullableCasts()
    ensures forall c :: c in ["?int", "?string", "?bool", "?date", "?json"] ==> CastGet(Null, c) == Ok(Null) && CastSet(Null, c) == Ok(Null)
  {
  }

  /** A `bool` column stores `(int)$value`, which is 0 for a non-numeric
      string, while `(bool)` of that string is true: such a value reads back
      false. */
  lemma BoolCastOfText()
    ensures ToBoolValue(Str("yes")) == Bool(true)
    ensures CastSet(Str("yes"), "bool") == Ok(Int(0))
    ensures CastGet(CastSet(Str("yes"), "bool").value, "bool") == Ok(Bool(false))
  {
    assert SkipSpace("yes") == "yes";
    assert LeadingDigits("yes") == "";
  }

  /** A `date` column stores a `DateTime` as text and raises on anything
      else, null included unless the cast is nullable; reading the stored
      text back gives a `DateTime` again. */
  lemma DateCastSet(v: Value, c: string)
    requires BaseCast(c) == "date" && !(IsNullable(c) && v == Null)
    ensures CastSet(v, c).Ok? <==> IsDateTime(v)
    ensures !IsDateTime(v) ==> CastSet(v, c) == Err(LanguageError(DateFormatOnNonDate))
    ensures IsDateTime(v) ==> CastGet(CastSet(v, c).value, c).Ok? && IsDateTime(CastGet(CastSet(v, c).value, c).value)
  {
  }

  /** `setColumn` of a string on a live `date` column without a setter
      raises and leaves the record as it was. */
  lemma DateColumnRefusesText(e: Env, s: MapperState, name: string, text: string)
    requires e.schema.casts == map[name := "date"] && name !in e.schema.setters
    requires !s.readOnly && !s.deleted && !s.stale
    ensures WriteColumn(e, s, name, Str(text)) == Outcome(Err(LanguageError(DateFormatOnNonDate)), s)
  {
  }

  /** An unknown cast is refused both ways, naming the cast. */
  lemma UnknownCast(v: Value, c: string)
    requires !(IsNullable(c) && v == Null)
    requires BaseCast(c) !in ["int", "integer", "float", "bool", "boolean", "string", "date", "json", "json-assoc"]
    ensures CastGet(v, c) == Err(InvalidCast(c)) && CastSet(v, c) == Err(InvalidCast(c))
  {
  }

  /** `strpos`/`substr`: a relation name containing ':' is looked up by
      what follows its first ':'. */
  lemma {:induction false} LookupNameSpec(name: string)
    ensures ':' !in name ==> LookupName(name) == name
    ensures ':' in name ==> exists p :: ':' !in p && name == p + ":" + LookupName(name)
    decreases |name|
  {
    if ':' in name {
      if name[0] == ':' {
        assert name == [] + ":" + name[1..];
      } else {
        LookupNameSpec(name[1..]);
        var p :| ':' !in p && name[1..] == p + ":" + LookupName(name[1..]);
        assert name == [name[0]] + p + ":" + LookupName(name);
        assert ':' !in [name[0]] + p;
      }
    }
  }

  /** `getRelated`: a cached name answers before the relation name is
      checked; an unknown relation is refused without hydrating; a
      successful result is memoised under the full name, so asking again
      returns it unchanged. */
  lemma ReadRelatedSpec(e: Env, s: MapperState, name: string, callback: Option<QueryCallback>, later: Option<QueryCallback>)
    ensures name in s.relations ==> ReadRelated(e, s, name, callback) == Outcome(Ok(s.relations[name]), s)
    ensures name !in s.relations && LookupName(name) !in e.schema.relations ==>
              ReadRelated(e, s, name, callback).result.Err? && ReadRelated(e, s, name, callback).next == s
    ensures var o := ReadRelated(e, s, name, callback);
            o.result.Ok? ==> name in o.next.relations && o.next.relations[name] == o.result.value &&
                             ReadRelated(e, o.next, name, later) == o
  {
    var o := ReadRelated(e, s, name, callback);
    ReadRelatedStores(e, s, name, callback);
    if o.result.Ok? {
      assert ReadRelated(e, o.next, name, later) == Outcome(Ok(o.next.relations[name]), o.next);
    }
  }

  /** A successful `getRelated` stores its result under the full name. */
  lemma ReadRelatedStores(e: Env, s: MapperState, name: string, callback: Option<QueryCallback>)
    ensures var o := ReadRelated(e, s, name, callback);
            o.result.Ok? ==> name in o.next.relations && o.next.relations[name] == o.result.value
  {
    var lookup := LookupName(name);
    if name !in s.relations && lookup in e.schema.relations {
      var s1 := Hydrated(e, s);
      if name in s1.loaders && lookup in s1.loaders {
        var r := e.db.loaded(s1.loaders[lookup], s1.raw);
        assert ReadRelated(e, s, name, callback) == Outcome(Ok(r), s1.(relations := s1.relations[name := r]));
      } else if name !in s1.loaders {
        var rel := e.schema.relations[lookup];
        var rr := RelationResult(e.db, rel, e.schema, e.resolve(rel.entityClass), s1.raw, callback);
        if rr.Ok? {
          assert ReadRelated(e, s, name, callback) == Outcome(Ok(rr.value), s1.(relations := s1.relations[name := rr.value]));
        }
      }
    }
  }

  /** `getRelated` checks the loader under the full name but reads it under
      the name after ':': a loader stored only under "author:user" fails. */
  lemma PrefixedLoaderFails(e: Env, s: MapperState, loader: LoaderSpec)
    requires !s.stale && "author:user" !in s.relations && "user" in e.schema.relations
    requires s.loaders == map["author:user" := loader]
    ensures ReadRelated(e, s, "author:user", None) == Outcome(Err(LanguageError(UndefinedLoader)), s)
  {
    assert "author:user" == "author" + ":" + "user";
    LookupNameAfterColon("author", "user");
  }

  /** The name looked up is what follows the first ':'. */
  lemma {:induction false} LookupNameAfterColon(p: string, q: string)
    requires ':' !in p
    ensures LookupName(p + ":" + q) == q
    decreases |p|
  {
    if p == [] {
      assert (p + ":" + q)[1..] == q;
    } else {
      assert (p + ":" + q)[1..] == p[1..] + ":" + q;
      LookupNameAfterColon(p[1..], q);
    }
  }

  /** `link` / `unlink` queue exactly one entry for a `ShareOneOrMany`
      relation and change nothing else; any other relation, or an unknown
      one, is refused with the state unchanged. */
  lemma LinkSpec(e: Env, s: MapperState, relation: string, entity: object, link: bool)
    ensures var o := LinkOrUnlink(e, s, relation, entity, link);
            && (o.result.Ok? <==> relation in e.schema.relations && e.schema.relations[relation].shape.ShareOneOrMany?)
            && (o.result.Err? ==> o.next == s)
            && (o.result.Ok? ==> o.next == s.(pending := s.pending + [PendingLink(e.schema.relations[relation], entity, link)]))
            && (o.result.Ok? ==> WasModified(o.next))
  {
  }

  /** `markAsSaved($id)` on a simple key writes the id into the key column,
      makes the record stale and no longer new, and clears the modified
      set; it returns true exactly when no link is pending, and then the
      record is unmodified. */
  lemma SavedSimpleKey(e: Env, s: MapperState, id: Value)
    requires !e.schema.primaryKey.composite
    ensures var o := Saved(e, s, id);
            && o.next.raw == s.raw[e.schema.primaryKey.FirstOwner() := id]
            && o.next.stale && !o.next.isNew && o.next.modified == {}
            && (o.result == Ok(true) <==> s.pending == [])
            && (o.result.Err? ==> o.next.pending == s.pending)
            && (o.result.Ok? ==> !WasModified(o.next))
  {
  }

  /** On a composite key `markAsSaved` indexes the id per column: a string
      id raises before anything changes, any other scalar id writes null
      into every key column. */
  lemma SavedCompositeKey(e: Env, s: MapperState, id: Value)
    requires e.schema.primaryKey.composite
    ensures id.Str? ==> Saved(e, s, id).result.Err? && Saved(e, s, id).next == s
    ensures !id.Str? ==>
              var next := Saved(e, s, id).next;
              && (forall k :: k in e.schema.primaryKey.Owners() ==> k in next.raw && next.raw[k] == Null)
              && (forall k :: k in s.raw && k !in e.schema.primaryKey.Owners() ==> k in next.raw && next.raw[k] == s.raw[k])
              && next.stale && !next.isNew
  {
    if !id.Str? {
      assert Saved(e, s, id).next.raw == NullColumns(s.raw, e.schema.primaryKey.Owners());
      NullColumnsSpec(s.raw, e.schema.primaryKey.Owners());
    }
  }

  /** `markAsUpdated($t)` writes `$t` into the configured updated column
      (dropping its cached value) only when `$t` is given, clears the
      modified set, and returns true exactly when no link is pending. */
  lemma UpdatedSpec(e: Env, s: MapperState, updatedAt: Option<string>)
    ensures var o := Updated(e, s, updatedAt);
            var col := e.schema.timestampColumns.1;
            && o.next.modified == {}
            && (updatedAt.Some? ==> o.next.raw == s.raw[col := Str(updatedAt.value)] && col !in o.next.cache)
            && (updatedAt.None? ==> o.next.raw == s.raw && o.next.cache == s.cache)
            && (o.result == Ok(true) <==> s.pending == [])
            && (o.result.Ok? ==> !WasModified(o.next))
  {
  }

  /** Linking queues an entry that no save can flush: once a link is
      queued, `markAsSaved` and `markAsUpdated` raise and the entry stays. */
  lemma QueuedLinkBlocksSave(e: Env, s: MapperState, relation: string, entity: object, id: Value, updatedAt: Option<string>)
    requires LinkOrUnlink(e, s, relation, entity, true).result.Ok?
    requires !(e.schema.primaryKey.composite && id.Str?)
    ensures var linked := LinkOrUnlink(e, s, relation, entity, true).next;
            && Saved(e, linked, id).result.Err? && Saved(e, linked, id).next.pending == linked.pending
            && Updated(e, linked, updatedAt).result.Err? && Updated(e, linked, updatedAt).next.pending == linked.pending
  {
  }

  // ---------------------------------------------------------------------
  // The object

  class DataMapper {
    const env: Env
    var rawColumns: Row
    var columns: map<string, Value>
    var modified: set<string>
    var relations: map<string, Related>
    var loaders: map<string, LoaderSpec>
    var pendingLinks: seq<PendingLink>
    var isNew: bool
    const isReadOnly: bool
    var stale: bool
    var deleted: bool

    function State(): MapperState
      reads this
    {
      MapperState(rawColumns, columns, modified, relations, loaders, pendingLinks, isNew, isReadOnly, stale, deleted)
    }

    /** The fields as the PHP constructor first sets them. */
    constructor (env: Env, columns: Arr<Value>, loaders: map<string, LoaderSpec>, isReadOnly: bool, isNew: bool)
      ensures this.env == env
      ensures State() == MapperState(columns.vals, map[], {}, map[], loaders, [], isNew, isReadOnly, false, false)
    {
      this.env := env;
      rawColumns := columns.vals;
      this.columns := map[];
      modified := {};
      relations := map[];
      this.loaders := loaders;
      pendingLinks := [];
      this.isNew := isNew;
      this.isReadOnly := isReadOnly;
      stale := false;
      deleted := false;
    }

    /** Replace the whole state. */
    method SetState(s: MapperState)
      requires s.readOnly == isReadOnly
      modifies this
      ensures State() == s
    {
      rawColumns, columns, modified, relations := s.raw, s.cache, s.modified, s.relations;
      loaders, pendingLinks, isNew, stale, deleted := s.loaders, s.pending, s.isNew, s.stale, s.deleted;
    }

    function GetRawColumns(): Row
      reads this
    {
      rawColumns
    }

    function GetModifiedColumns(): set<string>
      reads this
    {
      modified
    }

    predicate IsNew()
      reads this
    {
      isNew
    }

    predicate IsDeleted()
      reads this
    {
      deleted
    }

    predicate IsModified()
      reads this
    {
      WasModified(State())
    }

    method Hydrate()
      modifies this
      ensures State() == Hydrated(env, old(State()))
    {
      ghost var s0 := State();
      if stale {
        var q := HydrateQuery(env.schema, rawColumns);
        var row := FirstRow(env.db, q);
        assert Hydrated(env, s0) == if row.None? then s0.(deleted := true)
          else s0.(raw := row.value, cache := map[], relations := map[], loaders := map[], stale := false);
        if row.None? {
          deleted := true;
          assert State() == s0.(deleted := true);
        } else {
          rawColumns, columns, relations, loaders, stale := row.value, map[], map[], map[], false;
          assert State() == s0.(raw := row.value, cache := map[], relations := map[], loaders := map[], stale := false);
        }
      }
    }

    method GetColumn(name: string) returns (r: Result<Value>)
      modifies this
      ensures Outcome(r, State()) == ReadColumn(env, old(State()), name)
    {
      Hydrate();
      if deleted {
        return Err(InvalidState(RecordDeleted));
      }
      if name in columns {
        return Ok(columns[name]);
      }
      if name !in rawColumns {
        return Err(NotFound("Unknown column '" + name + "'"));
      }
      var value := rawColumns[name];
      if name in env.schema.casts {
        var casted := CastGet(value, env.schema.casts[name]);
        if casted.Err? {
          return Err(casted.error);
        }
        value := casted.value;
      }
      value := Computed(env.schema, name, value);
      columns := columns[name := value];
      r := Ok(value);
    }

    method SetColumn(name: string, value: Value) returns (r: Result<()>)
      modifies this
      ensures Outcome(r, State()) == WriteColumn(env, old(State()), name, value)
    {
      if isReadOnly {
        return Err(InvalidState(RecordReadOnly));
      }
      if deleted {
        return Err(InvalidState(RecordDeleted));
      }
      Hydrate();
      var stored := Stored(env.schema, name, value);
      if stored.Err? {
        return Err(stored.error);
      }
      modified := modified + {name};
      columns := columns - {name};
      rawColumns := rawColumns[name := stored.value];
      r := Ok(());
    }

    method ClearColumn(name: string)
      modifies this`columns
      ensures State() == ColumnCleared(old(State()), name)
    {
      columns := columns - {name};
    }

    method SetRawColumn(name: string, value: Value)
      modifies this`modified, this`columns, this`rawColumns
      ensures State() == RawColumnWritten(old(State()), name, value)
    {
      modified := modified + {name};
      columns := columns - {name};
      rawColumns := rawColumns[name := value];
    }

    method Assign(cols: Arr<Value>) returns (r: Result<()>)
      modifies this
      ensures Outcome(r, State()) == AssignColumns(env, old(State()), cols)
    {
      var names := AssignedKeys(env.schema, cols);
      var i := 0;
      while i < |names|
        invariant 0 <= i <= |names|
        invariant SetColumns(env, State(), names[i..], cols.vals) == AssignColumns(env, old(State()), cols)
      {
        var step := SetColumn(names[i], cols.vals[names[i]]);
        if step.Err? {
          return step;
        }
        i := i + 1;
      }
      r := Ok(());
    }

    method Stale()
      modifies this`stale
      ensures State() == old(State()).(stale := true)
    {
      stale := true;
    }

    method GetRelated(name: string, callback: Option<QueryCallback>) returns (r: Result<Related>)
      modifies this
      ensures Outcome(r, State()) == ReadRelated(env, old(State()), name, callback)
    {
      if name in relations {
        return Ok(relations[name]);
      }
      var lookup := LookupName(name);
      if lookup !in env.schema.relations {
        return Err(NotFound("Unknown relation '" + lookup + "'"));
      }
      Hydrate();
      var related: Related;
      if name in loaders {
        if lookup !in loaders {
          return Err(LanguageError(UndefinedLoader));
        }
        related := env.db.loaded(loaders[lookup], rawColumns);
      } else {
        var rel := env.schema.relations[lookup];
        var result := RelationResult(env.db, rel, env.schema, env.resolve(rel.entityClass), rawColumns, callback);
        if result.Err? {
          return Err(result.error);
        }
        related := result.value;
      }
      relations := relations[name := related];
      r := Ok(related);
    }

    method ClearRelated(name: string, clearLoaders: bool)
      modifies this`relations, this`loaders
      ensures State() == RelatedCleared(old(State()), name, clearLoaders)
    {
      relations := relations - {name};
      if clearLoaders {
        loaders := loaders - {LookupName(name)};
      }
    }

    method Link(relation: string, entity: object) returns (r: Result<()>)
      modifies this`pendingLinks
      ensures Outcome(r, State()) == LinkOrUnlink(env, old(State()), relation, entity, true)
    {
      r := LinkOrUnlinkEntry(relation, entity, true);
    }

    method Unlink(relation: string, entity: object) returns (r: Result<()>)
      modifies this`pendingLinks
      ensures Outcome(r, State()) == LinkOrUnlink(env, old(State()), relation, entity, false)
    {
      r := LinkOrUnlinkEntry(relation, entity, false);
    }

    method LinkOrUnlinkEntry(relation: string, entity: object, link: bool) returns (r: Result<()>)
      modifies this`pendingLinks
      ensures Outcome(r, State()) == LinkOrUnlink(env, old(State()), relation, entity, link)
    {
      if relation !in env.schema.relations {
        return Err(NotFound("Unknown relation '" + relation + "'"));
      }
      var rel := env.schema.relations[relation];
      if !rel.shape.ShareOneOrMany? {
        return Err(InvalidState("Unsupported relation type"));
      }
      pendingLinks := pendingLinks + [PendingLink(rel, entity, link)];
      r := Ok(());
    }

    method ExecutePendingLinkage() returns (r: Result<()>)
      ensures Outcome(r, State()) == PendingLinkage(old(State()))
    {
      if pendingLinks != [] {
        var operation := if pendingLinks[0].link then "link" else "unlink";
        return Err(LanguageError("Call to undefined method ShareOneOrMany::" + operation + "()"));
      }
      r := Ok(());
    }

    method MarkAsSaved(id: Value) returns (r: Result<bool>)
      modifies this
      ensures Outcome(r, State()) == Saved(env, old(State()), id)
    {
      ghost var s0 := State();
      var pk := env.schema.primaryKey;
      if !pk.composite {
        rawColumns := rawColumns[pk.FirstOwner() := id];
      } else {
        if id.Str? {
          return Err(LanguageError("Cannot access offset of type string on string"));
        }
        rawColumns := NullingColumns(rawColumns, pk.Owners());
      }
      assert SavedColumns(pk, s0.raw, id) == Ok(rawColumns);
      stale, isNew, modified := true, false, {};
      assert State() == s0.(raw := rawColumns, stale := true, isNew := false, modified := {});
      var flushed := ExecutePendingLinkage();
      r := if flushed.Err? then Err(flushed.error) else Ok(true);
    }

    method MarkAsUpdated(updatedAt: Option<string>) returns (r: Result<bool>)
      modifies this
      ensures Outcome(r, State()) == Updated(env, old(State()), updatedAt)
    {
      if updatedAt.Some? {
        var col := env.schema.timestampColumns.1;
        columns := columns - {col};
        rawColumns := rawColumns[col := Str(updatedAt.value)];
      }
      modified := {};
      var flushed := ExecutePendingLinkage();
      r := if flushed.Err? then Err(flushed.error) else Ok(true);
    }

    method MarkAsDeleted() returns (r: bool)
      modifies this`deleted
      ensures State() == MarkedDeleted(old(State())) && r
    {
      deleted := true;
      r := true;
    }
  }

  /** `new DataMapper(...)`: the object, or the exception `assign` raised. */
  method NewDataMapper(env: Env, columns: Arr<Value>, loaders: map<string, LoaderSpec>, isReadOnly: bool, isNew: bool)
    returns (r: Result<DataMapper>)
    ensures r.Ok? ==> fresh(r.value) && r.value.env == env
    ensures r.Ok? <==> Construct(env, columns, loaders, isReadOnly, isNew).result.Ok?
    ensures r.Ok? ==> r.value.State() == Construct(env, columns, loaders, isReadOnly, isNew).next
    ensures r.Err? ==> r.error == Construct(env, columns, loaders, isReadOnly, isNew).result.error
  {
    var m := new DataMapper(env, columns, loaders, isReadOnly, isNew);
    if isNew && columns.keys != [] {
      m.SetState(m.State().(raw := map[]));
      var outcome := m.Assign(columns);
      if outcome.Err? {
        return Err(outcome.error);
      }
    }
    r := Ok(m);
  }
}
