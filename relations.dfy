/** RelationOps: what the four relation shapes do to records and how they
    build the lazy loaders of eager loading.
    - `addRelatedEntity` copies key values between two records through
      `setColumn`: `BelongsTo` into the owner, `HasOneOrMany` into the
      related record.
    - `getLazyLoader` collects the key values of every owner row into one
      array per column and builds one query for all owners.
    - `HasOneOrManyThrough` writes the junction table directly in `link` and
      `unlink`. */
module RelationOps {
  import opened Values
  import opened Keys
  import opened Queries
  import opened RelationKinds
  import opened Schema
  import opened RelationPlans
  import opened Mapper

  // ---------------------------------------------------------------------
  // addRelatedEntity and setRelated

  /** The writes of `addRelatedEntity`: `$fk->getValue($source, true)`, each
      related-side name with its owner-side value in `source`. */
  function KeyWrites(fk: ForeignKey, source: Row): Arr<Value> {
    GetValue(fk, source, true).m
  }

  /** The outcome of a `setColumn` loop over the key writes. */
  function WriteKeys(e: Env, s: MapperState, fk: ForeignKey, source: Row): Outcome<()> {
    var w := KeyWrites(fk, source);
    SetColumns(e, s, w.keys, w.vals)
  }

  /** A successful key copy into a live record leaves each related-side
      column holding the stored form of the source's owner-side value (null
      when absent), and marks it modified. */
  lemma KeyWritesEffect(e: Env, s: MapperState, fk: ForeignKey, source: Row)
    requires Distinct(fk.Targets())
    requires !s.readOnly && !s.deleted && !s.stale
    ensures var o := WriteKeys(e, s, fk, source);
            o.result.Ok? ==>
              forall i :: 0 <= i < |fk.Targets()| ==>
                && fk.Targets()[i] in o.next.modified
                && fk.Targets()[i] in o.next.raw
                && Stored(e.schema, fk.Targets()[i], Lookup(source, fk.Owners()[i], Null)).Ok?
                && o.next.raw[fk.Targets()[i]] == Stored(e.schema, fk.Targets()[i], Lookup(source, fk.Owners()[i], Null)).value
  {
    var w := KeyWrites(fk, source);
    GetValueMapped(fk, source, true);
    SetColumnsEffect(e, s, w.keys, w.vals);
  }

  /** `addRelatedEntity($owner, null)` reads from an empty row: every
      foreign-key column is written null. */
  lemma NullEntityWrites(fk: ForeignKey)
    ensures forall k :: k in KeyWrites(fk, map[]).vals ==> KeyWrites(fk, map[]).vals[k] == Null
  {
    RekeyEmptyRow(fk.Pairs(), Null);
  }

  /** `setColumn` for each write in order, stopping at the first failure. */
  method WriteKeysInto(target: DataMapper, w: Arr<Value>) returns (r: Result<()>)
    modifies target
    ensures Outcome(r, target.State()) == SetColumns(target.env, old(target.State()), w.keys, w.vals)
  {
    var i := 0;
    while i < |w.keys|
      invariant 0 <= i <= |w.keys|
      invariant SetColumns(target.env, target.State(), w.keys[i..], w.vals) == SetColumns(target.env, old(target.State()), w.keys, w.vals)
    {
      var step := target.SetColumn(w.keys[i], w.vals[w.keys[i]]);
      if step.Err? {
        return step;
      }
      assert w.keys[i..][1..] == w.keys[i + 1..];
      i := i + 1;
    }
    r := Ok(());
  }

  /** `BelongsTo::addRelatedEntity($owner, $entity)`: the key defaults to
      the related schema's foreign key (the resolved one when `$entity` is
      null); the owner's foreign-key columns receive the related record's
      raw primary-key values. */
  method AddRelatedBelongsTo(rel: Relation, owner: DataMapper, related: DataMapper?) returns (r: Result<()>)
    modifies owner
    ensures var schema := if related == null then owner.env.resolve(rel.entityClass) else related.env.schema;
            var source := if related == null then map[] else old(related.rawColumns);
            Outcome(r, owner.State()) == WriteKeys(owner.env, old(owner.State()), EffectiveForeignKey(rel, schema.foreignKey), source)
  {
    var schema := if related == null then owner.env.resolve(rel.entityClass) else related.env.schema;
    var source := if related == null then map[] else related.rawColumns;
    var fk := EffectiveForeignKey(rel, schema.foreignKey);
    r := WriteKeysInto(owner, KeyWrites(fk, source));
  }

  /** `HasOneOrMany::addRelatedEntity($owner, $entity)`: the key defaults
      to the owner schema's foreign key; the related record's foreign-key
      columns receive the owner's raw primary-key values. */
  method AddRelatedHasOneOrMany(rel: Relation, owner: DataMapper, related: DataMapper) returns (r: Result<()>)
    modifies related
    ensures Outcome(r, related.State()) ==
              WriteKeys(related.env, old(related.State()), EffectiveForeignKey(rel, owner.env.schema.foreignKey), old(owner.rawColumns))
  {
    var fk := EffectiveForeignKey(rel, owner.env.schema.foreignKey);
    r := WriteKeysInto(related, KeyWrites(fk, owner.rawColumns));
  }

  const UnsupportedRelation: string := "Unsupported relation type"

  /** `setRelated($relation, $entity)`: only `BelongsTo` and `HasOneOrMany`
      relations are supported, and only `BelongsTo` accepts null. */
  method SetRelated(owner: DataMapper, relation: string, related: DataMapper?) returns (r: Result<()>)
    modifies owner, related
    ensures relation !in owner.env.schema.relations ==>
              r == Err(NotFound("Unknown relation '" + relation + "'")) && unchanged(owner) && (related != null ==> unchanged(related))
    ensures relation in owner.env.schema.relations ==>
              var rel := owner.env.schema.relations[relation];
              && (!rel.shape.BelongsTo? && !rel.shape.HasOneOrMany? ==>
                    r == Err(InvalidState(UnsupportedRelation)) && unchanged(owner) && (related != null ==> unchanged(related)))
              && (rel.shape.HasOneOrMany? && related == null ==>
                    r == Err(InvalidState(UnsupportedRelation)) && unchanged(owner))
              && (rel.shape.BelongsTo? ==>
                    var schema := if related == null then owner.env.resolve(rel.entityClass) else related.env.schema;
                    var source := if related == null then map[] else old(related.rawColumns);
                    Outcome(r, owner.State()) == WriteKeys(owner.env, old(owner.State()), EffectiveForeignKey(rel, schema.foreignKey), source))
              && (rel.shape.HasOneOrMany? && related != null ==>
                    Outcome(r, related.State()) ==
                      WriteKeys(related.env, old(related.State()), EffectiveForeignKey(rel, owner.env.schema.foreignKey), old(owner.rawColumns)))
  {
    if relation !in owner.env.schema.relations {
      return Err(NotFound("Unknown relation '" + relation + "'"));
    }
    var rel := owner.env.schema.relations[relation];
    if !rel.shape.BelongsTo? && !rel.shape.HasOneOrMany? {
      return Err(InvalidState(UnsupportedRelation));
    }
    if related == null && !rel.shape.BelongsTo? {
      return Err(InvalidState(UnsupportedRelation));
    }
    if rel.shape.BelongsTo? {
      r := AddRelatedBelongsTo(rel, owner, related);
    } else {
      r := AddRelatedHasOneOrMany(rel, owner, related);
    }
  }

  // ---------------------------------------------------------------------
  // Collecting key values: `$ids[$col][] = $val`

  /** The key values one owner row contributes: `getInverseValue($row,
      true)` of the key or `getValue($row, true)`. */
  function RowIds(key: ForeignKey, row: Row, inverse: bool): Arr<Value> {
    if inverse then GetInverseValue(key, row, true).m else GetValue(key, row, true).m
  }

  /** The columns every row contributes to, in order. */
  function IdKeys(key: ForeignKey, inverse: bool): seq<string> {
    RowIds(key, map[], inverse).keys
  }

  lemma RowIdsKeys(key: ForeignKey, row: Row, inverse: bool)
    ensures RowIds(key, row, inverse).keys == IdKeys(key, inverse)
  {
    if inverse {
      RekeySameKeys(Swapped(key.Pairs()), row, map[], Null);
    } else {
      RekeySameKeys(key.Pairs(), row, map[], Null);
    }
  }

  /** Appending one row's values, key by key. */
  function GatherRow(ids: Arr<seq<Value>>, m: Arr<Value>, keys: seq<string>): Arr<seq<Value>>
    requires forall k :: k in keys ==> k in m.vals
    decreases |keys|
  {
    if keys == [] then ids
    else GatherRow(Put(ids, keys[0], Lookup(ids.vals, keys[0], []) + [m.vals[keys[0]]]), m, keys[1..])
  }

  /** Each owner row's key values, in row order. */
  function RowMaps(rows: seq<Row>, key: ForeignKey, inverse: bool): (ms: seq<Arr<Value>>)
    ensures |ms| == |rows|
    ensures forall j :: 0 <= j < |rows| ==> ms[j] == RowIds(key, rows[j], inverse)
  {
    seq(|rows|, j requires 0 <= j < |rows| => RowIds(key, rows[j], inverse))
  }

  /** Appending every row's values, row by row. */
  function Gathered(ids: Arr<seq<Value>>, maps: seq<Arr<Value>>): Arr<seq<Value>>
    decreases |maps|
  {
    if maps == [] then ids
    else Gathered(GatherRow(ids, maps[0], maps[0].keys), maps[1..])
  }

  /** The values of column `k` across the rows, in row order. */
  function MapColumn(maps: seq<Arr<Value>>, k: string): (c: seq<Value>)
    ensures |c| == |maps|
    ensures forall j :: 0 <= j < |maps| ==> c[j] == Lookup(maps[j].vals, k, Null)
  {
    seq(|maps|, j requires 0 <= j < |maps| => Lookup(maps[j].vals, k, Null))
  }

  /** Every row contributes the columns `cols`, in that order. */
  ghost predicate SameKeys(maps: seq<Arr<Value>>, cols: seq<string>) {
    forall j :: 0 <= j < |maps| ==> maps[j].keys == cols
  }

  lemma RowMapsKeys(rows: seq<Row>, key: ForeignKey, inverse: bool)
    ensures SameKeys(RowMaps(rows, key, inverse), IdKeys(key, inverse))
  {
    forall j | 0 <= j < |rows| ensures RowIds(key, rows[j], inverse).keys == IdKeys(key, inverse) {
      RowIdsKeys(key, rows[j], inverse);
    }
  }

  /** One row's values append to their columns. */
  lemma {:induction false} GatherRowVals(ids: Arr<seq<Value>>, m: Arr<Value>, keys: seq<string>)
    requires forall k :: k in keys ==> k in m.vals
    requires Distinct(keys)
    ensures forall k :: k in keys ==>
              k in GatherRow(ids, m, keys).vals && GatherRow(ids, m, keys).vals[k] == Lookup(ids.vals, k, []) + [m.vals[k]]
    decreases |keys|
  {
    if keys != [] {
      var k0 := keys[0];
      var next := Put(ids, k0, Lookup(ids.vals, k0, []) + [m.vals[k0]]);
      DistinctTail(keys);
      GatherRowVals(next, m, keys[1..]);
      GatherRowOthers(next, m, keys[1..]);
    }
  }

  /** Columns the row does not name keep their values. */
  lemma {:induction false} GatherRowOthers(ids: Arr<seq<Value>>, m: Arr<Value>, keys: seq<string>)
    requires forall k :: k in keys ==> k in m.vals
    ensures forall k :: k !in keys ==> Lookup(GatherRow(ids, m, keys).vals, k, []) == Lookup(ids.vals, k, [])
    decreases |keys|
  {
    if keys != [] {
      var k0 := keys[0];
      var next := Put(ids, k0, Lookup(ids.vals, k0, []) + [m.vals[k0]]);
      GatherRowOthers(next, m, keys[1..]);
    }
  }

  /** Columns already present keep their places. */
  lemma {:induction false} GatherRowKeysPresent(ids: Arr<seq<Value>>, m: Arr<Value>, keys: seq<string>)
    requires forall k :: k in keys ==> k in m.vals && k in ids.vals
    ensures GatherRow(ids, m, keys).keys == ids.keys
    decreases |keys|
  {
    if keys != [] {
      var k0 := keys[0];
      var next := Put(ids, k0, Lookup(ids.vals, k0, []) + [m.vals[k0]]);
      assert next.keys == ids.keys;
      GatherRowKeysPresent(next, m, keys[1..]);
    }
  }

  /** New columns go last, in order. */
  lemma {:induction false} GatherRowKeysNew(ids: Arr<seq<Value>>, m: Arr<Value>, keys: seq<string>)
    requires forall k :: k in keys ==> k in m.vals && k !in ids.vals
    requires Distinct(keys)
    ensures GatherRow(ids, m, keys).keys == ids.keys + keys
    decreases |keys|
  {
    if keys != [] {
      var k0 := keys[0];
      var next := Put(ids, k0, Lookup(ids.vals, k0, []) + [m.vals[k0]]);
      DistinctTail(keys);
      GatherRowKeysNew(next, m, keys[1..]);
      calc {
        GatherRow(ids, m, keys).keys;
        GatherRow(next, m, keys[1..]).keys;
        next.keys + keys[1..];
        (ids.keys + [k0]) + keys[1..];
        { SeqAssoc(ids.keys, [k0], keys[1..]); }
        ids.keys + ([k0] + keys[1..]);
        { assert [k0] + keys[1..] == keys; }
        ids.keys + keys;
      }
    }
  }

  lemma SeqAssoc<T>(a: seq<T>, b: seq<T>, c: seq<T>)
    ensures (a + b) + c == a + (b + c)
  {
  }

  lemma DistinctTail<T>(s: seq<T>)
    requires s != [] && Distinct(s)
    ensures Distinct(s[1..]) && s[0] !in s[1..]
  {
    forall j | 1 <= j < |s| ensures s[j] != s[0] {
      assert s[0] != s[j];
    }
  }

  lemma GatherRowParts(ids: Arr<seq<Value>>, m: Arr<Value>, keys: seq<string>)
    requires forall k :: k in keys ==> k in m.vals
    requires Distinct(keys)
    ensures forall k :: k in keys ==>
              k in GatherRow(ids, m, keys).vals && GatherRow(ids, m, keys).vals[k] == Lookup(ids.vals, k, []) + [m.vals[k]]
    ensures (forall k :: k in keys ==> k in ids.vals) ==> GatherRow(ids, m, keys).keys == ids.keys
    ensures (forall k :: k in keys ==> k !in ids.vals) ==> GatherRow(ids, m, keys).keys == ids.keys + keys
  {
    GatherRowVals(ids, m, keys);
    if forall k :: k in keys ==> k in ids.vals {
      GatherRowKeysPresent(ids, m, keys);
    }
    if forall k :: k in keys ==> k !in ids.vals {
      GatherRowKeysNew(ids, m, keys);
    }
  }

  /** Gathering rows into an array that already has every column keeps
      the columns in place. */
  lemma {:induction false} GatheredOntoKeys(ids: Arr<seq<Value>>, maps: seq<Arr<Value>>, cols: seq<string>)
    requires ids.keys == cols && SameKeys(maps, cols)
    ensures Gathered(ids, maps).keys == cols
    decreases |maps|
  {
    if maps != [] {
      var m := maps[0];
      GatherRowKeysPresent(ids, m, m.keys);
      GatheredOntoKeys(GatherRow(ids, m, m.keys), maps[1..], cols);
    }
  }

  /** ... and appends each row's value of column `k` to that column. */
  lemma {:induction false} GatheredOntoColumn(ids: Arr<seq<Value>>, maps: seq<Arr<Value>>, cols: seq<string>, k: string)
    requires ids.keys == cols && SameKeys(maps, cols) && k in cols
    ensures k in Gathered(ids, maps).vals && Gathered(ids, maps).vals[k] == ids.vals[k] + MapColumn(maps, k)
    decreases |maps|
  {
    if maps != [] {
      var m := maps[0];
      GatherRowVals(ids, m, m.keys);
      GatherRowOthers(ids, m, m.keys);
      GatherRowKeysPresent(ids, m, m.keys);
      var next := GatherRow(ids, m, m.keys);
      SameKeysTail(maps, cols);
      GatheredOntoColumn(next, maps[1..], cols, k);
      MapColumnCons(maps, k);
      SeqAssoc(ids.vals[k], [m.vals[k]], MapColumn(maps[1..], k));
    }
  }

  lemma SameKeysTail(maps: seq<Arr<Value>>, cols: seq<string>)
    requires maps != [] && SameKeys(maps, cols)
    ensures SameKeys(maps[1..], cols) && maps[0].keys == cols
  {
    forall j | 0 <= j < |maps| - 1 ensures maps[1..][j].keys == cols {
      assert maps[1..][j] == maps[j + 1];
    }
  }

  lemma MapColumnCons(maps: seq<Arr<Value>>, k: string)
    requires maps != []
    ensures MapColumn(maps, k) == [Lookup(maps[0].vals, k, Null)] + MapColumn(maps[1..], k)
  {
  }

  /** The first row creates every column, holding that row's value. */
  lemma GatherFirst(m: Arr<Value>)
    ensures GatherRow(EmptyArr(), m, m.keys).keys == m.keys
    ensures forall k :: k in m.keys ==>
              k in GatherRow(EmptyArr(), m, m.keys).vals && GatherRow(EmptyArr(), m, m.keys).vals[k] == [m.vals[k]]
  {
    GatherRowVals(EmptyArr(), m, m.keys);
    GatherRowOthers(EmptyArr(), m, m.keys);
    GatherRowKeysNew(EmptyArr(), m, m.keys);
  }

  /** The collected array has one entry per key column (none without rows),
      holding that column's value in every row, in row order. */
  lemma GatheredSpec(maps: seq<Arr<Value>>, cols: seq<string>)
    requires SameKeys(maps, cols)
    ensures maps == [] ==> Gathered(EmptyArr(), maps) == EmptyArr()
    ensures maps != [] ==>
              && Gathered(EmptyArr(), maps).keys == cols
              && forall k :: k in cols ==>
                   k in Gathered(EmptyArr(), maps).vals && Gathered(EmptyArr(), maps).vals[k] == MapColumn(maps, k)
  {
    if maps != [] {
      GatheredKeys(maps, cols);
      forall k | k in cols
        ensures k in Gathered(EmptyArr(), maps).vals && Gathered(EmptyArr(), maps).vals[k] == MapColumn(maps, k)
      {
        GatheredColumn(maps, cols, k);
      }
    }
  }

  lemma GatheredKeys(maps: seq<Arr<Value>>, cols: seq<string>)
    requires SameKeys(maps, cols) && maps != []
    ensures Gathered(EmptyArr(), maps).keys == cols
  {
    var m := maps[0];
    GatherFirst(m);
    var first := GatherRow(EmptyArr(), m, m.keys);
    assert Gathered(EmptyArr(), maps) == Gathered(first, maps[1..]);
    SameKeysTail(maps, cols);
    GatheredOntoKeys(first, maps[1..], cols);
  }

  lemma GatheredColumn(maps: seq<Arr<Value>>, cols: seq<string>, k: string)
    requires SameKeys(maps, cols) && maps != [] && k in cols
    ensures k in Gathered(EmptyArr(), maps).vals && Gathered(EmptyArr(), maps).vals[k] == MapColumn(maps, k)
  {
    var m := maps[0];
    GatherFirst(m);
    var first := GatherRow(EmptyArr(), m, m.keys);
    assert Gathered(EmptyArr(), maps) == Gathered(first, maps[1..]);
    SameKeysTail(maps, cols);
    GatheredOntoColumn(first, maps[1..], cols, k);
    MapColumnCons(maps, k);
  }

  /** The inner `foreach` of `getLazyLoader`: one row's values appended. */
  method GatherInto(ids: Arr<seq<Value>>, m: Arr<Value>) returns (r: Arr<seq<Value>>)
    ensures r == GatherRow(ids, m, m.keys)
  {
    r := ids;
    var j := 0;
    while j < |m.keys|
      invariant 0 <= j <= |m.keys|
      invariant GatherRow(r, m, m.keys[j..]) == GatherRow(ids, m, m.keys)
    {
      var col := m.keys[j];
      r := Put(r, col, Lookup(r.vals, col, []) + [m.vals[col]]);
      assert m.keys[j..][1..] == m.keys[j + 1..];
      j := j + 1;
    }
  }

  /** The nested `foreach` loops of `getLazyLoader`. */
  method CollectIds(rows: seq<Row>, key: ForeignKey, inverse: bool) returns (ids: Arr<seq<Value>>)
    ensures ids == Gathered(EmptyArr(), RowMaps(rows, key, inverse))
  {
    ghost var maps := RowMaps(rows, key, inverse);
    ids := EmptyArr();
    var i := 0;
    while i < |rows|
      invariant 0 <= i <= |rows|
      invariant Gathered(ids, maps[i..]) == Gathered(EmptyArr(), maps)
    {
      var m := RowIds(key, rows[i], inverse);
      assert maps[i..][0] == m && maps[i..][1..] == maps[i + 1..];
      ids := GatherInto(ids, m);
      i := i + 1;
    }
  }

  // ---------------------------------------------------------------------
  // Lazy loaders

  /** The `$options` array `getLazyLoaders` passes. */
  datatype LoaderOptions = LoaderOptions(
    results: seq<Row>,
    callback: Option<SqlCallback>,
    with: seq<EagerLoad>,
    immediate: bool)

  /** The loader's query: the caller's callback edits the statement, then
      `with($options['with'], $options['immediate'])`. */
  function LoaderQuery(sql: Sql, junctionTable: Option<string>, opts: LoaderOptions): QueryState {
    var edited := if opts.callback.Some? then opts.callback.value(sql) else sql;
    NewQuery(edited, junctionTable).(with := opts.with, immediate := opts.immediate)
  }

  /** `array_unique($val)` (by string form, first occurrence kept), then
      `in` for several values and `is(reset($val))` otherwise. */
  function DedupCondition(col: string, vals: seq<Value>): Condition {
    var distinct := UniqueBy(vals, ToStringValue);
    if |distinct| > 1 then In(col, distinct)
    else if distinct == [] then Eq(col, Bool(false))
    else Eq(col, distinct[0])
  }

  function DedupConditions(ids: Arr<seq<Value>>): (cs: seq<Condition>)
    ensures |cs| == |ids.keys|
  {
    seq(|ids.keys|, i requires 0 <= i < |ids.keys| => DedupCondition(ids.keys[i], ids.vals[ids.keys[i]]))
  }

  /** `$this->foreignKey->getValue($ids, true)` of `HasOneOrMany`, with
      a column that collected nothing read as null. */
  function KeyedIds(fk: ForeignKey, ids: Arr<seq<Value>>): Arr<Option<seq<Value>>> {
    Rekey(fk.Pairs(), map k | k in ids.vals :: Some(ids.vals[k]), None)
  }

  /** One `in` per column; `in(null)` for a column with no values. */
  function InConditions(ids: Arr<Option<seq<Value>>>): (cs: seq<Condition>)
    ensures |cs| == |ids.keys|
  {
    seq(|ids.keys|, i requires 0 <= i < |ids.keys| =>
      match ids.vals[ids.keys[i]]
      case Some(vs) => In(ids.keys[i], vs)
      case None => InMissing(ids.keys[i]))
  }

  const IllegalOffset: string := "Illegal offset type"

  /** The alias of the link column of the many-to-many loaders. */
  function LinkKey(junctionTable: string, fk: ForeignKey): string {
    "hidden_" + junctionTable + "_" + ToString(fk)
  }

  /** The junction query shared by the many-to-many loaders. */
  function JunctionLoaderSql(owner: SchemaView, related: SchemaView, fk: ForeignKey, where: Condition): Sql {
    var jt := JunctionTableName(owner.table, related.table);
    var joinTable := related.table;
    Sql([], [Join(joinTable, [JoinOn(jt + "." + ToString(related.foreignKey), joinTable + "." + ToString(related.primaryKey))])],
        [where],
        [Column(joinTable + ".*", None), Column(jt + "." + ToString(fk), Some(LinkKey(jt, fk)))])
  }

  /** `getLazyLoader($manager, $owner, $options)` of each shape. */
  function LazyLoaderOf(rel: Relation, owner: SchemaView, related: SchemaView, opts: LoaderOptions): Result<LoaderSpec> {
    match rel.shape
    case BelongsTo =>
      var fk := EffectiveForeignKey(rel, related.foreignKey);
      var ids := Gathered(EmptyArr(), RowMaps(opts.results, fk, true));
      var q := LoaderQuery(EmptySql().(wheres := DedupConditions(ids)), None, opts);
      Ok(LoaderSpec(rel.entityClass, q, Some(fk), Inverse(true), false, opts.immediate))
    case HasOneOrMany(hasMany) =>
      var fk := EffectiveForeignKey(rel, owner.foreignKey);
      var ids := Gathered(EmptyArr(), RowMaps(opts.results, owner.primaryKey, false));
      var q := LoaderQuery(EmptySql().(wheres := InConditions(KeyedIds(fk, ids))), None, opts);
      Ok(LoaderSpec(rel.entityClass, q, Some(fk), Inverse(false), hasMany, opts.immediate))
    case ShareOneOrMany(_, hasMany) =>
      var fk := EffectiveForeignKey(rel, owner.foreignKey);
      var jt := JunctionTableName(owner.table, related.table);
      var ids := Gathered(EmptyArr(), RowMaps(opts.results, owner.primaryKey, false));
      var sql := JunctionLoaderSql(owner, related, fk, InGroups(jt + "." + ToString(fk), ids));
      Ok(LoaderSpec(rel.entityClass, LoaderQuery(sql, Some(jt), opts), None, LinkColumn(LinkKey(jt, fk)), hasMany, opts.immediate))
    case HasOneOrManyThrough(_, hasMany) =>
      if opts.results != [] then Err(LanguageError(IllegalOffset))
      else
        var fk := EffectiveForeignKey(rel, owner.foreignKey);
        var jt := JunctionTableName(owner.table, related.table);
        var sql := JunctionLoaderSql(owner, related, fk, In(jt + "." + ToString(fk), []));
        Ok(LoaderSpec(rel.entityClass, LoaderQuery(sql, Some(jt), opts), Some(owner.primaryKey), LinkColumn(LinkKey(jt, fk)), hasMany, opts.immediate))
  }

  /** `getLazyLoader`, with the collecting loops run as such. */
  method GetLazyLoader(rel: Relation, owner: SchemaView, related: SchemaView, opts: LoaderOptions) returns (r: Result<LoaderSpec>)
    ensures r == LazyLoaderOf(rel, owner, related, opts)
  {
    match rel.shape
    case BelongsTo =>
      var fk := EffectiveForeignKey(rel, related.foreignKey);
      var ids := CollectIds(opts.results, fk, true);
      var q := LoaderQuery(EmptySql().(wheres := DedupConditions(ids)), None, opts);
      r := Ok(LoaderSpec(rel.entityClass, q, Some(fk), Inverse(true), false, opts.immediate));
    case HasOneOrMany(hasMany) =>
      var fk := EffectiveForeignKey(rel, owner.foreignKey);
      var ids := CollectIds(opts.results, owner.primaryKey, false);
      var q := LoaderQuery(EmptySql().(wheres := InConditions(KeyedIds(fk, ids))), None, opts);
      r := Ok(LoaderSpec(rel.entityClass, q, Some(fk), Inverse(false), hasMany, opts.immediate));
    case ShareOneOrMany(_, hasMany) =>
      var fk := EffectiveForeignKey(rel, owner.foreignKey);
      var jt := JunctionTableName(owner.table, related.table);
      var ids := CollectIds(opts.results, owner.primaryKey, false);
      var sql := JunctionLoaderSql(owner, related, fk, InGroups(jt + "." + ToString(fk), ids));
      r := Ok(LoaderSpec(rel.entityClass, LoaderQuery(sql, Some(jt), opts), None, LinkColumn(LinkKey(jt, fk)), hasMany, opts.immediate));
    case HasOneOrManyThrough(_, hasMany) =>
      r := LazyLoaderOf(rel, owner, related, opts);
  }

  /** `array_unique` then `in`/`is`: a column whose values all have one
      string form gets an equality on the first value; any two different
      string forms give an `in` over the distinct values. */
  lemma DedupConditionSpec(col: string, vals: seq<Value>)
    requires vals != []
    ensures (forall j :: 0 <= j < |vals| ==> ToStringValue(vals[j]) == ToStringValue(vals[0])) ==>
              DedupCondition(col, vals) == Eq(col, vals[0])
    ensures (exists j :: 0 <= j < |vals| && ToStringValue(vals[j]) != ToStringValue(vals[0])) ==>
              DedupCondition(col, vals) == In(col, UniqueBy(vals, ToStringValue))
  {
    var u := UniqueBy(vals, ToStringValue);
    UniqueBySpec(vals, ToStringValue);
    assert u[0] == vals[0];
    if forall j :: 0 <= j < |vals| ==> ToStringValue(vals[j]) == ToStringValue(vals[0]) {
      var seen: set<Value> := {} + {ToStringValue(vals[0])};
      UniqueFromSeen(vals[1..], ToStringValue, seen);
      assert u == [vals[0]] + UniqueFrom(vals[1..], ToStringValue, seen);
    }
    if exists j :: 0 <= j < |vals| && ToStringValue(vals[j]) != ToStringValue(vals[0]) {
      var j :| 0 <= j < |vals| && ToStringValue(vals[j]) != ToStringValue(vals[0]);
      assert vals[j] in vals;
      var y :| y in u && ToStringValue(y) == ToStringValue(vals[j]);
      assert y != u[0];
    }
  }

  /** `BelongsTo::getLazyLoader`: one condition per related primary-key
      column, over the values of the matching foreign-key column in every
      owner row, de-duplicated; the loader matches by the key inversely and
      yields one entity. */
  lemma BelongsToLoaderSpec(rel: Relation, owner: SchemaView, related: SchemaView, opts: LoaderOptions)
    requires rel.shape.BelongsTo? && opts.callback.None? && opts.results != []
    ensures var fk := EffectiveForeignKey(rel, related.foreignKey);
            var r := LazyLoaderOf(rel, owner, related, opts);
            && r.Ok? && r.value.key == Some(fk) && r.value.arg == Inverse(true) && !r.value.hasMany
            && r.value.immediate == opts.immediate && r.value.query.with == opts.with
            && |r.value.query.sql.wheres| == |fk.Owners()|
            && forall i :: 0 <= i < |fk.Owners()| ==>
                 r.value.query.sql.wheres[i] ==
                   DedupCondition(fk.Owners()[i], ColumnOf(opts.results, fk.Targets()[i]))
  {
    InverseIds(opts.results, EffectiveForeignKey(rel, related.foreignKey));
  }

  /** Owner rows gathered through a key inversely: for each owner-side
      column, the matching related-side column of every row. */
  lemma InverseIds(rows: seq<Row>, fk: ForeignKey)
    requires rows != []
    ensures var ids := Gathered(EmptyArr(), RowMaps(rows, fk, true));
            && ids.keys == fk.Owners()
            && forall i :: 0 <= i < |fk.Owners()| ==> ids.vals[fk.Owners()[i]] == ColumnOf(rows, fk.Targets()[i])
  {
    var maps := RowMaps(rows, fk, true);
    RowMapsKeys(rows, fk, true);
    GatheredSpec(maps, IdKeys(fk, true));
    GetInverseValueMapped(fk, map[], true);
    forall i | 0 <= i < |fk.Owners()|
      ensures MapColumn(maps, fk.Owners()[i]) == ColumnOf(rows, fk.Targets()[i])
    {
      InverseColumn(rows, fk, i);
    }
  }

  lemma InverseColumn(rows: seq<Row>, fk: ForeignKey, i: nat)
    requires i < |fk.Owners()|
    ensures MapColumn(RowMaps(rows, fk, true), fk.Owners()[i]) == ColumnOf(rows, fk.Targets()[i])
  {
    var maps := RowMaps(rows, fk, true);
    forall j | 0 <= j < |rows|
      ensures Lookup(maps[j].vals, fk.Owners()[i], Null) == Lookup(rows[j], fk.Targets()[i], Null)
    {
      GetInverseValueMapped(fk, rows[j], true);
    }
  }

  /** The values of column `c` in every row, null where absent. */
  function ColumnOf(rows: seq<Row>, c: string): (vs: seq<Value>)
    ensures |vs| == |rows| && forall j :: 0 <= j < |rows| ==> vs[j] == Lookup(rows[j], c, Null)
  {
    seq(|rows|, j requires 0 <= j < |rows| => Lookup(rows[j], c, Null))
  }

  /** With a primary key over distinct names, the collected ids hold, for
      each key column, its value in every owner row. */
  lemma PrimaryKeyIds(rows: seq<Row>, names: seq<string>)
    requires rows != [] && Distinct(names)
    ensures var ids := Gathered(EmptyArr(), RowMaps(rows, PrimaryKey(names), false));
            ids.keys == names && forall c :: c in names ==> ids.vals[c] == ColumnOf(rows, c)
  {
    var pk := PrimaryKey(names);
    PrimaryKeyTargets(names);
    var maps := RowMaps(rows, pk, false);
    RowMapsKeys(rows, pk, false);
    GatheredSpec(maps, IdKeys(pk, false));
    GetValueMapped(pk, map[], true);
    forall c | c in names
      ensures MapColumn(maps, c) == ColumnOf(rows, c)
    {
      forall j | 0 <= j < |rows|
        ensures Lookup(maps[j].vals, c, Null) == Lookup(rows[j], c, Null)
      {
        GetValueMapped(pk, rows[j], true);
      }
    }
  }

  /** `HasOneOrMany::getLazyLoader`: for each foreign-key column, an `in`
      over the owner rows' values of its primary-key column, in row order
      and without de-duplication (`in(null)` when the foreign key names a
      column outside the primary key); the loader matches by the key
      directly and yields as many entities as the relation says. */
  lemma HasOneOrManyLoaderSpec(rel: Relation, owner: SchemaView, related: SchemaView, opts: LoaderOptions, names: seq<string>)
    requires rel.shape.HasOneOrMany? && opts.callback.None? && opts.results != []
    requires owner.primaryKey == PrimaryKey(names) && Distinct(names)
    requires Distinct(EffectiveForeignKey(rel, owner.foreignKey).Targets())
    ensures var fk := EffectiveForeignKey(rel, owner.foreignKey);
            var r := LazyLoaderOf(rel, owner, related, opts);
            && r.Ok? && r.value.key == Some(fk) && r.value.arg == Inverse(false) && r.value.hasMany == rel.shape.hasMany
            && |r.value.query.sql.wheres| == |fk.Targets()|
            && forall i :: 0 <= i < |fk.Targets()| ==>
                 r.value.query.sql.wheres[i] ==
                   if fk.Owners()[i] in names then In(fk.Targets()[i], ColumnOf(opts.results, fk.Owners()[i]))
                   else InMissing(fk.Targets()[i])
  {
    var fk := EffectiveForeignKey(rel, owner.foreignKey);
    var ids := Gathered(EmptyArr(), RowMaps(opts.results, owner.primaryKey, false));
    var cs := InConditions(KeyedIds(fk, ids));
    assert LazyLoaderOf(rel, owner, related, opts)
        == Ok(LoaderSpec(rel.entityClass, LoaderQuery(EmptySql().(wheres := cs), None, opts), Some(fk), Inverse(false), rel.shape.hasMany, opts.immediate));
    assert LoaderQuery(EmptySql().(wheres := cs), None, opts).sql.wheres == cs;
    PrimaryKeyIds(opts.results, names);
    KeyedConditions(fk, ids, opts.results, names);
  }

  /** The `in` conditions over the re-keyed primary-key columns. */
  lemma KeyedConditions(fk: ForeignKey, ids: Arr<seq<Value>>, rows: seq<Row>, names: seq<string>)
    requires Distinct(fk.Targets())
    requires ids.keys == names && forall c :: c in names ==> ids.vals[c] == ColumnOf(rows, c)
    ensures var cs := InConditions(KeyedIds(fk, ids));
            && |cs| == |fk.Targets()|
            && forall i :: 0 <= i < |fk.Targets()| ==>
                 cs[i] == if fk.Owners()[i] in names then In(fk.Targets()[i], ColumnOf(rows, fk.Owners()[i]))
                          else InMissing(fk.Targets()[i])
  {
    KeyedIdsSpec(fk, ids);
  }

  /** Re-keying the collected ids through a key with distinct related-side
      names gives, per related-side column, the ids of its owner-side
      column, or nothing when none were collected. */
  lemma KeyedIdsSpec(fk: ForeignKey, ids: Arr<seq<Value>>)
    requires Distinct(fk.Targets())
    ensures KeyedIds(fk, ids).keys == fk.Targets()
    ensures forall i :: 0 <= i < |fk.Targets()| ==>
              fk.Targets()[i] in KeyedIds(fk, ids).vals &&
              KeyedIds(fk, ids).vals[fk.Targets()[i]] ==
                if fk.Owners()[i] in ids.vals then Some(ids.vals[fk.Owners()[i]]) else None
  {
    var source := map k | k in ids.vals :: Some(ids.vals[k]);
    assert Dests(fk.Pairs()) == fk.Targets();
    RekeyDistinct(fk.Pairs(), source, None);
  }

  /** `ShareOneOrMany::getLazyLoader`: the junction table joins the related
      table on `junction.<foreign key> = related.<primary key>`; the owner
      primary-key values of every row, per column, filter the junction's
      owner column; the link column is selected under its alias and the
      loader matches by it. */
  lemma ShareLoaderSpec(rel: Relation, owner: SchemaView, related: SchemaView, opts: LoaderOptions, names: seq<string>)
    requires rel.shape.ShareOneOrMany? && opts.callback.None? && opts.results != []
    requires owner.primaryKey == PrimaryKey(names) && Distinct(names)
    ensures var fk := EffectiveForeignKey(rel, owner.foreignKey);
            var jt := JunctionTableName(owner.table, related.table);
            var r := LazyLoaderOf(rel, owner, related, opts);
            && r.Ok? && r.value.key.None? && r.value.arg == LinkColumn("hidden_" + jt + "_" + ToString(fk))
            && r.value.query.junctionTable == Some(jt)
            && r.value.query.sql.joins ==
                 [Join(related.table, [JoinOn(jt + "." + ToString(related.foreignKey), related.table + "." + ToString(related.primaryKey))])]
            && |r.value.query.sql.wheres| == 1 && r.value.query.sql.wheres[0].InGroups?
            && r.value.query.sql.wheres[0].column == jt + "." + ToString(fk)
            && r.value.query.sql.wheres[0].groups.keys == names
            && (forall c :: c in names ==> r.value.query.sql.wheres[0].groups.vals[c] == ColumnOf(opts.results, c))
            && r.value.query.sql.columns[1] == Column(jt + "." + ToString(fk), Some("hidden_" + jt + "_" + ToString(fk)))
  {
    PrimaryKeyIds(opts.results, names);
  }

  /** `HasOneOrManyThrough::getLazyLoader` indexes each row with the
      primary-key object, which raises as soon as there is a row. */
  lemma ThroughLoaderFails(rel: Relation, owner: SchemaView, related: SchemaView, opts: LoaderOptions)
    requires rel.shape.HasOneOrManyThrough?
    ensures LazyLoaderOf(rel, owner, related, opts).Err? <==> opts.results != []
  {
  }

  // ---------------------------------------------------------------------
  // HasOneOrManyThrough: link, unlink, linkEntity, unlinkEntity

  /** An item of `link($data, $items)`: an entity of the related class (by
      its record) or a plain value. */
  datatype Item = RelatedEntity(mapper: DataMapper) | Other(value: Value)

  function ItemMappers(items: seq<Item>): set<DataMapper> {
    set i | i in items && i.RelatedEntity? :: i.mapper
  }

  /** The state of each record. */
  type States = map<DataMapper, MapperState>

  function Snapshot(ms: set<DataMapper>): (st: States)
    reads ms
    ensures st.Keys == ms && forall m :: m in ms ==> st[m] == m.State()
  {
    map m | m in ms :: m.State()
  }

  /** What an item contributes: the related primary-key column of its
      record as `getColumn` reads it in state `st`, or the value itself. */
  function ItemValue(item: Item, keyName: string, st: States): Result<Value>
    requires item.RelatedEntity? ==> item.mapper in st
  {
    match item
    case Other(v) => Ok(v)
    case RelatedEntity(m) => ReadColumn(m.env, st[m], keyName).result
  }

  /** The values of the items in order; the first failing read wins. */
  function ItemValues(items: seq<Item>, keyName: string, st: States): Result<seq<Value>>
    requires ItemMappers(items) <= st.Keys
    decreases |items|
  {
    if items == [] then Ok([])
    else
      var init := items[..|items| - 1];
      InitMappers(items);
      var front :- ItemValues(init, keyName, st);
      var last := items[|items| - 1];
      assert last.RelatedEntity? ==> last.mapper in ItemMappers(items);
      var v :- ItemValue(last, keyName, st);
      Ok(front + [v])
  }

  lemma InitMappers(items: seq<Item>)
    requires items != []
    ensures ItemMappers(items[..|items| - 1]) <= ItemMappers(items)
    ensures forall k :: 0 <= k <= |items| ==> ItemMappers(items[..k]) <= ItemMappers(items)
  {
    forall k, i | 0 <= k <= |items| && i in items[..k] ensures i in items { }
  }

  /** A failing prefix decides the outcome: its error is the error. */
  lemma {:induction false} ItemValuesPrefixErr(items: seq<Item>, keyName: string, st: States)
    requires ItemMappers(items) <= st.Keys
    ensures items != [] ==> forall k :: 0 <= k <= |items| ==> ItemMappers(items[..k]) <= st.Keys
    ensures forall k :: 0 <= k <= |items| && ItemMappers(items[..k]) <= st.Keys && ItemValues(items[..k], keyName, st).Err? ==>
              ItemValues(items, keyName, st) == ItemValues(items[..k], keyName, st)
    decreases |items|
  {
    if items != [] {
      var init := items[..|items| - 1];
      InitMappers(items);
      ItemValuesPrefixErr(init, keyName, st);
      forall k | 0 <= k < |items| && ItemMappers(items[..k]) <= st.Keys && ItemValues(items[..k], keyName, st).Err?
        ensures ItemValues(items, keyName, st) == ItemValues(items[..k], keyName, st)
      {
        assert items[..k] == init[..k];
      }
      assert items[..|items|] == items;
    }
  }

  /** Two states in which the key column reads alike give the items the
      same values. */
  lemma {:induction false} ItemValuesAlike(items: seq<Item>, keyName: string, st1: States, st2: States)
    requires ItemMappers(items) <= st1.Keys && ItemMappers(items) <= st2.Keys
    requires forall m :: m in ItemMappers(items) ==> SameReads(m.env, st1[m], st2[m])
    ensures ItemValues(items, keyName, st1) == ItemValues(items, keyName, st2)
    decreases |items|
  {
    if items != [] {
      InitMappers(items);
      ItemValuesAlike(items[..|items| - 1], keyName, st1, st2);
      assert items[|items| - 1].RelatedEntity? ==> items[|items| - 1].mapper in ItemMappers(items);
    }
  }

  /** No read of any column of `m` gives another result than it did in
      state `s`. */
  ghost predicate ReadsAsBefore(m: DataMapper, s: MapperState)
    reads m
  {
    SameReads(m.env, m.State(), s)
  }

  /** Every column reads the same in the two states. */
  ghost predicate SameReads(e: Env, a: MapperState, b: MapperState) {
    forall name :: ReadColumn(e, a, name).result == ReadColumn(e, b, name).result
  }

  lemma SameReadsTrans(e: Env, a: MapperState, b: MapperState, c: MapperState)
    requires SameReads(e, a, b) && SameReads(e, b, c)
    ensures SameReads(e, a, c)
  {
  }

  /** The name `getColumn` receives for a key object: its string form. */
  function KeyName(key: ForeignKey): string {
    ToString(key)
  }

  /** The `foreach ($items ...)` of `unlink`: each item's value in order,
      stopping at the first read that raises. */
  method ReadItems(items: seq<Item>, keyName: string) returns (r: Result<seq<Value>>)
    modifies ItemMappers(items)
    ensures forall m :: m in ItemMappers(items) ==> ReadsAsBefore(m, old(m.State()))
    ensures r == ItemValues(items, keyName, old(Snapshot(ItemMappers(items))))
  {
    ghost var mappers := ItemMappers(items);
    ghost var st := Snapshot(mappers);
    ItemValuesPrefixErr(items, keyName, st);
    var vals: seq<Value> := [];
    var i := 0;
    while i < |items|
      invariant 0 <= i <= |items|
      invariant forall m :: m in mappers ==> ReadsAsBefore(m, st[m])
      invariant ItemValues(items[..i], keyName, st) == Ok(vals)
    {
      assert items[..i + 1][..i] == items[..i];
      var item := items[i];
      if item.RelatedEntity? {
        var m := item.mapper;
        assert m in mappers;
        var v := ReadItemKey(m, keyName, mappers, st);
        if v.Err? {
          assert ItemValues(items[..i + 1], keyName, st) == Err(v.error);
          return Err(v.error);
        }
        vals := vals + [v.value];
      } else {
        vals := vals + [item.value];
      }
      i := i + 1;
    }
    assert items[..i] == items;
    r := Ok(vals);
  }

  /** One item's `getColumn`: it answers as in the snapshot, and every
      record still reads as in the snapshot afterwards. */
  method ReadItemKey(m: DataMapper, keyName: string, ghost mappers: set<DataMapper>, ghost st: States)
    returns (v: Result<Value>)
    requires m in mappers && mappers <= st.Keys
    requires forall mm :: mm in mappers ==> ReadsAsBefore(mm, st[mm])
    modifies m
    ensures v == ReadColumn(m.env, st[m], keyName).result
    ensures forall mm :: mm in mappers ==> ReadsAsBefore(mm, st[mm])
  {
    ghost var before := m.State();
    v := m.GetColumn(keyName);
    ReadColumnKeepsReads(m.env, before, keyName);
    assert SameReads(m.env, m.State(), before);
    SameReadsTrans(m.env, m.State(), before, st[m]);
  }

  /** The reads of `unlink`: the owner's key column, then, unless that
      raises, every item's value. */
  method ReadKeys(data: DataMapper, items: seq<Item>, ownerName: string, keyName: string)
    returns (val1: Result<Value>, vals: Result<seq<Value>>)
    modifies {data} + ItemMappers(items)
    ensures forall m :: m in {data} + ItemMappers(items) ==> ReadsAsBefore(m, old(m.State()))
    ensures val1 == ReadColumn(data.env, old(data.State()), ownerName).result
    ensures val1.Ok? ==> vals == ItemValues(items, keyName, old(Snapshot(ItemMappers(items))))
  {
    ghost var mappers := ItemMappers(items);
    ghost var st0 := Snapshot(mappers);
    ghost var data0 := data.State();
    val1 := data.GetColumn(ownerName);
    ReadColumnKeepsReads(data.env, data0, ownerName);
    ghost var data1 := data.State();
    assert SameReads(data.env, data1, data0);
    if val1.Err? {
      vals := Ok([]);
      return;
    }
    ghost var st1 := Snapshot(mappers);
    forall m | m in mappers ensures SameReads(m.env, st1[m], st0[m]) {
      if m != data {
        assert st1[m] == st0[m];
      }
    }
    ItemValuesAlike(items, keyName, st1, st0);
    vals := ReadItems(items, keyName);
    forall m | m in {data} + mappers ensures ReadsAsBefore(m, old(m.State())) {
      if m == data && data in mappers {
        SameReadsTrans(data.env, data.State(), data1, data0);
      } else if m == data {
        assert data.State() == data1;
      } else {
        assert ReadsAsBefore(m, st1[m]) && st1[m] == st0[m];
      }
    }
  }

  /** `unlink($data, $items)`: the owner's primary key and every item's
      value are read, then one DELETE removes the junction rows of the
      owner whose related column is one of the values; a storage failure
      is ignored. The reads change no later read of any record. */
  method ThroughUnlink(rel: Relation, data: DataMapper, items: seq<Item>, conn: Connection) returns (r: Result<()>)
    requires rel.shape.HasOneOrManyThrough?
    modifies {data} + ItemMappers(items), conn`log
    ensures forall m :: m in {data} + ItemMappers(items) ==> ReadsAsBefore(m, old(m.State()))
    ensures var owner := data.env.schema;
            var related := data.env.resolve(rel.entityClass);
            var val1 := ReadColumn(data.env, old(data.State()), KeyName(owner.primaryKey)).result;
            var vals := ItemValues(items, KeyName(related.primaryKey), old(Snapshot(ItemMappers(items))));
            && (r.Ok? <==> val1.Ok? && vals.Ok?)
            && (val1.Err? ==> r == Err(val1.error))
            && (val1.Ok? && vals.Err? ==> r == Err(vals.error))
            && (r.Err? ==> conn.log == old(conn.log))
            && (r.Ok? ==>
                  var fk := EffectiveForeignKey(rel, owner.foreignKey);
                  conn.log == old(conn.log) + [Delete(JunctionTableName(owner.table, related.table),
                                                      [Eq(ToString(fk), val1.value), In(ToString(related.foreignKey), vals.value)])])
  {
    var owner := data.env.schema;
    var related := data.env.resolve(rel.entityClass);
    var table := JunctionTableName(owner.table, related.table);
    var fk := EffectiveForeignKey(rel, owner.foreignKey);
    ghost var log0 := conn.log;
    var val1, vals := ReadKeys(data, items, KeyName(owner.primaryKey), KeyName(related.primaryKey));
    assert conn.log == log0;
    if val1.Err? {
      return Err(val1.error);
    }
    if vals.Err? {
      return Err(vals.error);
    }
    var st := Delete(table, [Eq(ToString(fk), val1.value), In(ToString(related.foreignKey), vals.value)]);
    ghost var read := Snapshot({data} + ItemMappers(items));
    var _ := conn.Execute(st);
    assert conn.log == log0 + [st];
    assert forall m :: m in {data} + ItemMappers(items) ==> m.State() == read[m];
    r := Ok(());
  }

  /** `link($data, $items)`: without a junction of its own the relation
      cannot build one; otherwise the owner's primary key is read, and the
      first item's insert row, keyed by the foreign-key object, raises
      after that item's value is read. Nothing is written. */
  method ThroughLink(rel: Relation, data: DataMapper, items: seq<Item>, conn: Connection) returns (r: Result<()>)
    requires rel.shape.HasOneOrManyThrough?
    modifies {data} + ItemMappers(items)
    ensures r.Ok? <==> rel.shape.junction.Some? && items == [] &&
                        ReadColumn(data.env, old(data.State()), KeyName(data.env.schema.primaryKey)).result.Ok?
    ensures rel.shape.junction.None? ==> r == Err(LanguageError(TooFewArguments)) && unchanged(data)
    ensures forall m :: m in {data} + ItemMappers(items) ==> ReadsAsBefore(m, old(m.State()))
    ensures conn.log == old(conn.log)
  {
    if rel.shape.junction.None? {
      return Err(LanguageError(TooFewArguments));
    }
    var related := data.env.resolve(rel.entityClass);
    var val1 := data.GetColumn(KeyName(data.env.schema.primaryKey));
    ReadColumnKeepsReads(data.env, old(data.State()), KeyName(data.env.schema.primaryKey));
    if val1.Err? {
      return Err(val1.error);
    }
    if items != [] {
      if items[0].RelatedEntity? {
        var m := items[0].mapper;
        assert m in {data} + ItemMappers(items);
        ghost var before := m.State();
        var v := m.GetColumn(KeyName(related.primaryKey));
        ReadColumnKeepsReads(m.env, before, KeyName(related.primaryKey));
        if v.Err? {
          return Err(v.error);
        }
      }
      return Err(LanguageError(IllegalOffset));
    }
    r := Ok(());
  }

  /** `linkEntity` / `unlinkEntity`: without a junction of its own the
      relation cannot build one; with one, the owner's columns are asked of
      `getColumns()`, which the data mapper does not define. */
  function ThroughEntityLink(rel: Relation, owner: SchemaView, related: SchemaView): (r: Result<bool>)
    requires rel.shape.HasOneOrManyThrough?
    ensures rel.shape.junction.None? ==> r == Err(LanguageError(TooFewArguments))
    ensures rel.shape.junction.Some? ==> r == Err(LanguageError(UndefinedGetColumns))
  {
    var _ :- JunctionOf(rel.shape, owner, related);
    Err(LanguageError(UndefinedGetColumns))
  }
}
