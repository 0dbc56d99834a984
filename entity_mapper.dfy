/** Schema: the per-class schema descriptor (`EntityMapper`). A fluent
    builder sets its fields; lazy getters fill in and memoise the defaults
    (entity name, table, primary key, foreign key, sequence); two
    predicates decide whether soft deletion and timestamps are supported. */
module Schema {
  import opened Values
  import opened Keys
  import opened Queries
  import opened RelationKinds

  /** A getter, setter or event handler: a user callable on a value. */
  type ValueHook = Value -> Value

  /** What a primary-key generator returns: one value or a column map. */
  datatype PkData = PkScalar(v: Value) | PkMap(m: Arr<Value>)

  /** A primary-key generator, given the raw columns of the new record. */
  type PkGenerator = Row -> PkData

  // ---------------------------------------------------------------------
  // The entity name derived from a class name

  predicate IsUpper(c: char) {
    'A' <= c <= 'Z'
  }

  /** Everything after the last backslash (all of `s` when there is none). */
  function AfterLastBackslash(s: string): string
    decreases |s|
  {
    if s == [] then []
    else if s[|s| - 1] == '\\' then []
    else AfterLastBackslash(s[..|s| - 1]) + [s[|s| - 1]]
  }

  /** `preg_replace('/([^A-Z])([A-Z])/', '$1_$2', $s)`: scanning left to
      right, each non-overlapping (non-upper-case, upper-case) pair gets an
      underscore between its two characters. */
  function InsertUnderscores(s: string): string
    decreases |s|
  {
    if |s| < 2 then s
    else if !IsUpper(s[0]) && IsUpper(s[1]) then [s[0], '_', s[1]] + InsertUnderscores(s[2..])
    else [s[0]] + InsertUnderscores(s[1..])
  }

  function LowerChar(c: char): char {
    if IsUpper(c) then (c as int + 32) as char else c
  }

  /** `strtolower` on ASCII letters. */
  function LowerAscii(s: string): (r: string)
    ensures |r| == |s| && forall i :: 0 <= i < |s| ==> r[i] == LowerChar(s[i])
  {
    seq(|s|, i requires 0 <= i < |s| => LowerChar(s[i]))
  }

  /** `str_replace('-', '_', $s)` */
  function DashToUnderscore(s: string): (r: string)
    ensures |r| == |s| && forall i :: 0 <= i < |s| ==> r[i] == (if s[i] == '-' then '_' else s[i])
  {
    seq(|s|, i requires 0 <= i < |s| => if s[i] == '-' then '_' else s[i])
  }

  /** The entity name `getEntityName` derives from a class name. */
  function DerivedEntityName(entityClass: string): string {
    DashToUnderscore(LowerAscii(InsertUnderscores(AfterLastBackslash(entityClass))))
  }

  function EraseUnderscores(s: string): string
    decreases |s|
  {
    if s == [] then [] else (if s[0] == '_' then [] else [s[0]]) + EraseUnderscores(s[1..])
  }

  predicate Lacks(s: string, c: char) {
    forall i :: 0 <= i < |s| ==> s[i] != c
  }

  /** The derived base name is the part of the class name after its last
      backslash: a suffix preceded by a backslash (or all of the name), with
      no backslash of its own. */
  lemma {:induction false} AfterLastBackslashSpec(s: string)
    ensures Lacks(AfterLastBackslash(s), '\\')
    ensures |AfterLastBackslash(s)| <= |s| && AfterLastBackslash(s) == s[|s| - |AfterLastBackslash(s)|..]
    ensures |AfterLastBackslash(s)| < |s| ==> s[|s| - |AfterLastBackslash(s)| - 1] == '\\'
    decreases |s|
  {
    if s != [] && s[|s| - 1] != '\\' {
      var init := s[..|s| - 1];
      var last := s[|s| - 1];
      AfterLastBackslashSpec(init);
      var r0 := AfterLastBackslash(init);
      assert AfterLastBackslash(s) == r0 + [last];
      assert s == init + [last];
      SuffixSnoc(init, last, |r0|);
      if |r0| < |init| {
        assert s[|s| - (|r0| + 1) - 1] == init[|init| - |r0| - 1];
      }
    }
  }

  lemma SuffixSnoc(init: string, last: char, k: nat)
    requires k <= |init|
    ensures (init + [last])[|init| - k..] == init[|init| - k..] + [last]
  {
  }

  /** The underscore insertion only inserts underscores: erasing all
      underscores gives the same text before and after. */
  lemma {:induction false} InsertUnderscoresOnlyInserts(s: string)
    ensures EraseUnderscores(InsertUnderscores(s)) == EraseUnderscores(s)
    decreases |s|
  {
    if |s| >= 2 {
      if !IsUpper(s[0]) && IsUpper(s[1]) {
        InsertUnderscoresOnlyInserts(s[2..]);
        EraseAppend([s[0], '_', s[1]], InsertUnderscores(s[2..]));
        EraseAppend([s[0], s[1]], s[2..]);
        assert s == [s[0], s[1]] + s[2..];
        assert EraseUnderscores([s[0], '_', s[1]]) == EraseUnderscores([s[0], s[1]]) by {
          assert [s[0], '_', s[1]][1..] == ['_', s[1]];
          assert ['_', s[1]][1..] == [s[1]];
          assert [s[0], s[1]][1..] == [s[1]];
        }
      } else {
        InsertUnderscoresOnlyInserts(s[1..]);
        EraseAppend([s[0]], InsertUnderscores(s[1..]));
        EraseAppend([s[0]], s[1..]);
        assert s == [s[0]] + s[1..];
      }
    }
  }

  lemma {:induction false} EraseAppend(a: string, b: string)
    ensures EraseUnderscores(a + b) == EraseUnderscores(a) + EraseUnderscores(b)
    decreases |a|
  {
    if a != [] {
      EraseAppend(a[1..], b);
      assert (a + b)[1..] == a[1..] + b;
      assert (a + b)[0] == a[0];
      assert EraseUnderscores(a + b) ==
        (if a[0] == '_' then [] else [a[0]]) + EraseUnderscores(a[1..] + b);
    } else {
      assert a + b == b;
    }
  }

  /** Every character the insertion produces is an input character or an
      underscore. */
  lemma {:induction false} InsertUnderscoresChars(s: string, c: char)
    requires c != '_' && Lacks(s, c)
    ensures Lacks(InsertUnderscores(s), c)
    decreases |s|
  {
    if |s| >= 2 {
      if !IsUpper(s[0]) && IsUpper(s[1]) {
        InsertUnderscoresChars(s[2..], c);
      } else {
        InsertUnderscoresChars(s[1..], c);
      }
    }
  }

  /** Text without upper-case letters has no pair to split. */
  lemma {:induction false} InsertUnderscoresNoUpper(s: string)
    requires forall i :: 0 <= i < |s| ==> !IsUpper(s[i])
    ensures InsertUnderscores(s) == s
    decreases |s|
  {
    if |s| >= 2 {
      InsertUnderscoresNoUpper(s[1..]);
    }
  }

  /** A derived entity name has no upper-case letter, no dash and no
      backslash; a class name without namespace, upper-case letters and
      dashes is its own entity name. */
  lemma DerivedEntityNameSpec(entityClass: string)
    ensures forall i :: 0 <= i < |DerivedEntityName(entityClass)| ==>
              && !IsUpper(DerivedEntityName(entityClass)[i])
              && DerivedEntityName(entityClass)[i] != '-'
              && DerivedEntityName(entityClass)[i] != '\\'
    ensures (forall i :: 0 <= i < |entityClass| ==>
               !IsUpper(entityClass[i]) && entityClass[i] != '-' && entityClass[i] != '\\') ==>
            DerivedEntityName(entityClass) == entityClass
  {
    var base := AfterLastBackslash(entityClass);
    AfterLastBackslashSpec(entityClass);
    InsertUnderscoresChars(base, '\\');
    CaseFolded(InsertUnderscores(base));
    if forall i :: 0 <= i < |entityClass| ==>
         !IsUpper(entityClass[i]) && entityClass[i] != '-' && entityClass[i] != '\\' {
      assert base == entityClass;
      InsertUnderscoresNoUpper(base);
      assert LowerAscii(base) == base;
      assert DashToUnderscore(base) == base;
    }
  }

  /** Lower-casing and replacing dashes leaves no upper-case letter and no
      dash, and adds no backslash. */
  lemma CaseFolded(s: string)
    requires Lacks(s, '\\')
    ensures var r := DashToUnderscore(LowerAscii(s));
            forall i :: 0 <= i < |r| ==> !IsUpper(r[i]) && r[i] != '-' && r[i] != '\\'
  {
  }

  /** The documented example: the class `App\Entity\UserProfile` maps to
      the entity name `user_profile` and the table `user_profiles`. */
  lemma DerivedEntityNameExample()
    ensures DerivedEntityName("App\\Entity\\UserProfile") == "user_profile"
  {
    BaseNameExample();
    SplitExample("UserProfile");
    LowerExample();
  }

  lemma BaseNameExample()
    ensures AfterLastBackslash("App\\Entity\\UserProfile") == "UserProfile"
  {
    AfterLastBackslashAfter("App\\Entity", "UserProfile");
    assert "App\\Entity\\UserProfile" == "App\\Entity" + ['\\'] + "UserProfile";
  }

  lemma SplitExample(name: string)
    requires name == "UserProfile"
    ensures InsertUnderscores(name) == "User_Profile"
  {
    SplitInner();
    SplitFrom(name, "rProfile", "r_Profile");
  }

  /** Three leading characters that start no word boundary. */
  lemma SplitFrom(s: string, tail: string, t: string)
    requires |s| == |tail| + 3 && s[3..] == tail && |tail| >= 1 && InsertUnderscores(tail) == t
    requires (IsUpper(s[0]) || !IsUpper(s[1])) && (IsUpper(s[1]) || !IsUpper(s[2])) && (IsUpper(s[2]) || !IsUpper(tail[0]))
    ensures InsertUnderscores(s) == [s[0], s[1], s[2]] + t
  {
    assert s[2..][1..] == tail;
    KeepHead(s[2..], t);
    assert s[1..][1..] == s[2..];
    KeepHead(s[1..], [s[2]] + t);
    KeepHead(s, [s[1]] + ([s[2]] + t));
  }

  /** A first character that starts no word boundary is copied as it is. */
  lemma KeepHead(s: string, t: string)
    requires |s| >= 2 && (IsUpper(s[0]) || !IsUpper(s[1])) && InsertUnderscores(s[1..]) == t
    ensures InsertUnderscores(s) == [s[0]] + t
  {
  }

  lemma SplitInner()
    ensures InsertUnderscores("rProfile") == "r_Profile"
  {
    SplitTail();
    var a := "rProfile";
    SplitStep(a);
    assert a[2..] == "rofile";
  }

  lemma SplitTail()
    ensures InsertUnderscores("rofile") == "rofile"
  {
    var rest := "rofile";
    assert !IsUpper(rest[0]) && !IsUpper(rest[1]);
  }

  lemma SplitStep(s: string)
    requires |s| >= 2
    ensures !IsUpper(s[0]) && IsUpper(s[1]) ==> InsertUnderscores(s) == [s[0], '_', s[1]] + InsertUnderscores(s[2..])
    ensures !(!IsUpper(s[0]) && IsUpper(s[1])) ==> InsertUnderscores(s) == [s[0]] + InsertUnderscores(s[1..])
  {
  }

  lemma LowerExample()
    ensures DashToUnderscore(LowerAscii("User_Profile")) == "user_profile"
  {
    var lowered := LowerAscii("User_Profile");
    assert lowered == "user_profile";
    assert DashToUnderscore(lowered) == lowered;
  }

  lemma {:induction false} AfterLastBackslashAfter(p: string, q: string)
    requires Lacks(q, '\\')
    ensures AfterLastBackslash(p + ['\\'] + q) == q
    decreases |q|
  {
    if q != [] {
      var init := q[..|q| - 1];
      AfterLastBackslashAfter(p, init);
      assert (p + ['\\'] + q)[..|p + ['\\'] + q| - 1] == p + ['\\'] + init;
      assert q == init + [q[|q| - 1]];
    } else {
      assert p + ['\\'] + q == p + ['\\'];
    }
  }

  // ---------------------------------------------------------------------
  // Configuration and its defaults

  /** Every field of an `EntityMapper` but the class it maps. */
  datatype Configuration = Configuration(
    entityName: Option<string>,
    table: Option<string>,
    primaryKey: Option<seq<string>>,
    foreignKey: Option<ForeignKey>,
    primaryKeyGenerator: Option<PkGenerator>,
    getters: map<string, ValueHook>,
    setters: map<string, ValueHook>,
    casts: map<string, string>,
    relations: map<string, Relation>,
    sequence: Option<string>,
    softDelete: bool,
    timestamp: bool,
    assignable: Option<seq<string>>,
    guarded: Option<seq<string>>,
    filters: map<string, FilterCallback>,
    softDeleteColumn: string,
    timestampColumns: (string, string),
    eventHandlers: map<string, ValueHook>)

  /** The field values of a freshly constructed `EntityMapper`. */
  function InitialConfiguration(): Configuration {
    Configuration(None, None, None, None, None, map[], map[], map[], map[], None,
                  true, true, None, None, map[], "deleted_at", ("created_at", "updated_at"), map[])
  }

  /** One call of the fluent builder. */
  datatype BuilderStep =
    | SetEntityName(name: string)
    | SetTable(table: string)
    | SetPrimaryKey(columns: seq<string>)
    | SetPrimaryKeyGenerator(generator: PkGenerator)
    | SetSequence(sequence: string)
    | AddGetter(column: string, getter: ValueHook)
    | AddSetter(column: string, setter: ValueHook)
    | AddRelation(relationName: string, relation: Relation)
    | SetCasts(casts: map<string, string>)
    | UseSoftDelete(enabled: bool, deletedAt: Option<string>)
    | UseTimestamp(enabled: bool, createdAt: Option<string>, updatedAt: Option<string>)
    | SetAssignable(columns: seq<string>)
    | SetGuarded(columns: seq<string>)
    | AddFilter(filterName: string, filter: FilterCallback)
    | On(event: string, handler: ValueHook)

  /** What one builder call does to the configuration. */
  function Step(c: Configuration, step: BuilderStep): Configuration {
    match step
    case SetEntityName(name) => c.(entityName := Some(name))
    case SetTable(table) => c.(table := Some(table))
    case SetPrimaryKey(columns) => c.(primaryKey := Some(columns))
    case SetPrimaryKeyGenerator(generator) => c.(primaryKeyGenerator := Some(generator))
    case SetSequence(sequence) => c.(sequence := Some(sequence))
    case AddGetter(column, getter) => c.(getters := c.getters[column := getter])
    case AddSetter(column, setter) => c.(setters := c.setters[column := setter])
    case AddRelation(name, relation) => c.(relations := c.relations[name := relation])
    case SetCasts(casts) => c.(casts := casts)
    case UseSoftDelete(enabled, column) =>
      c.(softDelete := enabled, softDeleteColumn := column.GetOr(c.softDeleteColumn))
    case UseTimestamp(enabled, createdAt, updatedAt) =>
      c.(timestamp := enabled,
         timestampColumns := (createdAt.GetOr(c.timestampColumns.0), updatedAt.GetOr(c.timestampColumns.1)))
    case SetAssignable(columns) => c.(assignable := Some(columns))
    case SetGuarded(columns) => c.(guarded := Some(columns))
    case AddFilter(name, filter) => c.(filters := c.filters[name := filter])
    case On(event, handler) => c.(eventHandlers := c.eventHandlers[event := handler])
  }

  /** A sequence of builder calls, in order. */
  function Configure(c: Configuration, steps: seq<BuilderStep>): Configuration
    decreases |steps|
  {
    if steps == [] then c else Step(Configure(c, steps[..|steps| - 1]), steps[|steps| - 1])
  }

  /** `getEntityName()`: the explicit name, else the one derived from the class. */
  function EntityNameOf(c: Configuration, entityClass: string): string {
    if c.entityName.Some? then c.entityName.value else DerivedEntityName(entityClass)
  }

  /** `getTable()`: the explicit table, else the entity name plus "s". */
  function TableOf(c: Configuration, entityClass: string): string {
    if c.table.Some? then c.table.value else EntityNameOf(c, entityClass) + "s"
  }

  /** The primary-key column names; `id` by default. */
  function PkNamesOf(c: Configuration): seq<string> {
    if c.primaryKey.Some? then c.primaryKey.value else ["id"]
  }

  /** `getPrimaryKey()` */
  function PrimaryKeyOf(c: Configuration): ForeignKey {
    PrimaryKey(PkNamesOf(c))
  }

  /** The column map of the default foreign key: each primary-key column
      `col` => `prefix_col`, in order. */
  function DefaultForeignKeyColumns(pkColumns: seq<string>, prefix: string): Arr<string>
    decreases |pkColumns|
  {
    if pkColumns == [] then EmptyArr()
    else
      var col := pkColumns[|pkColumns| - 1];
      Put(DefaultForeignKeyColumns(pkColumns[..|pkColumns| - 1], prefix), col, prefix + "_" + col)
  }

  /** `getForeignKey()`: the memoised key, else the default one. */
  function ForeignKeyOf(c: Configuration, entityClass: string): ForeignKey {
    if c.foreignKey.Some? then c.foreignKey.value
    else NewForeignKey(DefaultForeignKeyColumns(PrimaryKeyOf(c).Targets(), EntityNameOf(c, entityClass)))
  }

  /** `getSequence()`: the explicit sequence, else `table_pk_seq` with the
      first primary-key column. */
  function SequenceOf(c: Configuration, entityClass: string): string {
    if c.sequence.Some? then c.sequence.value
    else TableOf(c, entityClass) + "_" + PrimaryKeyOf(c).FirstOwner() + "_seq"
  }

  /** Storing the derived sequence changes no getter's answer. */
  lemma SequenceMemoised(c: Configuration, entityClass: string)
    ensures ViewOf(c.(sequence := Some(SequenceOf(c, entityClass))), entityClass) == ViewOf(c, entityClass)
  {
  }

  /** `supportsSoftDelete()` */
  predicate SupportsSoftDelete(c: Configuration) {
    c.softDelete && c.softDeleteColumn in c.casts && c.casts[c.softDeleteColumn] == "?date"
  }

  /** `supportsTimestamp()` */
  predicate SupportsTimestamp(c: Configuration) {
    && c.timestamp
    && c.timestampColumns.0 in c.casts && c.timestampColumns.1 in c.casts
    && c.casts[c.timestampColumns.0] == "date" && c.casts[c.timestampColumns.1] == "?date"
  }

  /** What the rest of the engine reads from a schema: every getter's
      answer, with the defaults filled in. */
  datatype SchemaView = SchemaView(
    entityClass: string,
    table: string,
    primaryKey: ForeignKey,
    foreignKey: ForeignKey,
    sequence: string,
    generator: Option<PkGenerator>,
    getters: map<string, ValueHook>,
    setters: map<string, ValueHook>,
    casts: map<string, string>,
    relations: map<string, Relation>,
    assignable: Option<seq<string>>,
    guarded: Option<seq<string>>,
    filters: map<string, FilterCallback>,
    supportsSoftDelete: bool,
    supportsTimestamp: bool,
    timestampColumns: (string, string))

  function ViewOf(c: Configuration, entityClass: string): SchemaView {
    SchemaView(entityClass, TableOf(c, entityClass), PrimaryKeyOf(c), ForeignKeyOf(c, entityClass),
               SequenceOf(c, entityClass), c.primaryKeyGenerator, c.getters, c.setters, c.casts,
               c.relations, c.assignable, c.guarded, c.filters, SupportsSoftDelete(c),
               SupportsTimestamp(c), c.timestampColumns)
  }

  // ---------------------------------------------------------------------
  // Properties of the defaults

  /** The default foreign key maps each primary-key column `col` to
      `prefix_col`, in primary-key order. */
  lemma {:induction false} DefaultForeignKeyColumnsSpec(pkColumns: seq<string>, prefix: string)
    requires Distinct(pkColumns)
    ensures DefaultForeignKeyColumns(pkColumns, prefix).keys == pkColumns
    ensures forall col :: col in pkColumns ==> DefaultForeignKeyColumns(pkColumns, prefix).vals[col] == prefix + "_" + col
    decreases |pkColumns|
  {
    if pkColumns != [] {
      var init := pkColumns[..|pkColumns| - 1];
      var col := pkColumns[|pkColumns| - 1];
      assert pkColumns == init + [col];
      DistinctSnoc(init, col);
      DefaultForeignKeyColumnsSpec(init, prefix);
    }
  }

  /** Without explicit settings, the table is the derived entity name plus
      "s", the primary key is `id`, the foreign key maps `id` to
      `entity_id`, and the sequence is `table_id_seq`. */
  lemma DefaultsOfFreshSchema(entityClass: string)
    ensures TableOf(InitialConfiguration(), entityClass) == DerivedEntityName(entityClass) + "s"
    ensures PrimaryKeyOf(InitialConfiguration()).Owners() == ["id"]
    ensures !PrimaryKeyOf(InitialConfiguration()).composite
    ensures ForeignKeyOf(InitialConfiguration(), entityClass).Owners() == ["id"]
    ensures ForeignKeyOf(InitialConfiguration(), entityClass).Targets() == [DerivedEntityName(entityClass) + "_id"]
    ensures SequenceOf(InitialConfiguration(), entityClass) == DerivedEntityName(entityClass) + "s_id_seq"
  {
    var c := InitialConfiguration();
    PrimaryKeyTargets(["id"]);
    DefaultForeignKeyColumnsSpec(["id"], DerivedEntityName(entityClass));
    assert ForeignKeyOf(c, entityClass).Targets()[0] == DerivedEntityName(entityClass) + "_id";
  }

  /** The default foreign key of any schema: keyed by the primary-key
      columns in order, each `col` mapped to `entityName_col`; composite
      exactly when the primary key has several columns. */
  lemma DefaultForeignKeySpec(c: Configuration, entityClass: string)
    requires c.foreignKey.None? && Distinct(PkNamesOf(c))
    ensures ForeignKeyOf(c, entityClass).Owners() == PkNamesOf(c)
    ensures forall i :: 0 <= i < |PkNamesOf(c)| ==>
              ForeignKeyOf(c, entityClass).Targets()[i] == EntityNameOf(c, entityClass) + "_" + PkNamesOf(c)[i]
    ensures ForeignKeyOf(c, entityClass).composite <==> |PkNamesOf(c)| > 1
  {
    PrimaryKeyTargets(PkNamesOf(c));
    DefaultForeignKeyColumnsSpec(PkNamesOf(c), EntityNameOf(c, entityClass));
  }

  /** Soft deletion is on by default only once `deleted_at` is cast exactly
      to `?date`; `useSoftDelete` with a column moves the test to that
      column, and switching it off disables it whatever the casts. */
  lemma SoftDeleteSwitch(c: Configuration, enabled: bool, column: string)
    ensures SupportsSoftDelete(Step(c, UseSoftDelete(enabled, Some(column)))) <==>
              enabled && column in c.casts && c.casts[column] == "?date"
    ensures SupportsSoftDelete(Step(c, UseSoftDelete(enabled, None))) <==>
              enabled && c.softDeleteColumn in c.casts && c.casts[c.softDeleteColumn] == "?date"
    ensures SupportsSoftDelete(Step(InitialConfiguration(), SetCasts(map["deleted_at" := "?date"])))
    ensures !SupportsSoftDelete(Step(InitialConfiguration(), SetCasts(map["deleted_at" := "date"])))
  {
  }

  /** Timestamps need the created column cast exactly to `date` and the
      updated column exactly to `?date`; `useTimestamp` replaces only the
      column names it is given. */
  lemma TimestampSwitch(c: Configuration, enabled: bool, createdAt: Option<string>, updatedAt: Option<string>)
    ensures Step(c, UseTimestamp(enabled, createdAt, updatedAt)).timestampColumns.0 ==
              (if createdAt.Some? then createdAt.value else c.timestampColumns.0)
    ensures Step(c, UseTimestamp(enabled, createdAt, updatedAt)).timestampColumns.1 ==
              (if updatedAt.Some? then updatedAt.value else c.timestampColumns.1)
    ensures SupportsTimestamp(Step(InitialConfiguration(),
              SetCasts(map["created_at" := "date", "updated_at" := "?date"])))
    ensures !SupportsTimestamp(Step(InitialConfiguration(),
              SetCasts(map["created_at" := "?date", "updated_at" := "?date"])))
    ensures !SupportsTimestamp(Step(c, UseTimestamp(false, createdAt, updatedAt)))
  {
  }

  /** `cast()` replaces the whole cast map: earlier casts do not survive. */
  lemma CastsReplaced(c: Configuration, casts: map<string, string>)
    ensures Step(c, SetCasts(casts)).casts == casts
    ensures forall col :: col in c.casts && col !in casts ==> col !in Step(c, SetCasts(casts)).casts
  {
  }

  // ---------------------------------------------------------------------
  // The schema object

  class EntityMapper {
    const entityClass: string
    var entityName: Option<string>
    var table: Option<string>
    var primaryKey: Option<seq<string>>
    var foreignKey: Option<ForeignKey>
    var primaryKeyGenerator: Option<PkGenerator>
    var getters: map<string, ValueHook>
    var setters: map<string, ValueHook>
    var casts: map<string, string>
    var relations: map<string, Relation>
    var sequence: Option<string>
    var softDelete: bool
    var timestamp: bool
    var assignable: Option<seq<string>>
    var guarded: Option<seq<string>>
    var filters: map<string, FilterCallback>
    var softDeleteColumn: string
    var timestampColumns: (string, string)
    var eventHandlers: map<string, ValueHook>

    function Config(): Configuration
      reads this
    {
      Configuration(entityName, table, primaryKey, foreignKey, primaryKeyGenerator, getters, setters,
                    casts, relations, sequence, softDelete, timestamp, assignable, guarded, filters,
                    softDeleteColumn, timestampColumns, eventHandlers)
    }

    /** What the getters answer now. */
    function View(): SchemaView
      reads this
    {
      ViewOf(Config(), entityClass)
    }

    constructor (entityClass: string)
      ensures this.entityClass == entityClass && Config() == InitialConfiguration()
    {
      this.entityClass := entityClass;
      entityName := None;
      table := None;
      primaryKey := None;
      foreignKey := None;
      primaryKeyGenerator := None;
      getters := map[];
      setters := map[];
      casts := map[];
      relations := map[];
      sequence := None;
      softDelete := true;
      timestamp := true;
      assignable := None;
      guarded := None;
      filters := map[];
      softDeleteColumn := "deleted_at";
      timestampColumns := ("created_at", "updated_at");
      eventHandlers := map[];
    }

    method EntityName(name: string)
      modifies this`entityName
      ensures Config() == Step(old(Config()), SetEntityName(name))
    {
      entityName := Some(name);
    }

    method Table(t: string)
      modifies this`table
      ensures Config() == Step(old(Config()), SetTable(t))
    {
      table := Some(t);
    }

    method PrimaryKey(columns: seq<string>)
      modifies this`primaryKey
      ensures Config() == Step(old(Config()), SetPrimaryKey(columns))
    {
      primaryKey := Some(columns);
    }

    method PrimaryKeyGenerator(generator: PkGenerator)
      modifies this`primaryKeyGenerator
      ensures Config() == Step(old(Config()), SetPrimaryKeyGenerator(generator))
    {
      primaryKeyGenerator := Some(generator);
    }

    method Sequence(s: string)
      modifies this`sequence
      ensures Config() == Step(old(Config()), SetSequence(s))
    {
      sequence := Some(s);
    }

    method Getter(column: string, getter: ValueHook)
      modifies this`getters
      ensures Config() == Step(old(Config()), AddGetter(column, getter))
    {
      getters := getters[column := getter];
    }

    method Setter(column: string, setter: ValueHook)
      modifies this`setters
      ensures Config() == Step(old(Config()), AddSetter(column, setter))
    {
      setters := setters[column := setter];
    }

    /** What the relation factory's callback does with the built relation. */
    method Relation(name: string, relation: Relation)
      modifies this`relations
      ensures Config() == Step(old(Config()), AddRelation(name, relation))
    {
      relations := relations[name := relation];
    }

    method Cast(newCasts: map<string, string>)
      modifies this`casts
      ensures Config() == Step(old(Config()), SetCasts(newCasts))
    {
      casts := newCasts;
    }

    method UseSoftDelete(enabled: bool, column: Option<string>)
      modifies this`softDelete, this`softDeleteColumn
      ensures Config() == Step(old(Config()), BuilderStep.UseSoftDelete(enabled, column))
    {
      softDelete := enabled;
      if column.Some? {
        softDeleteColumn := column.value;
      }
    }

    method UseTimestamp(enabled: bool, createdAt: Option<string>, updatedAt: Option<string>)
      modifies this`timestamp, this`timestampColumns
      ensures Config() == Step(old(Config()), BuilderStep.UseTimestamp(enabled, createdAt, updatedAt))
    {
      ghost var c0 := Config();
      timestamp := enabled;
      timestampColumns := (createdAt.GetOr(timestampColumns.0), updatedAt.GetOr(timestampColumns.1));
      assert Config() == c0.(timestamp := enabled, timestampColumns := timestampColumns);
    }

    method Assignable(columns: seq<string>)
      modifies this`assignable
      ensures Config() == Step(old(Config()), SetAssignable(columns))
    {
      assignable := Some(columns);
    }

    method Guarded(columns: seq<string>)
      modifies this`guarded
      ensures Config() == Step(old(Config()), SetGuarded(columns))
    {
      guarded := Some(columns);
    }

    method Filter(name: string, filter: FilterCallback)
      modifies this`filters
      ensures Config() == Step(old(Config()), AddFilter(name, filter))
    {
      filters := filters[name := filter];
    }

    method On(event: string, handler: ValueHook)
      modifies this`eventHandlers
      ensures Config() == Step(old(Config()), BuilderStep.On(event, handler))
    {
      eventHandlers := eventHandlers[event := handler];
    }

    /** Run one builder call. */
    method Apply(step: BuilderStep)
      modifies this
      ensures Config() == Step(old(Config()), step)
    {
      match step
      case SetEntityName(name) => EntityName(name);
      case SetTable(t) => Table(t);
      case SetPrimaryKey(columns) => PrimaryKey(columns);
      case SetPrimaryKeyGenerator(generator) => PrimaryKeyGenerator(generator);
      case SetSequence(s) => Sequence(s);
      case AddGetter(column, getter) => Getter(column, getter);
      case AddSetter(column, setter) => Setter(column, setter);
      case AddRelation(name, relation) => Relation(name, relation);
      case SetCasts(newCasts) => Cast(newCasts);
      case UseSoftDelete(enabled, column) => UseSoftDelete(enabled, column);
      case UseTimestamp(enabled, createdAt, updatedAt) => UseTimestamp(enabled, createdAt, updatedAt);
      case SetAssignable(columns) => Assignable(columns);
      case SetGuarded(columns) => Guarded(columns);
      case AddFilter(name, filter) => Filter(name, filter);
      case On(event, handler) => On(event, handler);
    }

    /** Run a mapping callback, given as the builder calls it makes. */
    method Run(steps: seq<BuilderStep>)
      modifies this
      ensures Config() == Configure(old(Config()), steps)
    {
      var i := 0;
      while i < |steps|
        invariant 0 <= i <= |steps|
        invariant Config() == Configure(old(Config()), steps[..i])
      {
        assert steps[..i + 1][..i] == steps[..i];
        Apply(steps[i]);
        i := i + 1;
      }
      assert steps[..i] == steps;
    }

    /** `getEntityName()`: the answer does not change, it is only stored. */
    method GetEntityName() returns (name: string)
      modifies this`entityName
      ensures name == old(EntityNameOf(Config(), entityClass))
      ensures entityName == Some(name)
      ensures View() == old(View())
    {
      if entityName.None? {
        entityName := Some(DerivedEntityName(entityClass));
      }
      name := entityName.value;
    }

    /** `getTable()` */
    method GetTable() returns (t: string)
      modifies this`table, this`entityName
      ensures t == old(View().table)
      ensures table == Some(t)
      ensures View() == old(View())
    {
      if table.None? {
        var name := GetEntityName();
        table := Some(name + "s");
      }
      t := table.value;
    }

    /** `getPrimaryKey()` */
    method GetPrimaryKey() returns (pk: ForeignKey)
      modifies this`primaryKey
      ensures pk == old(View().primaryKey)
      ensures primaryKey.Some?
      ensures View() == old(View())
    {
      if primaryKey.None? {
        primaryKey := Some(["id"]);
      }
      pk := Keys.PrimaryKey(primaryKey.value);
    }

    /** `getForeignKey()` */
    method GetForeignKey() returns (fk: ForeignKey)
      modifies this`foreignKey, this`primaryKey, this`entityName
      ensures fk == old(View().foreignKey)
      ensures foreignKey == Some(fk)
      ensures View() == old(View())
    {
      if foreignKey.None? {
        var pk := GetPrimaryKey();
        var prefix := GetEntityName();
        foreignKey := Some(NewForeignKey(DefaultForeignKeyColumns(pk.Targets(), prefix)));
      }
      fk := foreignKey.value;
    }

    /** `getSequence()` */
    method GetSequence() returns (s: string)
      modifies this`sequence, this`table, this`entityName, this`primaryKey
      ensures s == old(View().sequence)
      ensures sequence == Some(s)
      ensures View() == old(View())
    {
      if sequence.None? {
        var t := GetTable();
        var pk := GetPrimaryKey();
        ghost var c1 := Config();
        sequence := Some(t + "_" + pk.FirstOwner() + "_seq");
        assert Config() == c1.(sequence := Some(SequenceOf(c1, entityClass)));
        SequenceMemoised(c1, entityClass);
      }
      s := sequence.value;
    }
  }
}
