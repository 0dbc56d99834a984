# opis/orm mapping engine, modelled in Dafny

This project models the core of opis/orm, a PHP object-relational mapper: the
engine that turns table rows into entities and entities back into rows.

- **Schema** (`entity_mapper.dfy`): the per-class `EntityMapper` is a class whose
  fluent builder calls update its fields. Its getters supply the defaults: the
  entity name derived from the class name, the table `<entity>s`, the primary
  key `id`, the foreign key `<entity>_<pk>`, the sequence
  `<table>_<pk>_seq`, and the soft-delete and timestamp switches.
- **Keys** (`foreign_key.dfy`): a `ForeignKey` maps owner-side columns to
  related-side columns. `getValue`, `getInverseValue` and `extractValue`
  re-key a row through it.
- **Record state** (`data_mapper.dfy`): the `DataMapper` class holds one
  record's raw and cached columns, the modified set, related results, lazy
  loaders, pending links and the new, read-only, deleted and stale flags.
  Each of its methods is proved against a function on a `MapperState` value,
  and the lemmas next to those functions state what the source promises:
  - the column round trip through the casts, setters and getters;
  - memoisation, and that hydration settles after one call;
  - the guards and their order;
  - the effects of `markAsSaved`, `markAsUpdated` and `link`.
- **Relations** (`relation.dfy`, `relation_plans.dfy`, `relations.dfy`): the four
  relation shapes (`BelongsTo`, `HasOneOrMany`, `ShareOneOrMany`,
  `HasOneOrManyThrough`):
  - the query each `getResult` plans;
  - the loader each `getLazyLoader` builds from a batch of owner rows;
  - the key copy of `addRelatedEntity`;
  - the junction writes of `HasOneOrManyThrough`.
- **Queries** (`query.dfy`, `entity_query.dfy`): the `EntityQuery` class. Its
  filters, `find`, `get`, `all`, `delete` and `update` work over a query
  value, and a connection logs every write it issues.
- **Entities and the manager** (`entity.dfy`, `entity_manager.dfy`):
  - the lazily built mapper of an `Entity`;
  - `EntityManager::save` and `delete`, each proved against a specification
    of the statements written and the record's new state;
  - the memoised, reflection-checked resolution of entity mappers.

The database is an oracle (`Queries.Storage`). It gives the rows a SELECT
returns, the outcome of each write and the value `lastInsertId` reports. The
current time enters as a parameter. PHP exceptions become `Err` values
of a `Result`, and the messages are kept where the source fixes them.

## Model

| member | source | states |
|---|---|---|
| Values.UniqueFromSpec | src/Relations/BelongsTo.php:79 | `array_unique` keeps pairwise distinct string forms, loses no string form of the input, keeps only input elements, and skips what was already seen; what it keeps is the input at increasing positions that are exactly the first occurrences of the string forms not yet seen |
| Values.UniqueBySpec | src/Relations/BelongsTo.php:79 | from an empty seen set: distinct string forms, only input values, every input value represented, and the kept values are exactly the first occurrence of each string form, in input order |
| Values.LeadingDigits | src/Core/DataMapper.php:470 | the digits `(int)` reads from a string are its longest digit-only prefix: the whole string, or a prefix followed by a non-digit |
| Values.IntStringRoundTrip | src/Core/DataMapper.php:470 | `(int)(string)$i == $i` for every 64-bit integer; a wider number reads back as `PHP_INT_MAX` or `PHP_INT_MIN` |
| Keys.NewForeignKey | src/Core/ForeignKey.php:32-36 | the key stores the given columns and is composite exactly when it has more than one |
| Keys.GetValueSingle | src/Core/ForeignKey.php:59-72 | a non-composite key read without `$map` yields the row's value under its one owner-side column, or null |
| Keys.GetValueMapped | src/Core/ForeignKey.php:59-72 | the array form is keyed by exactly the related-side names; with distinct names, in order, each bound to the owner-side value or null |
| Keys.GetInverseValueMapped | src/Core/ForeignKey.php:79-92 | the inverse array form is keyed by the owner-side names in order, each read under its related-side name or null |
| Keys.InverseOfValue | src/Core/ForeignKey.php:59-92 | round trip: the inverse of a row's mapped value is that row restricted to the owner-side names |
| Keys.ExtractValueMapped | src/Core/ForeignKey.php:99-112 | `extractValue($row, true)` is the row restricted to the related-side names, in key order |
| Keys.RekeyDistinct | src/Core/ForeignKey.php:59-112 | re-keying through distinct destination names yields those names in order, each bound to its source value or the default |
| Keys.IdentityArrShape | src/Core/EntityMapper.php:286 | a primary key maps each of its column names to itself and to nothing else |
| Keys.IdentityArrOrder | src/Core/EntityMapper.php:116 | without repeated names the primary key's columns keep the given order |
| Keys.PrimaryKeyTargets | src/Core/DataMapper.php:391 | both sides of a primary key are its column names, and it is composite exactly when it has several |
| Queries.Where | src/Core/EntityQuery.php:207 | `where(...)->is(...)` appends exactly one condition and changes nothing else of the query |
| Queries.QueryRun | src/Core/EntityQuery.php:241-273 | the sent query adds the table (the junction table for a locked many-to-many query); an unlocked query with explicit columns also selects the key columns; the `deleted_at` filter applies by the soft-delete flags; joins and earlier conditions stay |
| Queries.FirstRow | src/Core/DataMapper.php:543 | `first()` is absent exactly when the result is empty, otherwise the first row |
| Queries.Connection.Execute | src/Core/EntityQuery.php:138-145 | a write is appended to the log and its outcome is the storage's |
| RelationKinds.WithQueryCallback | src/Core/Relation.php:43-47 | `query($callback)` stores the callback and keeps class, key and shape |
| RelationKinds.MemoisedForeignKeyStable | src/Relations/HasOneOrMany.php:115-117 | once the key is memoised a later default does not change it, and memoising keeps this call's key |
| RelationPlans.JunctionTableNameSpec | src/Relations/ShareOneOrMany.php:213-215 | the junction table name is symmetric in the two tables: the smaller name, `_`, the other |
| RelationPlans.JunctionTableNameExample | src/Relations/ShareOneOrMany.php:213-215 | example: `users` and `tags` share the junction `tags_users` whichever side asks (the general rule is `JunctionTableNameSpec`) |
| RelationPlans.BuildJunction | src/Relations/ShareOneOrMany.php:208-218 | the default junction has the sorted table name and the related schema's foreign-key columns |
| RelationPlans.JunctionOf | src/Relations/HasOneOrManyThrough.php:379-389 | an explicit junction is used as is; without one only `ShareOneOrMany` builds the default and `HasOneOrManyThrough` raises |
| RelationPlans.EqConditions | src/Relations/ShareOneOrMany.php:184-186 | one equality per array entry, in order, on the prefixed column |
| RelationPlans.JunctionJoin | src/Relations/ShareOneOrMany.php:178-182 | the join has one condition per junction pair: junction column equals related primary-key column |
| RelationPlans.Fetch | src/Relations/HasOneOrMany.php:136 | `all()` gives every row; `get()` gives nothing exactly when there is no row, else the first row |
| RelationPlans.BelongsToConditions | src/Relations/BelongsTo.php:101-128 | one equality per related primary-key column on the owner's foreign-key value; a single entity; no join |
| RelationPlans.HasOneOrManyConditions | src/Relations/HasOneOrMany.php:109-137 | one equality per related foreign-key column on the owner's primary-key value; many exactly when the relation has many |
| RelationPlans.KeyConditions | src/Relations/HasOneOrMany.php:122-124 | the equalities on a row's key values name the related-side columns and read the owner-side values |
| RelationPlans.ShareConditions | src/Relations/ShareOneOrMany.php:136-201 | the query runs on the junction table, joins the related table on every junction pair, filters the junction's foreign-key columns by the owner's values and selects the related table's columns |
| RelationPlans.ThroughResultFails | src/Relations/HasOneOrManyThrough.php:307-372 | `HasOneOrManyThrough::getResult` always raises: no default junction, or an undefined `getColumns()` |
| RelationPlans.CallbackOrder | src/Relations/HasOneOrMany.php:126-134 | the relation's own callback sees the query before the caller's callback |
| RelationPlans.ShareQueryLocked | src/Relations/ShareOneOrMany.php:165-170 | a many-to-many query is locked onto the junction table and never adds the primary key to the selected columns |
| Schema.LowerAscii | src/Core/EntityMapper.php:453 | `strtolower` lowers each character and keeps the length |
| Schema.DashToUnderscore | src/Core/EntityMapper.php:454 | `str_replace('-', '_', ...)` replaces exactly the dashes |
| Schema.AfterLastBackslashSpec | src/Core/EntityMapper.php:450-452 | the base name is the suffix after the last backslash and holds no backslash |
| Schema.InsertUnderscoresOnlyInserts | src/Core/EntityMapper.php:453 | the `preg_replace` only inserts underscores |
| Schema.InsertUnderscoresChars | src/Core/EntityMapper.php:453 | the replacement adds no character other than `_` |
| Schema.InsertUnderscoresNoUpper | src/Core/EntityMapper.php:453 | text without upper-case letters is left as it is |
| Schema.DerivedEntityNameSpec | src/Core/EntityMapper.php:445-459 | a derived entity name has no upper-case letter, dash or backslash; a name that already qualifies is kept |
| Schema.DerivedEntityNameExample | src/Core/EntityMapper.php:445-459 | example: `App\Entity\UserProfile` becomes `user_profile` (the general rule is `DerivedEntityNameSpec`) |
| Schema.SequenceMemoised | src/Core/EntityMapper.php:365-371 | storing the derived sequence changes no getter's answer |
| Schema.DefaultForeignKeyColumnsSpec | src/Core/EntityMapper.php:316-323 | the default foreign key maps each primary-key column `c`, in order, to `prefix_c` |
| Schema.DefaultsOfFreshSchema | src/Core/EntityMapper.php:271-371 | defaults: table `<entity>s`, key `id`, foreign key `id` to `<entity>_id`, sequence `<entity>s_id_seq` |
| Schema.DefaultForeignKeySpec | src/Core/EntityMapper.php:304-328 | the default foreign key follows the primary-key columns, prefixed by the entity name, composite exactly when the primary key is |
| Schema.SoftDeleteSwitch | src/Core/EntityMapper.php:188-195 | soft delete is on exactly when enabled and its column is cast exactly to `?date`, also when `useSoftDelete` moves it to another column (test at lines 376-380) |
| Schema.TimestampSwitch | src/Core/EntityMapper.php:203-216 | `useTimestamp` replaces only the column names it is given; timestamps need `date` and `?date` casts (test at lines 393-398) |
| Schema.CastsReplaced | src/Core/EntityMapper.php:177-181 | `cast()` replaces the whole cast map |
| Schema.EntityMapper.constructor | src/Core/EntityMapper.php:85-88 | a new mapper holds the class and the initial configuration |
| Schema.EntityMapper.EntityName | src/Core/EntityMapper.php:94-98 | the configuration after `entityName()` is one builder step of the one before |
| Schema.EntityMapper.Table | src/Core/EntityMapper.php:104-108 | as above, for `table()` |
| Schema.EntityMapper.PrimaryKey | src/Core/EntityMapper.php:114-118 | as above, for `primaryKey()` |
| Schema.EntityMapper.PrimaryKeyGenerator | src/Core/EntityMapper.php:124-128 | as above, for `primaryKeyGenerator()` |
| Schema.EntityMapper.Sequence | src/Core/EntityMapper.php:134-138 | as above, for `sequence()` |
| Schema.EntityMapper.Getter | src/Core/EntityMapper.php:145-149 | as above, for `getter()` |
| Schema.EntityMapper.Setter | src/Core/EntityMapper.php:156-160 | as above, for `setter()` |
| Schema.EntityMapper.Relation | src/Core/EntityMapper.php:166-171 | as above, for `relation()` |
| Schema.EntityMapper.Cast | src/Core/EntityMapper.php:177-181 | as above, for `cast()` |
| Schema.EntityMapper.UseSoftDelete | src/Core/EntityMapper.php:188-195 | as above, for `useSoftDelete()` |
| Schema.EntityMapper.UseTimestamp | src/Core/EntityMapper.php:203-216 | as above, for `useTimestamp()` |
| Schema.EntityMapper.Assignable | src/Core/EntityMapper.php:222-226 | as above, for `assignable()` |
| Schema.EntityMapper.Guarded | src/Core/EntityMapper.php:232-236 | as above, for `guarded()` |
| Schema.EntityMapper.Filter | src/Core/EntityMapper.php:243-247 | as above, for `filter()` |
| Schema.EntityMapper.On | src/Core/EntityMapper.php:252-256 | as above, for `on()` |
| Schema.EntityMapper.Apply | src/Core/EntityMapper.php:94-256 | any one builder call moves the configuration by that step |
| Schema.EntityMapper.Run | src/EntityManager.php:260-264 | a mapping callback's calls, run in order, give the configuration of those steps |
| Schema.EntityMapper.GetEntityName | src/Core/EntityMapper.php:445-459 | returns the derived or configured name, stores it, and changes no getter's answer |
| Schema.EntityMapper.GetTable | src/Core/EntityMapper.php:271-278 | returns the effective table, stores it, and changes no getter's answer |
| Schema.EntityMapper.GetPrimaryKey | src/Core/EntityMapper.php:283-289 | returns the effective primary key, stores one, and changes no getter's answer |
| Schema.EntityMapper.GetForeignKey | src/Core/EntityMapper.php:304-328 | returns the effective foreign key, stores it, and changes no getter's answer |
| Schema.EntityMapper.GetSequence | src/Core/EntityMapper.php:365-371 | returns the effective sequence, stores it, and changes no getter's answer |
| Mapper.AssignedKeys | src/Core/DataMapper.php:362-372 | `assign` keeps only columns it was given |
| Mapper.AssignedKeysSpec | src/Core/DataMapper.php:362-372 | a column is kept exactly when the allow-list names it, or, without one, when the guarded list does not |
| Mapper.FilterNames | src/Core/DataMapper.php:365-369 | keeps exactly the names that are (or are not) on the list |
| Mapper.LookupName | src/Core/DataMapper.php:276-278 | the looked-up relation name is no longer than the full name |
| Mapper.LookupNameSpec | src/Core/DataMapper.php:276-278 | a name without ':' is looked up as is; otherwise by what follows its first ':' |
| Mapper.NullColumnsSpec | src/Core/DataMapper.php:393-395 | on a composite key with a scalar id every key column becomes null, every other column keeps its value |
| Mapper.NullingColumns | src/Core/DataMapper.php:393-395 | the loop computes the columns of `NullColumnsSpec` |
| Mapper.FlushedSpec | src/Core/DataMapper.php:436-449 | flushing the queue changes nothing and succeeds exactly when the queue is empty |
| Mapper.SetColumnsEffect | src/Core/DataMapper.php:362-372 | writing columns one by one fails exactly when some value cannot be stored; on success exactly those columns become modified, uncached and hold their stored values, and the rest is unchanged |
| Mapper.ConstructLoaded | src/Core/DataMapper.php:80-99 | a loaded record, or one without columns, keeps its columns verbatim and starts unmodified |
| Mapper.ConstructNew | src/Core/DataMapper.php:80-99 | a new record with columns is built exactly when every surviving column can be stored; raw and modified are then exactly the surviving columns |
| Mapper.ConstructNewReadOnly | src/Core/DataMapper.php:95-97 | a new read-only record given columns raises the read-only error |
| Mapper.HydratedIdempotent | src/Core/DataMapper.php:530-554 | hydration is idempotent, marks the record deleted when its row is gone, and leaves a live record not stale |
| Mapper.ReadColumnMemoised | src/Core/DataMapper.php:169-205 | a successful `getColumn` is cached: reading again gives the same value and state |
| Mapper.ReadColumnKeepsReads | src/Core/DataMapper.php:169-205 | a read changes no later read of any column |
| Mapper.ReadColumnChecks | src/Core/DataMapper.php:169-186 | checks in order: a deleted record raises, then the cache answers, then an unknown column raises a not-found error |
| Mapper.PrimaryKeyGetter | src/Core/DataMapper.php:194-196 | for every primary key: a single-column key's column skips its getter, while each column of a composite key still goes through its getter, because the key's string form `implode(', ', ...)` is longer than any of its columns |
| Mapper.PrimaryKeyGetterExample | src/Core/DataMapper.php:194-196 | example: with the key (a, b) the string form is "a, b" and `a` keeps its getter; with the key (a) it skips it (the general rule is `PrimaryKeyGetter`) |
| Mapper.WriteColumnGuards | src/Core/DataMapper.php:211-258 | `setColumn` refuses a read-only record first, then a deleted one; `setRawColumn` writes and marks the column either way |
| Mapper.WriteColumnEffect | src/Core/DataMapper.php:211-239 | on a live record `setColumn` succeeds exactly when the value can be stored, and then changes exactly that column |
| Mapper.WriteThenRead | src/Core/DataMapper.php:169-239 | round trip: after `setColumn` the column reads back the stored value through its cast and getter |
| Mapper.IntColumnRoundTrip | src/Core/DataMapper.php:456-525 | example: with an `int` cast, writing "5" reads back 5 (the general rule is `WriteThenRead` with `CastRoundTrip`) |
| Mapper.CastRoundTrip | src/Core/DataMapper.php:456-525 | `castGet` undoes `castSet` for the integer and string casts |
| Mapper.BoolCastRoundTrip | src/Core/DataMapper.php:476-478 | a boolean is stored as 0 or 1 and read back as itself |
| Mapper.NullableCasts | src/Core/DataMapper.php:460-466 | the `?` casts pass null through both ways |
| Mapper.BoolCastOfText | src/Core/DataMapper.php:476-513 | a non-numeric string stored under a `bool` cast becomes 0 and reads back false |
| Mapper.UnknownCast | src/Core/DataMapper.php:486 | an unknown cast raises both ways, naming the cast |
| Mapper.DateCastSet | src/Core/DataMapper.php:516-518 | a `date` cast stores a value exactly when it is a `DateTime`, raises the `format()` error on anything else (null too when the cast is not nullable), and the stored text reads back as a `DateTime` |
| Mapper.DateColumnRefusesText | src/Core/DataMapper.php:211-239 | `setColumn` of a string on a `date` column without a setter raises and changes nothing |
| Mapper.ReadRelatedSpec | src/Core/DataMapper.php:265-294 | a cached name answers first; an unknown relation raises with the state unchanged; a result is cached under the full name and asked again returns it |
| Mapper.PrefixedLoaderFails | src/Core/DataMapper.php:288-289 | a loader found under `author:user` is read under `user` and raises |
| Mapper.LinkSpec | src/Core/DataMapper.php:561-579 | `link`/`unlink` queue one entry exactly for a `ShareOneOrMany` relation and otherwise raise, changing nothing |
| Mapper.SavedSimpleKey | src/Core/DataMapper.php:386-405 | on a simple key the id lands in the key column, the record is stale, not new and unmodified; true exactly when no link is pending |
| Mapper.SavedCompositeKey | src/Core/DataMapper.php:386-405 | on a composite key a string id raises before any change, and any other scalar id writes null into every key column |
| Mapper.UpdatedSpec | src/Core/DataMapper.php:411-423 | `markAsUpdated($t)` writes and uncaches the updated column only when `$t` is given, clears the modified set; true exactly when no link is pending |
| Mapper.QueuedLinkBlocksSave | src/Core/DataMapper.php:386-449 | once a link is queued, `markAsSaved` and `markAsUpdated` raise and the entry stays |
| Mapper.DataMapper.constructor | src/Core/DataMapper.php:80-93 | the fields as the constructor first sets them |
| Mapper.DataMapper.SetState | src/Core/DataMapper.php:80-99 | the record takes the given state |
| Mapper.DataMapper.Hydrate | src/Core/DataMapper.php:530-554 | the new state is `Hydrated` of the old |
| Mapper.DataMapper.GetColumn | src/Core/DataMapper.php:169-205 | result and new state are `ReadColumn` of the old state |
| Mapper.DataMapper.SetColumn | src/Core/DataMapper.php:211-239 | result and new state are `WriteColumn` of the old state |
| Mapper.DataMapper.ClearColumn | src/Core/DataMapper.php:244-247 | only the cached value of the column is dropped |
| Mapper.DataMapper.SetRawColumn | src/Core/DataMapper.php:253-258 | the raw value is written, the cache dropped, the column marked modified |
| Mapper.DataMapper.Assign | src/Core/DataMapper.php:362-372 | result and new state are `AssignColumns` of the old state |
| Mapper.DataMapper.Stale | src/Core/DataMapper.php:377-380 | only the stale flag is set |
| Mapper.DataMapper.GetRelated | src/Core/DataMapper.php:265-294 | result and new state are `ReadRelated` of the old state |
| Mapper.DataMapper.ClearRelated | src/Core/DataMapper.php:326-339 | the cached result (and, when asked, the loader) of the name is dropped |
| Mapper.DataMapper.Link | src/Core/DataMapper.php:345-348 | result and new state are `LinkOrUnlink(..., true)` of the old state |
| Mapper.DataMapper.Unlink | src/Core/DataMapper.php:354-357 | result and new state are `LinkOrUnlink(..., false)` of the old state |
| Mapper.DataMapper.LinkOrUnlinkEntry | src/Core/DataMapper.php:561-579 | result and new state are `LinkOrUnlink` of the old state |
| Mapper.DataMapper.ExecutePendingLinkage | src/Core/DataMapper.php:436-449 | result and state are `PendingLinkage` of the state |
| Mapper.DataMapper.MarkAsSaved | src/Core/DataMapper.php:386-405 | result and new state are `Saved` of the old state |
| Mapper.DataMapper.MarkAsUpdated | src/Core/DataMapper.php:411-423 | result and new state are `Updated` of the old state |
| Mapper.DataMapper.MarkAsDeleted | src/Core/DataMapper.php:428-431 | only the deleted flag is set, and true is returned |
| Mapper.NewDataMapper | src/Core/DataMapper.php:80-99 | construction succeeds exactly when `Construct` does, with its state, or fails with its error |
| Entities.Entity.constructor | src/Entity.php:40-49 | construction only stores the arguments |
| Entities.Entity.Orm | src/Entity.php:54-62 | the first successful call builds the mapper from the arguments and drops them; later calls return the same object; a failed build stores nothing |
| Entities.LoadedEntityColumns | src/Core/Proxy.php:71-78 | a loaded entity's columns are the given columns before its mapper is built and the same after; the mapper starts unmodified; asking for it again returns the same object |
| RelationOps.KeyWritesEffect | src/Relations/BelongsTo.php:34-52 | a successful key copy leaves each related-side column modified and holding the stored owner-side value (null when absent) |
| RelationOps.NullEntityWrites | src/Relations/BelongsTo.php:34-52 | with no entity every foreign-key column is written null |
| RelationOps.WriteKeysInto | src/Relations/HasOneOrMany.php:59-61 | the writes run in order, stopping at the first failure, as `SetColumns` |
| RelationOps.AddRelatedBelongsTo | src/Relations/BelongsTo.php:34-52 | the owner receives the related record's key values through the related (or resolved) schema's foreign key |
| RelationOps.AddRelatedHasOneOrMany | src/Relations/HasOneOrMany.php:49-62 | the related record receives the owner's key values through the owner schema's foreign key |
| RelationOps.SetRelated | src/Core/DataMapper.php:300-320 | an unknown relation and an unsupported shape raise with no change; `BelongsTo` and `HasOneOrMany` copy keys as above; only `BelongsTo` accepts null |
| RelationOps.GatheredSpec | src/Relations/HasOneOrMany.php:78-85 | the collected ids hold, per key column, the value of every row in row order; nothing without rows |
| RelationOps.GatherInto | src/Relations/HasOneOrMany.php:82-84 | the inner loop appends one row's values |
| RelationOps.CollectIds | src/Relations/HasOneOrMany.php:78-85 | the nested loops compute the collected ids |
| RelationOps.DedupConditions | src/Relations/BelongsTo.php:78-85 | one condition per collected column |
| RelationOps.InConditions | src/Relations/HasOneOrMany.php:90-92 | one condition per re-keyed column |
| RelationOps.GetLazyLoader | src/Relations/HasOneOrMany.php:70-102 | the method with its loops computes `LazyLoaderOf` |
| RelationOps.DedupConditionSpec | src/Relations/BelongsTo.php:78-85 | values with one string form give an equality on the first; otherwise an `in` over the distinct values |
| RelationOps.BelongsToLoaderSpec | src/Relations/BelongsTo.php:60-94 | one de-duplicated condition per related primary-key column over the owner rows' foreign-key values; matched inversely; one entity |
| RelationOps.InverseIds | src/Relations/BelongsTo.php:68-73 | collecting inversely gives each owner-side column the matching related-side value of every row |
| RelationOps.PrimaryKeyIds | src/Relations/HasOneOrMany.php:78-85 | collecting by a primary key gives each key column its value in every row |
| RelationOps.KeyedIdsSpec | src/Relations/HasOneOrMany.php:90-92 | re-keyed ids give each related-side column the ids of its owner-side column, or none |
| RelationOps.HasOneOrManyLoaderSpec | src/Relations/HasOneOrMany.php:70-102 | one `in` per foreign-key column over the owner rows' key values, in row order, not de-duplicated (`in(null)` for a column outside the key); matched directly |
| RelationOps.ShareLoaderSpec | src/Relations/ShareOneOrMany.php:51-134 | the junction joins the related table, the owners' key values filter the junction, the link column is selected under its alias and matched by it |
| RelationOps.ThroughLoaderFails | src/Relations/HasOneOrManyThrough.php:226-300 | the loader raises exactly when there are owner rows |
| RelationOps.ReadItems | src/Relations/HasOneOrManyThrough.php:202-206 | the item reads give `ItemValues` of the states before, and change no later read |
| RelationOps.ReadItemKey | src/Relations/HasOneOrManyThrough.php:203-205 | one item's read answers as before and keeps every record's reads |
| RelationOps.ReadKeys | src/Relations/HasOneOrManyThrough.php:197-206 | the owner's key is read first, then, unless it raised, every item |
| RelationOps.ThroughUnlink | src/Relations/HasOneOrManyThrough.php:170-217 | succeeds exactly when every read does; then one DELETE on the junction for the owner and the item values; on an error nothing is written |
| RelationOps.ThroughLink | src/Relations/HasOneOrManyThrough.php:49-99 | succeeds only with an own junction and no items; without a junction raises before any read; nothing is written |
| RelationOps.ThroughEntityLink | src/Relations/HasOneOrManyThrough.php:101-164 | `linkEntity`/`unlinkEntity` always raise, by the missing junction or the undefined `getColumns()` |
| EntityQueries.FilteredUnregistered | src/Core/EntityQuery.php:82-84 | names without a registered filter are skipped |
| EntityQueries.FilteredAppend | src/Core/EntityQuery.php:77-85 | filtering with `a` then `b` is filtering with `a + b` |
| EntityQueries.FilteredSingle | src/Core/EntityQuery.php:70-72 | a single name runs its filter, when registered, with null data |
| EntityQueries.FindConditions | src/Core/EntityQuery.php:203-214 | an array id gives one equality per entry in order; a scalar id one equality on the primary key |
| EntityQueries.LoadersOfKeys | src/Core/EntityQuery.php:309-338 | the loaders are keyed by exactly the known relation names asked for |
| EntityQueries.LoadersOfLast | src/Core/EntityQuery.php:319-335 | each name holds the loader of its last entry |
| EntityQueries.LoadersOfErr | src/Core/EntityQuery.php:324-329 | one loader that raises makes the batch raise |
| EntityQueries.LoadersOfPrefixErr | src/Core/EntityQuery.php:319-335 | an entry that raises decides the outcome of any longer list |
| EntityQueries.RowColumns | src/Core/EntityQuery.php:113-115 | a fetched row's columns are the row's values |
| EntityQueries.DeleteStatement | src/Core/EntityQuery.php:136-146 | an UPDATE stamping `deleted_at` exactly when not forced and soft delete is on, else a DELETE, on the query's conditions |
| EntityQueries.UpdateAssignments | src/Core/EntityQuery.php:153-161 | the columns as given, plus `updated_at` when timestamps are on |
| EntityQueries.EntityQuery.constructor | src/Core/EntityQuery.php:47-52 | a new query on the schema and connection |
| EntityQueries.EntityQuery.AddWhere | src/Core/EntityQuery.php:207 | one more condition |
| EntityQueries.EntityQuery.AddConditions | src/Core/EntityQuery.php:205-211 | the conditions appended in order |
| EntityQueries.EntityQuery.IncludeColumns | src/Core/EntityQuery.php:58-62 | only the included columns change |
| EntityQueries.EntityQuery.Filter | src/Core/EntityQuery.php:68-88 | the statement becomes `Filtered` of the entries |
| EntityQueries.EntityQuery.Prepare | src/Core/EntityQuery.php:251-273 | the query is completed as `FinalQuery` and its rows are returned |
| EntityQueries.EntityQuery.Get | src/Core/EntityQuery.php:93-106 | nothing exactly when there is no row; else a fresh entity of the first row, not new, read-only exactly when joined |
| EntityQueries.EntityQuery.GetLazyLoaders | src/Core/EntityQuery.php:309-338 | the loop computes `LazyLoaders` |
| EntityQueries.EntityQuery.AddEntryLoader | src/Core/EntityQuery.php:320-334 | one entry's loader added, when its relation is known |
| EntityQueries.EntityQuery.All | src/Core/EntityQuery.php:111-128 | one distinct fresh entity per row in row order sharing the loaders, or the loaders' error |
| EntityQueries.EntityQuery.Find | src/Core/EntityQuery.php:203-214 | the id's conditions are added, then `get()` |
| EntityQueries.EntityQuery.Delete | src/Core/EntityQuery.php:136-146 | logs the delete statement; a storage failure counts as zero rows |
| EntityQueries.EntityQuery.Update | src/Core/EntityQuery.php:153-161 | logs the update statement; a storage failure counts as zero rows |
| Manager.IndexKeyed | src/EntityManager.php:162 | `array_intersect_key` keeps only raw columns, with their raw values (which ones: `Manager.IndexKeyedExact`) |
| Manager.InsertColumnsSpec | src/EntityManager.php:123-142 | the INSERT keeps the raw columns, takes the generated key values and stamps `created_at` and a null `updated_at` |
| Manager.IndexKeyedDigits | src/EntityManager.php:158-162 | every column the UPDATE keeps from the modified list has a name made only of digits |
| Manager.IndexKeyedExact | src/EntityManager.php:158-162 | a raw column is kept exactly when its name is the decimal form of a position below the number of modified columns; no other name, such as `00` or a larger position, is kept |
| Manager.NamedColumnsNotUpdated | src/EntityManager.php:158-168 | a modified column with a non-numeric name is never written by the UPDATE |
| Manager.IndexKeyedSpec | src/EntityManager.php:162 | the columns named `0` to `n-1` are kept |
| Manager.SaveWrites | src/EntityManager.php:111-187 | at most one write: an INSERT exactly for a live new record, an UPDATE exactly for a modified saved record with no queued link |
| Manager.SaveWriteColumns | src/EntityManager.php:123-179 | the INSERT carries the insert columns, the UPDATE the update columns |
| Manager.SaveFailures | src/EntityManager.php:116-151 | a deleted record raises with nothing written; a failed INSERT leaves the record untouched |
| Manager.SaveSucceeded | src/EntityManager.php:151-186 | after a successful save the record is saved, live and unmodified |
| Manager.SaveUpdateStatement | src/EntityManager.php:161-179 | the UPDATE is keyed by the primary key as it now reads, stamps the updated column, and clears the modified set |
| Manager.DeleteSpecProperties | src/EntityManager.php:203-230 | only a saved, live record is deleted; it is marked deleted whatever the storage reports; a second delete raises |
| Manager.EntityManager.constructor | src/EntityManager.php:51-55 | a manager with no date format and no mappers yet |
| Manager.EntityManager.GetDateFormat | src/EntityManager.php:89-96 | asked of the compiler once, then remembered |
| Manager.EntityManager.RegisterEntityMapper | src/EntityManager.php:274-278 | the callback is stored for the class |
| Manager.EntityManager.ResolveEntityMapper | src/EntityManager.php:236-267 | memoised; an unknown class or a non-entity raises with the message; otherwise a fresh mapper configured by the callback |
| Manager.EntityManager.Query | src/EntityManager.php:102-105 | a fresh query on the resolved mapper, exactly when resolution succeeds |
| Manager.EntityManager.Create | src/EntityManager.php:194-197 | a fresh new entity holding the columns, exactly when resolution succeeds |
| Manager.EntityManager.Save | src/EntityManager.php:111-187 | result, new state and written statements are `SaveSpec` of the old state |
| Manager.EntityManager.Delete | src/EntityManager.php:203-230 | result, new state and written statements are `DeleteSpec` of the old state |
| Manager.Overlay | src/EntityManager.php:129-131 | the generated key values override the columns |

## Left out

- The SQL builder and the database are not part of this model. SELECT results, write outcomes and `lastInsertId` come from the `Storage` oracle, and statements are values.
- Float, `date` and `json` casts are opaque: a `Converted` value stands for their result.
- PHP's numeric string parsing is reduced to leading white space, an optional sign and leading decimal digits: `(int)"1e3"` is 1000 in PHP and 1 in the model. A run of digits too large for 64 bits saturates to `PHP_INT_MAX` or `PHP_INT_MIN`, as in PHP.
- `Int` values are unbounded integers. PHP integers are 64 bits wide, and the model never does arithmetic on them; the only integers it makes from text are parsed by `(int)` and so saturate.
- Getters, setters, filters, primary-key generators and query callbacks are pure functions of their arguments. Getters and setters receive only the value, not the data mapper the source passes as their second argument, so a getter or setter that reads another column or the record's state is not modelled. The generator receives the raw columns, not the mapper.
- Event handlers registered with `on()` are only stored.
- src/Core/RelationProxy.php, src/Traits/SelectTrait.php and the interfaces are not part of this model. `Proxy` is modelled only by `getEntityColumns`. Where the source reaches an item's mapper through `EntityProxy::getDataMapper($item)` (src/Relations/HasOneOrManyThrough.php:86 and 204), the model assumes it returns that item's own data mapper: RelationOps.ReadItems, RelationOps.ThroughLink and RelationOps.ThroughUnlink take the items' mappers directly.
- src/Core/PrimaryKey.php, the junction class and the lazy-loader class are not part of this model. A primary key is a foreign key from each column to itself, a junction is a table and a column map, and a loader is the value `LoaderSpec`.
- Keys.PrimaryKey: a repeated column name folds into one entry of the key's map, so `primaryKey('id', 'id')` gives a simple key on `id`. If the source's PrimaryKey class keeps the name twice instead, that key is composite with the string form "id, id", and the model's results for it differ. src/Core/PrimaryKey.php is not part of this model, so this case is not settled here.
- The entity-manager schema of each record (`Env`) is fixed when the record is built; the related schema is looked up through a `resolve` function.
- Relation results are the rows they are built from, not entity objects.
- Transactions catch only storage failures, which count as the default result; other exceptions pass through as errors.
- `findAll`, `increment`, `decrement` and `executeAggregate` are not modelled.
- The `$tables` argument of `EntityQuery::delete` is not modelled.
- `Manager.EntityManager.Save` and `Manager.EntityManager.Delete` take the entity's data mapper directly instead of going through the proxy.
- The current time is a `clock` parameter applied to the date format.
- `getCompiler()` is not modelled; its date format is a constructor argument.
- Reflection is a `classes` map of known classes, and mapping callbacks are sequences of builder steps.
- Fetched rows are maps, so the column order of a fetched row is not kept.
- The modified set is a set, not an ordered array. The positions that the UPDATE's `array_intersect_key` matches come from its size.
- Queries.QueryRun: the columns appended for an unlocked query are the key's column names. The source casts the key object with `(array)`, which yields its private properties, and the model does not follow that.
- Filter entries with a positional, non-string value are not modelled.
- Mapper.DataMapper.ExecutePendingLinkage: the `ShareOneOrMany` relation has no `link`/`unlink`, so a non-empty queue raises and is never drained.
- RelationOps.BelongsToLoaderSpec and RelationOps.HasOneOrManyLoaderSpec state the loader only without a query callback; with one, the callback's query is the model's but no lemma describes it.
- Schema.EntityMapper.GetPrimaryKey states that a key is stored, not which one.
- Mapper.LookupName, Mapper.AssignedKeys, Manager.IndexKeyed, RelationOps.DedupConditions and RelationOps.InConditions carry only size or membership bounds; their exact results are stated by the lemmas next to them.
- The model follows PHP 8 semantics where PHP versions differ: an object used as an array key or offset, and a non-numeric string offset on a string, raise an error instead of a warning. This decides RelationOps.ThroughLink (the insert row keyed by the foreign-key object), RelationOps.ThroughLoaderFails (`$result[$pk]`, shared by `LazyLoaderOf` through `IllegalOffset`) and Mapper.SavedCompositeKey (a string id indexed by a column name). Under PHP 7 each would warn and go on.
- RelationKinds.MemoisedForeignKeyStable describes a memo that no modelled operation stores. A relation object is shared by every record of its class, and the first `getResult`, `getLazyLoader`, `addRelatedEntity`, `link` or `unlink` that finds its foreign key (or junction, junction table or junction key) unset stores one. The model works out the effective key again on every call and never updates the schema's relation. So after `addRelatedEntity` with an entity of another class, the source's later calls use that class's key and the model's use the resolved class's key.
- Resolving a related class is assumed to succeed. The related schema comes from a total `resolve` function (`Mapper.Env.resolve`, and `related` in `Manager.EntityManager`). It is independent of `Manager.EntityManager.ResolveEntityMapper`, so the error `resolveEntityMapper($this->entityClass)` raises for an unknown class or a non-entity cannot occur in `GetRelated`, `AddRelatedBelongsTo`, `SetRelated` or the loaders.
- RelationPlans.JunctionTableNameSpec orders the two table names character by character. PHP's `sort()` compares two numeric strings as numbers, so for numeric table names such as `10` and `9` the source's junction name differs.
- Keys.ExtractValueMapped requires every related-side column to be in the row. PHP reads a missing one as null with a warning, and the lemma does not cover that case.
