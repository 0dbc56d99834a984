/** Entities: the base class of user entities. It keeps the constructor's
    arguments and builds its record mapper on first use. */
module Entities {
  import opened Values
  import opened Queries
  import opened Mapper

  /** The arguments `new DataMapper(...)` receives: the manager and the
      schema (together the environment), the columns, the loaders and the
      two flags. */
  datatype MapperArgs = MapperArgs(
    env: Env,
    columns: Arr<Value>,
    loaders: map<string, LoaderSpec>,
    isReadOnly: bool,
    isNew: bool)

  class Entity {
    var dataMapperArgs: Option<MapperArgs>
    var dataMapper: DataMapper?

    /** Exactly one of the two is present: the arguments before the mapper
        is built, the mapper afterwards. */
    ghost predicate Valid()
      reads this
    {
      (dataMapper == null) == dataMapperArgs.Some?
    }

    /** Construction only stores the arguments. */
    constructor (args: MapperArgs)
      ensures Valid()
      ensures dataMapperArgs == Some(args) && dataMapper == null
    {
      dataMapperArgs := Some(args);
      dataMapper := null;
    }

    /** `orm()`: the first call builds the mapper from the stored arguments
        and drops them; every later call returns that same mapper. When
        building raises, nothing is stored and the next call tries again. */
    method Orm() returns (r: Result<DataMapper>)
      requires Valid()
      modifies this
      ensures Valid()
      ensures old(dataMapper) != null ==>
                r == Ok(old(dataMapper)) && dataMapper == old(dataMapper) && dataMapperArgs == old(dataMapperArgs)
      ensures old(dataMapper) == null ==>
                var a := old(dataMapperArgs).value;
                var built := Construct(a.env, a.columns, a.loaders, a.isReadOnly, a.isNew);
                && (r.Ok? <==> built.result.Ok?)
                && (r.Ok? ==> fresh(r.value) && dataMapper == r.value && dataMapperArgs == None &&
                              r.value.env == a.env && r.value.State() == built.next)
                && (r.Err? ==> r.error == built.result.error && dataMapper == null && dataMapperArgs == old(dataMapperArgs))
    {
      if dataMapper == null {
        var a := dataMapperArgs.value;
        var built := NewDataMapper(a.env, a.columns, a.loaders, a.isReadOnly, a.isNew);
        if built.Err? {
          return Err(built.error);
        }
        dataMapper := built.value;
        dataMapperArgs := None;
      }
      r := Ok(dataMapper);
    }

    /** `Proxy::getEntityColumns`: the constructor's columns while the
        mapper is not built, the mapper's raw columns afterwards. */
    function EntityColumns(): Row
      requires Valid()
      reads this, dataMapper
    {
      if dataMapperArgs.Some? then dataMapperArgs.value.columns.vals else dataMapper.rawColumns
    }
  }

  /** A loaded entity: its columns read the same before and after its
      mapper is built, and asking for the mapper twice gives one object. */
  method LoadedEntityColumns(env: Env, columns: Arr<Value>, readOnly: bool)
    returns (e: Entity, before: Row, m: DataMapper, again: Result<DataMapper>)
    ensures fresh(e) && fresh(m) && e.Valid() && e.dataMapper == m
    ensures before == columns.vals && e.EntityColumns() == before && m.State().modified == {}
    ensures again == Ok(m)
  {
    e := new Entity(MapperArgs(env, columns, map[], readOnly, false));
    before := e.EntityColumns();
    var first := e.Orm();
    again := e.Orm();
    m := first.value;
  }
}
