/** Keys: a foreign key maps owner-side column names to related-side column
    names (in the order of its column map) and reshapes rows between the two
    name spaces. A primary key is the identity map over its column names. */
module Keys {
  import opened Values

  /** `columns` is the PHP array owner name => related name. */
  datatype ForeignKey = ForeignKey(columns: Arr<string>, composite: bool) {

    /** The owner-side names, in map order. */
    function Owners(): seq<string> {
      columns.keys
    }

    /** The related-side names, in map order. */
    function Targets(): (t: seq<string>)
      ensures |t| == |columns.keys|
    {
      seq(|columns.keys|, i requires 0 <= i < |columns.keys| => columns.vals[columns.keys[i]])
    }

    /** The map as (owner, related) pairs, in map order. */
    function Pairs(): (p: seq<(string, string)>)
      ensures |p| == |columns.keys|
      ensures forall i :: 0 <= i < |p| ==> p[i] == (Owners()[i], Targets()[i])
    {
      seq(|columns.keys|, i requires 0 <= i < |columns.keys| => (columns.keys[i], columns.vals[columns.keys[i]]))
    }

    /** `array_keys($columns)[0]`; an empty map reads as the key "". */
    function FirstOwner(): string {
      if columns.keys == [] then "" else columns.keys[0]
    }

    /** `array_values($columns)[0]`; an empty map reads as the key "". */
    function FirstTarget(): string {
      if columns.keys == [] then "" else Targets()[0]
    }
  }

  /** What `getValue` and its siblings return: one value, or an array. */
  datatype KeyValue = Single(v: Value) | Mapped(m: Arr<Value>)

  /** `new ForeignKey($columns)` */
  function NewForeignKey(columns: Arr<string>): (fk: ForeignKey)
    ensures fk.columns == columns
    ensures fk.composite <==> |columns.keys| > 1
  {
    ForeignKey(columns, |columns.keys| > 1)
  }

  /** `$this->columns` */
  function Columns(fk: ForeignKey): Arr<string> {
    fk.columns
  }

  /** `isComposite()` */
  function IsComposite(fk: ForeignKey): bool {
    fk.composite
  }

  function Dests(pairs: seq<(string, string)>): (d: seq<string>)
    ensures |d| == |pairs| && forall i :: 0 <= i < |d| ==> d[i] == pairs[i].1
  {
    seq(|pairs|, i requires 0 <= i < |pairs| => pairs[i].1)
  }

  /** The loop shared by `getValue`, `getInverseValue` and `extractValue`:
      for each pair (s, d) in order, `$value[d] = $row[s] ?? $absent`. */
  function Rekey<V>(pairs: seq<(string, string)>, row: map<string, V>, absent: V): Arr<V>
    decreases |pairs|
  {
    if pairs == [] then EmptyArr()
    else
      var last := pairs[|pairs| - 1];
      Put(Rekey(pairs[..|pairs| - 1], row, absent), last.1, Lookup(row, last.0, absent))
  }

  /** The keys of a rekeyed row are exactly the destination names. */
  lemma {:induction false} RekeyKeys<V>(pairs: seq<(string, string)>, row: map<string, V>, absent: V)
    ensures forall k :: k in Rekey(pairs, row, absent).vals <==> k in Dests(pairs)
    decreases |pairs|
  {
    if pairs != [] {
      var init := pairs[..|pairs| - 1];
      RekeyKeys(init, row, absent);
      assert Dests(pairs) == Dests(init) + [pairs[|pairs| - 1].1];
    }
  }

  /** With distinct destination names the keys of a rekeyed row are the
      destinations in order, each bound to its source's value. */
  lemma {:induction false} RekeyDistinct<V>(pairs: seq<(string, string)>, row: map<string, V>, absent: V)
    requires Distinct(Dests(pairs))
    ensures Rekey(pairs, row, absent).keys == Dests(pairs)
    ensures forall i :: 0 <= i < |pairs| ==>
              pairs[i].1 in Rekey(pairs, row, absent).vals &&
              Rekey(pairs, row, absent).vals[pairs[i].1] == Lookup(row, pairs[i].0, absent)
    decreases |pairs|
  {
    if pairs != [] {
      var init := pairs[..|pairs| - 1];
      var last := pairs[|pairs| - 1];
      assert Dests(pairs) == Dests(init) + [last.1];
      DistinctSnoc(Dests(init), last.1);
      RekeyDistinct(init, row, absent);
      RekeyKeys(init, row, absent);
      var r0 := Rekey(init, row, absent);
      var r := Rekey(pairs, row, absent);
      assert last.1 !in r0.vals;
      assert r == Put(r0, last.1, Lookup(row, last.0, absent));
      forall i | 0 <= i < |pairs|
        ensures pairs[i].1 in r.vals && r.vals[pairs[i].1] == Lookup(row, pairs[i].0, absent)
      {
        if i < |init| {
          assert pairs[i] == init[i];
          assert Dests(pairs)[i] != Dests(pairs)[|pairs| - 1];
        }
      }
    }
  }

  /** The key order of a rekeyed row depends on the pairs only. */
  lemma {:induction false} RekeySameKeys<V>(pairs: seq<(string, string)>, row1: map<string, V>, row2: map<string, V>, absent: V)
    ensures Rekey(pairs, row1, absent).keys == Rekey(pairs, row2, absent).keys
    decreases |pairs|
  {
    if pairs != [] {
      RekeySameKeys(pairs[..|pairs| - 1], row1, row2, absent);
    }
  }

  /** Rekeying an empty row binds every destination to `absent`. */
  lemma {:induction false} RekeyEmptyRow<V>(pairs: seq<(string, string)>, absent: V)
    ensures forall k :: k in Rekey(pairs, map[], absent).vals ==> Rekey(pairs, map[], absent).vals[k] == absent
    decreases |pairs|
  {
    if pairs != [] {
      RekeyEmptyRow(pairs[..|pairs| - 1], absent);
    }
  }

  /** `getValue($row, $map)`: read the owner-side names, key by the
      related-side names. */
  function GetValue(fk: ForeignKey, row: Row, asMap: bool): KeyValue {
    if !asMap && !fk.composite then Single(Lookup(row, fk.FirstOwner(), Null))
    else Mapped(Rekey(fk.Pairs(), row, Null))
  }

  /** The pairs with owner and related side exchanged. */
  function Swapped(pairs: seq<(string, string)>): (r: seq<(string, string)>)
    ensures |r| == |pairs| && forall i :: 0 <= i < |r| ==> r[i] == (pairs[i].1, pairs[i].0)
  {
    seq(|pairs|, i requires 0 <= i < |pairs| => (pairs[i].1, pairs[i].0))
  }

  /** `getInverseValue($row, $map)`: read the related-side names, key by the
      owner-side names. */
  function GetInverseValue(fk: ForeignKey, row: Row, asMap: bool): KeyValue {
    if !asMap && !fk.composite then Single(Lookup(row, fk.FirstTarget(), Null))
    else Mapped(Rekey(Swapped(fk.Pairs()), row, Null))
  }

  /** The pairs (n, n) for each name. */
  function Diagonal(names: seq<string>): (r: seq<(string, string)>)
    ensures |r| == |names| && forall i :: 0 <= i < |r| ==> r[i] == (names[i], names[i])
  {
    seq(|names|, i requires 0 <= i < |names| => (names[i], names[i]))
  }

  /** `extractValue($row, $map)`: the related-side names read from the row
      under those same names. The array form has no null fallback, so each
      related-side name must be a column of the row. */
  function ExtractValue(fk: ForeignKey, row: Row, asMap: bool): KeyValue
    requires asMap || fk.composite ==> forall t :: t in fk.Targets() ==> t in row
  {
    if !asMap && !fk.composite then Single(Lookup(row, fk.FirstTarget(), Null))
    else Mapped(Rekey(Diagonal(fk.Targets()), row, Null))
  }

  /** `__toString()` */
  function ToString(fk: ForeignKey): string {
    Join(fk.Targets(), ", ")
  }

  /** A primary key over `names`: the identity map, later duplicates folding
      into the first. */
  function PrimaryKey(names: seq<string>): ForeignKey {
    NewForeignKey(IdentityArr(names))
  }

  function IdentityArr(names: seq<string>): Arr<string>
    decreases |names|
  {
    if names == [] then EmptyArr()
    else
      var last := names[|names| - 1];
      Put(IdentityArr(names[..|names| - 1]), last, last)
  }

  // ---------------------------------------------------------------------
  // Properties

  /** A non-composite key's single value is the row's value under the first
      owner-side name, or null. */
  lemma GetValueSingle(fk: ForeignKey, row: Row)
    requires !fk.composite && |fk.columns.keys| == 1
    ensures GetValue(fk, row, false) ==
              Single(if fk.columns.keys[0] in row then row[fk.columns.keys[0]] else Null)
  {
  }

  /** The array form of `getValue` is keyed by exactly the related-side names;
      each is bound to the row's value under its owner-side name, or null. */
  lemma GetValueMapped(fk: ForeignKey, row: Row, asMap: bool)
    requires asMap || fk.composite
    ensures GetValue(fk, row, asMap).Mapped?
    ensures forall t :: t in GetValue(fk, row, asMap).m.keys <==> t in fk.Targets()
    ensures Distinct(fk.Targets()) ==>
              && GetValue(fk, row, asMap).m.keys == fk.Targets()
              && forall i :: 0 <= i < |fk.Owners()| ==>
                   GetValue(fk, row, asMap).m.vals[fk.Targets()[i]] == Lookup(row, fk.Owners()[i], Null)
  {
    assert Dests(fk.Pairs()) == fk.Targets();
    RekeyKeys(fk.Pairs(), row, Null);
    if Distinct(fk.Targets()) {
      RekeyDistinct(fk.Pairs(), row, Null);
    }
  }

  /** The array form of `getInverseValue` is keyed by exactly the owner-side
      names, in order, each read under its related-side name or null. */
  lemma GetInverseValueMapped(fk: ForeignKey, row: Row, asMap: bool)
    requires asMap || fk.composite
    ensures GetInverseValue(fk, row, asMap).Mapped?
    ensures GetInverseValue(fk, row, asMap).m.keys == fk.Owners()
    ensures forall i :: 0 <= i < |fk.Owners()| ==>
              GetInverseValue(fk, row, asMap).m.vals[fk.Owners()[i]] == Lookup(row, fk.Targets()[i], Null)
  {
    var sw := Swapped(fk.Pairs());
    assert Dests(sw) == fk.Owners();
    RekeyDistinct(sw, row, Null);
  }

  /** Round trip: with distinct related-side names, mapping a row to the
      related side and back gives the row restricted to the owner-side
      names, a missing name reading as null. */
  lemma InverseOfValue(fk: ForeignKey, row: Row)
    requires Distinct(fk.Targets())
    ensures GetInverseValue(fk, GetValue(fk, row, true).m.vals, true).m.keys == fk.Owners()
    ensures forall o :: o in fk.Owners() ==>
              GetInverseValue(fk, GetValue(fk, row, true).m.vals, true).m.vals[o] == Lookup(row, o, Null)
  {
    var forward := GetValue(fk, row, true).m;
    GetValueMapped(fk, row, true);
    GetInverseValueMapped(fk, forward.vals, true);
    forall o | o in fk.Owners()
      ensures GetInverseValue(fk, forward.vals, true).m.vals[o] == Lookup(row, o, Null)
    {
      var i :| 0 <= i < |fk.Owners()| && fk.Owners()[i] == o;
      assert fk.Targets()[i] in forward.keys;
    }
  }

  /** `extractValue` keys by the related-side names and reads those same
      names, so with distinct names it is the row restricted to them. */
  lemma ExtractValueMapped(fk: ForeignKey, row: Row)
    requires forall t :: t in fk.Targets() ==> t in row
    requires Distinct(fk.Targets())
    ensures ExtractValue(fk, row, true).m.keys == fk.Targets()
    ensures forall t :: t in fk.Targets() ==> ExtractValue(fk, row, true).m.vals[t] == row[t]
  {
    var d := Diagonal(fk.Targets());
    assert Dests(d) == fk.Targets();
    RekeyDistinct(d, row, Null);
    forall t | t in fk.Targets()
      ensures ExtractValue(fk, row, true).m.vals[t] == row[t]
    {
      var i :| 0 <= i < |fk.Targets()| && fk.Targets()[i] == t;
      assert d[i] == (t, t);
    }
  }

  /** A primary key maps each of its names to itself and has exactly the
      given names. */
  lemma {:induction false} IdentityArrShape(names: seq<string>)
    ensures forall k :: k in IdentityArr(names).keys <==> k in names
    ensures forall k :: k in IdentityArr(names).vals ==> IdentityArr(names).vals[k] == k
    decreases |names|
  {
    if names != [] {
      var init := names[..|names| - 1];
      IdentityArrShape(init);
      assert names == init + [names[|names| - 1]];
    }
  }

  /** Without repeated names the keys keep the names' order. */
  lemma {:induction false} IdentityArrOrder(names: seq<string>)
    requires Distinct(names)
    ensures IdentityArr(names).keys == names
    decreases |names|
  {
    if names != [] {
      var init := names[..|names| - 1];
      var last := names[|names| - 1];
      assert names == init + [last];
      DistinctSnoc(init, last);
      IdentityArrOrder(init);
      IdentityArrShape(init);
    }
  }

  /** A primary key's related-side names are its column names, so its
      `getValue($row, true)` is keyed by its column names. */
  lemma PrimaryKeyTargets(names: seq<string>)
    requires Distinct(names)
    ensures PrimaryKey(names).Owners() == names && PrimaryKey(names).Targets() == names
    ensures PrimaryKey(names).composite <==> |names| > 1
  {
    IdentityArrShape(names);
    IdentityArrOrder(names);
    IdentityTargets(PrimaryKey(names));
  }

  /** A key that maps each name to itself has the same names on both sides. */
  lemma IdentityTargets(fk: ForeignKey)
    requires forall k :: k in fk.columns.vals ==> fk.columns.vals[k] == k
    ensures fk.Targets() == fk.Owners()
  {
    forall i | 0 <= i < |fk.columns.keys|
      ensures fk.Targets()[i] == fk.Owners()[i]
    {
      assert fk.columns.keys[i] in fk.columns.vals;
    }
  }
}
