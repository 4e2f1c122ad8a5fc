/**
 * The declarative schema of a manager type and the validation guards that
 * every primitive and formatter of BaseDatabaseManager asserts
 * (k2modules/util/database/common.py).
 *
 * `tables` is a Python dict of dicts, so both levels keep insertion order and
 * hold each name once; the model is an association list with that property.
 */
module Schema {
  import opened Wrappers

  /** (column name, raw type/constraint declaration), in declaration order. */
  type Columns = seq<(string, string)>

  /** (table name, its columns), in declaration order. */
  type Tables = seq<(string, Columns)>

  predicate Distinct<T(==)>(s: seq<T>) {
    forall i, j :: 0 <= i < j < |s| ==> s[i] != s[j]
  }

  /** `self.tables[table]`, or None when `table in self.tables` is false. */
  function Lookup(tables: Tables, table: string): (r: Option<Columns>)
    ensures r.Some? <==> table in Keys(tables)
    ensures r.Some? ==> (table, r.value) in tables
  {
    if |tables| == 0 then None
    else if tables[0].0 == table then Some(tables[0].1)
    else
      var r := Lookup(tables[1..], table);
      assert Keys(tables) == [tables[0].0] + Keys(tables[1..]);
      assert r.Some? ==> (table, r.value) in tables[1..];
      r
  }

  /** The key appears among the columns of some declared table (the formatters' check). */
  predicate InSomeTable(tables: Tables, key: string) {
    exists entry :: entry in tables && key in Keys(entry.1)
  }

  /** The key is a declared column of `table` (the primitives' check). */
  predicate ColumnOf(tables: Tables, table: string, key: string) {
    Lookup(tables, table).Some? && key in Keys(Lookup(tables, table).value)
  }

  /** The assertions of `_format_select_vars`. */
  predicate UnionCheck(closed: bool, tables: Tables, keys: seq<string>) {
    !closed && forall k :: k in keys ==> InSomeTable(tables, k)
  }

  /** The assertions shared by `_select`, `_row_count`, `_insert` and `_delete`. */
  predicate TableCheck(closed: bool, tables: Tables, table: string, keys: seq<string>) {
    && !closed
    && |tables| > 0
    && Lookup(tables, table).Some?
    && |keys| > 0
    && forall k :: k in keys ==> ColumnOf(tables, table, k)
  }

  /** The primitives' check implies the one the formatters repeat. */
  lemma TableCheckImpliesUnionCheck(closed: bool, tables: Tables, table: string, keys: seq<string>)
    requires TableCheck(closed, tables, table, keys)
    ensures UnionCheck(closed, tables, keys)
  {
    var cols := Lookup(tables, table).value;
    forall k | k in keys
      ensures InSomeTable(tables, k)
    {
      assert (table, cols) in tables && k in Keys((table, cols).1);
    }
  }

  /**
   * The converse fails: a key declared by another table passes the union
   * check but not the check against the table being queried.
   */
  lemma UnionCheckIsWeaker()
    ensures exists tables, table, keys ::
      UnionCheck(false, tables, keys) && !TableCheck(false, tables, table, keys)
  {
    var users: Columns := [("id", "INTEGER PRIMARY KEY")];
    var notes: Columns := [("text", "TEXT")];
    var tables: Tables := [("users", users), ("notes", notes)];
    assert Keys(notes) == ["text"];
    assert Keys(users) == ["id"];
    assert ("notes", notes) in tables;
    assert UnionCheck(false, tables, ["text"]);
    assert Lookup(tables, "users") == Some(users);
    assert !ColumnOf(tables, "users", "text");
    assert !TableCheck(false, tables, "users", ["text"]);
  }

  /** `d.keys()` of an ordered dict: the first components, in order. */
  function Keys<V>(filter: seq<(string, V)>): (r: seq<string>)
    ensures |r| == |filter|
    ensures forall i :: 0 <= i < |r| ==> r[i] == filter[i].0
  {
    if |filter| == 0 then [] else [filter[0].0] + Keys(filter[1..])
  }

  /** `d.values()` of an ordered dict: the second components, in order. */
  function Values<V>(filter: seq<(string, V)>): (r: seq<V>)
    ensures |r| == |filter|
    ensures forall i :: 0 <= i < |r| ==> r[i] == filter[i].1
  {
    if |filter| == 0 then [] else [filter[0].1] + Values(filter[1..])
  }
}
