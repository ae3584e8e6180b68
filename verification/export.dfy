/**
  `store_assumptions`: one output row per cached assumption, for the
  introspection view. The rows are produced in the hash table's
  iteration order, which this model leaves unspecified.
 */
module Introspection {
  import opened AssumptionTypes

  /** One output row: the key, then the four fields of the entry, in column order. */
  datatype Row = Row(space: int32, hash: int32, cardinality: real, plannerEstimation: real, inPlan: bool, counter: nat)

  function RowOf(key: Key, a: Assumption): (r: Row) {
    Row(key.space, key.hash, a.cardinality, a.plannerEstimation, a.inPlan, a.counter)
  }

  function RowKey(r: Row): (k: Key) {
    Key(r.space, r.hash)
  }

  /** The entry a row describes. */
  function EntryOf(r: Row): (a: Assumption) {
    Assumption(r.cardinality, r.plannerEstimation, r.inPlan, r.counter)
  }

  /** No key appears in two rows. */
  predicate DistinctKeys(rows: seq<Row>) {
    forall i, j :: 0 <= i < j < |rows| ==> RowKey(rows[i]) != RowKey(rows[j])
  }

  /** Reads a cache back from exported rows, later rows overriding earlier ones. */
  function Rebuild(rows: seq<Row>): (s: Store)
    ensures forall k :: k in s <==> exists i :: 0 <= i < |rows| && RowKey(rows[i]) == k
    decreases |rows|
  {
    if rows == [] then
      map[]
    else
      var init := rows[..|rows| - 1];
      var last := rows[|rows| - 1];
      var s := Rebuild(init);
      assert forall k :: k in s ==> exists i :: 0 <= i < |rows| && RowKey(rows[i]) == k by {
        forall k | k in s ensures exists i :: 0 <= i < |rows| && RowKey(rows[i]) == k {
          var i :| 0 <= i < |init| && RowKey(init[i]) == k;
          assert RowKey(rows[i]) == k;
        }
      }
      s[RowKey(last) := EntryOf(last)]
  }

  /** Without repeated keys, every row is read back as its own entry. */
  lemma {:induction false} RebuildFindsRow(rows: seq<Row>, i: int)
    requires DistinctKeys(rows) && 0 <= i < |rows|
    ensures RowKey(rows[i]) in Rebuild(rows) && Rebuild(rows)[RowKey(rows[i])] == EntryOf(rows[i])
    decreases |rows|
  {
    if i < |rows| - 1 {
      var init := rows[..|rows| - 1];
      assert init[i] == rows[i];
      assert DistinctKeys(init);
      RebuildFindsRow(init, i);
    }
  }

  /**
    The loop state of the export: `rows` holds one row for each key of
    `keys`, in that order, the keys are distinct, and they are exactly the
    keys `visited` so far.
   */
  ghost predicate Exported(store: Store, rows: seq<Row>, keys: seq<Key>, visited: set<Key>) {
    && visited <= store.Keys
    && |rows| == |keys| == |visited|
    && (forall i :: 0 <= i < |rows| ==> keys[i] in visited && rows[i] == RowOf(keys[i], store[keys[i]]))
    && (forall k :: k in visited ==> k in keys)
    && (forall i, j :: 0 <= i < j < |keys| ==> keys[i] != keys[j])
  }

  /** Emitting the row of one more, not yet visited, key keeps the loop state. */
  lemma ExportOneMore(store: Store, rows: seq<Row>, keys: seq<Key>, visited: set<Key>, key: Key)
    requires Exported(store, rows, keys, visited)
    requires key in store && key !in visited
    ensures Exported(store, rows + [RowOf(key, store[key])], keys + [key], visited + {key})
  {
  }

  /** The rows of a finished export: one per entry, carrying that entry, no key twice. */
  predicate ExportsExactly(store: Store, rows: seq<Row>) {
    && |rows| == |store|
    && (forall k :: k in store ==> RowOf(k, store[k]) in rows)
    && (forall i :: 0 <= i < |rows| ==> RowKey(rows[i]) in store && rows[i] == RowOf(RowKey(rows[i]), store[RowKey(rows[i])]))
    && DistinctKeys(rows)
  }

  /** Once every key has been visited, the rows are the whole cache. */
  lemma ExportIsComplete(store: Store, rows: seq<Row>, keys: seq<Key>)
    requires Exported(store, rows, keys, store.Keys)
    ensures ExportsExactly(store, rows)
  {
    forall k | k in store ensures RowOf(k, store[k]) in rows {
      var i :| 0 <= i < |keys| && keys[i] == k;
      assert rows[i] == RowOf(k, store[k]);
    }
  }

  /**
    Emits the cache's contents: exactly one row per entry, each row
    carrying its entry's key and fields, in some iteration order. An
    unused cache (the table was never created) yields no rows.
   */
  method StoreAssumptions(store: Store) returns (rows: seq<Row>)
    ensures ExportsExactly(store, rows)
  {
    rows := [];
    var remaining := store.Keys;
    ghost var visited: set<Key> := {};
    ghost var keys: seq<Key> := [];
    while remaining != {}
      invariant remaining == store.Keys - visited
      invariant Exported(store, rows, keys, visited)
      decreases |remaining|
    {
      var key :| key in remaining;
      ExportOneMore(store, rows, keys, visited, key);
      rows := rows + [RowOf(key, store[key])];
      keys := keys + [key];
      remaining := remaining - {key};
      visited := visited + {key};
    }
    ExportIsComplete(store, rows, keys);
  }

  /** The export loses nothing: reading the rows back gives the cache that was exported. */
  lemma ExportRoundTrip(store: Store, rows: seq<Row>)
    requires ExportsExactly(store, rows)
    ensures Rebuild(rows) == store
  {
    var back := Rebuild(rows);
    forall k | k in store ensures k in back && back[k] == store[k] {
      var i :| 0 <= i < |rows| && rows[i] == RowOf(k, store[k]);
      RebuildFindsRow(rows, i);
    }
    assert back.Keys == store.Keys;
  }
}
