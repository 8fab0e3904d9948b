/** Lookup in a fixed table of named records, as a JavaScript object
    literal used as a dictionary (`TABLE[key]?.field`) behaves for the
    keys it declares. The table keeps the declaration order, which is the
    order `Object.keys` and `Object.entries` report. */
module Lookup {
  import opened Wrappers

  /** The record stored under `key`, if any. */
  function Find<V>(table: seq<(string, V)>, key: string): (r: Option<V>)
    ensures r.None? <==> forall i :: 0 <= i < |table| ==> table[i].0 != key
    ensures r.Some? ==> exists i :: 0 <= i < |table| && table[i] == (key, r.value)
  {
    if table == [] then None
    else if table[0].0 == key then Some(table[0].1)
    else
      var r := Find(table[1..], key);
      assert r.Some? ==> exists i :: 0 <= i < |table[1..]| && table[1..][i] == (key, r.value);
      assert forall i :: 0 < i < |table| ==> table[i] == table[1..][i - 1];
      r
  }

  /** No key is declared twice. */
  predicate UniqueKeys<V>(table: seq<(string, V)>) {
    forall i, j :: 0 <= i < j < |table| ==> table[i].0 != table[j].0
  }

  /** With unique keys, looking up a declared key yields its own record. */
  lemma FindDeclared<V>(table: seq<(string, V)>, i: nat)
    requires UniqueKeys(table)
    requires i < |table|
    ensures Find(table, table[i].0) == Some(table[i].1)
  {
  }
}
