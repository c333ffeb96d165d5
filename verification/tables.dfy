/**
 * Lookup in a constant JavaScript object literal used as a table
 * (`table[key] || fallback`), kept as its list of (key, value) entries in
 * declaration order.
 */
module Tables {
  import opened Wrappers

  predicate HasKey<V>(table: seq<(string, V)>, key: string) {
    exists i :: 0 <= i < |table| && table[i].0 == key
  }

  /** The position of the first entry whose key is `key`, or -1. */
  function IndexOfKey<V>(table: seq<(string, V)>, key: string): (i: int)
    ensures -1 <= i < |table|
    ensures i >= 0 ==> table[i].0 == key && forall j :: 0 <= j < i ==> table[j].0 != key
    ensures i == -1 <==> !HasKey(table, key)
  {
    if table == [] then -1
    else if table[0].0 == key then 0
    else
      var k := IndexOfKey(table[1..], key);
      assert forall j :: 1 <= j < |table| ==> table[j] == table[1..][j - 1];
      if k == -1 then -1 else k + 1
  }

  /** `table[key]`: the value stored under `key`, if any. */
  function Lookup<V>(table: seq<(string, V)>, key: string): (r: Option<V>)
    ensures r.Some? <==> HasKey(table, key)
    ensures r.Some? ==> (key, r.value) in table
  {
    var i := IndexOfKey(table, key);
    if i == -1 then None else Some(table[i].1)
  }

  /** The keys of a table, in declaration order (`Object.keys`). */
  function Keys<V>(table: seq<(string, V)>): (ks: seq<string>)
    ensures |ks| == |table|
    ensures forall i :: 0 <= i < |table| ==> ks[i] == table[i].0
  {
    if table == [] then [] else [table[0].0] + Keys(table[1..])
  }
}
