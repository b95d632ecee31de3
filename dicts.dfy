/** JSON-like values and the ordered dictionaries that a schema dump
    produces: a dictionary is the sequence of its (key, value) entries in
    insertion order, and lookup finds the first entry with the key. */
module Dicts {
  import opened Wrappers

  /** Money and stock amounts are exact decimals; `real` is exact. */
  type Decimal = real

  /** A JSON value as it appears in a request body or in a dump. `Null` is
      Python's None (JSON null). */
  datatype Value =
    | Null
    | Bool(b: bool)
    | Str(s: string)
    | Num(n: Decimal)
    | Arr(items: seq<Value>)
    | Obj(entries: map<string, Value>)

  type Dict = seq<(string, Value)>

  /** The keys of a dictionary, in order. */
  function Keys(d: Dict): (ks: seq<string>)
    ensures |ks| == |d|
    ensures forall i | 0 <= i < |d| :: ks[i] == d[i].0
  {
    if d == [] then [] else [d[0].0] + Keys(d[1..])
  }

  /** No key occurs twice, as in every Python dict. */
  predicate DistinctKeys(d: Dict) {
    forall i, j | 0 <= i < j < |d| :: d[i].0 != d[j].0
  }

  /** `d.get(k)`: the value stored under `k`, if any. */
  function Lookup(d: Dict, k: string): Option<Value> {
    if d == [] then None
    else if d[0].0 == k then Some(d[0].1)
    else Lookup(d[1..], k)
  }

  /** A key is absent exactly when no entry carries it. */
  lemma {:induction false} LookupAbsent(d: Dict, k: string)
    ensures Lookup(d, k) == None <==> k !in Keys(d)
  {
    if d != [] {
      LookupAbsent(d[1..], k);
      assert Keys(d) == [d[0].0] + Keys(d[1..]);
    }
  }

  /** In a dictionary without repeated keys, lookup finds exactly the
      entries of the dictionary. */
  lemma {:induction false} LookupEntry(d: Dict, k: string, v: Value)
    requires DistinctKeys(d)
    ensures Lookup(d, k) == Some(v) <==> (k, v) in d
  {
    if d != [] {
      var rest := d[1..];
      assert DistinctKeys(rest) by {
        forall i, j | 0 <= i < j < |rest| ensures rest[i].0 != rest[j].0 {
          assert rest[i] == d[i + 1] && rest[j] == d[j + 1];
        }
      }
      LookupEntry(rest, k, v);
      assert d == [d[0]] + rest;
    }
  }
}
