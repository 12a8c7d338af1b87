/** Python's dict as the aggregation uses it: a map whose keys remember the
    order in which they were first inserted. Keys are strings throughout. */
module Dicts {
  import opened Seqs

  datatype Dict<V> = Dict(keys: seq<string>, entries: map<string, V>)

  /** Every key is listed once, and the listed keys are exactly the map's. */
  ghost predicate Valid<V>(d: Dict<V>)
  {
    NoDups(d.keys) && forall k :: k in d.entries <==> k in d.keys
  }

  /** The empty dict `{}`. */
  function Empty<V>(): (r: Dict<V>)
    ensures Valid(r) && |r.entries| == 0
  {
    Dict([], map[])
  }

  /** `d[k] = v`: an existing key keeps its place, a new key goes last. */
  function Put<V>(d: Dict<V>, k: string, v: V): (r: Dict<V>)
    ensures Valid(d) ==> Valid(r)
    ensures k in r.entries && r.entries[k] == v
    ensures forall j :: j != k ==> (j in r.entries <==> j in d.entries)
    ensures forall j :: j != k && j in d.entries ==> r.entries[j] == d.entries[j]
    ensures d.keys <= r.keys
  {
    Dict(if k in d.entries then d.keys else d.keys + [k], d.entries[k := v])
  }

  /** The key order after a `Put`, for keys laid out as `front + rest`. */
  lemma PutKeys<V>(d: Dict<V>, k: string, v: V, front: seq<string>, rest: seq<string>)
    requires d.keys == front + rest
    ensures k in d.entries ==> Put(d, k, v).keys == front + rest
    ensures k !in d.entries ==> Put(d, k, v).keys == front + (rest + [k])
  {
  }

  /** `d.items()`: the (key, value) pairs in key order. */
  function Items<V>(d: Dict<V>): (r: seq<(string, V)>)
    requires forall k :: k in d.keys ==> k in d.entries
    ensures |r| == |d.keys|
    ensures forall i :: 0 <= i < |r| ==> r[i] == (d.keys[i], d.entries[d.keys[i]])
    decreases |d.keys|
  {
    if d.keys == [] then []
    else Items(Dict(Init(d.keys), d.entries)) + [(Last(d.keys), d.entries[Last(d.keys)])]
  }

  /** `sum(values)` of the listed keys of an integer-valued map. */
  function SumNat(keys: seq<string>, m: map<string, nat>): nat
    requires forall k :: k in keys ==> k in m
  {
    if keys == [] then 0 else SumNat(Init(keys), m) + m[Last(keys)]
  }

  /** `sum(values)` of the listed keys of a real-valued map. */
  function SumReal(keys: seq<string>, m: map<string, real>): real
    requires forall k :: k in keys ==> k in m
  {
    if keys == [] then 0.0 else SumReal(Init(keys), m) + m[Last(keys)]
  }
}
