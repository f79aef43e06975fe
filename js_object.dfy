/** JavaScript plain objects used as dictionaries (`const o = {}; o[k] = v;`).
    Property names are strings; enumeration with `_.each` visits them in the
    order in which they were first assigned, and assigning to a property that
    already exists replaces its value but keeps its place. */
module JsObject {

  datatype Dict<V> = Dict(keys: seq<string>, entries: map<string, V>)
  {
    /** The enumeration order lists every property exactly once. */
    ghost predicate Valid() {
      && (forall i, j :: 0 <= i < j < |keys| ==> keys[i] != keys[j])
      && (forall k :: k in entries <==> k in keys)
    }
  }

  /** `{}` */
  function Empty<V>(): (d: Dict<V>)
    ensures d.Valid() && d.keys == [] && d.entries == map[]
  {
    Dict([], map[])
  }

  /** `d[k] = v`: a new key goes to the end of the enumeration order. */
  function Put<V>(d: Dict<V>, k: string, v: V): (r: Dict<V>)
    requires d.Valid()
    ensures r.Valid()
    ensures r.entries == d.entries[k := v]
    ensures r.keys == if k in d.entries then d.keys else d.keys + [k]
  {
    if k in d.entries then Dict(d.keys, d.entries[k := v]) else Dict(d.keys + [k], d.entries[k := v])
  }

  /** `_.keys(o).length > 0` exactly when `o` has some property. */
  lemma HasKeys<V>(d: Dict<V>)
    ensures d.Valid() ==> (|d.keys| > 0 <==> exists k :: k in d.entries)
  {
    if d.Valid() && |d.keys| > 0 {
      assert d.keys[0] in d.entries;
    }
  }
}
