/** The 'view by' bucket keys as a `terms` aggregation returns them: a
    string for a keyword field, a number for a numeric field (integers
    here). The reducer stores a lane under the key's property name
    (`String(key)`, line 125), but puts the key itself into
    `aggViewByOrder` (line 123); the renderer then looks lanes up with
    `indexOf`, which compares with `===` (line 287). The rest of the model
    takes every key to be the property name it is stored under. */
module TermKeys {
  import opened Wrappers

  datatype TermKey = StrKey(s: string) | NumKey(n: int)

  function Digit(d: nat): char
    requires d < 10
  {
    "0123456789"[d]
  }

  /** The decimal numeral of `n`, without leading zeros. */
  function Decimal(n: nat): (r: string)
    ensures 0 < |r|
    ensures forall i :: 0 <= i < |r| ==> '0' <= r[i] <= '9'
  {
    if n < 10 then [Digit(n)] else Decimal(n / 10) + [Digit(n % 10)]
  }

  /** The name `dataByViewBy[key]` stores the lane under: the string itself,
      or the numeral of a number. */
  function PropertyName(k: TermKey): (r: string)
    ensures k.StrKey? ==> r == k.s
    ensures k.NumKey? ==> 0 < |r| && (k.n >= 0 <==> r[0] != '-')
  {
    match k
    case StrKey(s) => s
    case NumKey(n) => if n < 0 then "-" + Decimal(-n) else Decimal(n)
  }

  /** `laneIds.indexOf(viewByValue)` with `viewByValue` an enumerated
      property name, so a string: only the very same string matches. */
  function StrictIndexOf(laneIds: seq<TermKey>, name: string): (r: int)
    ensures -1 <= r < |laneIds|
    ensures r == -1 <==> StrKey(name) !in laneIds
    ensures 0 <= r ==> laneIds[r] == StrKey(name) && forall j :: 0 <= j < r ==> laneIds[j] != StrKey(name)
  {
    if laneIds == [] then -1
    else if laneIds[0] == StrKey(name) then 0
    else
      var r := StrictIndexOf(laneIds[1..], name);
      if r == -1 then -1 else r + 1
  }

  /** Line 123 as written: `aggViewByOrder` holds the keys themselves, and
      the row of a key's lane is looked up by its property name. */
  function RowAsWritten(aggViewByOrder: seq<TermKey>, k: TermKey): (r: int)
    ensures -1 <= r < |aggViewByOrder|
    ensures r == -1 <==> StrKey(PropertyName(k)) !in aggViewByOrder
    ensures 0 <= r ==> aggViewByOrder[r] == StrKey(PropertyName(k))
  {
    StrictIndexOf(aggViewByOrder, PropertyName(k))
  }

  /** Line 379 as written: a string lane id reaches the crop (modelled by
      `Render.TruncateLabel`); a number has no `length`, so the comparison
      fails and `substring` is called on a number, which throws a TypeError. */
  function LabelAsWritten(laneId: TermKey): (r: Result<string, string>)
    ensures r.Ok? <==> laneId.StrKey?
    ensures r.Ok? ==> r.value == laneId.s
  {
    match laneId
    case StrKey(s) => Ok(s)
    case NumKey(_) => Err("TypeError")
  }

  /** The intended order: `String(bucket.key)`, the name the lane is stored
      under. */
  function OrderIntended(keys: seq<TermKey>): (r: seq<TermKey>)
    ensures |r| == |keys|
    ensures forall i :: 0 <= i < |keys| ==> r[i] == StrKey(PropertyName(keys[i]))
  {
    seq(|keys|, i requires 0 <= i < |keys| => StrKey(PropertyName(keys[i])))
  }

  /** The row of a key's lane with the intended order: the first key with
      the same property name, or -1 when there is none. */
  function RowIntended(keys: seq<TermKey>, k: TermKey): (r: int)
    ensures -1 <= r < |keys|
    ensures r == -1 <==> forall i :: 0 <= i < |keys| ==> PropertyName(keys[i]) != PropertyName(k)
    ensures 0 <= r ==> PropertyName(keys[r]) == PropertyName(k)
  {
    var order := OrderIntended(keys);
    var r := StrictIndexOf(order, PropertyName(k));
    assert r == -1 <==> forall i :: 0 <= i < |keys| ==> order[i] != StrKey(PropertyName(k));
    r
  }

  /** A numeric key 404: the lane is stored as "404" while the order holds
      the number, so the lookup fails, and cropping its label throws before
      anything is drawn. With the intended order it is row 0. */
  lemma NumericKeyHasNoRow()
    ensures RowAsWritten([NumKey(404)], NumKey(404)) == -1
    ensures LabelAsWritten(NumKey(404)).Err?
    ensures RowIntended([NumKey(404)], NumKey(404)) == 0
    ensures LabelAsWritten(OrderIntended([NumKey(404)])[0]) == Ok("404")
  {
    assert Decimal(404) == "404" by {
      assert Decimal(4) == "4";
      assert Decimal(40) == "40";
    }
    assert OrderIntended([NumKey(404)])[0] == StrKey("404");
  }

  /** As written, when every key is a number no lane has a row. */
  lemma NumericKeysHaveNoRow(aggViewByOrder: seq<TermKey>, k: TermKey)
    requires forall i :: 0 <= i < |aggViewByOrder| ==> aggViewByOrder[i].NumKey?
    ensures RowAsWritten(aggViewByOrder, k) == -1
  {
  }

  /** With the intended order every key's lane has a row, holding its name. */
  lemma IntendedKeysHaveRows(keys: seq<TermKey>, k: TermKey)
    requires k in keys
    ensures 0 <= RowIntended(keys, k) < |keys|
    ensures PropertyName(keys[RowIntended(keys, k)]) == PropertyName(k)
    ensures LabelAsWritten(OrderIntended(keys)[RowIntended(keys, k)]).Ok?
  {
    var i :| 0 <= i < |keys| && keys[i] == k;
    assert OrderIntended(keys)[i] == StrKey(PropertyName(k));
  }

  /** For string keys the intended order is what the code builds, which is
      the case the rest of the model covers. */
  lemma StringKeysAgree(keys: seq<TermKey>, k: TermKey)
    requires forall i :: 0 <= i < |keys| ==> keys[i].StrKey?
    ensures OrderIntended(keys) == keys
    ensures RowIntended(keys, k) == RowAsWritten(keys, k)
  {
    assert OrderIntended(keys) == keys;
  }
}
