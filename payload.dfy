/**
 * A block's transaction record, the plain object `{ amount, to }` that the
 * source stores in `data`.  Its properties are kept in insertion order
 * (the order in which the hash sees them), one entry per key.
 */
module Payload {
  import opened Wrappers

  /** A property value: a number or a string. */
  datatype JsValue = Num(n: int) | Str(s: string)

  datatype Entry = Entry(key: string, val: JsValue)

  type Record = seq<Entry>

  /** A JavaScript object never holds the same key twice. */
  ghost predicate DistinctKeys(p: Record) {
    forall i, j :: 0 <= i < j < |p| ==> p[i].key != p[j].key
  }

  /** Property access `p[key]`; `None` stands for `undefined`. */
  function Lookup(p: Record, key: string): (r: Option<JsValue>)
    ensures r.Some? <==> exists i :: 0 <= i < |p| && p[i].key == key
  {
    if p == [] then None
    else if p[0].key == key then Some(p[0].val)
    else
      var r := Lookup(p[1..], key);
      assert forall i :: 1 <= i < |p| ==> p[i] == p[1..][i - 1];
      r
  }

  /**
   * The spread `{ ...p, [key]: v }`: an existing key keeps its position and
   * takes the new value, a new key is appended at the end.
   */
  function Put(p: Record, key: string, v: JsValue): (r: Record)
    ensures Lookup(p, key).Some? ==>
      |r| == |p| && forall i :: 0 <= i < |p| ==> r[i].key == p[i].key
    ensures Lookup(p, key).None? ==> r == p + [Entry(key, v)]
  {
    if p == [] then [Entry(key, v)]
    else if p[0].key == key then [Entry(key, v)] + p[1..]
    else [p[0]] + Put(p[1..], key, v)
  }

  /** The value written to the edited field: `amount` goes through `Number`. */
  function Coerce(field: string, raw: string, toNumber: string -> int): (v: JsValue)
    ensures v.Num? <==> field == "amount"
    ensures v.Str? ==> v.s == raw
  {
    if field == "amount" then Num(toNumber(raw)) else Str(raw)
  }

  /** Reading back the field just written gives the new value. */
  lemma {:induction false} PutLookup(p: Record, key: string, v: JsValue)
    ensures Lookup(Put(p, key, v), key) == Some(v)
  {
    if p != [] && p[0].key != key {
      PutLookup(p[1..], key, v);
    }
  }

  /** Every other property keeps its value. */
  lemma {:induction false} PutKeepsOthers(p: Record, key: string, v: JsValue, other: string)
    requires other != key
    ensures Lookup(Put(p, key, v), other) == Lookup(p, other)
  {
    if p != [] && p[0].key != key && p[0].key != other {
      PutKeepsOthers(p[1..], key, v, other);
    }
  }

  /** The result is again an object: still one entry per key. */
  lemma PutKeepsDistinct(p: Record, key: string, v: JsValue)
    requires DistinctKeys(p)
    ensures DistinctKeys(Put(p, key, v))
  {
  }
}
