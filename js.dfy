/** The JavaScript values that the forms hold, and JavaScript's notion of truthiness. */
module Js {

  /** A form value. Numbers are integers; objects other than arrays do not occur in the forms. */
  datatype Value = Undefined | Null | Bool(b: bool) | Num(n: int) | Str(s: string) | Arr(items: seq<Value>)

  /** `Boolean(v)`: `undefined`, `null`, `false`, `0` and `""` are falsy; every array is truthy. */
  predicate Truthy(v: Value) {
    match v
    case Undefined => false
    case Null => false
    case Bool(b) => b
    case Num(n) => n != 0
    case Str(s) => s != ""
    case Arr(_) => true
  }

  /** A JavaScript object with string keys, as far as the forms use them (key order is not observed). */
  type Form = map<string, Value>

  /** `obj[key]`, which is `undefined` for a missing key. */
  function Get(obj: Form, key: string): Value {
    if key in obj then obj[key] else Undefined
  }

  /** `{ ...m, [k]: !m[k] }`: key `k` flipped, a missing key (`undefined`) counting as false. */
  function Toggled<K>(m: map<K, bool>, k: K): (r: map<K, bool>)
    ensures r.Keys == m.Keys + {k}
    ensures r[k] == !(k in m && m[k])
    ensures forall k' :: k' in m && k' != k ==> r[k'] == m[k']
  {
    m[k := !(k in m && m[k])]
  }

  /** Flipping the same key twice gives back the map when the key was present. */
  lemma ToggledTwice<K>(m: map<K, bool>, k: K)
    requires k in m
    ensures Toggled(Toggled(m, k), k) == m
  {
  }
}
