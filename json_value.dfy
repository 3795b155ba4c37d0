/**
 * Decoded JSON values, as Python's json module hands them to the parsers.
 * Objects are Python dicts: they keep their keys in insertion order, which
 * the parsers observe when they iterate over `items()`.
 */
module JsonValue {
  import opened Wrappers

  datatype Json =
    | Null
    | Bool(b: bool)
    | Int(i: int)
    | Float(r: real)
    | Str(s: string)
    | Arr(items: seq<Json>)
    | Obj(fields: Fields)

  /** The entries of a dict, in insertion order. */
  type Fields = seq<(string, Json)>

  /** `isinstance(v, (int, float))`; a Python bool is an int. */
  predicate IsNumber(v: Json) {
    v.Bool? || v.Int? || v.Float?
  }

  /** Python truthiness of a decoded value. */
  predicate Truthy(v: Json) {
    match v
    case Null => false
    case Bool(b) => b
    case Int(i) => i != 0
    case Float(r) => r != 0.0
    case Str(s) => s != ""
    case Arr(a) => a != []
    case Obj(f) => f != []
  }

  function Keys(o: Fields): (ks: seq<string>)
    ensures |ks| == |o|
    ensures forall i :: 0 <= i < |o| ==> ks[i] == o[i].0
  {
    if o == [] then [] else [o[0].0] + Keys(o[1..])
  }

  /** `key in d` */
  predicate Has(o: Fields, key: string) {
    o != [] && (o[0].0 == key || Has(o[1..], key))
  }

  lemma {:induction false} HasKeys(o: Fields, key: string)
    ensures Has(o, key) <==> key in Keys(o)
  {
    if o != [] {
      HasKeys(o[1..], key);
      assert Keys(o) == [o[0].0] + Keys(o[1..]);
    }
  }

  /** `d.get(key)`: the value stored under the key, if any. */
  function Get(o: Fields, key: string): (r: Option<Json>)
    ensures r.Some? <==> Has(o, key)
    ensures r.Some? ==> (key, r.value) in o
  {
    if o == [] then None
    else if o[0].0 == key then Some(o[0].1)
    else Get(o[1..], key)
  }

  /** Looking up a key in a dict that starts with a given entry. */
  lemma GetCons(k: string, v: Json, rest: Fields, key: string)
    ensures Get([(k, v)] + rest, key) == if k == key then Some(v) else Get(rest, key)
    ensures Keys([(k, v)] + rest) == [k] + Keys(rest)
  {
    assert ([(k, v)] + rest)[1..] == rest;
  }

  /** `d.get(key, default)` */
  function GetOr(o: Fields, key: string, default: Json): (r: Json)
    ensures Has(o, key) ==> Some(r) == Get(o, key)
    ensures !Has(o, key) ==> r == default
  {
    match Get(o, key)
    case Some(v) => v
    case None => default
  }

  /** `key` mapped to a string value in `d`. */
  predicate HasString(o: Fields, key: string) {
    Get(o, key).Some? && Get(o, key).value.Str?
  }

  /**
   * `d[key] = v`: an existing key keeps its position and takes the new value,
   * a new key is appended at the end.
   */
  function Set(o: Fields, key: string, v: Json): (r: Fields)
    ensures Get(r, key) == Some(v)
    ensures forall k :: k != key ==> Get(r, k) == Get(o, k)
    ensures Keys(r) == if Has(o, key) then Keys(o) else Keys(o) + [key]
  {
    if o == [] then [(key, v)]
    else if o[0].0 == key then
      var r := [(key, v)] + o[1..];
      assert r[1..] == o[1..];
      assert Keys(r) == [key] + Keys(o[1..]);
      r
    else
      var rest := Set(o[1..], key, v);
      var r := [o[0]] + rest;
      assert r[1..] == rest;
      assert Keys(o) == [o[0].0] + Keys(o[1..]);
      assert Keys(r) == [o[0].0] + Keys(rest);
      assert Has(o, key) == Has(o[1..], key);
      assert !Has(o, key) ==> Keys(r) == Keys(o) + [key] by {
        if !Has(o, key) {
          calc {
            Keys(r);
            [o[0].0] + (Keys(o[1..]) + [key]);
            ([o[0].0] + Keys(o[1..])) + [key];
          }
        }
      }
      r
  }

  /** The key sequence without `key`. */
  function Without(ks: seq<string>, key: string): (r: seq<string>)
    ensures key !in r
    ensures forall k :: k != key ==> (k in r <==> k in ks)
  {
    if ks == [] then []
    else if ks[0] == key then Without(ks[1..], key)
    else [ks[0]] + Without(ks[1..], key)
  }

  /** `d.pop(key, None)`: the entry under `key` is removed, the others keep their order. */
  function Remove(o: Fields, key: string): (r: Fields)
    ensures Get(r, key) == None
    ensures forall k :: k != key ==> Get(r, k) == Get(o, k)
    ensures Keys(r) == Without(Keys(o), key)
  {
    if o == [] then []
    else if o[0].0 == key then Remove(o[1..], key)
    else
      var rest := Remove(o[1..], key);
      var r := [o[0]] + rest;
      assert r[1..] == rest;
      assert Keys(r) == [o[0].0] + Keys(rest);
      r
  }
}
