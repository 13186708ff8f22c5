/** JavaScript values as the form components observe them, with the language's own
    rules for truthiness (`!v`), strict equality (`===`), nullish coalescing (`??`),
    logical or (`||`), string conversion (template literals) and property lookup on a
    plain object. Numbers are integer-valued; objects and arrays are known only by
    their identity. */
module JsValues {
  import Strings

  datatype Value =
    | Undefined
    | Null
    | Bool(b: bool)
    | Num(n: int)
    | NaN
    | Str(s: string)
    | Ref(id: nat)

  /** A plain object: its own properties. A missing property reads as `undefined`. */
  type Record = map<string, Value>

  /** `!!v`: false exactly for undefined, null, false, 0, NaN and "". */
  predicate Truthy(v: Value)
  {
    match v
    case Undefined => false
    case Null => false
    case Bool(b) => b
    case Num(n) => n != 0
    case NaN => false
    case Str(s) => s != ""
    case Ref(_) => true
  }

  predicate IsNullish(v: Value)
  {
    v.Undefined? || v.Null?
  }

  /** `a === b`: same type and value, identity for objects, and NaN equals nothing. */
  predicate StrictEquals(a: Value, b: Value)
  {
    a == b && !a.NaN?
  }

  /** `a ?? b`. */
  function Coalesce(a: Value, b: Value): (r: Value)
    ensures !IsNullish(a) ==> r == a
    ensures IsNullish(a) ==> r == b
  {
    if IsNullish(a) then b else a
  }

  /** `a || b`: the first operand when it is truthy, else the second. */
  function Or(a: Value, b: Value): (r: Value)
    ensures Truthy(r) <==> Truthy(a) || Truthy(b)
    ensures r == a || r == b
  {
    if Truthy(a) then a else b
  }

  /** `a && b`: the first operand when it is falsy, else the second. */
  function And(a: Value, b: Value): (r: Value)
    ensures Truthy(r) <==> Truthy(a) && Truthy(b)
    ensures r == a || r == b
  {
    if Truthy(a) then b else a
  }

  /** `String(v)`, which is also what a template literal and a property key use. */
  function ToStr(v: Value): string
  {
    match v
    case Undefined => "undefined"
    case Null => "null"
    case Bool(b) => if b then "true" else "false"
    case Num(n) => Strings.IntToString(n)
    case NaN => "NaN"
    case Str(s) => s
    case Ref(_) => "[object Object]"
  }

  /** `obj[key]` on a plain object. */
  function Get(obj: Record, key: string): (v: Value)
    ensures key !in obj ==> v == Undefined
    ensures key in obj ==> v == obj[key]
  {
    if key in obj then obj[key] else Undefined
  }

  /** `obj[v]` for a key given as a value: the key is the value's string form. */
  function GetBy(obj: Record, v: Value): Value
  {
    Get(obj, ToStr(v))
  }

  /** `obj[v] = x`. */
  function SetBy(obj: Record, v: Value, x: Value): Record
  {
    obj[ToStr(v) := x]
  }

  /** `{...a, ...b}`: every own property of both; `b` wins on a shared key. */
  function Spread(a: Record, b: Record): (r: Record)
    ensures r.Keys == a.Keys + b.Keys
    ensures forall k :: k in b ==> r[k] == b[k]
    ensures forall k :: k in a && k !in b ==> r[k] == a[k]
  {
    a + b
  }

  /** `keys` lists every own property of `obj` exactly once: the order in which
      `for ... in`, `Object.keys` and `Object.entries` visit them. */
  predicate Enumerates<V>(keys: seq<string>, obj: map<string, V>)
  {
    && (forall i :: 0 <= i < |keys| ==> keys[i] in obj)
    && (forall k :: k in obj ==> k in keys)
    && (forall i, j :: 0 <= i < j < |keys| ==> keys[i] != keys[j])
  }
}
