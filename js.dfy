/**
 * The JavaScript values the core passes around: user documents, session
 * metadata, cached counters and stamps. Numbers are integers only.
 */
module Js {

  datatype Option<+T> = None | Some(value: T)

  /** A JavaScript value. `Undefined` stands for a missing property or argument. */
  datatype Value =
    | Undefined
    | Null
    | Bool(b: bool)
    | Num(n: int)
    | Str(s: string)
    | Arr(items: seq<Value>)
    | Obj(fields: map<string, Value>)

  /** A plain object: its own enumerable properties. */
  type Object = map<string, Value>

  /** JavaScript truthiness: `undefined`, `null`, `false`, `0` and `""` are falsy. */
  predicate Truthy(v: Value) {
    match v
    case Undefined => false
    case Null => false
    case Bool(b) => b
    case Num(n) => n != 0
    case Str(s) => s != ""
    case _ => true
  }

  /** Property read `obj.name`: a missing property reads as `undefined`. */
  function Get(obj: Object, name: string): Value {
    if name in obj then obj[name] else Undefined
  }

  /** A value JSON can carry unchanged: no `undefined` at any depth. */
  predicate Plain(v: Value) {
    match v
    case Undefined => false
    case Arr(items) => forall i :: 0 <= i < |items| ==> Plain(items[i])
    case Obj(fields) => forall k :: k in fields ==> Plain(fields[k])
    case _ => true
  }

  /** Object spread `{...base, ...over}`: the properties of `over` win. */
  function Overlay(base: Object, over: Object): (r: Object)
    ensures r.Keys == base.Keys + over.Keys
    ensures forall k :: k in over ==> r[k] == over[k]
    ensures forall k :: k in base && k !in over ==> r[k] == base[k]
  {
    base + over
  }
}
