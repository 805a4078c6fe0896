/** The few JavaScript value semantics the relay server relies on: the values a
    Socket.IO payload field can hold, `===` on them, and JavaScript truthiness. */
module Js {

  datatype Option<+T> = None | Some(value: T)

  /** A JavaScript value as it arrives in an event payload. Numbers are
      integers here; objects and arrays are known only by their identity,
      which is how `===` and `Map` keys compare them. Datatype equality on
      this type is JavaScript's `===` (and `Map`'s SameValueZero). */
  datatype JsValue =
    | Undefined
    | Null
    | Bool(b: bool)
    | Num(n: int)
    | Str(s: string)
    | Obj(ref: nat)

  /** The falsy values of JavaScript that this value type can hold. */
  const FalsyValues: set<JsValue> := {Undefined, Null, Bool(false), Num(0), Str("")}

  /** JavaScript truthiness (`!v` is false), decided by the value's type. */
  predicate Truthy(v: JsValue)
  {
    match v
    case Undefined => false
    case Null => false
    case Bool(b) => b
    case Num(n) => n != 0
    case Str(s) => s != ""
    case Obj(_) => true
  }

  /** The value of `v.length`: the length of a string, `undefined` for every
      other value (an array's length is not modelled). */
  /** Exactly the five falsy values are falsy. */
  lemma TruthyUnlessFalsy(v: JsValue)
    ensures Truthy(v) <==> v !in FalsyValues
  {
  }

  function LengthOf(v: JsValue): (r: JsValue)
    ensures r.Num? <==> v.Str?
    ensures v.Str? ==> r.n == |v.s|
    ensures Truthy(v) && v.Str? ==> r.n > 0
  {
    if v.Str? then Num(|v.s|) else Undefined
  }
}
