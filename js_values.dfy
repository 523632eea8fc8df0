/** Values as the JavaScript runtime sees them, as far as the modelled code
    inspects them: `null`/`undefined` (the two "nullish" values that `??`
    replaces) and the falsy values that `??`, unlike `||`, keeps. */
module JsValues {

  datatype Option<+T> = None | Some(value: T)

  /** A JavaScript value. Numbers are restricted to integers: the modelled
      code never inspects a fractional value. */
  datatype JsValue =
    | Undefined
    | Null
    | Bool(b: bool)
    | Num(n: int)
    | Str(s: string)
    | Arr(items: seq<JsValue>)
    | Obj(fields: map<string, JsValue>)

  /** The empty object literal `{}`. */
  const EmptyObject: JsValue := Obj(map[])

  /** The values on which `a ?? b` yields `b`. */
  predicate IsNullish(v: JsValue) {
    v.Undefined? || v.Null?
  }

  /** The values on which `a || b` yields `b`. */
  predicate IsFalsy(v: JsValue) {
    match v
    case Undefined => true
    case Null => true
    case Bool(b) => !b
    case Num(n) => n == 0
    case Str(s) => s == ""
    case _ => false
  }

  /** `v ?? fallback`. */
  function Coalesce(v: JsValue, fallback: JsValue): (r: JsValue)
    ensures IsNullish(v) ==> r == fallback
    ensures !IsNullish(v) ==> r == v
  {
    if IsNullish(v) then fallback else v
  }

  /** `v || fallback`, the operator the code does NOT use; kept as the
      contrast that shows which inputs the two operators treat differently. */
  function Or(v: JsValue, fallback: JsValue): (r: JsValue)
    ensures IsFalsy(v) ==> r == fallback
    ensures !IsFalsy(v) ==> r == v
  {
    if IsFalsy(v) then fallback else v
  }

  /** `??` and `||` disagree exactly on the falsy values that are not nullish
      (`false`, `0`, `""`), provided the fallback differs from the value. */
  lemma CoalesceDiffersFromOr(v: JsValue, fallback: JsValue)
    requires v != fallback
    ensures Coalesce(v, fallback) != Or(v, fallback) <==> IsFalsy(v) && !IsNullish(v)
  {
  }
}
