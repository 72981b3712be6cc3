/** The part of the JavaScript value model that the test runner inspects:
    truthiness, property reads and `String.prototype.substr`. */
module JsValues {

  datatype Option<T> = None | Some(value: T)

  /** A JavaScript value. Numbers are integers (floating point is not
      modelled). An object maps its property names to values; `enumerable`
      holds the names a `for...in` loop over it visits. */
  datatype JsValue =
    | Undefined
    | Null
    | Bool(b: bool)
    | Num(n: int)
    | Str(s: string)
    | Arr(elems: seq<JsValue>)
    | Obj(props: map<string, JsValue>, enumerable: set<string>)

  /** JavaScript truthiness: `undefined`, `null`, `false`, `0` and `""` are falsy. */
  predicate Truthy(v: JsValue) {
    match v
    case Undefined => false
    case Null => false
    case Bool(b) => b
    case Num(n) => n != 0
    case Str(s) => s != ""
    case Arr(_) => true
    case Obj(_, _) => true
  }

  /** The two values whose property reads throw a TypeError. */
  predicate Nullish(v: JsValue) {
    v.Undefined? || v.Null?
  }

  /** `v[key]` for a value that is not nullish. Primitives and arrays carry
      none of the properties the runner reads, so they give `undefined`. */
  function Get(v: JsValue, key: string): JsValue {
    if v.Obj? && key in v.props then v.props[key] else Undefined
  }

  /** An object literal: every property it is built with is enumerable. */
  function Literal(props: map<string, JsValue>): (o: JsValue)
    ensures o.Obj? && Truthy(o)
    ensures forall k :: k in props ==> Get(o, k) == props[k]
    ensures forall k :: k !in props ==> Get(o, k) == Undefined
  {
    Obj(props, props.Keys)
  }

  function Min(a: int, b: int): int { if a <= b then a else b }
  function Max(a: int, b: int): int { if a <= b then b else a }

  /** `s.substr(start, length)`: a negative start counts from the end, the
      start is clamped to the string, and at most `length` characters (none
      when `length` is negative) are taken. */
  function Substr(s: string, start: int, length: int): (r: string)
    ensures |r| <= |s|
    ensures 0 <= start && 0 <= length && start + length <= |s| ==> r == s[start..start + length]
    ensures length <= 0 ==> r == []
  {
    var a := if start < 0 then Max(|s| + start, 0) else Min(start, |s|);
    var n := Min(Max(length, 0), |s| - a);
    s[a..a + n]
  }

  /** `s.substr(start)` with one argument: everything from `start` on. */
  function Drop(s: string, start: nat): (r: string)
    ensures start <= |s| ==> r == s[start..]
    ensures start > |s| ==> r == []
  {
    if start <= |s| then s[start..] else []
  }

  predicate StartsWith(s: string, prefix: string) {
    prefix <= s
  }
}
