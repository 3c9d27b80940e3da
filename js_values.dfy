/**
 * The slice of JavaScript values that the view layer inspects: the
 * truthiness tests, property reads and strict comparisons that the source
 * performs on plain objects coming from the database or from a request.
 */
module JsValues {

  /** A JavaScript value. Objects are property maps; numbers are integers. */
  datatype Value =
    | Undefined
    | Null
    | Bool(b: bool)
    | Num(n: int)
    | Str(s: string)
    | Obj(props: map<string, Value>)
  {
    /** JavaScript truthiness: `undefined`, `null`, `false`, `0` and `""` are falsy. */
    predicate Truthy() {
      match this
      case Undefined => false
      case Null => false
      case Bool(b) => b
      case Num(n) => n != 0
      case Str(s) => s != ""
      case Obj(_) => true
    }

    /** `null` or `undefined`: reading a property of one of these throws. */
    predicate Nullish() {
      Undefined? || Null?
    }
  }

  /** A plain JavaScript object: a map from property names to values. */
  type Object = map<string, Value>

  /** `o.k` on an object: `undefined` when the property is absent. */
  function Get(o: Object, k: string): (v: Value) {
    if k in o then o[k] else Undefined
  }

  /**
   * `v.k` on any value that is not `null` or `undefined`. Primitives carry
   * none of the properties the view layer reads, so they yield `undefined`.
   */
  function Prop(v: Value, k: string): (p: Value)
    requires !v.Nullish()
  {
    if v.Obj? then Get(v.props, k) else Undefined
  }

  /** A positive integer, as the source's `is.posint` contract demands. */
  type PosInt = n: int | n > 0 witness 1

  /** An exception: a `TypeError` raised by the language, or one thrown by called code. */
  datatype JsError = TypeError | Thrown

  /** The outcome of a call that may throw. */
  datatype Result<+T> = Ok(value: T) | Err(error: JsError)

  datatype Option<+T> = None | Some(value: T)
}
