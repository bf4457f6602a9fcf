/** The optional value used wherever a lookup or a response may come back empty. */
module Options {
  datatype Option<T> = None | Some(value: T)
}

/**
 * JavaScript values as they appear in the dashboard's loosely typed records:
 * form data, records fetched from the API and the records sent back to it.
 */
module JsValues {

  /**
   * A JavaScript value. Numbers are integers in the model (cents, units,
   * milliseconds); NaN and fractional floats are not modelled.
   */
  datatype Value = Undefined | Null | Bool(b: bool) | Num(n: int) | Str(s: string)

  /** An `any`-typed object keyed by field name. */
  type Record = map<string, Value>

  /** JavaScript truthiness: `undefined`, `null`, `false`, `0` and `''` are falsy. */
  predicate Truthy(v: Value) {
    match v
    case Undefined => false
    case Null => false
    case Bool(b) => b
    case Num(n) => n != 0
    case Str(s) => s != ""
  }

  /** Property access `r[key]`: a missing key reads as `undefined`. */
  function Get(r: Record, key: string): Value {
    if key in r then r[key] else Undefined
  }

  /** `a || b`: the left operand when it is truthy, else the right one. */
  function Or(a: Value, b: Value): (r: Value)
    ensures r == a || r == b
    ensures Truthy(r) <==> Truthy(a) || Truthy(b)
    ensures Truthy(a) ==> r == a
    ensures !Truthy(a) ==> r == b
    ensures Truthy(b) ==> Truthy(r)
  {
    if Truthy(a) then a else b
  }

  /**
   * The built-in `parseInt` and `parseFloat`, which the model does not
   * define: each maps a raw field value to the number it parses to.
   */
  datatype NumberParsers = NumberParsers(parseInt: Value -> int, parseFloat: Value -> int)

  /** `raw ? parseFloat(raw) : null`, the coercion of optional coordinates. */
  function OptionalFloat(raw: Value, parsers: NumberParsers): (r: Value)
    ensures r == Null <==> !Truthy(raw)
    ensures Truthy(raw) ==> r == Num(parsers.parseFloat(raw))
  {
    if Truthy(raw) then Num(parsers.parseFloat(raw)) else Null
  }
}
