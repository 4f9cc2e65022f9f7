/**
 * JavaScript values as the entity layer sees them, together with the two
 * language rules that layer relies on: truthiness (every `if (x)` and
 * `a || b`) and conversion to a string (every `+` with a string operand).
 */
module JsValue {

  /**
   * A JavaScript value. Numbers are integers here; fractions, NaN and the
   * infinities are not modelled. An object is a map from its own keys.
   */
  datatype Value =
    | Undefined
    | Null
    | Bool(b: bool)
    | Num(n: int)
    | Str(s: string)
    | Arr(elems: seq<Value>)
    | Obj(fields: map<string, Value>)

  /** Truthiness: undefined, null, false, 0 and "" are falsy; every array and object is truthy. */
  predicate Truthy(v: Value) {
    match v
    case Undefined => false
    case Null => false
    case Bool(b) => b
    case Num(n) => n != 0
    case Str(s) => s != ""
    case Arr(_) => true
    case Obj(_) => true
  }

  /** `a || b`: the first operand when it is truthy, otherwise the second, whatever it is. */
  function Or(a: Value, b: Value): Value {
    if Truthy(a) then a else b
  }

  /** The decimal digits of a natural number, most significant first. */
  function NatToDecimal(n: nat): (r: string)
    decreases n
  {
    var digit := ['0', '1', '2', '3', '4', '5', '6', '7', '8', '9'][n % 10];
    if n < 10 then [digit] else NatToDecimal(n / 10) + [digit]
  }

  /** String(n) for an integer n. */
  function IntToDecimal(n: int): string {
    if n < 0 then "-" + NatToDecimal(-n) else NatToDecimal(n)
  }

  /** `parts.join(",")`. */
  function JoinComma(parts: seq<string>): string
    decreases |parts|
  {
    if |parts| == 0 then ""
    else if |parts| == 1 then parts[0]
    else parts[0] + "," + JoinComma(parts[1..])
  }

  /**
   * String(v): the conversion `'' + v` performs. An array converts as the
   * comma-joined conversions of its elements, with undefined and null
   * elements as empty strings; a plain object converts as "[object Object]".
   */
  function ToJsString(v: Value): string
    decreases v
  {
    match v
    case Undefined => "undefined"
    case Null => "null"
    case Bool(b) => if b then "true" else "false"
    case Num(n) => IntToDecimal(n)
    case Str(s) => s
    case Arr(es) =>
      JoinComma(seq(|es|, i requires 0 <= i < |es| =>
        if es[i].Undefined? || es[i].Null? then "" else ToJsString(es[i])))
    case Obj(_) => "[object Object]"
  }
}
