/**
  The few JavaScript value notions the command-line front end depends on:
  a property that may be `undefined`, `null` or hold a value, the scalar
  JSON values an option object can carry, truthiness, and the way a value
  is rendered inside a template literal.
 */
module JsValues {
  import opened Wrappers

  /** An object property: undefined, `null`, or a value. */
  datatype Prop<+T> = Undefined | Null | Val(value: T) {
    /** Anything but undefined; note that `null` counts as defined. */
    predicate Defined() {
      !Undefined?
    }
  }

  /** Largest magnitude a JavaScript number holds exactly as an integer (2^53 - 1). */
  const MaxSafeInteger := 0x1F_FFFF_FFFF_FFFF

  /** The integers a parsed JSON number represents exactly. */
  type SafeInteger = n: int | -MaxSafeInteger <= n <= MaxSafeInteger

  /** Scalar JSON values; numbers are limited to safe integers. */
  datatype Json = JNull | JBool(b: bool) | JNum(n: SafeInteger) | JStr(s: string)

  /** JavaScript truthiness of a scalar JSON value. */
  predicate Truthy(j: Json) {
    match j
    case JNull => false
    case JBool(b) => b
    case JNum(n) => n != 0
    case JStr(s) => s != ""
  }

  /** Truthiness of a boolean flag that may be left undefined. */
  predicate IsSet(flag: Option<bool>) {
    flag == Some(true)
  }

  /** How a template literal renders a string that may be undefined. */
  function ShowString(x: Option<string>): (r: string)
    ensures x.Some? ==> r == x.value
  {
    match x
    case Some(s) => s
    case None => "undefined"
  }

  function DigitChar(d: int): (c: char)
    requires 0 <= d < 10
    ensures '0' <= c <= '9'
  {
    "0123456789"[d]
  }

  /** Decimal digits of a natural number, most significant first. */
  function NatDecimal(n: nat): (r: string)
    ensures |r| > 0
    ensures forall i :: 0 <= i < |r| ==> '0' <= r[i] <= '9'
  {
    if n < 10 then [DigitChar(n)] else NatDecimal(n / 10) + [DigitChar(n % 10)]
  }

  /** How a template literal renders a scalar JSON value. */
  function ShowJson(j: Json): string {
    match j
    case JNull => "null"
    case JBool(b) => if b then "true" else "false"
    case JNum(n) => if n < 0 then "-" + NatDecimal(-n) else NatDecimal(n)
    case JStr(s) => s
  }
}
