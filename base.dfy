/** Vocabulary shared by every route handler: optional values, the JSON replies a
    handler sends, the JSON values a request body can carry, and the two pieces of
    JavaScript semantics the handlers rely on (truthiness and `Number()`). */
module Base {

  datatype Option<+T> = None | Some(value: T) {
    function GetOr(default: T): T
    {
      if Some? then value else default
    }
  }

  /** An ObjectId, in its hexadecimal text form. In a request body the empty string
      stands for a field that is missing, null or empty: all three are falsy and the
      handlers reject them alike. */
  type Id = string

  /** The status code and the `message` field of a handler's JSON reply. */
  datatype Response = Response(status: int, message: string)

  /** A reply that carries a payload on success and a status with a message otherwise. */
  datatype Reply<+T> = Ok(body: T) | Err(status: int, message: string)

  const InternalError := "An internal server error occurred."

  /** What a failing storage call throws: an `Error` object (with its message) or some other value. */
  datatype Thrown = ErrorObject(message: string) | OtherValue

  /** Whether the storage layer answers or throws. Only the handlers whose reply to a
      thrown value depends on what was thrown take one of these. */
  datatype Storage = Available | Throws(thrown: Thrown)

  /** `error instanceof Error ? error.message : "An internal server error occurred."` */
  function CaughtMessage(t: Thrown): string
  {
    match t
    case ErrorObject(m) => m
    case OtherValue => InternalError
  }

  /** A JSON value as it arrives in a request body (a missing key reads as Undefined).
      Numbers are integers in this model. */
  datatype JsonValue = Undefined | Null | JBool(b: bool) | JNum(n: int) | JStr(s: string)

  /** A JavaScript number as `Number(...)` produces it: an integer or NaN. */
  datatype JsNumber = Finite(n: int) | NaN

  function Max(a: int, b: int): int
  {
    if a < b then b else a
  }

  /** JavaScript truthiness of a JSON value. */
  predicate Truthy(v: JsonValue)
    ensures !Truthy(v) ==> ToNumber(v) == Finite(0) || ToNumber(v) == NaN
    ensures Truthy(v) && !v.JStr? ==> ToNumber(v) != Finite(0)
  {
    match v
    case Undefined => false
    case Null => false
    case JBool(b) => b
    case JNum(n) => n != 0
    case JStr(s) => s != ""
  }

  predicate IsDigit(c: char)
  {
    '0' <= c <= '9'
  }

  predicate AllDigits(s: string)
  {
    forall i :: 0 <= i < |s| ==> IsDigit(s[i])
  }

  /** The value of a string of decimal digits, most significant first. */
  function DigitsValue(s: string): nat
    requires AllDigits(s)
  {
    if s == [] then 0 else 10 * DigitsValue(s[..|s| - 1]) + (s[|s| - 1] as int - '0' as int)
  }

  /** A decimal text with an optional leading sign, as `Number()` reads it. */
  predicate SignedDigits(s: string)
  {
    |s| > 1 && (s[0] == '-' || s[0] == '+') && AllDigits(s[1..])
  }

  /** `Number(v)`: numbers stay, booleans and null become 1/0, the empty string 0,
      a string of decimal digits (with an optional sign) its value, anything else NaN. */
  function ToNumber(v: JsonValue): (r: JsNumber)
    ensures v.JNum? ==> r == Finite(v.n)
    ensures v.Undefined? ==> r == NaN
    ensures v.Null? ==> r == Finite(0)
    ensures v.JStr? && AllDigits(v.s) ==> r.Finite? && r.n >= 0
    ensures v.JStr? && SignedDigits(v.s) && v.s[0] == '-' ==> r == Finite(-(DigitsValue(v.s[1..]) as int))
    ensures v.JStr? && v.s != "" && !AllDigits(v.s) && !SignedDigits(v.s) ==> r == NaN
  {
    match v
    case Undefined => NaN
    case Null => Finite(0)
    case JBool(b) => Finite(if b then 1 else 0)
    case JNum(n) => Finite(n)
    case JStr(s) =>
      if s == "" then Finite(0)
      else if AllDigits(s) then Finite(DigitsValue(s))
      else if SignedDigits(s) then Finite(if s[0] == '-' then -(DigitsValue(s[1..]) as int) else DigitsValue(s[1..]))
      else NaN
  }

  function DigitChar(d: int): char
    requires 0 <= d < 10
  {
    ('0' as int + d) as char
  }

  /** Decimal text of a natural number, most significant digit first. */
  function NatText(n: nat): (s: string)
    ensures |s| > 0 && AllDigits(s)
  {
    if n < 10 then [DigitChar(n)] else NatText(n / 10) + [DigitChar(n % 10)]
  }

  /** Decimal text of an integer, as a template literal or `toString()` renders it. */
  function IntText(n: int): string
  {
    if n < 0 then "-" + NatText(-n) else NatText(n)
  }

  /** `String(v)`, `v.toString()` and `${v}` on a JSON value. */
  function JsonText(v: JsonValue): (s: string)
    ensures v.JStr? ==> s == v.s
    ensures s == "" <==> v == JStr("")
    ensures v.JNum? && v.n >= 0 ==> ToNumber(JStr(s)) == Finite(v.n)
  {
    if v.JNum? && v.n >= 0 then NumberOfTextIsIdentity(v.n); IntText(v.n)
    else match v
    case Undefined => "undefined"
    case Null => "null"
    case JBool(b) => if b then "true" else "false"
    case JNum(n) => IntText(n)
    case JStr(s) => s
  }

  /** Reading digits back gives the number that was written: `Number(String(n)) == n`. */
  lemma {:induction false} NatTextRoundTrip(n: nat)
    ensures DigitsValue(NatText(n)) == n
  {
    if n >= 10 {
      NatTextRoundTrip(n / 10);
      var s := NatText(n);
      assert s[..|s| - 1] == NatText(n / 10);
    }
  }

  /** A negative number's text, such as a basement floor's "-1", converts back with `Number()`. */
  lemma NegativeTextIsIdentity(n: nat)
    ensures ToNumber(JStr("-" + NatText(n))) == Finite(-(n as int))
  {
    var s := "-" + NatText(n);
    assert s[1..] == NatText(n);
    NatTextRoundTrip(n);
  }

  /** A numeric string written by `toString()` converts back with `Number()`. */
  lemma NumberOfTextIsIdentity(n: nat)
    ensures ToNumber(JStr(NatText(n))) == Finite(n)
  {
    NatTextRoundTrip(n);
  }
}
