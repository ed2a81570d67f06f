/**
 * The JavaScript values the slider configuration is made of, and the
 * coercions the adapter relies on: truthiness, conversion to a string,
 * destructuring defaults and loose equality with a word.
 *
 * Numbers are modelled as integers: the configuration fields the adapter
 * reads (sizes, counts, percentages) are whole numbers in practice.
 */
module JsValues {

  /** A JavaScript value; `Obj` is a plain object given by its own properties. */
  datatype JsValue =
    | Undef
    | Null
    | Bool(b: bool)
    | Num(n: int)
    | Str(s: string)
    | Obj(props: map<string, JsValue>)

  /** The empty object literal `{}`. */
  const EmptyObject: JsValue := Obj(map[])

  /** JavaScript truthiness: `undefined`, `null`, `false`, `0` and `''` are falsy. */
  predicate Truthy(v: JsValue)
    ensures !Truthy(v) <==> v == Undef || v == Null || v == Bool(false) || v == Num(0) || v == Str("")
  {
    match v
    case Undef => false
    case Null => false
    case Bool(b) => b
    case Num(n) => n != 0
    case Str(s) => s != ""
    case Obj(_) => true
  }

  /**
   * A destructuring default `{ x = d } = obj`: the default replaces only
   * `undefined`, never `null` or any other falsy value.
   */
  function OrDefault(v: JsValue, d: JsValue): (r: JsValue)
    ensures v.Undef? ==> r == d
    ensures !v.Undef? ==> r == v
  {
    if v.Undef? then d else v
  }

  function DigitChar(d: nat): (c: char)
    requires d < 10
    ensures '0' <= c <= '9'
  {
    ('0' as int + d) as char
  }

  /** Decimal notation of a natural number, most significant digit first. */
  function NatToString(n: nat): (s: string)
    ensures |s| >= 1
    ensures forall i :: 0 <= i < |s| ==> '0' <= s[i] <= '9'
    ensures s[0] == '0' ==> n == 0 && s == "0"
    decreases n
  {
    if n < 10 then [DigitChar(n)] else NatToString(n / 10) + [DigitChar(n % 10)]
  }

  /** `String(n)` for an integer-valued number. */
  function IntToString(n: int): (s: string)
    ensures |s| >= 1
    ensures n < 0 <==> s[0] == '-'
  {
    if n < 0 then "-" + NatToString(-n) else NatToString(n)
  }

  /** `String(v)`, the conversion used by `+` with a string operand and by template literals. */
  function ToJsString(v: JsValue): (s: string)
    ensures v.Str? ==> s == v.s
    ensures v.Num? ==> s == IntToString(v.n)
    ensures v.Undef? ==> s == "undefined"
    ensures v.Null? ==> s == "null"
    ensures v.Bool? ==> s == if v.b then "true" else "false"
    ensures v.Obj? ==> s == "[object Object]"
    ensures !v.Str? ==> s != []
  {
    match v
    case Undef => "undefined"
    case Null => "null"
    case Bool(b) => if b then "true" else "false"
    case Num(n) => IntToString(n)
    case Str(s) => s
    case Obj(_) => "[object Object]"
  }

  /** A word of lower-case letters: it never reads as a number and is not `'[object Object]'`. */
  predicate IsWord(w: string)
  {
    |w| > 0 && forall i :: 0 <= i < |w| ==> 'a' <= w[i] <= 'z'
  }

  /**
   * Loose equality `v == w` with a word literal. A number, a boolean or an
   * object is compared through its numeric or string form, which is never
   * such a word, and `null`/`undefined` equal only each other, so only the
   * identical string matches (`JsNumbers.WordEqualityIsIdentity` proves this
   * against the step-by-step definition of `==`).
   */
  predicate LooseEqualsWord(v: JsValue, w: string)
    requires IsWord(w)
    ensures LooseEqualsWord(v, w) <==> v.Str? && v.s == w
    ensures v.Undef? || v.Null? || v.Bool? || v.Num? || v.Obj? ==> !LooseEqualsWord(v, w)
  {
    v == Str(w)
  }
}
