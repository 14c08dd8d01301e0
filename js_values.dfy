/**
  The JavaScript values that flow through the stores: payload fields,
  report entries, error payloads and record fields.  Objects, arrays and
  other non-primitive values are opaque: the stores only store them and
  test their truthiness.
*/
module JsValues {

  datatype Value =
    | Undefined
    | Null
    | Bool(b: bool)
    | Num(n: int)
    | Str(s: string)
    | Object(ref: nat)    // any plain object, known only by identity

  /** JavaScript truthiness: `false`, `0`, `""`, `null` and `undefined`
      are falsy, everything else is truthy. */
  predicate Truthy(v: Value)
    ensures !Truthy(v) <==> v in {Undefined, Null, Bool(false), Num(0), Str("")}
  {
    match v
    case Undefined => false
    case Null => false
    case Bool(b) => b
    case Num(n) => n != 0
    case Str(s) => s != ""
    case Object(_) => true
  }

  /** The decimal digits of a natural number, as `String(n)` writes them. */
  function NatToDecimal(n: nat): (r: string)
    ensures |r| >= 1
    ensures forall i :: 0 <= i < |r| ==> '0' <= r[i] <= '9'
    decreases n
  {
    var digit := ['0' + (n % 10) as char];
    if n < 10 then digit else NatToDecimal(n / 10) + digit
  }

  /** The string a value becomes when it is used as a property name of a
      plain object (`obj[v] = ...`), i.e. JavaScript's `String(v)`. */
  function PropertyKey(v: Value): (k: string)
    ensures v.Str? ==> k == v.s
    ensures v.Num? ==> |k| >= 1 && (v.n >= 0 <==> '0' <= k[0] <= '9')
  {
    match v
    case Undefined => "undefined"
    case Null => "null"
    case Bool(b) => if b then "true" else "false"
    case Num(n) => if n >= 0 then NatToDecimal(n) else "-" + NatToDecimal(-n)
    case Str(s) => s
    case Object(_) => "[object Object]"
  }

  /** Different natural numbers write different digits. */
  lemma {:induction false} NatToDecimalInjective(a: nat, b: nat)
    requires NatToDecimal(a) == NatToDecimal(b)
    ensures a == b
    decreases a
  {
    var ra, rb := NatToDecimal(a), NatToDecimal(b);
    assert ra[|ra| - 1] == '0' + (a % 10) as char;
    assert rb[|rb| - 1] == '0' + (b % 10) as char;
    if a >= 10 && b >= 10 {
      assert NatToDecimal(a / 10) == ra[..|ra| - 1];
      assert NatToDecimal(b / 10) == rb[..|rb| - 1];
      NatToDecimalInjective(a / 10, b / 10);
    }
  }

  /** Two numeric ids share a property key only when they are the same
      number, but a numeric id and the string of its digits share one. */
  lemma NumericKeys(a: int, b: int)
    ensures PropertyKey(Num(a)) == PropertyKey(Num(b)) ==> a == b
    ensures a >= 0 ==> PropertyKey(Num(a)) == PropertyKey(Str(NatToDecimal(a)))
  {
    var ka, kb := PropertyKey(Num(a)), PropertyKey(Num(b));
    if ka == kb {
      if a >= 0 && b >= 0 {
        NatToDecimalInjective(a, b);
      } else if a < 0 && b < 0 {
        assert ka[1..] == kb[1..];
        NatToDecimalInjective(-a, -b);
      }
    }
  }
}
