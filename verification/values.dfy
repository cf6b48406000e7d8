/**
 The loosely-typed values an occurrence record is made of: a JSON document as
 Python's json module decodes it, the dictionary lookups the script performs on
 it, Python's truthiness test, and the `str()` rendering used inside f-strings.
 */
module Values {

  datatype Option<+T> = None | Some(value: T)

  /** A decoded JSON value. Numbers without a fraction or exponent decode to
      Python ints, the others to floats; objects decode to dicts. */
  datatype Value =
    | Null
    | Bool(b: bool)
    | Int(i: int)
    | Float(x: real)
    | Str(s: string)
    | Arr(items: seq<Value>)
    | Obj(fields: map<string, Value>)

  /** One occurrence record (or one media entry): a dict keyed by field name.
      A field the service did not send is simply not in the domain. */
  type Record = map<string, Value>

  /** `record.get(key, default)` */
  function GetOr(r: Record, key: string, default: Value): Value
  {
    if key in r then r[key] else default
  }

  /** Python's truth value of a decoded JSON value (`if not v: ...`). */
  predicate Truthy(v: Value)
  {
    match v
    case Null => false
    case Bool(b) => b
    case Int(i) => i != 0
    case Float(x) => x != 0.0
    case Str(s) => s != ""
    case Arr(items) => items != []
    case Obj(fields) => fields != map[]
  }

  predicate IsDigit(c: char)
  {
    '0' <= c <= '9'
  }

  function DigitChar(d: nat): (c: char)
    requires d < 10
    ensures IsDigit(c)
  {
    "0123456789"[d]
  }

  function DigitValue(c: char): nat
    requires IsDigit(c)
  {
    (c as int - '0' as int) as nat
  }

  /** The decimal numeral Python's `str()` writes for a non-negative int:
      digits only, never a superfluous leading zero. */
  function NatToDecimal(n: nat): (s: string)
    ensures |s| >= 1
    ensures forall i :: 0 <= i < |s| ==> IsDigit(s[i])
    ensures s[0] == '0' ==> n == 0 && s == "0"
    decreases n
  {
    if n < 10 then [DigitChar(n)] else NatToDecimal(n / 10) + [DigitChar(n % 10)]
  }

  /** Reads a string of digits back as a number, most significant digit first. */
  function DecimalValue(s: string): nat
    requires forall i :: 0 <= i < |s| ==> IsDigit(s[i])
    decreases |s|
  {
    if |s| == 0 then 0 else DecimalValue(s[..|s| - 1]) * 10 + DigitValue(s[|s| - 1])
  }

  lemma DigitRoundTrip(d: nat)
    requires d < 10
    ensures DigitValue(DigitChar(d)) == d
  {
    var digits := "0123456789";
    assert digits[d] as int - '0' as int == d by {
      assert digits[0] == '0' && digits[1] == '1' && digits[2] == '2' && digits[3] == '3' && digits[4] == '4';
      assert digits[5] == '5' && digits[6] == '6' && digits[7] == '7' && digits[8] == '8' && digits[9] == '9';
    }
  }

  /** The numeral of `n` reads back as `n`: the rendering loses nothing. */
  lemma {:induction false} DecimalRoundTrip(n: nat)
    ensures DecimalValue(NatToDecimal(n)) == n
    decreases n
  {
    var s := NatToDecimal(n);
    if n < 10 {
      DigitRoundTrip(n);
      assert s[..|s| - 1] == [];
    } else {
      DecimalRoundTrip(n / 10);
      DigitRoundTrip(n % 10);
      assert s[..|s| - 1] == NatToDecimal(n / 10);
    }
  }

  /** Python's `str(v)` (what an f-string inserts) for the scalar values. */
  function Render(v: Value): string
  {
    match v
    case Null => "None"
    case Bool(b) => if b then "True" else "False"
    case Int(i) => if i < 0 then "-" + NatToDecimal(-i) else NatToDecimal(i)
    case Float(_) => "<float>"
    case Str(s) => s
    case Arr(_) => "<list>"
    case Obj(_) => "<dict>"
  }

  /** The digits of a rendered integer: everything after the minus sign. */
  function Magnitude(i: int): nat
  {
    if i < 0 then -i else i
  }

  /** An integer renders as a minus sign exactly when it is negative,
      followed by a numeral that reads back as its magnitude. */
  lemma RenderInt(i: int)
    ensures |Render(Int(i))| >= 1
    ensures Render(Int(i))[0] == '-' <==> i < 0
    ensures Render(Int(i)) == (if i < 0 then "-" else "") + NatToDecimal(Magnitude(i))
    ensures DecimalValue(NatToDecimal(Magnitude(i))) == Magnitude(i)
  {
    DecimalRoundTrip(Magnitude(i));
  }

  /** A rendered integer holds no path separator, dot or query mark. */
  lemma RenderIntIsPlain(i: int)
    ensures '/' !in Render(Int(i))
    ensures '.' !in Render(Int(i))
    ensures '?' !in Render(Int(i))
  {
    var r := Render(Int(i));
    if i < 0 {
      assert r == "-" + NatToDecimal(-i);
      assert forall k :: 1 <= k < |r| ==> IsDigit(r[k]) by {
        forall k | 1 <= k < |r| ensures IsDigit(r[k]) {
          assert r[k] == NatToDecimal(-i)[k - 1];
        }
      }
    }
  }
}
