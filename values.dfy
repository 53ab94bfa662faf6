/**
  The values the request handlers of the project-management service see once the JSON
  body has been decoded: JavaScript primitives, the records built from them, and the three
  pieces of JavaScript semantics the handlers rely on: truthiness (`!x`), strict equality
  (`===`) and `parseInt`.
 */
module Values {

  datatype Option<+T> = None | Some(value: T)

  /** A field value. `NaN` is not JSON, but `parseInt` can store it in a task. Numbers are integers. */
  datatype Value = Null | Bool(b: bool) | Num(n: int) | NaN | Str(s: string)

  /** A record (project, task or person): field name to value; an absent key reads as `undefined`. */
  type Record = map<string, Value>

  /** JavaScript truthiness: `""`, `0`, `NaN`, `null` and `false` are falsy, everything else truthy. */
  predicate Truthy(v: Value)
  {
    match v
    case Null => false
    case Bool(b) => b
    case Num(n) => n != 0
    case NaN => false
    case Str(s) => s != ""
  }

  /** `!!r[key]`: the key is present and its value truthy (`undefined` is falsy). */
  predicate Has(r: Record, key: string)
  {
    key in r && Truthy(r[key])
  }

  /** JavaScript `a === b` on primitives: same type and value, and `NaN` equals nothing. */
  predicate StrictEquals(a: Value, b: Value)
  {
    match a
    case NaN => false
    case _ => a == b
  }

  /** `===` is symmetric and transitive, and reflexive on every value except `NaN`. */
  lemma StrictEqualsLaws(a: Value, b: Value, c: Value)
    ensures StrictEquals(a, b) == StrictEquals(b, a)
    ensures StrictEquals(a, a) <==> !a.NaN?
    ensures StrictEquals(a, b) && StrictEquals(b, c) ==> StrictEquals(a, c)
    ensures StrictEquals(a, b) ==> a == b
  {
  }

  /** The number `parseInt` produced, as a value: `None` stands for `NaN`. */
  function NumberValue(id: Option<int>): Value
  {
    match id
    case None => NaN
    case Some(n) => Num(n)
  }

  /** `r[key] === id`, where `id` is the result of `parseInt`; an absent key is `undefined`. */
  predicate Refers(r: Record, key: string, id: Option<int>)
  {
    key in r && StrictEquals(r[key], NumberValue(id))
  }

  /** The record reached by `r[key] === id` holds exactly the number `id`; `NaN` matches nothing. */
  lemma RefersExactly(r: Record, key: string, id: Option<int>)
    ensures Refers(r, key, id) <==> id.Some? && key in r && r[key] == Num(id.value)
    ensures id.None? ==> !Refers(r, key, id)
  {
  }

  // ---------------------------------------------------------------------------------------
  // parseInt(x) with no radix: String(x), skip leading white space, an optional sign, an
  // optional 0x / 0X prefix (radix 16, else 10), then the longest run of digits of that radix;
  // no digits gives NaN.

  predicate IsWhiteSpace(c: char)
  {
    c == ' ' || c == '\t' || c == '\n' || c == '\r' || c == '\U{B}' || c == '\U{C}'
    || c == '\U{A0}' || c == '\U{FEFF}' || c == '\U{2028}' || c == '\U{2029}'
  }

  function TrimStart(s: string): (t: string)
    ensures |t| <= |s|
    ensures t == [] || !IsWhiteSpace(t[0])
  {
    if s != [] && IsWhiteSpace(s[0]) then TrimStart(s[1..]) else s
  }

  /** The value of `c` as a digit of radix up to 36; 36 for a character that is no digit. */
  function DigitValue(c: char): (d: nat)
    ensures d <= 36
  {
    if '0' <= c <= '9' then c as int - '0' as int
    else if 'a' <= c <= 'z' then c as int - 'a' as int + 10
    else if 'A' <= c <= 'Z' then c as int - 'A' as int + 10
    else 36
  }

  /** Length of the longest prefix of `s` made of digits of `radix`. */
  function DigitRun(s: string, radix: nat): (k: nat)
    ensures k <= |s|
    ensures forall i :: 0 <= i < k ==> DigitValue(s[i]) < radix
    ensures k < |s| ==> DigitValue(s[k]) >= radix
  {
    if s == [] || DigitValue(s[0]) >= radix then 0 else 1 + DigitRun(s[1..], radix)
  }

  /** The number that the digits `ds` denote in `radix`, most significant first. */
  function DigitsValue(ds: string, radix: nat): nat
  {
    if ds == [] then 0
    else radix * DigitsValue(ds[..|ds| - 1], radix) + DigitValue(ds[|ds| - 1])
  }

  /** `parseInt` of a string. */
  function ParseIntString(s: string): Option<int>
  {
    ParseSigned(TrimStart(s))
  }

  /** An optional sign, then the unsigned number. */
  function ParseSigned(t: string): Option<int>
  {
    if t != [] && t[0] == '-' then
      match ParseUnsigned(t[1..])
      case None => None
      case Some(m) => Some(-m)
    else if t != [] && t[0] == '+' then ParseUnsigned(t[1..])
    else ParseUnsigned(t)
  }

  /** An optional `0x` or `0X` prefix selecting radix 16 (radix 10 otherwise), then digits. */
  function ParseUnsigned(u: string): Option<int>
  {
    if |u| >= 2 && u[0] == '0' && (u[1] == 'x' || u[1] == 'X') then ParseDigits(u[2..], 16)
    else ParseDigits(u, 10)
  }

  /** The longest run of digits of `radix` at the start of `d`; `NaN` when there is none. */
  function ParseDigits(d: string, radix: nat): Option<int>
  {
    var k := DigitRun(d, radix);
    if k == 0 then None else Some(DigitsValue(d[..k], radix))
  }

  /** The decimal digits of `n`, as `String(n)` writes a non-negative integer. */
  function Digits(n: nat): (ds: string)
    ensures ds != []
    ensures forall i :: 0 <= i < |ds| ==> DigitValue(ds[i]) < 10
  {
    var last := ('0' as int + n % 10) as char;
    if n < 10 then [last] else Digits(n / 10) + [last]
  }

  /** `String(n)` for an integer `n`. */
  function Decimal(n: int): string
  {
    if n < 0 then "-" + Digits(-n) else Digits(n)
  }

  /** `String(v)`: what `parseInt` reads when it is given a value that is not a string. */
  function ToJsString(v: Value): string
  {
    match v
    case Null => "null"
    case Bool(b) => if b then "true" else "false"
    case Num(n) => Decimal(n)
    case NaN => "NaN"
    case Str(s) => s
  }

  /** `parseInt(v)`, with `None` for `NaN`. */
  function ParseInt(v: Value): Option<int>
  {
    ParseIntString(ToJsString(v))
  }

  lemma {:induction false} DigitsValueOfDigits(n: nat)
    ensures DigitsValue(Digits(n), 10) == n
  {
    var ds := Digits(n);
    if n >= 10 {
      DigitsValueOfDigits(n / 10);
      assert ds[..|ds| - 1] == Digits(n / 10);
    }
  }

  /** Reading the digits of `n` back stops exactly where they end, before a non-digit. */
  lemma DigitRunOfDigits(n: nat, rest: string)
    requires rest == [] || DigitValue(rest[0]) >= 10
    ensures DigitRun(Digits(n) + rest, 10) == |Digits(n)|
  {
    var ds := Digits(n);
    var s := ds + rest;
    assert forall i :: 0 <= i < |ds| ==> s[i] == ds[i];
    if rest != [] {
      assert s[|ds|] == rest[0];
    }
  }

  /** The decimal digits of `n`, followed by anything that does not continue them, parse as `n`. */
  lemma ParseDigitsOfDigits(n: nat, rest: string)
    requires rest == [] || DigitValue(rest[0]) >= 10
    ensures ParseDigits(Digits(n) + rest, 10) == Some(n)
  {
    var ds := Digits(n);
    DigitRunOfDigits(n, rest);
    assert (ds + rest)[..|ds|] == ds;
    DigitsValueOfDigits(n);
  }

  /** `parseInt` reads the longest decimal prefix: `parseInt(String(n) + rest)` is `n` when `rest`
      does not continue the number (so `"12abc"` gives 12) and does not turn `"0"` into `"0x"`. */
  lemma ParseIntDecimalPrefix(n: int, rest: string)
    requires rest == [] || DigitValue(rest[0]) >= 10
    requires n == 0 && rest != [] ==> rest[0] != 'x' && rest[0] != 'X'
    ensures ParseIntString(Decimal(n) + rest) == Some(n)
  {
    if n < 0 {
      ParseIntNegativeDecimal(n, rest);
    } else {
      ParseIntNonNegativeDecimal(n, rest);
    }
  }

  lemma ParseIntNegativeDecimal(n: int, rest: string)
    requires rest == [] || DigitValue(rest[0]) >= 10
    requires n < 0
    ensures ParseIntString(Decimal(n) + rest) == Some(n)
  {
    var u := Digits(-n) + rest;
    ParseUnsignedOfDigits(-n, rest);
    assert ParseUnsigned(u) == Some(-n);
    ParseSignedNegative(u);
    DecimalSplit(n, rest);
  }

  lemma ParseIntNonNegativeDecimal(n: int, rest: string)
    requires rest == [] || DigitValue(rest[0]) >= 10
    requires n >= 0
    requires n == 0 && rest != [] ==> rest[0] != 'x' && rest[0] != 'X'
    ensures ParseIntString(Decimal(n) + rest) == Some(n)
  {
    var u := Digits(n) + rest;
    ParseUnsignedOfDigits(n, rest);
    ParseSignedOfDigits(u);
    assert Decimal(n) + rest == u;
  }

  lemma DecimalSplit(n: int, rest: string)
    requires n < 0
    ensures Decimal(n) + rest == "-" + (Digits(-n) + rest)
  {
  }

  /** A minus sign negates the number that follows it. */
  lemma ParseSignedNegative(u: string)
    requires ParseUnsigned(u).Some?
    ensures ParseIntString("-" + u) == Some(-ParseUnsigned(u).value)
  {
  }

  lemma ParseUnsignedOfDigits(m: nat, rest: string)
    requires rest == [] || DigitValue(rest[0]) >= 10
    requires m == 0 && rest != [] ==> rest[0] != 'x' && rest[0] != 'X'
    ensures ParseUnsigned(Digits(m) + rest) == Some(m)
    ensures DigitValue((Digits(m) + rest)[0]) < 10
  {
    var ds := Digits(m);
    var unsigned := ds + rest;
    ParseDigitsOfDigits(m, rest);
    assert unsigned[0] == ds[0];
    if |unsigned| >= 2 && unsigned[0] == '0' {
      if |ds| >= 2 {
        assert unsigned[1] == ds[1];
      } else {
        assert unsigned[1] == rest[0];
      }
    }
  }

  /** A string starting with a decimal digit carries no white space and no sign to skip. */
  lemma ParseSignedOfDigits(u: string)
    requires u != [] && DigitValue(u[0]) < 10
    ensures ParseIntString(u) == ParseUnsigned(u)
  {
  }

  /** `parseInt` of an integer is that integer. */
  lemma ParseIntOfNumber(n: int)
    ensures ParseInt(Num(n)) == Some(n)
  {
    ParseIntDecimalPrefix(n, []);
    assert Decimal(n) + [] == Decimal(n);
  }

  /** `parseInt` of a decimal string is its number. */
  lemma ParseIntOfDecimalString(n: int)
    ensures ParseInt(Str(Decimal(n))) == Some(n)
  {
    ParseIntOfNumber(n);
  }

  /** A string that starts with neither white space, a sign nor a decimal digit is `NaN`. */
  lemma ParseIntStringNoDigit(s: string)
    requires s != [] && !IsWhiteSpace(s[0]) && s[0] != '-' && s[0] != '+' && DigitValue(s[0]) >= 10
    ensures ParseIntString(s) == None
  {
    assert TrimStart(s) == s;
    assert DigitRun(s, 10) == 0;
  }

  /** `parseInt(null)`, `parseInt(true)`, `parseInt(false)` and `parseInt(NaN)` are all `NaN`. */
  lemma ParseIntOfNonNumber(v: Value)
    requires v.Null? || v.Bool? || v.NaN?
    ensures ParseInt(v) == None
  {
    var s := ToJsString(v);
    assert s[0] == 'n' || s[0] == 't' || s[0] == 'f' || s[0] == 'N';
    ParseIntStringNoDigit(s);
  }
}
