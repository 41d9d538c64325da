/** Cell values as the CSV parser and the JavaScript code see them, with the
    pieces of JavaScript semantics the core depends on: truthiness and `||`,
    the key a value files an object entry under, `Number(s)`,
    `parseFloat(s)` on decimal literals, and `Math.round`. */
module JsValues {
  import opened Wrappers
  import opened JsText

  /** A cell: `null`, a number (exact, as a real) or a string. */
  datatype Value = Null | Num(x: real) | Str(s: string)

  /** JavaScript truthiness: `null`, `0` and `''` are falsy. */
  predicate Truthy(v: Value) {
    match v
    case Null => false
    case Num(x) => x != 0.0
    case Str(s) => s != ""
  }

  /** `a || b`. */
  function Or(a: Value, b: Value): Value {
    if Truthy(a) then a else b
  }

  /** The number `v || 0` contributes to an addition. A truthy string would
      turn the JavaScript addition into a concatenation; it counts as 0 here. */
  function NumOrZero(v: Value): real {
    if v.Num? then v.x else 0.0
  }

  // ---------------------------------------------------------------------
  // Decimal digits and the string form of integers

  predicate IsDigit(c: char) {
    '0' <= c <= '9'
  }

  predicate AllDigits(s: string) {
    forall i :: 0 <= i < |s| ==> IsDigit(s[i])
  }

  function DigitChar(d: nat): char
    requires d < 10
  {
    ('0' as int + d) as char
  }

  function DigitValue(c: char): nat
    requires IsDigit(c)
  {
    c as int - '0' as int
  }

  /** The decimal spelling of a natural number, without leading zeros. */
  function NatToString(n: nat): (r: string)
    ensures |r| >= 1 && AllDigits(r)
    ensures |r| == 1 <==> n < 10
    decreases n
  {
    if n < 10 then [DigitChar(n)] else NatToString(n / 10) + [DigitChar(n % 10)]
  }

  /** The spelling is the number: reading the digits back gives `n`. */
  lemma {:induction false} NatToStringValue(n: nat)
    ensures DigitsValue(NatToString(n)) == n
    decreases n
  {
    if n >= 10 {
      NatToStringValue(n / 10);
      var r := NatToString(n);
      assert r[..|r| - 1] == NatToString(n / 10);
    }
  }

  /** Distinct numbers have distinct spellings. */
  lemma NatToStringInjective(a: nat, b: nat)
    requires NatToString(a) == NatToString(b)
    ensures a == b
  {
    NatToStringValue(a);
    NatToStringValue(b);
  }

  /** `String(i)` for an integer. */
  function IntToString(i: int): (r: string)
    ensures r != []
  {
    if i < 0 then "-" + NatToString(-i) else NatToString(i)
  }

  lemma IntToStringInjective(a: int, b: int)
    requires IntToString(a) == IntToString(b)
    ensures a == b
  {
    assert IntToString(a)[0] == '-' <==> a < 0;
    assert IntToString(b)[0] == '-' <==> b < 0;
    if a < 0 {
      assert IntToString(a)[1..] == NatToString(-a) && IntToString(b)[1..] == NatToString(-b);
      NatToStringInjective(-a, -b);
    } else {
      NatToStringInjective(a, b);
    }
  }

  /** The key under which a value files an entry of a JavaScript object
      (`obj[v]` converts `v` with `String`). Integral numbers are spelled in
      decimal, so `5` and `'5'` share a key. Other numbers are kept apart
      under their exact value, so `2.5` and `'2.5'` do not share one here. */
  datatype PropKey = Text(s: string) | Fraction(x: real)

  function Key(v: Value): PropKey {
    match v
    case Null => Text("null")
    case Str(s) => Text(s)
    case Num(x) => if x == x.Floor as real then Text(IntToString(x.Floor)) else Fraction(x)
  }

  /** Two numbers share a key exactly when they are equal. */
  lemma KeyOfNumbers(x: real, y: real)
    ensures Key(Num(x)) == Key(Num(y)) <==> x == y
  {
    if Key(Num(x)) == Key(Num(y)) && x == x.Floor as real && y == y.Floor as real {
      IntToStringInjective(x.Floor, y.Floor);
    }
  }

  /** An integral number and the string of its digits are one key. */
  lemma KeyOfIntegralNumber(n: nat)
    ensures Key(Num(n as real)) == Key(Str(NatToString(n)))
  {
    assert (n as real).Floor == n;
  }

  // ---------------------------------------------------------------------
  // Decimal literals: [sign] digits [. digits], at least one digit

  /** The number of consecutive decimal digits starting at index `j`. */
  function DigitRun(s: string, j: nat): (k: nat)
    requires j <= |s|
    ensures j + k <= |s| && AllDigits(s[j..j + k])
    ensures j + k < |s| ==> !IsDigit(s[j + k])
    decreases |s| - j
  {
    if j < |s| && IsDigit(s[j]) then
      var k := DigitRun(s, j + 1);
      assert s[j..j + 1 + k] == [s[j]] + s[j + 1..j + 1 + k];
      1 + k
    else 0
  }

  /** The value of a string of digits, read most significant first. */
  function DigitsValue(d: string): nat
    requires AllDigits(d)
  {
    if d == [] then 0 else 10 * DigitsValue(d[..|d| - 1]) + DigitValue(d[|d| - 1])
  }

  function Pow10(k: nat): (p: nat)
    ensures p >= 1
  {
    if k == 0 then 1 else 10 * Pow10(k - 1)
  }

  /** A literal recognised at the front of a string: its value and length. */
  datatype Scan = Scan(value: real, length: nat)

  /** The length of an optional leading sign. */
  function SignLength(s: string): (n: nat)
    ensures n <= |s|
  {
    if s != [] && (s[0] == '+' || s[0] == '-') then 1 else 0
  }

  /** The end of the integer digits that follow the sign. */
  function IntEnd(s: string): (p: nat)
    ensures SignLength(s) <= p <= |s|
  {
    SignLength(s) + DigitRun(s, SignLength(s))
  }

  predicate HasPoint(s: string) {
    IntEnd(s) < |s| && s[IntEnd(s)] == '.'
  }

  /** The number of digits after the decimal point. */
  function FracLength(s: string): (f: nat)
    ensures HasPoint(s) ==> IntEnd(s) + 1 + f <= |s|
  {
    if HasPoint(s) then DigitRun(s, IntEnd(s) + 1) else 0
  }

  /** The value of the integer digits. */
  function IntValue(s: string): real {
    DigitsValue(s[SignLength(s)..IntEnd(s)]) as real
  }

  /** The value of the fraction digits, as a fraction. */
  function FracValue(s: string): real {
    if HasPoint(s) then
      DigitsValue(s[IntEnd(s) + 1..IntEnd(s) + 1 + FracLength(s)]) as real / Pow10(FracLength(s)) as real
    else 0.0
  }

  predicate IsNegative(s: string) {
    SignLength(s) == 1 && s[0] == '-'
  }

  /** The longest decimal literal at the front of `s`, as `parseFloat` reads
      it: an optional sign, then digits with an optional fraction, where
      either the integer or the fraction part has a digit (`5`, `5.`, `.5`). */
  function ScanDecimal(s: string): (r: Option<Scan>)
    ensures r.Some? ==> 0 < r.value.length <= |s|
  {
    if IntEnd(s) == SignLength(s) && FracLength(s) == 0 then None
    else
      var magnitude := IntValue(s) + FracValue(s);
      Some(Scan(if IsNegative(s) then -magnitude else magnitude,
                IntEnd(s) + (if HasPoint(s) then 1 + FracLength(s) else 0)))
  }

  /** `s` is exactly one decimal literal. */
  predicate IsDecimalLiteral(s: string) {
    ScanDecimal(s).Some? && ScanDecimal(s).value.length == |s|
  }

  /** `parseFloat(s)`: skip leading white space, read the longest literal;
      `None` is `NaN`. */
  function ParseFloat(s: string): Option<real> {
    match ScanDecimal(TrimStart(s))
    case None => None
    case Some(sc) => Some(sc.value)
  }

  /** `Number(s)`: white space around one literal is allowed, and a blank
      string is 0; `None` is `NaN`. */
  function NumberOf(s: string): Option<real> {
    var t := Trim(s);
    if t == [] then Some(0.0)
    else if IsDecimalLiteral(t) then Some(ScanDecimal(t).value.value)
    else None
  }

  /** A string that `Number` reads as a number and that is not blank: the
      strings `safeParseValue` turns into numbers. */
  predicate IsNumericString(s: string) {
    IsDecimalLiteral(Trim(s))
  }

  /** The value of a numeric string. */
  function NumericValue(s: string): real
    requires IsNumericString(s)
  {
    ScanDecimal(Trim(s)).value.value
  }

  /** `parseFloat(v)` on a cell (a number converts to its own spelling and
      back; `null` becomes `'null'`, which is `NaN`). */
  function ParseFloatValue(v: Value): Option<real> {
    match v
    case Null => None
    case Num(x) => Some(x)
    case Str(s) => ParseFloat(s)
  }

  /** A run of digits inside `t` ends at the same place in `t + u` when `u`
      does not start with a digit. */
  lemma {:induction false} DigitRunAppend(t: string, u: string, j: nat)
    requires j <= |t|
    requires u == [] || !IsDigit(u[0])
    ensures DigitRun(t + u, j) == DigitRun(t, j)
    decreases |t| - j
  {
    if j < |t| {
      assert (t + u)[j] == t[j];
      if IsDigit(t[j]) {
        DigitRunAppend(t, u, j + 1);
      }
    } else if u != [] {
      assert (t + u)[j] == u[0];
    }
  }

  /** The pieces of a complete literal are found unchanged in `t + u` when
      `u` starts with white space. */
  lemma ScanPiecesStop(t: string, u: string)
    requires IsDecimalLiteral(t)
    requires u == [] || IsWhiteSpace(u[0])
    ensures SignLength(t + u) == SignLength(t)
    ensures IntEnd(t + u) == IntEnd(t)
    ensures HasPoint(t + u) == HasPoint(t)
    ensures FracLength(t + u) == FracLength(t)
    ensures IsNegative(t + u) == IsNegative(t)
  {
    var s := t + u;
    assert s[0] == t[0];
    DigitRunAppend(t, u, SignLength(t));
    var p := IntEnd(t);
    if p < |t| {
      assert s[p] == t[p];
    } else if u != [] {
      assert s[p] == u[0];
    }
    if HasPoint(t) {
      DigitRunAppend(t, u, p + 1);
    }
  }

  lemma IntValueStops(t: string, u: string)
    requires SignLength(t + u) == SignLength(t) && IntEnd(t + u) == IntEnd(t)
    ensures IntValue(t + u) == IntValue(t)
  {
    assert (t + u)[SignLength(t)..IntEnd(t)] == t[SignLength(t)..IntEnd(t)];
  }

  lemma FracValueStops(t: string, u: string)
    requires IntEnd(t + u) == IntEnd(t) && HasPoint(t + u) == HasPoint(t)
    requires FracLength(t + u) == FracLength(t)
    ensures FracValue(t + u) == FracValue(t)
  {
    if HasPoint(t) {
      var p, f := IntEnd(t), FracLength(t);
      var d := t[p + 1..p + 1 + f];
      assert (t + u)[p + 1..p + 1 + f] == d;
      assert FracValue(t + u) == DigitsValue(d) as real / Pow10(f) as real;
    }
  }

  /** A complete literal followed by white space (or nothing) is read the same. */
  lemma ScanDecimalStops(t: string, u: string)
    requires IsDecimalLiteral(t)
    requires u == [] || IsWhiteSpace(u[0])
    ensures ScanDecimal(t + u) == ScanDecimal(t)
  {
    ScanPiecesStop(t, u);
    IntValueStops(t, u);
    FracValueStops(t, u);
  }

  /** For a numeric string `parseFloat` never yields `NaN` and agrees with
      `Number`. */
  lemma NumericStringParses(s: string)
    requires IsNumericString(s)
    ensures ParseFloat(s) == Some(NumericValue(s))
    ensures NumberOf(s) == Some(NumericValue(s))
  {
    var t := TrimStart(s);
    var r := TrimEnd(t);
    TrimEndSpec(t);
    assert t == r + t[|r|..];
    ScanDecimalStops(r, t[|r|..]);
  }

  /** Blank strings are not numeric strings. */
  lemma BlankNotNumeric(s: string)
    requires Trim(s) == []
    ensures !IsNumericString(s)
  {
  }

  // ---------------------------------------------------------------------
  // Math.round

  /** `Math.round(x)`: the nearest integer, halves rounded up. */
  function Round(x: real): int {
    (x + 0.5).Floor
  }

  lemma RoundMonotone(x: real, y: real)
    requires x <= y
    ensures Round(x) <= Round(y)
  {
  }

  lemma RoundOfInt(n: int)
    ensures Round(n as real) == n
  {
  }

  lemma FloorBetween(y: real, q: int)
    requires q as real <= y < q as real + 1.0
    ensures y.Floor == q
  {
  }

  /** `Math.round(s / n)` for an integer sum is `(2s + n) / (2n)` in integer
      division. */
  lemma RoundOfQuotient(s: int, n: int)
    requires n > 0
    ensures Round(s as real / n as real) == (2 * s + n) / (2 * n)
  {
    var q := (2 * s + n) / (2 * n);
    var m := 2 * n;
    var r := (2 * s + n) % m;
    assert 2 * s + n == m * q + r && 0 <= r < m;
    var N := n as real;
    var y := s as real / N + 0.5;
    assert y == ((2 * s + n) as real) / (2.0 * N);
    assert ((2 * s + n) as real) / (2.0 * N) == ((m * q) as real + r as real) / (m as real);
    assert ((m * q) as real + r as real) / (m as real) == q as real + (r as real) / (m as real);
    assert 0.0 <= (r as real) / (m as real) < 1.0;
    FloorBetween(y, q);
  }
}
