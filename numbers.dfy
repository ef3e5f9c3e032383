/** The Python built-ins the converter leans on, restricted to ASCII text and exact
    arithmetic: `str(int)`, `int(str)`, `float(str)`, `int(float)`, `str.isnumeric()` and
    the `"{0:.2f}"` format. Binary floating point is not modelled: a float here is the
    exact rational value its decimal text denotes. */
module Numbers {
  import opened Wrappers

  predicate IsDigit(c: char) {
    '0' <= c <= '9'
  }

  function DigitValue(c: char): (d: nat)
    requires IsDigit(c)
    ensures d < 10
  {
    c as int - '0' as int
  }

  function DigitChar(d: nat): (c: char)
    requires d < 10
    ensures IsDigit(c) && DigitValue(c) == d
  {
    ('0' as int + d) as char
  }

  predicate AllDigits(s: string) {
    forall i :: 0 <= i < |s| ==> IsDigit(s[i])
  }

  /** The ASCII part of Python's `str.isnumeric()`: at least one character, every one a digit. */
  predicate IsNumeric(s: string) {
    |s| > 0 && AllDigits(s)
  }

  predicate NoNewline(s: string) {
    forall i :: 0 <= i < |s| ==> s[i] != '\n'
  }

  /** The value of a run of decimal digits, most significant first; the empty run is 0. */
  function DigitsValue(s: string): nat
    requires AllDigits(s)
  {
    if s == [] then 0 else 10 * DigitsValue(s[..|s| - 1]) + DigitValue(s[|s| - 1])
  }

  function Abs(x: real): real {
    if x < 0.0 then -x else x
  }

  // ---------------------------------------------------------------------------
  // str(int)

  /** Python's `str(n)` for a non-negative integer: its decimal digits, no leading zero. */
  function NatToString(n: nat): (s: string)
    ensures IsNumeric(s)
  {
    if n < 10 then [DigitChar(n)] else NatToString(n / 10) + [DigitChar(n % 10)]
  }

  /** Python's `str(n)`: a minus sign for a negative integer, then the digits of its magnitude. */
  function IntToString(n: int): (s: string)
    ensures |s| > 0 && (s[0] == '-' || IsDigit(s[0]))
    ensures NoNewline(s)
  {
    if n < 0 then "-" + NatToString(-n) else NatToString(n)
  }

  /** Reading the digits `str` writes gives the number back. */
  lemma {:induction false} NatToStringValue(n: nat)
    ensures DigitsValue(NatToString(n)) == n
  {
    if n < 10 {
      assert NatToString(n)[..0] == [];
    } else {
      var s := NatToString(n / 10);
      NatToStringValue(n / 10);
      assert (s + [DigitChar(n % 10)])[..|s|] == s;
    }
  }

  // ---------------------------------------------------------------------------
  // int(str) and float(str)

  /** The usual ASCII white space, stripped around the text given to `int()` and `float()`. */
  predicate IsSpace(c: char) {
    c == ' ' || c == '\t' || c == '\n' || c == '\r' || c == 11 as char || c == 12 as char
  }

  /** `s` without its leading white space. */
  function TrimStart(s: string): string {
    if |s| > 0 && IsSpace(s[0]) then TrimStart(s[1..]) else s
  }

  /** `s` without its trailing white space. */
  function TrimEnd(s: string): string {
    if |s| > 0 && IsSpace(s[|s| - 1]) then TrimEnd(s[..|s| - 1]) else s
  }

  /** `str.strip()` on ASCII white space. */
  function Strip(s: string): string {
    TrimEnd(TrimStart(s))
  }

  /** An optional leading `+` or `-`: whether it was `-`, and the text after it. */
  function SplitSign(t: string): (bool, string) {
    if |t| > 0 && (t[0] == '+' || t[0] == '-') then (t[0] == '-', t[1..]) else (false, t)
  }

  /** An optional sign followed by one or more digits, and nothing else. */
  function SignedDigits(t: string): Option<int> {
    var (neg, body) := SplitSign(t);
    if IsNumeric(body) then Some(if neg then -(DigitsValue(body) as int) else DigitsValue(body)) else None
  }

  /** Python's `int(text)`: optional surrounding white space around an optional sign and one or
      more digits; any other text raises `ValueError`, here `None`. */
  function ParseInt(text: string): Option<int> {
    SignedDigits(Strip(text))
  }

  /** The index of the first `c1` or `c2` in `s`, or `|s|` when there is none. */
  function Find(s: string, c1: char, c2: char): (i: nat)
    ensures i <= |s|
    ensures i < |s| ==> s[i] == c1 || s[i] == c2
  {
    if s == [] || s[0] == c1 || s[0] == c2 then 0 else 1 + Find(s[1..], c1, c2)
  }

  /** `Find` stops at the first occurrence: the one at `p`, or the end when `p` is `|s|`. */
  lemma {:induction false} FindFirst(s: string, c1: char, c2: char, p: nat)
    requires p <= |s|
    requires forall j :: 0 <= j < p ==> s[j] != c1 && s[j] != c2
    requires p < |s| ==> s[p] == c1 || s[p] == c2
    ensures Find(s, c1, c2) == p
  {
    if p > 0 {
      assert s[0] != c1 && s[0] != c2;
      assert forall j :: 0 <= j < p - 1 ==> s[1..][j] == s[j + 1];
      FindFirst(s[1..], c1, c2, p - 1);
    }
  }

  /** Digits with an optional fractional part (`ddd`, `ddd.`, `ddd.ddd` or `.ddd`), as all its
      digits read as one number together with how many of them follow the point:
      `12.50` is (1250, 2). */
  function Mantissa(m: string): Option<(nat, nat)> {
    var d := Find(m, '.', '.');
    var whole := m[..d];
    var frac := if d < |m| then m[d + 1..] else "";
    if AllDigits(whole) && AllDigits(frac) && |whole| + |frac| > 0 then
      Some((DigitsValue(whole + frac), |frac|))
    else
      None
  }

  /** v * 10^e, exactly. */
  function Scale(v: real, e: int): real
    decreases if e < 0 then -e else e
  {
    if e == 0 then v else if e > 0 then Scale(v * 10.0, e - 1) else Scale(v / 10.0, e + 1)
  }

  /** Python's `float(text)` for decimal notation: optional surrounding white space, an optional
      sign, a mantissa and an optional exponent `e`/`E` with optional sign and digits. Any other
      text raises `ValueError`, here `None`. */
  function ParseDecimal(text: string): Option<real> {
    var (neg, body) := SplitSign(Strip(text));
    match UnsignedDecimal(body)
    case None => None
    case Some(v) => Some(if neg then -v else v)
  }

  /** A mantissa and an optional exponent, with no sign in front. */
  function UnsignedDecimal(body: string): Option<real> {
    var e := Find(body, 'e', 'E');
    if e == |body| then ScaledMantissa(body, 0)
    else
      match SignedDigits(body[e + 1..])
      case None => None
      case Some(x) => ScaledMantissa(body[..e], x)
  }

  /** The value of mantissa `m` times 10^x. */
  function ScaledMantissa(m: string, x: int): Option<real> {
    match Mantissa(m)
    case None => None
    case Some((n, k)) => Some(Scale(n as real, x - k))
  }

  /** Text with no white space at either end is left as it is by `strip()`. */
  lemma StripUnchanged(s: string)
    requires |s| > 0 && !IsSpace(s[0]) && !IsSpace(s[|s| - 1])
    ensures Strip(s) == s
  {
  }

  /** A digit run reads the same through `int()` and through `float()`. */
  lemma DigitsMantissa(body: string)
    requires IsNumeric(body)
    ensures Find(body, 'e', 'E') == |body|
    ensures Mantissa(body) == Some((DigitsValue(body), 0))
  {
    var d := Find(body, '.', '.');
    assert d < |body| ==> IsDigit(body[d]);
    assert d == |body|;
    assert body[..d] + "" == body;
  }

  /** Whatever `int()` accepts, `float()` accepts with the same value. */
  lemma ParseIntThenDecimal(text: string)
    requires ParseInt(text).Some?
    ensures ParseDecimal(text) == Some(ParseInt(text).value as real)
  {
    var (neg, body) := SplitSign(Strip(text));
    DigitsMantissa(body);
    ParseMantissaOnly(text, neg, body, DigitsValue(body), 0);
  }

  /** Text whose unsigned part is a mantissa without exponent reads as that mantissa, signed. */
  lemma ParseMantissaOnly(text: string, neg: bool, u: string, n: nat, k: nat)
    requires SplitSign(Strip(text)) == (neg, u)
    requires Find(u, 'e', 'E') == |u| && Mantissa(u) == Some((n, k))
    ensures ParseDecimal(text) == Some(if neg then -Scale(n as real, -(k as int)) else Scale(n as real, -(k as int)))
  {
    UnsignedMantissaOnly(u, n, k);
  }

  lemma UnsignedMantissaOnly(u: string, n: nat, k: nat)
    requires Find(u, 'e', 'E') == |u| && Mantissa(u) == Some((n, k))
    ensures UnsignedDecimal(u) == Some(Scale(n as real, -(k as int)))
  {
    assert UnsignedDecimal(u) == ScaledMantissa(u, 0);
  }

  /** `int(str(n)) == n`. */
  lemma IntToStringParses(n: int)
    ensures ParseInt(IntToString(n)) == Some(n)
  {
    var s := IntToString(n);
    var digits := NatToString(if n < 0 then -n else n);
    NatToStringValue(if n < 0 then -n else n);
    StripUnchanged(s);
    if n < 0 {
      assert s[1..] == digits;
    }
  }

  /** A plain digit string is its decimal value to both `int()` and `float()`. */
  lemma DigitsParse(s: string)
    requires IsNumeric(s)
    ensures ParseInt(s) == Some(DigitsValue(s) as int)
    ensures ParseDecimal(s) == Some(DigitsValue(s) as real)
  {
    StripUnchanged(s);
    assert SplitSign(s) == (false, s);
    ParseIntThenDecimal(s);
  }

  // ---------------------------------------------------------------------------
  // int(float) and "{0:.2f}"

  /** Python's `int()` of a float: truncation toward zero. */
  function Trunc(x: real): (n: int)
    ensures 0.0 <= x ==> n as real <= x < n as real + 1.0
    ensures x < 0.0 ==> n as real - 1.0 < x <= n as real
  {
    if x < 0.0 then -((-x).Floor) else x.Floor
  }

  /** The nearest integer to `y`, ties going to the even neighbour. */
  function RoundHalfEven(y: real): (r: int)
    ensures -0.5 <= r as real - y <= 0.5
    ensures r as real - y == 0.5 || y - r as real == 0.5 ==> r % 2 == 0
  {
    var f := y.Floor;
    var d := y - f as real;
    if d < 0.5 then f else if d > 0.5 then f + 1 else if f % 2 == 0 then f else f + 1
  }

  /** The hundredths `"{0:.2f}"` shows for `x`, as a count: |x| * 100 rounded half to even. */
  function Hundredths(x: real): (c: nat) {
    var r := RoundHalfEven(Abs(x) * 100.0);
    assert r >= 0;
    r
  }

  /** The digits `"{0:.2f}"` writes for `c` hundredths: the integer part, a point, two decimals. */
  function Unsigned2(c: nat): (s: string)
    ensures |s| >= 4 && IsDigit(s[0]) && IsDigit(s[|s| - 1])
    ensures NoNewline(s)
  {
    NatToString(c / 100) + "." + [DigitChar(c % 100 / 10), DigitChar(c % 10)]
  }

  /** `"{0:.2f}".format(x)`, on the exact value of `x`: a minus sign when `x` is negative, then
      the integer part, a point and exactly two decimals of |x| rounded half to even. */
  function Fixed2(x: real): (s: string)
    ensures |s| >= 4 && (s[0] == '-' || IsDigit(s[0])) && IsDigit(s[|s| - 1])
    ensures NoNewline(s)
  {
    (if x < 0.0 then "-" else "") + Unsigned2(Hundredths(x))
  }

  /** Reading the digits of `Unsigned2(c)` as one number gives `c`. */
  lemma Unsigned2Digits(c: nat)
    ensures AllDigits(NatToString(c / 100) + [DigitChar(c % 100 / 10), DigitChar(c % 10)])
    ensures DigitsValue(NatToString(c / 100) + [DigitChar(c % 100 / 10), DigitChar(c % 10)]) == c
  {
    var q := NatToString(c / 100);
    var a, b := DigitChar(c % 100 / 10), DigitChar(c % 10);
    assert (q + [a, b])[..|q| + 1] == q + [a];
    assert (q + [a])[..|q|] == q;
    NatToStringValue(c / 100);
    assert DigitsValue(q + [a]) == 10 * (c / 100) + c % 100 / 10;
    assert 10 * (10 * (c / 100) + c % 100 / 10) + c % 10 == c;
  }

  /** `Unsigned2(c)` is a mantissa without exponent holding `c` with two digits after the point. */
  lemma Unsigned2Value(c: nat)
    ensures Find(Unsigned2(c), 'e', 'E') == |Unsigned2(c)|
    ensures Mantissa(Unsigned2(c)) == Some((c, 2))
  {
    var u := Unsigned2(c);
    var q := NatToString(c / 100);
    var ab := [DigitChar(c % 100 / 10), DigitChar(c % 10)];
    assert forall j :: 0 <= j < |u| ==> IsDigit(u[j]) || u[j] == '.';
    var d := Find(u, '.', '.');
    assert d == |q| by {
      assert u[|q|] == '.';
      assert forall j :: 0 <= j < |q| ==> u[j] == q[j];
      FindFirst(u, '.', '.', |q|);
    }
    assert u[..d] == q;
    assert u[d + 1..] == ab;
    Unsigned2Digits(c);
  }

  /** An optional minus sign before a mantissa without exponent reads as the signed mantissa. */
  lemma SignedMantissa(neg: bool, u: string, n: nat, k: nat)
    requires |u| > 0 && IsDigit(u[0]) && IsDigit(u[|u| - 1])
    requires Find(u, 'e', 'E') == |u| && Mantissa(u) == Some((n, k))
    ensures ParseDecimal((if neg then "-" else "") + u) == Some(if neg then -Scale(n as real, -(k as int)) else Scale(n as real, -(k as int)))
  {
    SignSplits(neg, u);
    ParseMantissaOnly((if neg then "-" else "") + u, neg, u, n, k);
  }

  /** Digits behind an optional minus sign survive `strip()` and split off from the sign. */
  lemma SignSplits(neg: bool, u: string)
    requires |u| > 0 && IsDigit(u[0]) && IsDigit(u[|u| - 1])
    ensures SplitSign(Strip((if neg then "-" else "") + u)) == (neg, u)
  {
    var t := (if neg then "-" else "") + u;
    if neg {
      assert t == ['-'] + u;
      assert t[0] == '-' && t[1..] == u;
    } else {
      assert t == u;
    }
    StripUnchanged(t);
  }

  /** The signed digits of `c` hundredths read back through `float()` as `c / 100`, signed. */
  lemma SignedHundredths(neg: bool, c: nat)
    ensures ParseDecimal((if neg then "-" else "") + Unsigned2(c)) == Some(if neg then -(c as real / 100.0) else c as real / 100.0)
  {
    var k: nat := 2;
    Unsigned2Value(c);
    SignedMantissa(neg, Unsigned2(c), c, k);
    ScaleHundredths((if neg then "-" else "") + Unsigned2(c), neg, c, k);
  }

  lemma ScaleHundredths(t: string, neg: bool, c: nat, k: nat)
    requires k == 2
    requires ParseDecimal(t) == Some(if neg then -Scale(c as real, -(k as int)) else Scale(c as real, -(k as int)))
    ensures ParseDecimal(t) == Some(if neg then -(c as real / 100.0) else c as real / 100.0)
  {
    assert Scale(c as real, -(k as int)) == Scale(c as real / 10.0, -1);
    assert Scale(c as real / 10.0, -1) == Scale(c as real / 100.0, 0);
  }

  /** The text `"{0:.2f}"` writes reads back, through `float()`, as the rounded value. */
  lemma Fixed2Value(x: real)
    ensures ParseDecimal(Fixed2(x)) == Some(if x < 0.0 then -(Hundredths(x) as real / 100.0) else Hundredths(x) as real / 100.0)
  {
    SignedHundredths(x < 0.0, Hundredths(x));
  }

  /** `"{0:.2f}"` is off from the exact value by at most half a hundredth. */
  lemma Fixed2Accurate(x: real)
    ensures ParseDecimal(Fixed2(x)).Some?
    ensures -0.005 <= ParseDecimal(Fixed2(x)).value - x <= 0.005
  {
    Fixed2Value(x);
  }
}
