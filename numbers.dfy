/** Python's `int()` and `float()` on text, `'{:.Nf}'.format(x)`, `int(x)` on a
    float, and the numpy cells that may hold NaN. Floats are real numbers. */
module Numbers {
  import opened Wrappers
  import opened Text

  function Pow10(n: nat): (r: nat)
    ensures r >= 1
  {
    if n == 0 then 1 else 10 * Pow10(n - 1)
  }

  function DigitVal(c: char): nat
    requires IsDigit(c)
  {
    c as int - '0' as int
  }

  function DigitChar(d: nat): (c: char)
    requires d < 10
    ensures IsDigit(c) && DigitVal(c) == d
  {
    ('0' as int + d) as char
  }

  /** The value of a string of decimal digits (leading zeros allowed). */
  function DigitsValue(s: string): nat
    requires AllDigits(s)
  {
    if |s| == 0 then 0 else 10 * DigitsValue(s[..|s| - 1]) + DigitVal(s[|s| - 1])
  }

  lemma AllDigitsConcat(a: string, b: string)
    requires AllDigits(a) && AllDigits(b)
    ensures AllDigits(a + b)
  {
    forall i | 0 <= i < |a + b| ensures IsDigit((a + b)[i]) {
      if i < |a| { assert (a + b)[i] == a[i]; } else { assert (a + b)[i] == b[i - |a|]; }
    }
  }

  /** Leading zeros do not change the value of a digit string. */
  lemma {:induction false} DigitsValueLeadingZeros(n: nat, b: string)
    requires AllDigits(b)
    ensures AllDigits(Zeros(n) + b) && DigitsValue(Zeros(n) + b) == DigitsValue(b)
    decreases |b|
  {
    DigitsValueZeros(n);
    AllDigitsConcat(Zeros(n), b);
    var a := Zeros(n);
    if |b| == 0 {
      assert a + b == a;
    } else {
      var b' := b[..|b| - 1];
      assert (a + b)[..|a + b| - 1] == a + b';
      assert (a + b)[|a + b| - 1] == b[|b| - 1];
      DigitsValueLeadingZeros(n, b');
    }
  }

  lemma DigitsValueZeros(n: nat)
    ensures AllDigits(Zeros(n)) && DigitsValue(Zeros(n)) == 0
  {
    if n > 0 {
      assert Zeros(n)[..n - 1] == Zeros(n - 1);
      DigitsValueZeros(n - 1);
    }
  }

  function Zeros(n: nat): (r: string)
    ensures |r| == n && forall i :: 0 <= i < n ==> r[i] == '0'
  {
    if n == 0 then "" else Zeros(n - 1) + "0"
  }

  /** `str(n)` for a natural number: its decimal digits without leading zeros. */
  function NatToDigits(n: nat): (r: string)
    ensures IsNumeric(r) && DigitsValue(r) == n
    ensures |r| > 1 ==> r[0] != '0'
  {
    if n < 10 then [DigitChar(n)]
    else
      var p := NatToDigits(n / 10);
      var r := p + [DigitChar(n % 10)];
      assert r[..|r| - 1] == p;
      r
  }

  /** `str(i)` for an integer. */
  function IntToString(i: int): string
  {
    if i < 0 then "-" + NatToDigits(-i) else NatToDigits(i)
  }

  /** The text with an optional leading sign removed, and whether it was '-'. */
  function SplitSign(t: string): (bool, string)
  {
    if |t| > 0 && (t[0] == '+' || t[0] == '-') then (t[0] == '-', t[1..]) else (false, t)
  }

  /** `int(s)` in base 10: surrounding whitespace, an optional sign, digits. */
  function ParseInt(s: string): Option<int>
  {
    var (neg, u) := SplitSign(Strip(s));
    if IsNumeric(u) then Some(if neg then -(DigitsValue(u) as int) else DigitsValue(u)) else None
  }

  /** The index of the first character of `s` in `cs`, or `|s|`. */
  function FirstOf(s: string, cs: set<char>): (n: nat)
    ensures n <= |s| && (n < |s| ==> s[n] in cs)
    ensures forall i :: 0 <= i < n ==> s[i] !in cs
  {
    if |s| == 0 || s[0] in cs then 0 else 1 + FirstOf(s[1..], cs)
  }

  lemma FirstOfExact(s: string, cs: set<char>, n: nat)
    requires n <= |s| && (n < |s| ==> s[n] in cs)
    requires forall i :: 0 <= i < n ==> s[i] !in cs
    ensures FirstOf(s, cs) == n
    decreases n
  {
    if n > 0 {
      assert forall i :: 0 <= i < n - 1 ==> s[1..][i] == s[i + 1];
      FirstOfExact(s[1..], cs, n - 1);
    }
  }

  /** `n * 10**-k` */
  function Shifted(n: nat, k: nat): real
  {
    n as real / Pow10(k) as real
  }

  /** A mantissa `digits [. digits]` or `. digits` with at least one digit. */
  function ParseMantissa(m: string): Option<real>
  {
    var d := FirstOf(m, {'.'});
    var ip := m[..d];
    var fp := if d < |m| then m[d + 1..] else "";
    if AllDigits(ip) && AllDigits(fp) && |ip| + |fp| > 0 then
      AllDigitsConcat(ip, fp);
      Some(Shifted(DigitsValue(ip + fp), |fp|))
    else None
  }

  /** `x * 10**e` on exact reals. */
  function Scale10(x: real, e: int): real
    decreases if e >= 0 then e else -e
  {
    if e == 0 then x
    else if e > 0 then 10.0 * Scale10(x, e - 1)
    else Scale10(x, e + 1) / 10.0
  }

  /** An exponent's digits with an optional sign. */
  function ParseExponent(t: string): Option<int>
  {
    var (neg, u) := SplitSign(t);
    if IsNumeric(u) then Some(if neg then -(DigitsValue(u) as int) else DigitsValue(u)) else None
  }

  /** A number without sign: mantissa, then optionally `e`/`E`, sign, digits. */
  function ParseUnsigned(u: string): Option<real>
  {
    var k := FirstOf(u, {'e', 'E'});
    var m := ParseMantissa(u[..k]);
    if m.None? then None
    else if k == |u| then m
    else
      match ParseExponent(u[k + 1..])
      case None => None
      case Some(e) => Some(Scale10(m.value, e))
  }

  /** `float(s)` for decimal text. The words inf, infinity and nan have no real
      value and are reported as unparsable, like any other text. */
  function ParseFloat(s: string): Option<real>
  {
    var (neg, u) := SplitSign(Strip(s));
    Signed(neg, ParseUnsigned(u))
  }

  /** Text that starts with a letter other than `e` and ends in no space is
      not a float. */
  lemma LetterNoFloat(s: string)
    requires |s| > 0 && 'a' <= s[0] <= 'd' && !IsSpace(s[|s| - 1])
    ensures ParseFloat(s) == None
  {
    StripNoOp(s);
    var (neg, u) := SplitSign(s);
    assert u == s;
    var k := FirstOf(u, {'e', 'E'});
    assert k > 0;
    var m := u[..k];
    var d := FirstOf(m, {'.'});
    assert d > 0 && m[..d][0] == s[0];
    assert ParseMantissa(m) == None;
  }

  /** The value of a number with sign `neg` whose unsigned part reads as `u`. */
  function Signed(neg: bool, u: Option<real>): Option<real>
  {
    match u
    case None => None
    case Some(v) => Some(if neg then -v else v)
  }

  lemma ParseIntOfString(i: int)
    ensures ParseInt(IntToString(i)) == Some(i)
  {
    IntTextParts(i);
  }

  lemma ParseFloatOfInt(i: int)
    ensures ParseFloat(IntToString(i)) == Some(i as real)
  {
    var t := IntToString(i);
    var n: nat := if i < 0 then -i else i;
    var u := NatToDigits(n);
    IntTextParts(i);
    assert ParseFloat(t) == Signed(i < 0, ParseUnsigned(u));
    ParseDigitsUnsigned(u);
    SignedMagnitude(i, n);
  }

  /** `str(i)` has no surrounding whitespace, and its sign and digits split off. */
  lemma IntTextParts(i: int)
    ensures Strip(IntToString(i)) == IntToString(i)
    ensures SplitSign(IntToString(i)) == (i < 0, NatToDigits(if i < 0 then -i else i))
  {
    var t := IntToString(i);
    StripNoOp(t);
    if i < 0 {
      assert SplitSign(t) == (true, NatToDigits(-i));
    }
  }

  lemma SignedMagnitude(i: int, n: nat)
    requires n == if i < 0 then -i else i
    ensures Signed(i < 0, Some(n as real)) == Some(i as real)
  {
  }

  /** A plain digit string is a float with the digit string's value. */
  lemma ParseDigitsUnsigned(u: string)
    requires IsNumeric(u)
    ensures ParseUnsigned(u) == Some(DigitsValue(u) as real)
  {
    FirstOfExact(u, {'e', 'E'}, |u|);
    assert u[..|u|] == u;
    FirstOfExact(u, {'.'}, |u|);
    assert u + "" == u;
    assert ParseMantissa(u) == Some(Shifted(DigitsValue(u), 0));
  }

  // ------------------------------------------------------------ fixed point

  function Abs(x: real): real { if x < 0.0 then -x else x }

  /** Round half to even, as float formatting does on an exact tie. */
  function RoundHalfEven(y: real): (n: int)
    ensures y - 1.0 / 2.0 <= n as real <= y + 1.0 / 2.0
  {
    var f := y.Floor;
    var d := y - f as real;
    if d < 1.0 / 2.0 then f
    else if d > 1.0 / 2.0 then f + 1
    else if f % 2 == 0 then f else f + 1
  }

  /** The magnitude of `x` in units of `10**-k`, rounded. */
  function Scaled(x: real, k: nat): nat
  {
    var n := RoundHalfEven(Abs(x) * Pow10(k) as real);
    if n < 0 then 0 else n
  }

  /** `float('{:.kf}'.format(x))`: `x` rounded to `k` decimals. */
  function RoundTo(x: real, k: nat): real
  {
    var n := Shifted(Scaled(x, k), k);
    if x < 0.0 then -n else n
  }

  /** At least `w` digits, with leading zeros added. */
  function ZeroPad(s: string, w: nat): (r: string)
    ensures |r| >= w && |r| >= |s|
  {
    if |s| >= w then s else Zeros(w - |s|) + s
  }

  /** `'{:.kf}'.format(x)`: sign (from the sign of `x`), integer digits, and
      exactly `k` decimals after a point (no point when `k` is 0). */
  function FormatFixed(x: real, k: nat): string
  {
    (if x < 0.0 then "-" else "") + FixedBody(x, k)
  }

  /** The unsigned part of `FormatFixed(x, k)`. */
  function FixedBody(x: real, k: nat): string
  {
    PointAt(ZeroPad(NatToDigits(Scaled(x, k)), k + 1), k)
  }

  lemma ZeroPadValue(s: string, w: nat)
    requires AllDigits(s)
    ensures AllDigits(ZeroPad(s, w)) && DigitsValue(ZeroPad(s, w)) == DigitsValue(s)
  {
    if |s| < w {
      DigitsValueLeadingZeros(w - |s|, s);
    }
  }

  /** `digits[..|digits| - k] + '.' + digits[|digits| - k..]`, or the digits when `k` is 0. */
  function PointAt(digits: string, k: nat): string
    requires k < |digits|
  {
    if k == 0 then digits else digits[..|digits| - k] + "." + digits[|digits| - k..]
  }

  lemma PointAtChars(digits: string, k: nat)
    requires k < |digits| && AllDigits(digits)
    ensures forall i :: 0 <= i < |PointAt(digits, k)| ==>
      IsDigit(PointAt(digits, k)[i]) || PointAt(digits, k)[i] == '.'
  {
    var b := PointAt(digits, k);
    forall i | 0 <= i < |b| ensures IsDigit(b[i]) || b[i] == '.' {
      if k > 0 && i > |digits| - k { assert b[i] == digits[i - 1]; }
    }
  }

  /** Text without an exponent marker is read as a mantissa alone. */
  lemma ParseUnsignedNoExp(b: string)
    requires forall i :: 0 <= i < |b| ==> b[i] != 'e' && b[i] != 'E'
    ensures ParseUnsigned(b) == ParseMantissa(b)
  {
    FirstOfExact(b, {'e', 'E'}, |b|);
    assert b[..|b|] == b;
  }

  /** `ip + '.' + fp` with digit strings on both sides. */
  lemma ParseMantissaPoint(ip: string, fp: string)
    requires AllDigits(ip) && AllDigits(fp) && |ip| > 0
    ensures AllDigits(ip + fp)
    ensures ParseMantissa(ip + "." + fp) == Some(Shifted(DigitsValue(ip + fp), |fp|))
  {
    AllDigitsConcat(ip, fp);
    var b := ip + "." + fp;
    assert b[|ip|] == '.';
    forall i | 0 <= i < |ip| ensures b[i] != '.' { assert b[i] == ip[i]; }
    FirstOfExact(b, {'.'}, |ip|);
    var d := FirstOf(b, {'.'});
    assert d == |ip| < |b|;
    assert b[..d] == ip;
    assert b[d + 1..] == fp;
    var ip', fp' := b[..d], (if d < |b| then b[d + 1..] else "");
    assert fp' == fp;
    assert AllDigits(ip') && AllDigits(fp') && |ip'| + |fp'| > 0;
    assert ip' + fp' == ip + fp;
    assert ParseMantissa(b) == Some(Shifted(DigitsValue(ip' + fp'), |fp'|));
  }

  /** A number with digits on both sides of its point. */
  lemma ParseUnsignedPoint(ip: string, fp: string)
    requires AllDigits(ip) && AllDigits(fp) && |ip| > 0
    ensures AllDigits(ip + fp)
    ensures ParseUnsigned(ip + "." + fp) == Some(Shifted(DigitsValue(ip + fp), |fp|))
  {
    var b := ip + "." + fp;
    forall i | 0 <= i < |b| ensures b[i] != 'e' && b[i] != 'E' {
      if i < |ip| { assert b[i] == ip[i]; }
      if i > |ip| { assert b[i] == fp[i - |ip| - 1]; }
    }
    ParseUnsignedNoExp(b);
    ParseMantissaPoint(ip, fp);
  }

  /** Digits with a point `k` places from the end read as a decimal number. */
  lemma ParsePointAt(digits: string, k: nat)
    requires 0 < k < |digits| && AllDigits(digits)
    ensures ParseUnsigned(PointAt(digits, k)) == Some(Shifted(DigitsValue(digits), k))
  {
    var n := |digits| - k;
    SplitDigits(digits, n);
    ParseUnsignedPoint(digits[..n], digits[n..]);
  }

  /** Both sides of a cut through a digit string are digit strings. */
  lemma SplitDigits(digits: string, n: nat)
    requires n <= |digits| && AllDigits(digits)
    ensures AllDigits(digits[..n]) && AllDigits(digits[n..]) && digits[..n] + digits[n..] == digits
  {
    var ip, fp := digits[..n], digits[n..];
    forall i | 0 <= i < |ip| ensures IsDigit(ip[i]) { assert ip[i] == digits[i]; }
    forall i | 0 <= i < |fp| ensures IsDigit(fp[i]) { assert fp[i] == digits[n + i]; }
  }

  lemma NoSpaceSigned(neg: bool, body: string)
    requires NoSpace(body)
    ensures NoSpace((if neg then "-" else "") + body)
  {
    var t := (if neg then "-" else "") + body;
    forall i | 0 <= i < |t| ensures !IsSpace(t[i]) {
      if neg && i > 0 { assert t[i] == body[i - 1]; }
      if !neg { assert t[i] == body[i]; }
    }
  }

  lemma SplitSignSigned(neg: bool, body: string)
    requires |body| > 0 && body[0] != '-' && body[0] != '+'
    ensures SplitSign((if neg then "-" else "") + body) == (neg, body)
  {
    var t := (if neg then "-" else "") + body;
    if neg {
      assert t[0] == '-' && t[1..] == body;
    } else {
      assert t == body;
    }
  }

  /** Text that starts with no sign and holds no whitespace is read by sign and body. */
  lemma ParseSigned(neg: bool, body: string, v: real)
    requires NoSpace(body) && |body| > 0 && body[0] != '-' && body[0] != '+'
    requires ParseUnsigned(body) == Some(v)
    ensures ParseFloat((if neg then "-" else "") + body) == Some(if neg then -v else v)
  {
    NoSpaceSigned(neg, body);
    StripNoOp((if neg then "-" else "") + body);
    SplitSignSigned(neg, body);
  }

  /** The digits of a fixed-point rendering before the point is placed. */
  function FixedDigits(x: real, k: nat): string
  {
    ZeroPad(NatToDigits(Scaled(x, k)), k + 1)
  }

  lemma FixedDigitsValue(x: real, k: nat)
    ensures |FixedDigits(x, k)| > k && AllDigits(FixedDigits(x, k))
    ensures DigitsValue(FixedDigits(x, k)) == Scaled(x, k)
    ensures FixedBody(x, k) == PointAt(FixedDigits(x, k), k)
  {
    ZeroPadValue(NatToDigits(Scaled(x, k)), k + 1);
  }

  /** The unsigned part of a fixed-point rendering reads back as its scaled value. */
  lemma FixedBodyParses(x: real, k: nat)
    ensures |FixedBody(x, k)| > 0 && NoSpace(FixedBody(x, k))
    ensures IsDigit(FixedBody(x, k)[0])
    ensures ParseUnsigned(FixedBody(x, k)) == Some(Shifted(Scaled(x, k), k))
  {
    FixedDigitsValue(x, k);
    FixedBodyChars(FixedDigits(x, k), k);
    FixedBodyValue(FixedDigits(x, k), k, Scaled(x, k));
  }

  lemma FixedBodyChars(padded: string, k: nat)
    requires k < |padded| && AllDigits(padded)
    ensures |PointAt(padded, k)| > 0 && NoSpace(PointAt(padded, k)) && IsDigit(PointAt(padded, k)[0])
  {
    var body := PointAt(padded, k);
    PointAtChars(padded, k);
    forall i | 0 <= i < |body| ensures !IsSpace(body[i]) {
      assert IsDigit(body[i]) || body[i] == '.';
    }
    assert body[0] == padded[0];
  }

  lemma FixedBodyValue(padded: string, k: nat, n: nat)
    requires k < |padded| && AllDigits(padded) && DigitsValue(padded) == n
    ensures ParseUnsigned(PointAt(padded, k)) == Some(Shifted(n, k))
  {
    if k == 0 {
      ParseDigitsUnsigned(padded);
      ShiftedZero(n);
    } else {
      ParsePointAt(padded, k);
    }
  }

  lemma ShiftedZero(n: nat)
    ensures Shifted(n, 0) == n as real
  {
  }

  /** Formatting to `k` decimals and reading back gives `x` rounded to `k` decimals. */
  lemma ParseFormatFixed(x: real, k: nat)
    ensures ParseFloat(FormatFixed(x, k)) == Some(RoundTo(x, k))
  {
    var body, v := FixedBody(x, k), Shifted(Scaled(x, k), k);
    FixedBodyParses(x, k);
    ParseSigned(x < 0.0, body, v);
    RoundToSigned(x, k, v);
  }

  /** A fixed-point rendering is made of digits, a point and, for a
      negative number only, a leading minus sign. */
  lemma FormatFixedChars(x: real, k: nat, c: char)
    requires !IsDigit(c) && c != '.' && (c == '-' ==> x >= 0.0)
    ensures Excludes(FormatFixed(x, k), c)
  {
    FixedDigitsValue(x, k);
    PointAtChars(FixedDigits(x, k), k);
    var body := FixedBody(x, k);
    var t := FormatFixed(x, k);
    forall i | 0 <= i < |t|
      ensures t[i] != c
    {
      if x < 0.0 {
        if i > 0 {
          assert t[i] == body[i - 1];
        }
      } else {
        assert t[i] == body[i];
      }
    }
  }

  lemma RoundToSigned(x: real, k: nat, v: real)
    requires v == Shifted(Scaled(x, k), k)
    ensures RoundTo(x, k) == (if x < 0.0 then -v else v)
  {
  }

  /** `int(x)` of a float: truncation toward zero, so the result lies
      between zero and `x`, less than one away from `x`. */
  function Trunc(x: real): (n: int)
    ensures 0.0 <= x ==> 0 <= n && n as real <= x < n as real + 1.0
    ensures x < 0.0 ==> n <= 0 && n as real - 1.0 < x <= n as real
  {
    if x >= 0.0 then x.Floor else -((-x).Floor)
  }

  // ---------------------------------------------------------------- NaN cells

  /** A numpy float: a real number or NaN. */
  datatype Cell = Num(v: real) | NaN

  /** `float(s)`, with NaN stored where the conversion raises ValueError. */
  function CellOf(s: string): (c: Cell)
    ensures c.NaN? <==> ParseFloat(s).None?
  {
    match ParseFloat(s)
    case Some(v) => Num(v)
    case None => NaN
  }
}
