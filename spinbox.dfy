/** The float-literal recogniser and the exponent rewriting used by the
    scientific spin box. The pattern `([+-]?\d+(\.\d*)?|\.\d+)([eE][+-]?\d+)?`
    is modelled by the greedy, leftmost matcher that a backtracking regular
    expression engine runs for it. */
module SpinBox {
  import opened Wrappers
  import opened Text
  import opened Numbers

  // ------------------------------------------------------------ the matcher

  /** The number of digits in the run that starts at `i`. */
  function DigitRun(s: string, i: nat): (n: nat)
    requires i <= |s|
    ensures i + n <= |s| && (i + n == |s| || !IsDigit(s[i + n]))
    decreases |s| - i
  {
    if i < |s| && IsDigit(s[i]) then 1 + DigitRun(s, i + 1) else 0
  }

  /** The run that starts at `i` is made of digits only. */
  lemma {:induction false} DigitRunDigits(s: string, i: nat)
    requires i <= |s|
    ensures DigitsIn(s, i, i + DigitRun(s, i))
    decreases |s| - i
  {
    if i < |s| && IsDigit(s[i]) {
      DigitRunDigits(s, i + 1);
    }
  }

  lemma DigitRunExact(s: string, i: nat, n: nat)
    requires i + n <= |s| && (i + n == |s| || !IsDigit(s[i + n]))
    requires forall j :: i <= j < i + n ==> IsDigit(s[j])
    ensures DigitRun(s, i) == n
    decreases n
  {
    if n > 0 {
      DigitRunExact(s, i + 1, n - 1);
    }
  }

  predicate IsSign(c: char) { c == '+' || c == '-' }

  /** Where the coefficient `[+-]?\d+(\.\d*)?|\.\d+` tried at `i` ends. */
  function CoefEnd(s: string, i: nat): (r: Option<nat>)
    requires i <= |s|
    ensures r.Some? ==> i < r.value <= |s|
  {
    var j := if i < |s| && IsSign(s[i]) then i + 1 else i;
    var d := DigitRun(s, j);
    if d > 0 then
      var k := j + d;
      if k < |s| && s[k] == '.' then Some(k + 1 + DigitRun(s, k + 1)) else Some(k)
    else if i < |s| && s[i] == '.' && DigitRun(s, i + 1) > 0 then
      Some(i + 1 + DigitRun(s, i + 1))
    else None
  }

  /** Where the optional exponent `([eE][+-]?\d+)?` tried at `j` ends (`j` when absent). */
  function ExpEnd(s: string, j: nat): (r: nat)
    requires j <= |s|
    ensures j <= r <= |s|
  {
    if j < |s| && (s[j] == 'e' || s[j] == 'E') then
      var k := if j + 1 < |s| && IsSign(s[j + 1]) then j + 2 else j + 1;
      var d := DigitRun(s, k);
      if d > 0 then k + d else j
    else j
  }

  /** The end of the match that starts at `i`, if the pattern matches there. */
  function MatchAt(s: string, i: nat): (r: Option<nat>)
    requires i <= |s|
    ensures r.Some? ==> i < r.value <= |s|
  {
    match CoefEnd(s, i)
    case None => None
    case Some(k) => Some(ExpEnd(s, k))
  }

  /** `search`: the leftmost match at or after `i`, as (start, end). */
  function SearchFrom(s: string, i: nat): (r: Option<(nat, nat)>)
    requires i <= |s|
    ensures r.Some? ==> i <= r.value.0 < |s| && MatchAt(s, r.value.0) == Some(r.value.1)
    decreases |s| - i
  {
    match MatchAt(s, i)
    case Some(e) => Some((i, e))
    case None => if i == |s| then None else SearchFrom(s, i + 1)
  }

  /** No match starts at any position from `lo` up to `hi`. */
  predicate NoMatchIn(s: string, lo: nat, hi: nat)
    requires lo <= hi <= |s|
    decreases hi - lo
  {
    lo == hi || (MatchAt(s, lo).None? && NoMatchIn(s, lo + 1, hi))
  }

  /** The search finds the leftmost match, and finds none only when no
      position matches. */
  lemma {:induction false} SearchLeftmost(s: string, i: nat)
    requires i <= |s|
    ensures SearchFrom(s, i).Some? ==> NoMatchIn(s, i, SearchFrom(s, i).value.0)
    ensures SearchFrom(s, i).None? ==> NoMatchIn(s, i, |s|) && MatchAt(s, |s|).None?
    decreases |s| - i
  {
    var m := MatchAt(s, i);
    if m.Some? {
      assert SearchFrom(s, i) == Some((i, m.value));
    } else if i < |s| {
      assert SearchFrom(s, i) == SearchFrom(s, i + 1);
      SearchLeftmost(s, i + 1);
    }
  }

  /** `valid_float_string`: the leftmost match is the whole text. */
  function ValidFloatString(s: string): (r: bool)
    ensures r <==> MatchAt(s, 0) == Some(|s|)
  {
    match SearchFrom(s, 0)
    case None => false
    case Some((i, e)) => i == 0 && e == |s|
  }

  // ------------------------------------------------------------ the grammar

  /** A float literal spelled out part by part. */
  datatype Literal = Literal(sign: string, whole: string, point: bool, frac: string,
                             exponent: Option<Exponent>)
  datatype Exponent = Exponent(marker: char, sign: string, digits: string)

  predicate SignText(t: string) { t == "" || t == "+" || t == "-" }

  /** The grammar of the pattern: digits before the point, or no sign and
      digits after it; an exponent has a marker, a sign and digits. */
  predicate WellFormed(lit: Literal)
  {
    SignText(lit.sign) && AllDigits(lit.whole) && AllDigits(lit.frac)
    && (!lit.point ==> lit.frac == "")
    && (|lit.whole| > 0 || (lit.sign == "" && lit.point && |lit.frac| > 0))
    && (lit.exponent.Some? ==>
          (lit.exponent.value.marker == 'e' || lit.exponent.value.marker == 'E')
          && SignText(lit.exponent.value.sign) && IsNumeric(lit.exponent.value.digits))
  }

  function SpellExponent(e: Option<Exponent>): string
  {
    match e
    case None => ""
    case Some(x) => [x.marker] + x.sign + x.digits
  }

  function Spell(lit: Literal): string
  {
    lit.sign + lit.whole + (if lit.point then "." else "") + lit.frac + SpellExponent(lit.exponent)
  }

  /** The exponent part read from position `j` of `s`. */
  lemma ExpEndSpelled(s: string, j: nat, e: Option<Exponent>)
    requires j <= |s| && s[j..] == SpellExponent(e)
    requires e.Some? ==>
      (e.value.marker == 'e' || e.value.marker == 'E') && SignText(e.value.sign) && IsNumeric(e.value.digits)
    ensures ExpEnd(s, j) == |s|
  {
    if e.Some? {
      var x := e.value;
      var k := j + 1 + |x.sign|;
      assert s[j] == s[j..][0] == x.marker;
      if x.sign != "" { assert s[j + 1] == s[j..][1]; }
      forall t | k <= t < |s| ensures IsDigit(s[t]) {
        assert s[t] == s[j..][t - j] == x.digits[t - k];
      }
      assert s[k] == x.digits[0];
      DigitRunExact(s, k, |s| - k);
    }
  }

  /** A coefficient with digits before its point ends where the spelling says. */
  lemma CoefEndWhole(s: string, w: nat, p: nat, point: bool, f: nat)
    requires w <= 1 && w < p <= f <= |s|
    requires w == 1 ==> IsSign(s[0])
    requires forall t :: w <= t < p ==> IsDigit(s[t])
    requires point ==> p < f && s[p] == '.' && forall t :: p < t < f ==> IsDigit(s[t])
    requires !point ==> f == p
    requires f < |s| ==> s[f] == 'e' || s[f] == 'E'
    ensures CoefEnd(s, 0) == Some(f)
  {
    if w == 0 { assert !IsSign(s[0]); }
    DigitRunExact(s, w, p - w);
    if point { DigitRunExact(s, p + 1, f - p - 1); }
  }

  /** A coefficient that starts at its point ends where the spelling says. */
  lemma CoefEndFrac(s: string, f: nat)
    requires 1 < f <= |s| && s[0] == '.'
    requires forall t :: 1 <= t < f ==> IsDigit(s[t])
    requires f < |s| ==> s[f] == 'e' || s[f] == 'E'
    ensures CoefEnd(s, 0) == Some(f)
  {
    DigitRunExact(s, 0, 0);
    DigitRunExact(s, 1, f - 1);
  }

  /** Every position from `lo` up to `hi` holds a digit. */
  predicate DigitsIn(s: string, lo: nat, hi: nat)
    requires lo <= hi <= |s|
  {
    forall t :: lo <= t < hi ==> IsDigit(s[t])
  }

  /** Appending a digit string puts digits at its positions. */
  lemma DigitsAppended(a: string, x: string)
    requires AllDigits(x)
    ensures DigitsIn(a + x, |a|, |a| + |x|)
  {
    forall t | |a| <= t < |a| + |x| ensures IsDigit((a + x)[t]) {
      assert (a + x)[t] == x[t - |a|];
    }
  }

  /** Appending keeps the digits already in place. */
  lemma DigitsKept(a: string, b: string, lo: nat, hi: nat)
    requires lo <= hi <= |a| && DigitsIn(a, lo, hi)
    ensures DigitsIn(a + b, lo, hi)
  {
    forall t | lo <= t < hi ensures IsDigit((a + b)[t]) {
      assert (a + b)[t] == a[t];
    }
  }

  /** Where each part of a spelled literal sits. */
  lemma SpellLayout(lit: Literal)
    requires WellFormed(lit)
    ensures var s, w := Spell(lit), |lit.sign|;
      var p := w + |lit.whole|;
      var f := p + (if lit.point then 1 else 0) + |lit.frac|;
      && f <= |s| && s[f..] == SpellExponent(lit.exponent)
      && (w == 1 ==> IsSign(s[0]))
      && DigitsIn(s, w, p)
      && (lit.point ==> s[p] == '.' && DigitsIn(s, p + 1, f))
      && (f < |s| ==> s[f] == 'e' || s[f] == 'E')
  {
    var ex := SpellExponent(lit.exponent);
    var c1 := lit.sign + lit.whole;
    var c2 := c1 + (if lit.point then "." else "");
    var c := c2 + lit.frac;
    var s := c + ex;
    assert s == Spell(lit);
    var w, p, f := |lit.sign|, |c1|, |c|;
    DigitsAppended(lit.sign, lit.whole);
    DigitsKept(c1, if lit.point then "." else "", w, p);
    DigitsKept(c2, lit.frac, w, p);
    DigitsKept(c, ex, w, p);
    if lit.point {
      DigitsAppended(c2, lit.frac);
      DigitsKept(c, ex, p + 1, f);
      assert s[p] == c[p] == c2[p] == '.';
    }
    if w == 1 { assert s[0] == c1[0] == lit.sign[0]; }
    assert s[f..] == ex;
    if f < |s| { assert s[f] == ex[0]; }
  }

  /** Every literal of the grammar is accepted. */
  lemma SpelledIsValid(lit: Literal)
    requires WellFormed(lit)
    ensures ValidFloatString(Spell(lit))
  {
    var s, w := Spell(lit), |lit.sign|;
    var p := w + |lit.whole|;
    var f := p + (if lit.point then 1 else 0) + |lit.frac|;
    SpellLayout(lit);
    if |lit.whole| > 0 {
      CoefEndWhole(s, w, p, lit.point, f);
    } else {
      CoefEndFrac(s, f);
    }
    ExpEndSpelled(s, f, lit.exponent);
    assert MatchAt(s, 0) == Some(|s|);
  }

  /** The coefficient of a text whose coefficient ends at `k`, part by part. */
  /** The run that starts at `i`, cut out, is a digit string. */
  lemma DigitRunSlice(s: string, i: nat)
    requires i <= |s|
    ensures AllDigits(s[i..i + DigitRun(s, i)])
  {
    var n := DigitRun(s, i);
    DigitRunDigits(s, i);
    var x := s[i..i + n];
    forall t | 0 <= t < |x| ensures IsDigit(x[t]) {
      assert x[t] == s[i + t];
    }
  }

  /** The coefficient of a text whose coefficient ends at `k`, part by part. */
  lemma CoefPartsSpell(s: string, k: nat) returns (lit: Literal)
    requires CoefEnd(s, 0) == Some(k)
    ensures k <= |s| && WellFormed(lit) && lit.exponent.None? && Spell(lit) == s[..k]
  {
    var j := if IsSign(s[0]) then 1 else 0;
    var d := DigitRun(s, j);
    if d > 0 {
      var p := j + d < |s| && s[j + d] == '.';
      assert k == if p then j + d + 1 + DigitRun(s, j + d + 1) else j + d;
      lit := CoefPartsWhole(s, k, j, d, p);
    } else {
      assert s[0] == '.' && k == 1 + DigitRun(s, 1);
      lit := CoefPartsFrac(s, k);
    }
  }

  /** A coefficient with digits before the point (and perhaps a point and digits after it). */
  lemma CoefPartsWhole(s: string, k: nat, j: nat, d: nat, p: bool) returns (lit: Literal)
    requires 0 < |s| && j == (if IsSign(s[0]) then 1 else 0) && d == DigitRun(s, j) && d > 0
    requires p == (j + d < |s| && s[j + d] == '.')
    requires k == if p then j + d + 1 + DigitRun(s, j + d + 1) else j + d
    ensures k <= |s| && WellFormed(lit) && lit.exponent.None? && Spell(lit) == s[..k]
  {
    DigitRunSlice(s, j);
    var sign := s[..j];
    if j == 1 { assert sign == [s[0]]; }
    assert SignText(sign);
    if p {
      DigitRunSlice(s, j + d + 1);
      lit := Literal(sign, s[j..j + d], true, s[j + d + 1..k], None);
      SpellWithPoint(s, j, d, k);
    } else {
      lit := Literal(sign, s[j..j + d], false, "", None);
      SpellNoPoint(s, j, d);
    }
  }

  lemma SpellNoPoint(s: string, w: nat, d: nat)
    requires w + d <= |s|
    ensures Spell(Literal(s[..w], s[w..w + d], false, "", None)) == s[..w + d]
  {
    assert s[..w + d] == s[..w] + s[w..w + d];
  }

  /** A coefficient that starts at its point. */
  lemma CoefPartsFrac(s: string, k: nat) returns (lit: Literal)
    requires 0 < |s| && s[0] == '.' && k == 1 + DigitRun(s, 1) && k > 1
    ensures k <= |s| && WellFormed(lit) && lit.exponent.None? && Spell(lit) == s[..k]
  {
    var f := s[1..k];
    DigitRunSlice(s, 1);
    FracOnly(f);
    lit := Literal("", "", true, f, None);
    assert s[..k] == "." + f;
  }

  /** A literal with no sign, no whole part and digits after its point. */
  lemma FracOnly(f: string)
    requires IsNumeric(f)
    ensures WellFormed(Literal("", "", true, f, None))
    ensures Spell(Literal("", "", true, f, None)) == "." + f
  {
    assert "" + "" + "." + f + "" == "." + f;
  }

  lemma SpellWithPoint(s: string, w: nat, d: nat, k: nat)
    requires w + d < k <= |s| && s[w + d] == '.'
    ensures Spell(Literal(s[..w], s[w..w + d], true, s[w + d + 1..k], None)) == s[..k]
  {
    assert s[..k] == s[..w] + s[w..w + d] + "." + s[w + d + 1..k];
  }

  /** The exponent of a text whose exponent starts at `k` and ends at its end. */
  lemma ExpPartsSpell(s: string, k: nat) returns (e: Option<Exponent>)
    requires k <= |s| && ExpEnd(s, k) == |s|
    ensures e.Some? ==>
      (e.value.marker == 'e' || e.value.marker == 'E') && SignText(e.value.sign) && IsNumeric(e.value.digits)
    ensures SpellExponent(e) == s[k..]
  {
    if k == |s| {
      e := None;
    } else {
      var m := if k + 1 < |s| && IsSign(s[k + 1]) then k + 2 else k + 1;
      assert |s| == m + DigitRun(s, m);
      DigitRunSlice(s, m);
      assert s[m..] == s[m..m + DigitRun(s, m)];
      e := Some(Exponent(s[k], s[k + 1..m], s[m..]));
      assert s[k..] == [s[k]] + s[k + 1..m] + s[m..];
    }
  }

  /** Every accepted text is a literal of the grammar. */
  lemma ValidIsSpelled(s: string)
    requires ValidFloatString(s)
    ensures exists lit :: WellFormed(lit) && Spell(lit) == s
  {
    var k := CoefEnd(s, 0).value;
    var c := CoefPartsSpell(s, k);
    var e := ExpPartsSpell(s, k);
    var lit := c.(exponent := e);
    assert Spell(lit) == Spell(c) + SpellExponent(e);
    assert s == s[..k] + s[k..];
    assert WellFormed(lit) && Spell(lit) == s;
  }

  // ------------------------------------------------------------ exponent rewriting

  /** Leading zeros of a digit run removed, keeping at least one digit. */
  function Unpadded(d: string): (r: string)
    requires IsNumeric(d)
    ensures IsNumeric(r) && (|r| > 1 ==> r[0] != '0')
    ensures DigitsValue(r) == DigitsValue(d)
  {
    if |d| > 1 && d[0] == '0' then
      assert d == Zeros(1) + d[1..];
      DigitsValueLeadingZeros(1, d[1..]);
      Unpadded(d[1..])
    else d
  }

  /** `re.sub("e(-?)0*(\d+)", r"e\1\2", s)` from position `i` on. */
  function SubFrom(s: string, i: nat): string
    requires i <= |s|
    decreases |s| - i
  {
    if i == |s| then ""
    else
      var (out, next) := SubStep(s, i);
      out + SubFrom(s, next)
  }

  /** One step of the substitution at `i`: a matched exponent is rewritten,
      any other character is copied; `next` is where the scan goes on. */
  function SubStep(s: string, i: nat): (r: (string, nat))
    requires i < |s|
    ensures i < r.1 <= |s|
    ensures s[i] != 'e' ==> r == ([s[i]], i + 1)
  {
    if s[i] == 'e' then
      var j := if i + 1 < |s| && s[i + 1] == '-' then i + 2 else i + 1;
      var d := DigitRun(s, j);
      if d > 0 then
        DigitRunSlice(s, j);
        ("e" + s[i + 1..j] + Unpadded(s[j..j + d]), j + d)
      else ([s[i]], i + 1)
    else ([s[i]], i + 1)
  }

  /** `format_float` after `'{:g}'.format(value)` has produced `g`. */
  function FormatFloat(g: string): string
  {
    SubFrom(Replace(g, "e+", "e"), 0)
  }

  lemma {:induction false} SubFromSkip(s: string, i: nat, j: nat)
    requires i <= j <= |s| && forall t :: i <= t < j ==> s[t] != 'e'
    ensures SubFrom(s, i) == s[i..j] + SubFrom(s, j)
    decreases j - i
  {
    if i < j {
      SubFromSkip(s, i + 1, j);
      assert SubFrom(s, i) == [s[i]] + SubFrom(s, i + 1);
      ConsSlice(s, i, j, SubFrom(s, j));
    }
  }

  lemma ConsSlice(s: string, i: nat, j: nat, rest: string)
    requires i < j <= |s|
    ensures [s[i]] + (s[i + 1..j] + rest) == s[i..j] + rest
  {
    assert s[i..j] == [s[i]] + s[i + 1..j];
  }

  /** The text `{:g}` gives for a number with an exponent. */
  function GText(m: string, neg: bool, d: string): string
  {
    m + "e" + (if neg then "-" else "+") + d
  }

  lemma ReplaceSignedExp(m: string, neg: bool, d: string)
    requires Excludes(m, 'e') && AllDigits(d)
    ensures Replace(GText(m, neg, d), "e+", "e") == m + "e" + (if neg then "-" else "") + d
  {
    var g := GText(m, neg, d);
    if neg {
      forall j | 0 <= j <= |g| ensures !OccursAt(g, "e+", j) {
        if j + 2 <= |g| {
          assert g[j..j + 2][0] == g[j] && g[j..j + 2][1] == g[j + 1];
          if j < |m| { assert g[j] == m[j]; }
          if j > |m| + 1 { assert g[j] == d[j - |m| - 2]; }
        }
      }
      assert Split(g, "e+") == [g];
    } else {
      assert g == m + "e+" + d;
      FirstOccurrenceAfter(m, "e+", d);
      assert (m + "e+" + d)[..|m|] == m;
      assert (m + "e+" + d)[|m| + 2..] == d;
      NoOccurrence(d, "e+");
      assert Split(g, "e+") == [m, d];
      assert Join([m, d], "e") == m + "e" + d;
      assert m + "e" + "" + d == m + "e" + d;
    }
  }

  /** `{:g}` text with an exponent: the `+` goes, a `-` stays, and the
      exponent loses its leading zeros but keeps one digit. */
  lemma FormatFloatExponent(m: string, neg: bool, d: string)
    requires Excludes(m, 'e') && IsNumeric(d)
    ensures FormatFloat(GText(m, neg, d)) == m + "e" + (if neg then "-" else "") + Unpadded(d)
  {
    ReplaceSignedExp(m, neg, d);
    SubFromText(m, neg, d);
  }

  lemma SubFromText(m: string, neg: bool, d: string)
    requires Excludes(m, 'e') && IsNumeric(d)
    ensures SubFrom(m + "e" + (if neg then "-" else "") + d, 0)
         == m + "e" + (if neg then "-" else "") + Unpadded(d)
  {
    var sgn := if neg then "-" else "";
    var x := "e" + sgn + d;
    var s := m + x;
    Append3(m, "e", sgn, d);
    Append3(m, "e", sgn, Unpadded(d));
    SubFromPrefix(m, x);
    assert s[|m|..] == x;
    SubFromExponent(s, |m|, neg, d);
  }

  lemma Append3(a: string, b: string, c: string, d: string)
    ensures a + b + c + d == a + (b + c + d)
  {
  }

  /** A prefix without `e` is copied as it is. */
  lemma SubFromPrefix(m: string, x: string)
    requires Excludes(m, 'e')
    ensures SubFrom(m + x, 0) == m + SubFrom(m + x, |m|)
  {
    var s := m + x;
    forall t | 0 <= t < |m| ensures s[t] != 'e' { assert s[t] == m[t]; }
    SubFromSkip(s, 0, |m|);
    assert s[..|m|] == m;
  }

  /** The rewriting of an exponent that runs to the end of the text. */
  lemma SubFromExponent(s: string, i: nat, neg: bool, d: string)
    requires i <= |s| && IsNumeric(d) && s[i..] == "e" + (if neg then "-" else "") + d
    ensures SubFrom(s, i) == "e" + (if neg then "-" else "") + Unpadded(d)
  {
    SubStepExponent(s, i, neg, d);
    assert SubFrom(s, i) == SubStep(s, i).0 + SubFrom(s, |s|);
  }

  /** An exponent at `i` that runs to the end is rewritten in one step. */
  lemma SubStepExponent(s: string, i: nat, neg: bool, d: string)
    requires i <= |s| && IsNumeric(d) && s[i..] == "e" + (if neg then "-" else "") + d
    ensures SubStep(s, i) == ("e" + (if neg then "-" else "") + Unpadded(d), |s|)
  {
    var j := if neg then i + 2 else i + 1;
    var x := s[i..];
    ExponentMarker(x, neg, d);
    assert s[i] == x[0];
    assert s[i + 1..j] == x[1..j - i];
    if i + 1 < |s| { assert s[i + 1] == x[1]; }
    assert s[j..] == x[j - i..];
    DigitsTail(s, j, d);
  }

  /** The head of an exponent text. */
  lemma ExponentMarker(x: string, neg: bool, d: string)
    requires IsNumeric(d) && x == "e" + (if neg then "-" else "") + d
    ensures var k := if neg then 2 else 1;
      && x[0] == 'e' && (1 < |x| && x[1] == '-' <==> neg)
      && x[1..k] == (if neg then "-" else "") && x[k..] == d
  {
    var k := if neg then 2 else 1;
    assert x[1] == (if neg then '-' else d[0]);
    assert x[k..] == d;
  }

  /** A text that ends in digits `d` from `j` on has a digit run of `|d|` there. */
  lemma DigitsTail(s: string, j: nat, d: string)
    requires j <= |s| && AllDigits(d) && s[j..] == d
    ensures s[j..j + |d|] == d && DigitRun(s, j) == |d|
  {
    forall t | j <= t < |s| ensures IsDigit(s[t]) { assert s[t] == d[t - j]; }
    DigitRunExact(s, j, |d|);
  }

  /** `{:g}` text without an exponent is left as it is. */
  lemma FormatFloatPlain(g: string)
    requires Excludes(g, 'e')
    ensures FormatFloat(g) == g
  {
    ReplaceAbsent(g, "e+", "e");
    SubFromSkip(g, 0, |g|);
  }

  /** The exponent keeps its value when the `+` goes and leading zeros go. */
  lemma ExponentValueKept(neg: bool, d: string)
    requires IsNumeric(d)
    ensures ParseExponent((if neg then "-" else "+") + d)
         == ParseExponent((if neg then "-" else "") + Unpadded(d))
  {
    var u := Unpadded(d);
    assert SplitSign((if neg then "-" else "+") + d) == (neg, d);
    if neg {
      assert SplitSign("-" + u) == (true, u);
    } else {
      assert "" + u == u;
      assert SplitSign(u) == (false, u);
    }
  }

  /** Two exponents with the same value give the same number. */
  lemma ParseUnsignedSameExponent(m: string, x1: string, x2: string)
    requires Excludes(m, 'e') && Excludes(m, 'E')
    requires ParseExponent(x1) == ParseExponent(x2)
    ensures ParseUnsigned(m + "e" + x1) == ParseUnsigned(m + "e" + x2)
  {
    var u1, u2 := m + "e" + x1, m + "e" + x2;
    FirstOfExact(u1, {'e', 'E'}, |m|);
    FirstOfExact(u2, {'e', 'E'}, |m|);
    assert u1[..|m|] == m && u2[..|m|] == m;
    assert u1[|m| + 1..] == x1 && u2[|m| + 1..] == x2;
  }

  lemma SplitSignMantissa(m: string, x: string)
    requires |m| > 0
    ensures SplitSign(m + "e" + x) == (SplitSign(m).0, SplitSign(m).1 + "e" + x)
  {
    if IsSign(m[0]) {
      assert (m + "e" + x)[1..] == m[1..] + "e" + x;
    }
  }

  /** `format_float` does not change the number that `float()` reads back from
      the `{:g}` text of a number with an exponent. */
  lemma FormatFloatKeepsValue(m: string, neg: bool, d: string)
    requires |m| > 0 && NoSpace(m) && Excludes(m, 'e') && Excludes(m, 'E') && IsNumeric(d)
    ensures ParseFloat(FormatFloat(GText(m, neg, d))) == ParseFloat(GText(m, neg, d))
  {
    FormatFloatExponent(m, neg, d);
    ExponentValueKept(neg, d);
    var e, s1, s2, u := m + "e", (if neg then "-" else "+"), (if neg then "-" else ""), Unpadded(d);
    var x1, x2 := s1 + d, s2 + u;
    ConcatAssoc(e, s1, d);
    ConcatAssoc(e, s2, u);
    assert GText(m, neg, d) == m + "e" + x1;
    assert FormatFloat(GText(m, neg, d)) == m + "e" + x2;
    ParseFloatSameExponent(m, x1, x2);
  }

  /** Two exponent texts with the same value give the same float. */
  lemma ParseFloatSameExponent(m: string, x1: string, x2: string)
    requires |m| > 0 && NoSpace(m) && Excludes(m, 'e') && Excludes(m, 'E')
    requires forall t :: 0 <= t < |x1| ==> IsDigit(x1[t]) || IsSign(x1[t])
    requires forall t :: 0 <= t < |x2| ==> IsDigit(x2[t]) || IsSign(x2[t])
    requires ParseExponent(x1) == ParseExponent(x2)
    ensures ParseFloat(m + "e" + x1) == ParseFloat(m + "e" + x2)
  {
    var t1, t2 := m + "e" + x1, m + "e" + x2;
    assert Strip(t1) == t1 && Strip(t2) == t2 by {
      NoSpaceJoin(m, x1);
      NoSpaceJoin(m, x2);
      StripNoOp(t1);
      StripNoOp(t2);
    }
    var m' := SplitSign(m).1;
    assert SplitSign(t1) == (SplitSign(m).0, m' + "e" + x1) by { SplitSignMantissa(m, x1); }
    assert SplitSign(t2) == (SplitSign(m).0, m' + "e" + x2) by { SplitSignMantissa(m, x2); }
    assert ParseUnsigned(m' + "e" + x1) == ParseUnsigned(m' + "e" + x2) by {
      assert Excludes(m', 'e') && Excludes(m', 'E') by {
        if IsSign(m[0]) { assert forall t :: 0 <= t < |m'| ==> m'[t] == m[t + 1]; }
      }
      ParseUnsignedSameExponent(m', x1, x2);
    }
    ParseFloatCongruent(t1, t2);
  }

  /** `float()` only looks at the sign and at the value of the unsigned part. */
  lemma ParseFloatCongruent(t1: string, t2: string)
    requires Strip(t1) == t1 && Strip(t2) == t2
    requires SplitSign(t1).0 == SplitSign(t2).0
    requires ParseUnsigned(SplitSign(t1).1) == ParseUnsigned(SplitSign(t2).1)
    ensures ParseFloat(t1) == ParseFloat(t2)
  {
    ParseFloatStripped(t1);
    ParseFloatStripped(t2);
  }

  /** `float()` of a text without surrounding whitespace, by its sign. */
  lemma ParseFloatStripped(t: string)
    requires Strip(t) == t
    ensures ParseFloat(t) == Signed(SplitSign(t).0, ParseUnsigned(SplitSign(t).1))
  {
  }

  lemma NoSpaceJoin(m: string, x: string)
    requires NoSpace(m) && forall t :: 0 <= t < |x| ==> IsDigit(x[t]) || IsSign(x[t])
    ensures NoSpace(m + "e" + x)
    ensures |m + "e" + x| > 0 && !IsSpace((m + "e" + x)[0]) && !IsSpace((m + "e" + x)[|m + "e" + x| - 1])
  {
    var t := m + "e" + x;
    forall i | 0 <= i < |t| ensures !IsSpace(t[i]) {
      if i < |m| { assert t[i] == m[i]; }
      else if i > |m| { assert t[i] == x[i - |m| - 1]; }
    }
  }
}
