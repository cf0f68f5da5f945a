/** Python `str` operations used by the package's text readers and writers,
    on `string` = `seq<char>`. */
module Text {
  import opened Wrappers

  predicate IsDigit(c: char) { '0' <= c <= '9' }

  predicate AllDigits(s: string) { forall i :: 0 <= i < |s| ==> IsDigit(s[i]) }

  /** `str.isnumeric()` restricted to ASCII digits: non-empty and all digits. */
  predicate IsNumeric(s: string) { |s| > 0 && AllDigits(s) }

  /** `str.isspace()` for one character (the Unicode whitespace set). */
  predicate IsSpace(c: char)
  {
    var n := c as int;
    (9 <= n <= 13) || (28 <= n <= 32) || n == 0x85 || n == 0xA0 || n == 0x1680
    || (0x2000 <= n <= 0x200A) || n == 0x2028 || n == 0x2029 || n == 0x202F
    || n == 0x205F || n == 0x3000
  }

  predicate NoSpace(s: string) { forall i :: 0 <= i < |s| ==> !IsSpace(s[i]) }

  predicate Excludes(s: string, c: char) { forall i :: 0 <= i < |s| ==> s[i] != c }

  // ---------------------------------------------------------------- strip

  /** The number of leading characters for which `drop` holds. */
  function LeadCount(s: string, drop: char -> bool): (n: nat)
    ensures n <= |s| && (n == |s| || !drop(s[n]))
    ensures forall i :: 0 <= i < n ==> drop(s[i])
  {
    if |s| > 0 && drop(s[0]) then 1 + LeadCount(s[1..], drop) else 0
  }

  /** The leading run of `drop` characters is determined by its end. */
  lemma LeadCountExact(s: string, drop: char -> bool, n: nat)
    requires n <= |s| && (n == |s| || !drop(s[n]))
    requires forall i :: 0 <= i < n ==> drop(s[i])
    ensures LeadCount(s, drop) == n
    decreases n
  {
    if n > 0 {
      assert forall i :: 0 <= i < n - 1 ==> s[1..][i] == s[i + 1];
      LeadCountExact(s[1..], drop, n - 1);
    }
  }

  /** The number of trailing characters for which `drop` holds. */
  function TrailCount(s: string, drop: char -> bool): (n: nat)
    ensures n <= |s| && (n == |s| || !drop(s[|s| - n - 1]))
    ensures forall i :: |s| - n <= i < |s| ==> drop(s[i])
  {
    if |s| > 0 && drop(s[|s| - 1]) then 1 + TrailCount(s[..|s| - 1], drop) else 0
  }

  /** The trailing run of `drop` characters is determined by its start. */
  lemma TrailCountExact(s: string, drop: char -> bool, n: nat)
    requires n <= |s| && (n == |s| || !drop(s[|s| - n - 1]))
    requires forall i :: |s| - n <= i < |s| ==> drop(s[i])
    ensures TrailCount(s, drop) == n
    decreases n
  {
    if n > 0 {
      var t := s[..|s| - 1];
      assert forall i :: |t| - (n - 1) <= i < |t| ==> t[i] == s[i];
      TrailCountExact(t, drop, n - 1);
    }
  }

  /** Drops the leading characters for which `drop` holds. */
  function TrimLeft(s: string, drop: char -> bool): string
  {
    s[LeadCount(s, drop)..]
  }

  /** Drops the trailing characters for which `drop` holds. */
  function TrimRight(s: string, drop: char -> bool): string
  {
    s[..|s| - TrailCount(s, drop)]
  }

  /** `s.strip()` */
  function Strip(s: string): string
  {
    TrimRight(TrimLeft(s, IsSpace), IsSpace)
  }

  /** `s.strip(chars)`: removes a SET of characters from both ends, not a prefix. */
  function StripChars(s: string, chars: set<char>): string
  {
    TrimRight(TrimLeft(s, InSet(chars)), InSet(chars))
  }

  /** Membership in `chars`, as a test on characters. */
  function InSet(chars: set<char>): char -> bool
  {
    c => c in chars
  }

  lemma StripNoOp(s: string)
    requires |s| > 0 ==> !IsSpace(s[0]) && !IsSpace(s[|s| - 1])
    ensures Strip(s) == s
  {
  }

  // ---------------------------------------------------------------- find

  predicate OccursAt(s: string, sub: string, i: nat)
  {
    i + |sub| <= |s| && s[i..i + |sub|] == sub
  }

  function FindFrom(s: string, sub: string, i: nat): (r: Option<nat>)
    requires i <= |s|
    ensures r.Some? ==> i <= r.value && OccursAt(s, sub, r.value)
    ensures r.Some? ==> forall j :: i <= j < r.value ==> !OccursAt(s, sub, j)
    ensures r.None? ==> forall j :: i <= j <= |s| ==> !OccursAt(s, sub, j)
    decreases |s| - i
  {
    if OccursAt(s, sub, i) then Some(i)
    else if i == |s| then None
    else FindFrom(s, sub, i + 1)
  }

  /** `s.find(sub)`: the leftmost occurrence, or None for -1. */
  function Find(s: string, sub: string): (r: Option<nat>)
    ensures r.Some? ==> OccursAt(s, sub, r.value)
    ensures r.Some? ==> forall j :: 0 <= j < r.value ==> !OccursAt(s, sub, j)
    ensures r.None? ==> forall j :: 0 <= j <= |s| ==> !OccursAt(s, sub, j)
  {
    FindFrom(s, sub, 0)
  }

  /** `sub in s` */
  predicate Contains(s: string, sub: string) { Find(s, sub).Some? }

  predicate StartsWith(s: string, pre: string) { |pre| <= |s| && s[..|pre|] == pre }

  predicate EndsWith(s: string, suf: string) { |suf| <= |s| && s[|s| - |suf|..] == suf }

  lemma NoOccurrence(s: string, sub: string)
    requires |sub| > 0 && Excludes(s, sub[0])
    ensures Find(s, sub).None?
  {
    forall j | 0 <= j <= |s|
      ensures !OccursAt(s, sub, j)
    {
      if j + |sub| <= |s| {
        assert s[j..j + |sub|][0] == s[j];
      }
    }
  }

  lemma ContainsChar(s: string, c: char)
    ensures Contains(s, [c]) <==> !Excludes(s, c)
  {
    if !Excludes(s, c) {
      var i :| 0 <= i < |s| && s[i] == c;
      assert OccursAt(s, [c], i);
    }
    if Contains(s, [c]) {
      var i := Find(s, [c]).value;
      assert s[i] == s[i..i + 1][0];
    }
  }

  // ---------------------------------------------------------------- split / join

  /** `s.split(sep)` for a non-empty separator. */
  function Split(s: string, sep: string): (r: seq<string>)
    requires |sep| > 0
    ensures |r| >= 1
    decreases |s|
  {
    match Find(s, sep)
    case None => [s]
    case Some(i) => [s[..i]] + Split(s[i + |sep|..], sep)
  }

  /** `sep.join(parts)` */
  function Join(parts: seq<string>, sep: string): string
  {
    if |parts| == 0 then ""
    else if |parts| == 1 then parts[0]
    else parts[0] + sep + Join(parts[1..], sep)
  }

  /** `s.split(sep, 1)` */
  function SplitOnce(s: string, sep: string): (r: seq<string>)
    requires |sep| > 0
    ensures 1 <= |r| <= 2
    ensures |r| == 1 <==> !Contains(s, sep)
    ensures |r| == 1 ==> r[0] == s
    ensures |r| == 2 ==> s == r[0] + sep + r[1] && !Contains(r[0], sep)
  {
    match Find(s, sep)
    case None => [s]
    case Some(i) =>
      assert s == s[..i] + sep + s[i + |sep|..];
      assert !Contains(s[..i], sep) by {
        forall j | 0 <= j <= i
          ensures !OccursAt(s[..i], sep, j)
        {
          if j + |sep| <= i {
            assert s[..i][j..j + |sep|] == s[j..j + |sep|];
            assert !OccursAt(s, sep, j);
          }
        }
      }
      [s[..i], s[i + |sep|..]]
  }

  /** `s.replace(pat, rep)`, which Python defines as `rep.join(s.split(pat))`. */
  function Replace(s: string, pat: string, rep: string): string
    requires |pat| > 0
  {
    Join(Split(s, pat), rep)
  }

  lemma {:induction false} JoinSplit(s: string, sep: string)
    requires |sep| > 0
    ensures Join(Split(s, sep), sep) == s
    decreases |s|
  {
    match Find(s, sep)
    case None =>
    case Some(i) =>
      var rest := Split(s[i + |sep|..], sep);
      JoinSplit(s[i + |sep|..], sep);
      assert Split(s, sep) == [s[..i]] + rest;
      assert ([s[..i]] + rest)[1..] == rest;
      assert s == s[..i] + sep + s[i + |sep|..];
  }

  /** Splitting a joined list gives the list back when no part contains the
      separator's first character. */
  lemma {:induction false} SplitJoin(parts: seq<string>, sep: string)
    requires |parts| >= 1 && |sep| > 0
    requires forall k :: 0 <= k < |parts| ==> Excludes(parts[k], sep[0])
    ensures Split(Join(parts, sep), sep) == parts
    decreases |parts|
  {
    if |parts| == 1 {
      NoOccurrence(parts[0], sep);
    } else {
      var p, rest := parts[0], Join(parts[1..], sep);
      assert Join(parts, sep) == p + sep + rest;
      FirstOccurrenceAfter(p, sep, rest);
      assert (p + sep + rest)[|p| + |sep|..] == rest;
      assert (p + sep + rest)[..|p|] == p;
      assert Split(p + sep + rest, sep) == [p] + Split(rest, sep);
      SplitJoin(parts[1..], sep);
      assert parts == [p] + parts[1..];
    }
  }

  /** In `p + sep + rest` the first separator is the one after `p` when `p`
      does not contain the separator's first character. */
  lemma FirstOccurrenceAfter(p: string, sep: string, rest: string)
    requires |sep| > 0 && Excludes(p, sep[0])
    ensures Find(p + sep + rest, sep) == Some(|p|)
  {
    var s := p + sep + rest;
    assert s[|p|..|p| + |sep|] == sep;
    assert OccursAt(s, sep, |p|);
    forall j | 0 <= j < |p|
      ensures !OccursAt(s, sep, j)
    {
      if j + |sep| <= |s| {
        assert s[j..j + |sep|][0] == s[j] == p[j];
      }
    }
  }

  /** `(a + sep + b).split(sep, 1)` is `[a, b]` when `a` does not contain the
      separator's first character. */
  lemma SplitOnceAt(a: string, sep: string, b: string)
    requires |sep| > 0 && Excludes(a, sep[0])
    ensures SplitOnce(a + sep + b, sep) == [a, b]
  {
    var s := a + sep + b;
    FirstOccurrenceAfter(a, sep, b);
    assert s[..|a|] == a;
    assert s[|a| + |sep|..] == b;
  }

  /** Removing a prefix that occurs nowhere else leaves the rest. */
  lemma ReplacePrefix(pre: string, x: string)
    requires |pre| > 0 && Excludes(x, pre[0])
    ensures Replace(pre + x, pre, "") == x
  {
    NoOccurrence(x, pre);
    ReplaceLeading(pre, x);
  }

  /** A text shorter than a pattern does not contain it. */
  lemma ShortAbsent(s: string, sub: string)
    requires |s| < |sub|
    ensures Find(s, sub).None?
  {
  }

  /** Removing a prefix that does not occur in the rest leaves the rest. */
  lemma ReplaceLeading(pre: string, x: string)
    requires |pre| > 0 && Find(x, pre).None?
    ensures Replace(pre + x, pre, "") == x
  {
    FirstOccurrenceAfter("", pre, x);
    assert "" + pre + x == pre + x;
    assert (pre + x)[|pre|..] == x;
    assert Split(pre + x, pre) == ["", x];
    assert ["", x][1..] == [x];
    assert Join(["", x], "") == "" + "" + x;
  }

  lemma ReplaceAbsent(s: string, pat: string, rep: string)
    requires |pat| > 0 && Excludes(s, pat[0])
    ensures Replace(s, pat, rep) == s
  {
    NoOccurrence(s, pat);
  }

  // ---------------------------------------------------------------- tokens

  /** `[ln for ln in lines if ln.strip() != '']` */
  function NonBlank(lines: seq<string>): (r: seq<string>)
    ensures |r| <= |lines|
    ensures forall k :: 0 <= k < |r| ==> Strip(r[k]) != ""
  {
    if |lines| == 0 then []
    else if Strip(lines[0]) == "" then NonBlank(lines[1..])
    else [lines[0]] + NonBlank(lines[1..])
  }

  /** `[x for x in parts if x != '']` */
  function NonEmpty(parts: seq<string>): (r: seq<string>)
    ensures forall k :: 0 <= k < |r| ==> r[k] != ""
    ensures |r| <= |parts|
  {
    if |parts| == 0 then []
    else if parts[0] == "" then NonEmpty(parts[1..])
    else [parts[0]] + NonEmpty(parts[1..])
  }

  /** The first maximal run of non-space characters of `s` (which starts with one). */
  function WordLen(s: string): (n: nat)
    ensures n <= |s| && NoSpace(s[..n]) && (n == |s| || IsSpace(s[n]))
  {
    if |s| == 0 || IsSpace(s[0]) then 0 else 1 + WordLen(s[1..])
  }

  /** `s.split()`: the runs of non-whitespace characters. */
  function Words(s: string): (r: seq<string>)
    ensures forall k :: 0 <= k < |r| ==> r[k] != "" && NoSpace(r[k])
    decreases |s|
  {
    var t := TrimLeft(s, IsSpace);
    if |t| == 0 then []
    else
      var n := WordLen(t);
      [t[..n]] + Words(t[n..])
  }

  /** `s.lower()` on ASCII letters. */
  function Lower(s: string): (r: string)
    ensures |r| == |s|
  {
    if |s| == 0 then ""
    else
      var c := s[0];
      [if 'A' <= c <= 'Z' then (c as int + 32) as char else c] + Lower(s[1..])
  }

  /** The list of characters of a string that differ from `c`, which is what
      `s.replace(c, '')` gives. */
  function Without(s: string, c: char): (r: string)
    ensures Excludes(r, c)
  {
    if |s| == 0 then "" else (if s[0] == c then "" else [s[0]]) + Without(s[1..], c)
  }

  lemma WithoutAbsent(s: string, c: char)
    requires Excludes(s, c)
    ensures Without(s, c) == s
  {
  }

  /** Regrouping a concatenation; stated over variables so that callers can
      regroup long texts without unfolding them. */
  lemma ConcatAssoc<T>(a: seq<T>, b: seq<T>, c: seq<T>)
    ensures a + (b + c) == (a + b) + c
  {
  }

  /** A text that starts with `a` and ends with `c` keeps both ends. */
  lemma Framed(a: string, b: string, c: string, pre: string, suf: string)
    requires StartsWith(a, pre) && EndsWith(c, suf)
    ensures StartsWith(a + b + c, pre) && EndsWith(a + b + c, suf)
  {
    var s := a + b + c;
    assert s[..|pre|] == a[..|pre|];
    assert s[|s| - |suf|..] == c[|c| - |suf|..];
  }

  /** A character absent from both halves is absent from their
      concatenation. */
  lemma ExcludesConcat(x: string, y: string, c: char)
    requires Excludes(x, c) && Excludes(y, c)
    ensures Excludes(x + y, c)
  {
  }

  // ---------------------------------------------------------------- repr of a str

  /** The Latin-1 characters `repr` writes as `\xNN`: the control
      characters other than tab, newline and carriage return, the no-break
      space and the soft hyphen. */
  predicate HexEscaped(c: char)
  {
    var n := c as int;
    (n < 32 && c != '\t' && c != '\n' && c != '\r') || (0x7F <= n <= 0xA0) || n == 0xAD
  }

  function HexDigit(n: nat): char
    requires n < 16
  {
    "0123456789abcdef"[n]
  }

  /** One character inside a `repr` delimited by `quote`. */
  function CharRepr(c: char, quote: char): (r: string)
    ensures |r| >= 1 && (|r| == 1 <==> r == [c])
  {
    if c == '\\' || c == quote then ['\\', c]
    else if c == '\t' then "\\t"
    else if c == '\n' then "\\n"
    else if c == '\r' then "\\r"
    else if HexEscaped(c) then ['\\', 'x', HexDigit(c as int / 16), HexDigit(c as int % 16)]
    else [c]
  }

  function Escaped(s: string, quote: char): (r: string)
    ensures |r| >= |s|
  {
    if |s| == 0 then "" else CharRepr(s[0], quote) + Escaped(s[1..], quote)
  }

  /** `repr(s)` of a str: in single quotes, or in double quotes when `s`
      holds a single quote and no double quote; backslashes, the chosen
      quote and control characters are escaped. */
  function StrRepr(s: string): (r: string)
    ensures |r| >= |s| + 2
  {
    var quote := if '\'' in s && '"' !in s then '"' else '\'';
    [quote] + Escaped(s, quote) + [quote]
  }

  /** A character `repr` writes as itself inside single quotes. */
  predicate ReprSafe(c: char)
  {
    c != '\'' && c != '\\' && c != '\t' && c != '\n' && c != '\r' && !HexEscaped(c)
  }

  predicate Printable(s: string) { forall i :: 0 <= i < |s| ==> ReprSafe(s[i]) }

  /** The escaped text is the text itself exactly when no character needs
      an escape. */
  lemma {:induction false} EscapedSame(s: string, quote: char)
    ensures Escaped(s, quote) == s <==> forall i :: 0 <= i < |s| ==> CharRepr(s[i], quote) == [s[i]]
    decreases |s|
  {
    if |s| > 0 {
      EscapedSame(s[1..], quote);
      var head := CharRepr(s[0], quote);
      if head == [s[0]] {
        assert s == [s[0]] + s[1..];
        forall i | 0 < i < |s|
          ensures s[i] == s[1..][i - 1]
        {
        }
      } else {
        assert |Escaped(s, quote)| > |s|;
      }
    }
  }

  /** Two texts inside the same delimiters are equal only if the texts are. */
  lemma EnclosedSame(x: string, y: string, c: char)
    ensures [c] + x + [c] == [c] + y + [c] ==> x == y
  {
    if [c] + x + [c] == [c] + y + [c] {
      assert x == ([c] + x + [c])[1..|x| + 1];
    }
  }

  /** `repr` only adds the quotes exactly when every character is safe. */
  lemma ReprQuotesOnly(s: string)
    ensures StrRepr(s) == "'" + s + "'" <==> Printable(s)
  {
    var quote := if '\'' in s && '"' !in s then '"' else '\'';
    EscapedSame(s, quote);
    if Printable(s) {
      assert forall i :: 0 <= i < |s| ==> s[i] != '\'';
      assert forall i :: 0 <= i < |s| ==> CharRepr(s[i], quote) == [s[i]];
    } else {
      var i :| 0 <= i < |s| && !ReprSafe(s[i]);
      if quote == '\'' {
        assert CharRepr(s[i], quote) != [s[i]];
        EnclosedSame(Escaped(s, quote), s, quote);
      }
      assert StrRepr(s)[0] == quote;
    }
  }

  /** `repr` doubles a backslash: the two characters `a\b` are written as
      the six characters `'a\\b'`. */
  lemma ReprDoublesBackslash()
    ensures StrRepr("a\\b") == "'a\\\\b'"
  {
    var s := "a\\b";
    assert '\'' !in s;
    assert Escaped(s[2..], '\'') == "b";
    assert Escaped(s[1..], '\'') == "\\\\b";
    assert Escaped(s, '\'') == "a\\\\b";
  }

  // ---------------------------------------------------------------- files of lines

  /** Each line followed by a newline. */
  function FileText(lines: seq<string>): string
  {
    if |lines| == 0 then "" else FileText(lines[..|lines| - 1]) + lines[|lines| - 1] + "\n"
  }

  /** The text of two runs of lines is the two texts one after the other. */
  lemma {:induction false} FileTextConcat(a: seq<string>, b: seq<string>)
    ensures FileText(a + b) == FileText(a) + FileText(b)
    decreases |b|
  {
    if |b| > 0 {
      var b0 := b[..|b| - 1];
      assert (a + b)[..|a + b| - 1] == a + b0;
      FileTextConcat(a, b0);
    } else {
      assert a + b == a;
    }
  }

  /** One more line adds itself and a newline to the text. */
  lemma FileTextAppend(lines: seq<string>, line: string)
    ensures FileText(lines + [line]) == FileText(lines) + line + "\n"
  {
    assert (lines + [line])[..|lines|] == lines;
  }

  /** Joining one more part adds the separator and the part. */
  lemma {:induction false} JoinSnoc(parts: seq<string>, x: string, sep: string)
    requires |parts| > 0
    ensures Join(parts + [x], sep) == Join(parts, sep) + sep + x
    decreases |parts|
  {
    if |parts| > 1 {
      assert (parts + [x])[1..] == parts[1..] + [x];
      JoinSnoc(parts[1..], x, sep);
    }
  }

  /** The text of some lines is the lines joined by newlines, plus one. */
  lemma {:induction false} FileTextJoin(lines: seq<string>)
    ensures FileText(lines) == Join(lines + [""], "\n")
    decreases |lines|
  {
    if |lines| > 0 {
      var front := lines[..|lines| - 1];
      var last := lines[|lines| - 1];
      FileTextJoin(front);
      assert lines == front + [last];
      if |front| == 0 {
        assert lines + [""] == [last, ""];
      } else {
        JoinSnoc(front, last, "\n");
        JoinSnoc(front + [last], "", "\n");
        JoinSnoc(front, "", "\n");
      }
    }
  }

  /** Splitting a written file at newlines gives its lines back, followed by
      the empty text after the last newline. */
  lemma SplitFileText(lines: seq<string>)
    requires forall k :: 0 <= k < |lines| ==> Excludes(lines[k], '\n')
    ensures Split(FileText(lines), "\n") == lines + [""]
  {
    FileTextJoin(lines);
    EmptyLastExcludes(lines, '\n');
    assert "\n"[0] == '\n';
    SplitJoin(lines + [""], "\n");
  }

  lemma EmptyLastExcludes(lines: seq<string>, c: char)
    requires forall k :: 0 <= k < |lines| ==> Excludes(lines[k], c)
    ensures forall k :: 0 <= k < |lines + [""]| ==> Excludes((lines + [""])[k], c)
  {
  }

  /** `(a + sep + b).split(sep)` is `[a, b]` when neither half holds the
      separator's first character. */
  lemma SplitPair(a: string, sep: string, b: string)
    requires |sep| > 0 && Excludes(a, sep[0]) && Excludes(b, sep[0])
    ensures Split(a + sep + b, sep) == [a, b]
  {
    SplitJoin([a, b], sep);
    assert Join([b], sep) == b;
  }
}
