// The accumulation file XFOIL writes while it sweeps angles of attack, as
// `read_xfoil_pacc_file` (funcs.py) reads it, and the polar values shared
// with the package's own polar archive (polar_archive.dfy).

module PolarFiles {
  import opened Wrappers
  import opened Text
  import opened Numbers
  import opened Dicts
  import opened Sorting

  /** One element of `CL / CD` in numpy: a division by zero gives an
      infinity, or NaN for zero over zero. */
  datatype Quotient = Finite(v: real) | Infinite(negative: bool) | NotANumber

  /** A value of a polar dictionary. */
  datatype PolarValue =
    | Word(s: string)
    | Whole(i: int)
    | Real(x: real)
    | Reals(xs: seq<real>)
    | Ratios(qs: seq<Quotient>)

  type Polar = Dict<string, PolarValue>

  // ================================================================ XFOIL's accumulation file

  /** `[w for w in line.strip().split(' ') if w != '']` */
  function PaccTokens(line: string): seq<string>
  {
    NonEmpty(Split(Strip(line), " "))
  }

  /** The reader's dictionary while it walks the non-blank lines: its
      string-keyed entries in insertion order, the variable names of line 5
      once read, and the lists it keys by column number until the end. */
  datatype PaccState = PaccState(d: Polar, names: Option<seq<string>>, cols: seq<seq<real>>)

  /** There is one numbered list per variable name. */
  predicate Shaped(st: PaccState)
  {
    st.names.Some? ==> |st.cols| == |st.names.value|
  }

  /** Line 1: the foil name is what follows the first colon. */
  function NameLine(st: PaccState, line: string): Result<PaccState>
  {
    var parts := Split(line, ":");
    if |parts| < 2 then Fail(IndexError)
    else Ok(st.(d := Put(st.d, "name", Word(Strip(parts[1])))))
  }

  /** Line 4: Mach number, Reynolds number and Ncrit, read in that order; the
      Reynolds number may be spread over several words (`0.100 e 6`), and
      `int(float(..))` truncates it and Ncrit toward zero. */
  function ConditionsLine(st: PaccState, line: string): Result<PaccState>
  {
    var parts := Split(line, "Mach");
    if |parts| < 2 then Fail(IndexError)
    else
      var mr := Split(parts[1], "Re");
      if |mr| != 2 then Fail(ValueError)
      else
        match ParseFloat(Strip(Replace(mr[0], "=", "")))
        case None => Fail(ValueError)
        case Some(mach) =>
          var rn := Split(mr[1], "Ncrit");
          if |rn| != 2 then Fail(ValueError)
          else
            match ParseFloat(Replace(Replace(rn[0], "=", ""), " ", ""))
            case None => Fail(ValueError)
            case Some(re) =>
              match ParseFloat(Strip(Replace(rn[1], "=", "")))
              case None => Fail(ValueError)
              case Some(ncrit) =>
                var d := Put(Put(Put(st.d, "mach", Real(mach)), "re", Whole(Trunc(re))), "ncrit", Whole(Trunc(ncrit)));
                Ok(st.(d := d))
  }

  /** Line 5: the variable names, each given an empty numbered list. */
  function NamesLine(st: PaccState, line: string): (r: PaccState)
    ensures Shaped(r) && r.names == Some(PaccTokens(line)) && r.d == st.d
    ensures forall c :: 0 <= c < |r.cols| ==> r.cols[c] == []
  {
    var names := PaccTokens(line);
    st.(names := Some(names), cols := seq(|names|, _ => []))
  }

  /** `d[col].append(float(val))` for the values from column `c` on. A
      column past the last variable has no list (KeyError); a value that is
      not a number raises ValueError. */
  function AppendFrom(cols: seq<seq<real>>, vals: seq<string>, c: nat): (r: Result<seq<seq<real>>>)
    requires c <= |vals|
    ensures r.Ok? ==> |r.value| == |cols|
    decreases |vals| - c
  {
    if c == |vals| then Ok(cols)
    else if c >= |cols| then Fail(KeyError)
    else
      match ParseFloat(vals[c])
      case None => Fail(ValueError)
      case Some(x) => AppendFrom(cols[c := cols[c] + [x]], vals, c + 1)
  }

  /** One data row. The file's own test, `vals[0] not in d[0]`, asks whether
      a word is among a list of floats, which no word is, so as written
      (`dedupe` false) every row is appended. The intended test (`dedupe`
      true) converts the angle first and drops a row whose angle is already
      listed. */
  function PaccRow(cols: seq<seq<real>>, vals: seq<string>, dedupe: bool): (r: Result<seq<seq<real>>>)
    ensures r.Ok? ==> |r.value| == |cols|
  {
    if !dedupe then AppendFrom(cols, vals, 0)
    else if |vals| == 0 then Fail(IndexError)
    else
      match ParseFloat(vals[0])
      case None => Fail(ValueError)
      case Some(a) =>
        if |cols| == 0 then Fail(KeyError)
        else if a in cols[0] then Ok(cols)
        else AppendFrom(cols, vals, 0)
  }

  /** The non-blank line at position `i`: 1 names the foil, 4 holds the
      conditions, 5 the variable names, 7 and later the data rows; the others
      are ignored. */
  function PaccLine(st: PaccState, i: nat, line: string, dedupe: bool): (r: Result<PaccState>)
    requires Shaped(st)
    ensures r.Ok? ==> Shaped(r.value)
  {
    if i == 1 then NameLine(st, line)
    else if i == 4 then ConditionsLine(st, line)
    else if i == 5 then Ok(NamesLine(st, line))
    else if i >= 7 then
      match PaccRow(st.cols, PaccTokens(line), dedupe)
      case Fail(e) => Fail(e)
      case Ok(cols) => Ok(st.(cols := cols))
    else Ok(st)
  }

  /** The lines from `i` on, read in order. */
  function PaccFrom(st: PaccState, lines: seq<string>, i: nat, dedupe: bool): (r: Result<PaccState>)
    requires i <= |lines| && Shaped(st)
    ensures r.Ok? ==> Shaped(r.value)
    decreases |lines| - i
  {
    if i == |lines| then Ok(st)
    else
      match PaccLine(st, i, lines[i], dedupe)
      case Fail(e) => Fail(e)
      case Ok(st') => PaccFrom(st', lines, i + 1, dedupe)
  }

  /** `d[key] = d[i]; del d[i]` for each variable name in order. */
  function Rename(d: Polar, names: seq<string>, cols: seq<seq<real>>, i: nat): Polar
    requires i <= |names| == |cols|
    decreases |names| - i
  {
    if i == |names| then d else Rename(Put(d, names[i], Reals(cols[i])), names, cols, i + 1)
  }

  /** The length of the first list among the dictionary's values, if any. */
  function FirstList(d: Polar): Option<nat>
  {
    if |d| == 0 then None
    else if d[0].1.Reals? then Some(|d[0].1.xs|)
    else FirstList(d[1..])
  }

  /** `[(a, v) for a, v in zip(alpha, col)]` */
  function ZipPairs(alpha: seq<real>, col: seq<real>): (r: seq<(real, real)>)
    ensures |r| == if |alpha| < |col| then |alpha| else |col|
    ensures forall k :: 0 <= k < |r| ==> r[k] == (alpha[k], col[k])
  {
    seq(if |alpha| < |col| then |alpha| else |col|, k requires 0 <= k < |alpha| && 0 <= k < |col| => (alpha[k], col[k]))
  }

  function Firsts(ps: seq<(real, real)>): (r: seq<real>)
    ensures |r| == |ps| && forall k :: 0 <= k < |ps| ==> r[k] == ps[k].0
  {
    seq(|ps|, k requires 0 <= k < |ps| => ps[k].0)
  }

  function Seconds(ps: seq<(real, real)>): (r: seq<real>)
    ensures |r| == |ps| && forall k :: 0 <= k < |ps| ==> r[k] == ps[k].1
  {
    seq(|ps|, k requires 0 <= k < |ps| => ps[k].1)
  }

  /** `a, vals = list(zip(*sorted(zip(alpha, col))))`: the column reordered
      as the angles sort, ties broken by value. Nothing to unpack when the
      pairing is empty: ValueError. */
  function SortColumn(alpha: seq<real>, col: seq<real>): Result<seq<real>>
  {
    var ps := ZipPairs(alpha, col);
    if |ps| == 0 then Fail(ValueError) else Ok(Seconds(SortPairs(ps)))
  }

  /** The sorting loop over the variable names, from the `i`-th on; `alpha`
      is the copy of the angle list taken before it. */
  function SortFrom(d: Polar, names: seq<string>, alpha: seq<real>, i: nat): Result<Polar>
    requires i <= |names|
    decreases |names| - i
  {
    if i == |names| then Ok(d)
    else
      match Get(d, names[i])
      case None => Fail(KeyError)
      case Some(v) =>
        if !v.Reals? then Fail(TypeError)
        else
          match SortColumn(alpha, v.xs)
          case Fail(e) => Fail(e)
          case Ok(sorted) => SortFrom(Put(d, names[i], Reals(sorted)), names, alpha, i + 1)
  }

  /** numpy's `a / b` on floats. */
  function Divide(a: real, b: real): Quotient
  {
    if b != 0.0 then Finite(a / b) else if a == 0.0 then NotANumber else Infinite(a < 0.0)
  }

  /** numpy's element-wise `n / m`: equal lengths pair up, a one-element
      array is broadcast, other shapes raise ValueError. */
  function DivideColumns(n: seq<real>, m: seq<real>): Result<seq<Quotient>>
  {
    if |n| == |m| then Ok(seq(|n|, k requires 0 <= k < |n| => Divide(n[k], m[k])))
    else if |m| == 1 then Ok(seq(|n|, k requires 0 <= k < |n| => Divide(n[k], m[0])))
    else if |n| == 1 then Ok(seq(|m|, k requires 0 <= k < |m| => Divide(n[0], m[k])))
    else Fail(ValueError)
  }

  /** The list held under `key`. */
  function ListAt(d: Polar, key: string): Result<seq<real>>
  {
    match Get(d, key)
    case None => Fail(KeyError)
    case Some(v) => if v.Reals? then Ok(v.xs) else Fail(TypeError)
  }

  /** What follows the line loop: the renaming, the empty-file test, the
      sort by angle and the `CL/CD` column. */
  function Finish(st: PaccState): Result<Option<Polar>>
    requires Shaped(st)
  {
    match st.names
    case None => Fail(UnboundLocalError)
    case Some(names) =>
      var d := Rename(st.d, names, st.cols, 0);
      match FirstList(d)
      case None => Fail(IndexError)
      case Some(n) =>
        if n == 0 then Ok(None)
        else
          match ListAt(d, "alpha")
          case Fail(e) => Fail(e)
          case Ok(alpha) =>
            match SortFrom(d, names, alpha, 0)
            case Fail(e) => Fail(e)
            case Ok(d) =>
              match ListAt(d, "CL")
              case Fail(e) => Fail(e)
              case Ok(cl) =>
                match ListAt(d, "CD")
                case Fail(e) => Fail(e)
                case Ok(cd) =>
                  match DivideColumns(cl, cd)
                  case Fail(e) => Fail(e)
                  case Ok(q) => Ok(Some(Put(d, "CL/CD", Ratios(q))))
  }

  /** `read_xfoil_pacc_file` on the text of the file: None when the file
      holds no data row. `dedupe` selects the intended duplicate-angle test
      over the one as written. */
  function ReadPacc(text: string, dedupe: bool): Result<Option<Polar>>
  {
    match PaccFrom(PaccState([], None, []), NonBlank(Split(text, "\n")), 0, dedupe)
    case Fail(e) => Fail(e)
    case Ok(st) => Finish(st)
  }

  // ---------------------------------------------------------------- properties

  /** Every word of the row from column `c` on is a number with a list. */
  predicate Fits(cols: seq<seq<real>>, vals: seq<string>, c: nat)
  {
    (c < |vals| ==> |vals| <= |cols|) && forall j :: c <= j < |vals| ==> ParseFloat(vals[j]).Some?
  }

  lemma FitsStep(cols: seq<seq<real>>, next: seq<seq<real>>, vals: seq<string>, c: nat)
    requires c < |vals| && c < |cols| == |next| && ParseFloat(vals[c]).Some?
    ensures Fits(cols, vals, c) <==> Fits(next, vals, c + 1)
  {
  }

  /** A row is refused exactly when it is longer than the variable list or
      holds a word that is not a number. */
  lemma {:induction false} AppendFromOk(cols: seq<seq<real>>, vals: seq<string>, c: nat)
    requires c <= |vals|
    ensures AppendFrom(cols, vals, c).Ok? <==> Fits(cols, vals, c)
    decreases |vals| - c
  {
    if c < |vals| {
      var x := ParseFloat(vals[c]);
      if c < |cols| && x.Some? {
        var next := cols[c := cols[c] + [x.value]];
        assert AppendFrom(cols, vals, c) == AppendFrom(next, vals, c + 1);
        AppendFromOk(next, vals, c + 1);
        FitsStep(cols, next, vals, c);
      } else {
        assert AppendFrom(cols, vals, c).Fail?;
        assert !Fits(cols, vals, c);
      }
    }
  }

  /** The `j`-th list gains the row's `j`-th number, if the row has one. */
  function Grown(cols: seq<seq<real>>, vals: seq<string>, c: nat, j: nat): seq<real>
    requires j < |cols|
  {
    cols[j] + (if c <= j < |vals| && ParseFloat(vals[j]).Some? then [ParseFloat(vals[j]).value] else [])
  }

  /** A row adds its `j`-th number to the `j`-th list and leaves the other
      lists alone. */
  lemma {:induction false} AppendFromSpec(cols: seq<seq<real>>, vals: seq<string>, c: nat)
    requires c <= |vals|
    ensures var r := AppendFrom(cols, vals, c);
      r.Ok? ==> forall j :: 0 <= j < |cols| ==> r.value[j] == Grown(cols, vals, c, j)
    decreases |vals| - c
  {
    if c < |vals| && c < |cols| && ParseFloat(vals[c]).Some? {
      var next := cols[c := cols[c] + [ParseFloat(vals[c]).value]];
      AppendFromSpec(next, vals, c + 1);
      forall j | 0 <= j < |cols|
        ensures Grown(next, vals, c + 1, j) == Grown(cols, vals, c, j)
      {
      }
    }
  }

  /** As written, a row whose angle is already listed is appended again, so
      the angle list holds a repeat. */
  lemma AsWrittenKeepsRepeat(cols: seq<seq<real>>, vals: seq<string>)
    requires 0 < |vals| && Fits(cols, vals, 0)
    requires ParseFloat(vals[0]).value in cols[0]
    ensures PaccRow(cols, vals, false).Ok?
    ensures !Distinct(PaccRow(cols, vals, false).value[0])
  {
    AppendFromOk(cols, vals, 0);
    AppendFromSpec(cols, vals, 0);
    var a := ParseFloat(vals[0]).value;
    var r := PaccRow(cols, vals, false).value;
    assert r[0] == Grown(cols, vals, 0, 0) == cols[0] + [a];
    var i :| 0 <= i < |cols[0]| && cols[0][i] == a;
    assert r[0][i] == r[0][|cols[0]|];
  }

  /** With the intended test, a row whose angle is already listed changes
      nothing, and any other readable row is appended. */
  lemma DedupeRow(cols: seq<seq<real>>, vals: seq<string>)
    requires 0 < |vals| && Fits(cols, vals, 0)
    ensures ParseFloat(vals[0]).value in cols[0] ==> PaccRow(cols, vals, true) == Ok(cols)
    ensures ParseFloat(vals[0]).value !in cols[0] ==> PaccRow(cols, vals, true) == PaccRow(cols, vals, false)
  {
  }

  /** With the intended test, the angle list never holds a repeat. */
  lemma DedupeRowDistinct(cols: seq<seq<real>>, vals: seq<string>)
    requires |cols| > 0 && Distinct(cols[0])
    ensures var r := PaccRow(cols, vals, true); r.Ok? ==> Distinct(r.value[0])
  {
    var r := PaccRow(cols, vals, true);
    if r.Ok? && r.value != cols {
      AppendFromSpec(cols, vals, 0);
      var a := ParseFloat(vals[0]).value;
      assert r.value[0] == Grown(cols, vals, 0, 0);
      assert a !in cols[0];
    }
  }

  /** Angles are distinct in the first list, if there is one. */
  predicate AnglesDistinct(st: PaccState)
  {
    |st.cols| > 0 ==> Distinct(st.cols[0])
  }

  /** With the intended test, one line keeps the angles distinct: only line
      5 and the data rows touch the lists. */
  lemma DedupeLineDistinct(st: PaccState, i: nat, line: string)
    requires Shaped(st) && AnglesDistinct(st)
    ensures var r := PaccLine(st, i, line, true); r.Ok? ==> AnglesDistinct(r.value)
  {
    var r := PaccLine(st, i, line, true);
    if r.Ok? {
      if i == 1 || i == 4 {
        assert r.value.cols == st.cols;
      } else if i == 5 {
        var n := NamesLine(st, line);
        assert |n.cols| > 0 ==> n.cols[0] == [];
      } else if i >= 7 {
        if |st.cols| > 0 {
          DedupeRowDistinct(st.cols, PaccTokens(line));
        }
      }
    }
  }

  /** With the intended test, the whole line loop keeps the angles distinct. */
  lemma {:induction false} DedupeDistinct(st: PaccState, lines: seq<string>, i: nat)
    requires i <= |lines| && Shaped(st) && AnglesDistinct(st)
    ensures var r := PaccFrom(st, lines, i, true); r.Ok? ==> AnglesDistinct(r.value)
    decreases |lines| - i
  {
    if i < |lines| {
      var next := PaccLine(st, i, lines[i], true);
      if next.Ok? {
        DedupeLineDistinct(st, i, lines[i]);
        DedupeDistinct(next.value, lines, i + 1);
      }
    }
  }

  /** The first components of pairs in Python's order are the first
      components, sorted. */
  lemma {:induction false} FirstsOfSorted(ps: seq<(real, real)>)
    ensures Firsts(SortPairs(ps)) == Sort(Firsts(ps))
  {
    if |ps| > 0 {
      FirstsOfSorted(ps[1..]);
      SortPairsSpec(ps[1..]);
      FirstsOfInsert(ps[0], SortPairs(ps[1..]));
      assert Firsts(ps[1..]) == Firsts(ps)[1..];
    }
  }

  lemma {:induction false} FirstsOfInsert(p: (real, real), ps: seq<(real, real)>)
    requires PairsSorted(ps)
    ensures Firsts(InsertPair(p, ps)) == Insert(p.0, Firsts(ps))
  {
    if |ps| > 0 {
      assert Firsts(ps)[0] == ps[0].0 && Firsts(ps[1..]) == Firsts(ps)[1..];
      if !PairLe(p, ps[0]) {
        assert ps == [ps[0]] + ps[1..];
        PairsSortedCons(ps[0], ps[1..]);
        FirstsOfInsert(p, ps[1..]);
        if p.0 == ps[0].0 && |ps| > 1 {
          assert PairLe(ps[0], ps[1]);
        }
      }
    }
  }

  /** Row `k` of a sorted column came from the row `j` whose angle is the
      `k`-th smallest. */
  lemma SortColumnRows(alpha: seq<real>, col: seq<real>)
    requires 0 < |alpha| == |col|
    ensures SortColumn(alpha, col).Ok? && |SortColumn(alpha, col).value| == |alpha|
    ensures forall k :: 0 <= k < |alpha| ==>
      exists j :: 0 <= j < |alpha| && alpha[j] == Sort(alpha)[k] && SortColumn(alpha, col).value[k] == col[j]
  {
    var ps := ZipPairs(alpha, col);
    var sorted := SortPairs(ps);
    SortPairsSpec(ps);
    FirstsOfSorted(ps);
    assert Firsts(ps) == alpha;
    assert |sorted| == |multiset(sorted)| == |multiset(ps)| == |ps|;
    forall k | 0 <= k < |alpha|
      ensures exists j :: 0 <= j < |alpha| && alpha[j] == Sort(alpha)[k] && Seconds(sorted)[k] == col[j]
    {
      assert sorted[k] in multiset(ps);
      var j :| 0 <= j < |ps| && ps[j] == sorted[k];
      assert Firsts(sorted)[k] == sorted[k].0;
    }
  }

  /** With distinct angles the sorted columns stay aligned: row `k` of the
      result is one row of the file, in every column at once. */
  lemma RowsStayAligned(alpha: seq<real>, c1: seq<real>, c2: seq<real>)
    requires 0 < |alpha| && |c1| == |alpha| && |c2| == |alpha| && Distinct(alpha)
    ensures SortColumn(alpha, c1).Ok? && |SortColumn(alpha, c1).value| == |alpha|
    ensures SortColumn(alpha, c2).Ok? && |SortColumn(alpha, c2).value| == |alpha|
    ensures forall k :: 0 <= k < |alpha| ==>
      exists j :: 0 <= j < |alpha| && SortColumn(alpha, c1).value[k] == c1[j] && SortColumn(alpha, c2).value[k] == c2[j]
  {
    SortColumnRows(alpha, c1);
    SortColumnRows(alpha, c2);
    forall k | 0 <= k < |alpha|
      ensures exists j :: 0 <= j < |alpha| && SortColumn(alpha, c1).value[k] == c1[j] && SortColumn(alpha, c2).value[k] == c2[j]
    {
      var j1 :| 0 <= j1 < |alpha| && alpha[j1] == Sort(alpha)[k] && SortColumn(alpha, c1).value[k] == c1[j1];
      var j2 :| 0 <= j2 < |alpha| && alpha[j2] == Sort(alpha)[k] && SortColumn(alpha, c2).value[k] == c2[j2];
      assert j1 == j2;
    }
  }

  /** With a repeated angle (what the reader as written lets through) the
      columns come apart: the first sorted row pairs CL 0.4 with CD 0.01,
      which no row of the file does. */
  lemma RepeatMisaligns()
    ensures SortColumn([1.0, 1.0], [0.5, 0.4]) == Ok([0.4, 0.5])
    ensures SortColumn([1.0, 1.0], [0.01, 0.02]) == Ok([0.01, 0.02])
    ensures !exists j :: 0 <= j < 2 && [0.5, 0.4][j] == 0.4 && [0.01, 0.02][j] == 0.01
  {
    var p, q := [(1.0, 0.5), (1.0, 0.4)], [(1.0, 0.01), (1.0, 0.02)];
    assert ZipPairs([1.0, 1.0], [0.5, 0.4]) == p;
    assert ZipPairs([1.0, 1.0], [0.01, 0.02]) == q;
    assert SortPairs(p[1..]) == [(1.0, 0.4)];
    assert SortPairs(p) == InsertPair(p[0], [(1.0, 0.4)]) == [(1.0, 0.4), (1.0, 0.5)];
    assert Seconds([(1.0, 0.4), (1.0, 0.5)]) == [0.4, 0.5];
    assert SortPairs(q[1..]) == [(1.0, 0.02)];
    assert SortPairs(q) == InsertPair(q[0], [(1.0, 0.02)]) == [(1.0, 0.01), (1.0, 0.02)];
    assert Seconds([(1.0, 0.01), (1.0, 0.02)]) == [0.01, 0.02];
  }

  /** A quotient by a non-zero value is the number that, multiplied back,
      gives the numerator; a zero denominator never gives a number. */
  lemma DivideSpec(a: real, b: real)
    ensures b != 0.0 ==> Divide(a, b).Finite? && Divide(a, b).v * b == a
    ensures b == 0.0 ==> !Divide(a, b).Finite? && (Divide(a, b).NotANumber? <==> a == 0.0)
  {
  }

  /** Every list of the dictionary is empty. */
  predicate ListsEmpty(d: Polar)
  {
    forall x :: x in d && x.1.Reals? ==> x.1.xs == []
  }

  predicate HasList(d: Polar)
  {
    exists x :: x in d && x.1.Reals?
  }

  lemma {:induction false} FirstListEmpty(d: Polar)
    requires ListsEmpty(d) && HasList(d)
    ensures FirstList(d) == Some(0)
  {
    if !d[0].1.Reals? {
      var x :| x in d && x.1.Reals?;
      assert x in d[1..] by {
        var k :| 0 <= k < |d| && d[k] == x;
        assert d[1..][k - 1] == x;
      }
      FirstListEmpty(d[1..]);
    }
  }

  lemma {:induction false} RenameEmpty(d: Polar, names: seq<string>, cols: seq<seq<real>>, i: nat)
    requires i <= |names| == |cols| && ListsEmpty(d)
    requires forall c :: 0 <= c < |cols| ==> cols[c] == []
    ensures ListsEmpty(Rename(d, names, cols, i))
    ensures (i < |names| || HasList(d)) ==> HasList(Rename(d, names, cols, i))
    decreases |names| - i
  {
    if i < |names| {
      var d' := Put(d, names[i], Reals(cols[i]));
      PutItems(d, names[i], Reals(cols[i]));
      RenameEmpty(d', names, cols, i + 1);
    }
  }

  /** A file whose lines read without error but hold no data row gives
      None. */
  lemma NoRowsNone(st: PaccState)
    requires Shaped(st) && st.names.Some? && |st.names.value| > 0
    requires ListsEmpty(st.d) && forall c :: 0 <= c < |st.cols| ==> st.cols[c] == []
    ensures Finish(st) == Ok(None)
  {
    RenameEmpty(st.d, st.names.value, st.cols, 0);
    FirstListEmpty(Rename(st.d, st.names.value, st.cols, 0));
  }

  // ---------------------------------------------------------------- the loops

  /** The column loop of one data row. */
  method AppendRow(cols: seq<seq<real>>, vals: seq<string>) returns (r: Result<seq<seq<real>>>)
    ensures r == AppendFrom(cols, vals, 0)
  {
    var cur := cols;
    for c := 0 to |vals|
      invariant AppendFrom(cols, vals, 0) == AppendFrom(cur, vals, c)
    {
      if c >= |cur| {
        return Fail(KeyError);
      }
      var x := ParseFloat(vals[c]);
      if x.None? {
        return Fail(ValueError);
      }
      cur := cur[c := cur[c] + [x.value]];
    }
    return Ok(cur);
  }

  /** One data row, with the duplicate test when `dedupe` is set. */
  method ReadPaccRow(cols: seq<seq<real>>, vals: seq<string>, dedupe: bool) returns (r: Result<seq<seq<real>>>)
    ensures r == PaccRow(cols, vals, dedupe)
  {
    if dedupe {
      if |vals| == 0 {
        return Fail(IndexError);
      }
      var a := ParseFloat(vals[0]);
      if a.None? {
        return Fail(ValueError);
      }
      if |cols| == 0 {
        return Fail(KeyError);
      }
      if a.value in cols[0] {
        return Ok(cols);
      }
    }
    r := AppendRow(cols, vals);
  }

  /** The body of the line loop: the non-blank line at position `i`. */
  method ReadPaccLine(st: PaccState, i: nat, line: string, dedupe: bool) returns (r: Result<PaccState>)
    requires Shaped(st)
    ensures r == PaccLine(st, i, line, dedupe)
  {
    if i == 1 {
      r := NameLine(st, line);
    } else if i == 4 {
      r := ConditionsLine(st, line);
    } else if i == 5 {
      r := Ok(NamesLine(st, line));
    } else if i >= 7 {
      var grown := ReadPaccRow(st.cols, PaccTokens(line), dedupe);
      if grown.Fail? {
        return Fail(grown.exc);
      }
      r := Ok(st.(cols := grown.value));
    } else {
      r := Ok(st);
    }
  }

  /** The line loop. */
  method ReadPaccLines(lines: seq<string>, dedupe: bool) returns (r: Result<PaccState>)
    ensures r == PaccFrom(PaccState([], None, []), lines, 0, dedupe)
  {
    var st := PaccState([], None, []);
    for i := 0 to |lines|
      invariant Shaped(st)
      invariant PaccFrom(PaccState([], None, []), lines, 0, dedupe) == PaccFrom(st, lines, i, dedupe)
    {
      var next := ReadPaccLine(st, i, lines[i], dedupe);
      if next.Fail? {
        return Fail(next.exc);
      }
      st := next.value;
    }
    return Ok(st);
  }

  /** The sorting loop. */
  method SortColumns(d: Polar, names: seq<string>, alpha: seq<real>) returns (r: Result<Polar>)
    ensures r == SortFrom(d, names, alpha, 0)
  {
    var cur := d;
    for i := 0 to |names|
      invariant SortFrom(d, names, alpha, 0) == SortFrom(cur, names, alpha, i)
    {
      var v := Get(cur, names[i]);
      if v.None? {
        return Fail(KeyError);
      }
      if !v.value.Reals? {
        return Fail(TypeError);
      }
      var sorted := SortColumn(alpha, v.value.xs);
      if sorted.Fail? {
        return Fail(sorted.exc);
      }
      cur := Put(cur, names[i], Reals(sorted.value));
    }
    return Ok(cur);
  }

  /** `read_xfoil_pacc_file` on the text of the file. */
  method ReadXfoilPaccFile(text: string, dedupe: bool) returns (r: Result<Option<Polar>>)
    ensures r == ReadPacc(text, dedupe)
  {
    var st := ReadPaccLines(NonBlank(Split(text, "\n")), dedupe);
    if st.Fail? {
      return Fail(st.exc);
    }
    var s := st.value;
    if s.names.None? {
      return Fail(UnboundLocalError);
    }
    var names := s.names.value;
    var d := Rename(s.d, names, s.cols, 0);
    var first := FirstList(d);
    if first.None? {
      return Fail(IndexError);
    }
    if first.value == 0 {
      return Ok(None);
    }
    var alpha := ListAt(d, "alpha");
    if alpha.Fail? {
      return Fail(alpha.exc);
    }
    var sorted := SortColumns(d, names, alpha.value);
    if sorted.Fail? {
      return Fail(sorted.exc);
    }
    var cl := ListAt(sorted.value, "CL");
    if cl.Fail? {
      return Fail(cl.exc);
    }
    var cd := ListAt(sorted.value, "CD");
    if cd.Fail? {
      return Fail(cd.exc);
    }
    var q := DivideColumns(cl.value, cd.value);
    if q.Fail? {
      return Fail(q.exc);
    }
    return Ok(Some(Put(sorted.value, "CL/CD", Ratios(q.value))));
  }
}
