/** The readers of the two report files XROTOR writes: the operating-point
    listing (`read_xrotor_op_file`) and the slipstream velocity listing
    (`read_xrotor_wvel_file`). Both walk the file line by line, growing a
    dictionary whose table columns are lists appended to row by row. Each loop
    is specified by a function that reads the rest of its input from a given
    position, so a loop that stops on an exception stops where the function
    does. */
module XRotorReports {
  import opened Wrappers
  import opened Text
  import opened Dicts
  import opened Numbers

  /** A value of a report dictionary: a float, text, or a column of floats. */
  datatype Value = Scalar(c: Cell) | Word(s: string) | Column(cells: seq<Cell>)

  type Report = Dict<string, Value>

  const NOT_CONVERGED := "********** NOT CONVERGED **********"
  const NOT_CONVERGED_MSG := "XROTOR did not converge"

  /** The marker of a Reynolds-number column given in powers of ten. */
  const RE_MARK := "REx10^"

  /** `[p.strip() for p in parts]` */
  function StripAll(parts: seq<string>): (r: seq<string>)
    ensures |r| == |parts| && forall k :: 0 <= k < |parts| ==> r[k] == Strip(parts[k])
  {
    if |parts| == 0 then [] else [Strip(parts[0])] + StripAll(parts[1..])
  }

  /** `[w.strip() for w in line.split(' ') if w != '']` */
  function Tokens(line: string): seq<string>
  {
    StripAll(NonEmpty(Split(line, " ")))
  }

  // ---------------------------------------------------------------- growing columns

  /** The value stored for one table entry: the op reader keeps NaN where
      `float` fails (`strict` false); the wvel reader lets ValueError escape. */
  function CellFor(val: string, strict: bool): (r: Result<Cell>)
    ensures r.Fail? <==> strict && ParseFloat(val).None?
    ensures r.Fail? ==> r.exc == ValueError
    ensures r.Ok? ==> r.value == CellOf(val)
  {
    match ParseFloat(val)
    case Some(x) => Ok(Num(x))
    case None => if strict then Fail(ValueError) else Ok(NaN)
  }

  /** `d[headers[i]].append(float(val))`: the index, the key, the list and the
      float are checked in that order. */
  function AppendCell(d: Report, headers: seq<string>, i: nat, val: string, strict: bool): Result<Report>
  {
    if i >= |headers| then Fail(IndexError)
    else
      match Get(d, headers[i])
      case None => Fail(KeyError)
      case Some(v) =>
        if !v.Column? then Fail(AttributeError)
        else
          match CellFor(val, strict)
          case Fail(e) => Fail(e)
          case Ok(c) => Ok(Put(d, headers[i], Column(v.cells + [c])))
  }

  /** The entries of a table row from position `i` on, appended to their columns. */
  function AppendFrom(d: Report, headers: seq<string>, vals: seq<string>, i: nat, strict: bool): Result<Report>
    requires i <= |vals|
    decreases |vals| - i
  {
    if i == |vals| then Ok(d)
    else
      match AppendCell(d, headers, i, vals[i], strict)
      case Fail(e) => Fail(e)
      case Ok(d') => AppendFrom(d', headers, vals, i + 1, strict)
  }

  /** The row loop of both readers. */
  method AppendRowCells(d: Report, headers: seq<string>, vals: seq<string>, strict: bool)
    returns (r: Result<Report>)
    ensures r == AppendFrom(d, headers, vals, 0, strict)
  {
    var cur := d;
    for i := 0 to |vals|
      invariant AppendFrom(d, headers, vals, 0, strict) == AppendFrom(cur, headers, vals, i, strict)
    {
      var step := AppendCell(cur, headers, i, vals[i], strict);
      if step.Fail? {
        return Fail(step.exc);
      }
      cur := step.value;
    }
    return Ok(cur);
  }

  /** A row only ever fails on its index, its key, its list or its float. */
  lemma {:induction false} AppendFromErrors(d: Report, headers: seq<string>, vals: seq<string>, i: nat, strict: bool)
    requires i <= |vals|
    ensures AppendFrom(d, headers, vals, i, strict).Fail? ==>
      AppendFrom(d, headers, vals, i, strict).exc in {IndexError, KeyError, AttributeError, ValueError}
    decreases |vals| - i
  {
    if i < |vals| {
      var step := AppendCell(d, headers, i, vals[i], strict);
      if step.Ok? {
        AppendFromErrors(step.value, headers, vals, i + 1, strict);
      }
    }
  }


  /** Every header names a column of `d`. */
  predicate ColumnsReady(d: Report, headers: seq<string>)
  {
    forall i :: 0 <= i < |headers| ==> Get(d, headers[i]).Some? && Get(d, headers[i]).value.Column?
  }

  /** The value of `h` once `c` is appended to its column. */
  function Grown(d: Report, h: string, c: Cell): Option<Value>
  {
    match Get(d, h)
    case Some(v) => if v.Column? then Some(Column(v.cells + [c])) else Some(v)
    case None => None
  }

  /** One entry appended to a ready column changes that column only. */
  lemma AppendCellReady(d: Report, headers: seq<string>, i: nat, val: string, strict: bool)
    requires ColumnsReady(d, headers) && i < |headers| && CellFor(val, strict).Ok?
    ensures AppendCell(d, headers, i, val, strict).Ok?
    ensures var r := AppendCell(d, headers, i, val, strict).value;
      ColumnsReady(r, headers) &&
      Get(r, headers[i]) == Grown(d, headers[i], CellOf(val)) &&
      forall key :: key != headers[i] ==> Get(r, key) == Get(d, key)
  {
    var h := headers[i];
    var v := Get(d, h).value;
    var r := Put(d, h, Column(v.cells + [CellFor(val, strict).value]));
    assert AppendCell(d, headers, i, val, strict) == Ok(r);
    PutOthers(d, h, Column(v.cells + [CellFor(val, strict).value]));
    forall j | 0 <= j < |headers|
      ensures Get(r, headers[j]).Some? && Get(r, headers[j]).value.Column?
    {
      if headers[j] != h {
        assert Get(r, headers[j]) == Get(d, headers[j]);
      }
    }
  }

  /** Every entry from `i` on is a cell exactly when entry `i` is one and so is
      every entry after it. */
  lemma CellsOkFrom(vals: seq<string>, strict: bool, i: nat)
    requires i < |vals|
    ensures (forall k :: i <= k < |vals| ==> CellFor(vals[k], strict).Ok?) <==>
      CellFor(vals[i], strict).Ok? && forall k :: i + 1 <= k < |vals| ==> CellFor(vals[k], strict).Ok?
  {
  }

  /** A row whose headers name ready columns fails only in strict mode, on an
      entry that is not a number. */
  lemma {:induction false} RowAppendsOk(d: Report, headers: seq<string>, vals: seq<string>, i: nat, strict: bool)
    requires ColumnsReady(d, headers) && i <= |vals| <= |headers|
    ensures AppendFrom(d, headers, vals, i, strict).Ok? <==>
      forall k :: i <= k < |vals| ==> CellFor(vals[k], strict).Ok?
    decreases |vals| - i
  {
    if i < |vals| {
      var step := AppendCell(d, headers, i, vals[i], strict);
      if CellFor(vals[i], strict).Ok? {
        AppendCellReady(d, headers, i, vals[i], strict);
        assert AppendFrom(d, headers, vals, i, strict) == AppendFrom(step.value, headers, vals, i + 1, strict);
        RowAppendsOk(step.value, headers, vals, i + 1, strict);
      } else {
        assert step.Fail?;
      }
      CellsOkFrom(vals, strict, i);
    }
  }

  /** Each column of an entry from `i` on is the column of `d` grown by it. */
  predicate GrewAll(r: Report, d: Report, headers: seq<string>, vals: seq<string>, i: nat)
    requires i <= |vals| <= |headers|
  {
    forall k :: i <= k < |vals| ==> Get(r, headers[k]) == Grown(d, headers[k], CellOf(vals[k]))
  }

  /** Every key that is the header of no entry from `i` on keeps its value. */
  ghost predicate KeptOthers(r: Report, d: Report, headers: seq<string>, vals: seq<string>, i: nat)
    requires i <= |vals| <= |headers|
  {
    forall key :: (forall k :: i <= k < |vals| ==> headers[k] != key) ==> Get(r, key) == Get(d, key)
  }

  /** One more entry in front of a row. */
  lemma RowStep(d: Report, r: Report, headers: seq<string>, vals: seq<string>, i: nat, strict: bool)
    requires Distinct(headers) && ColumnsReady(d, headers) && i < |vals| <= |headers|
    requires CellFor(vals[i], strict).Ok?
    requires var d' := AppendCell(d, headers, i, vals[i], strict).value;
      GrewAll(r, d', headers, vals, i + 1) && KeptOthers(r, d', headers, vals, i + 1)
    ensures GrewAll(r, d, headers, vals, i) && KeptOthers(r, d, headers, vals, i)
  {
    AppendCellReady(d, headers, i, vals[i], strict);
    var d' := AppendCell(d, headers, i, vals[i], strict).value;
    assert Get(r, headers[i]) == Get(d', headers[i]);
    forall k | i < k < |vals|
      ensures Get(r, headers[k]) == Grown(d, headers[k], CellOf(vals[k]))
    {
      assert headers[k] != headers[i];
      assert Get(d', headers[k]) == Get(d, headers[k]);
    }
    forall key | forall k :: i <= k < |vals| ==> headers[k] != key
      ensures Get(r, key) == Get(d, key)
    {
      assert Get(r, key) == Get(d', key);
    }
  }

  /** A row with distinct headers, no longer than the header list, that
      succeeds extends the column of each of its entries by exactly that
      entry and leaves every other key as it was. */
  lemma {:induction false} RowAppendsCells(d: Report, headers: seq<string>, vals: seq<string>, i: nat, strict: bool)
    requires Distinct(headers) && ColumnsReady(d, headers) && i <= |vals| <= |headers|
    requires forall k :: i <= k < |vals| ==> CellFor(vals[k], strict).Ok?
    ensures AppendFrom(d, headers, vals, i, strict).Ok?
    ensures var r := AppendFrom(d, headers, vals, i, strict).value;
      ColumnsReady(r, headers) && GrewAll(r, d, headers, vals, i) && KeptOthers(r, d, headers, vals, i)
    decreases |vals| - i
  {
    RowAppendsOk(d, headers, vals, i, strict);
    if i < |vals| {
      AppendCellReady(d, headers, i, vals[i], strict);
      var d' := AppendCell(d, headers, i, vals[i], strict).value;
      assert AppendFrom(d, headers, vals, i, strict) == AppendFrom(d', headers, vals, i + 1, strict);
      RowAppendsCells(d', headers, vals, i + 1, strict);
      RowStep(d, AppendFrom(d', headers, vals, i + 1, strict).value, headers, vals, i, strict);
    }
  }

  /** A line that is blank once dashes, then equals signs, then whitespace are
      stripped from its ends. */
  predicate IsRule(line: string)
  {
    Strip(StripChars(StripChars(line, {'-'}), {'='})) == ""
  }

  /** The value of a `key : value` pair: a float when its first or second
      character is a digit (so `-1.5` counts), otherwise the text itself. */
  function PairValue(val: string): (r: Result<Value>)
    ensures r.Fail? ==> r.exc == IndexError || r.exc == ValueError
    ensures r == Fail(IndexError) <==> |val| == 0 || (|val| == 1 && !IsDigit(val[0]))
    ensures r.Ok? && r.value.Word? ==> r.value.s == val && |val| >= 2 && !IsDigit(val[0]) && !IsDigit(val[1])
    ensures r.Ok? && !r.value.Word? ==> r.value.Scalar? && r.value.c.Num? && ParseFloat(val) == Some(r.value.c.v)
    ensures r == Fail(ValueError) ==> ParseFloat(val).None?
  {
    if |val| == 0 then Fail(IndexError)
    else if IsDigit(val[0]) || (|val| >= 2 && IsDigit(val[1])) then
      match ParseFloat(val)
      case Some(x) => Ok(Scalar(Num(x)))
      case None => Fail(ValueError)
    else if |val| < 2 then Fail(IndexError)
    else Ok(Word(val))
  }

  /** The key of pair `i`: the last double-space separated part before the colon. */
  function KeyAt(spl: seq<string>, i: nat): string
    requires i < |spl|
  {
    var parts := Split(spl[i], "  ");
    Strip(parts[|parts| - 1])
  }

  /** The value of pair `i`: the first double-space separated part after the colon. */
  function ValueAt(spl: seq<string>, i: nat): string
    requires i + 1 < |spl|
  {
    Strip(Split(spl[i + 1], "  ")[0])
  }

  /** The pairs of a line split at its colons, from pair `i` on, stored in order. */
  function PairsFrom(d: Report, spl: seq<string>, i: nat): Result<Report>
    requires i < |spl|
    decreases |spl| - i
  {
    if i + 1 == |spl| then Ok(d)
    else
      match PairValue(ValueAt(spl, i))
      case Fail(e) => Fail(e)
      case Ok(v) => PairsFrom(Put(d, KeyAt(spl, i), v), spl, i + 1)
  }

  /** Every value of the pairs from `i` on is well formed. */
  predicate ValuesOk(spl: seq<string>, i: nat)
    requires i < |spl|
  {
    forall j :: i <= j < |spl| - 1 ==> PairValue(ValueAt(spl, j)).Ok?
  }

  /** No pair after `j` has the key of pair `j`. */
  predicate LastOfKey(spl: seq<string>, j: nat)
    requires j < |spl|
  {
    forall j' :: j < j' < |spl| - 1 ==> KeyAt(spl, j') != KeyAt(spl, j)
  }

  /** `r` holds, for each key of the pairs from `i` on, the value of its last pair. */
  predicate LastWins(r: Report, spl: seq<string>, i: nat)
    requires i < |spl|
  {
    forall j :: i <= j < |spl| - 1 && PairValue(ValueAt(spl, j)).Ok? && LastOfKey(spl, j) ==>
      Get(r, KeyAt(spl, j)) == Some(PairValue(ValueAt(spl, j)).value)
  }

  /** `r` agrees with `d` on every key of no pair from `i` on. */
  ghost predicate OthersKept(r: Report, d: Report, spl: seq<string>, i: nat)
    requires i < |spl|
  {
    forall key :: (forall j :: i <= j < |spl| - 1 ==> KeyAt(spl, j) != key) ==> Get(r, key) == Get(d, key)
  }

  /** The pairs of a line succeed exactly when every value does. */
  lemma {:induction false} PairsOk(d: Report, spl: seq<string>, i: nat)
    requires i < |spl|
    ensures PairsFrom(d, spl, i).Ok? <==> ValuesOk(spl, i)
    decreases |spl| - i
  {
    if i + 1 < |spl| {
      var pv := PairValue(ValueAt(spl, i));
      if pv.Ok? {
        var d' := Put(d, KeyAt(spl, i), pv.value);
        assert PairsFrom(d, spl, i) == PairsFrom(d', spl, i + 1);
        PairsOk(d', spl, i + 1);
      } else {
        assert PairsFrom(d, spl, i).Fail?;
      }
      ValuesOkStep(spl, i);
    }
  }

  lemma ValuesOkStep(spl: seq<string>, i: nat)
    requires i + 1 < |spl|
    ensures ValuesOk(spl, i) <==> PairValue(ValueAt(spl, i)).Ok? && ValuesOk(spl, i + 1)
  {
  }

  /** One more pair in front: the key of pair `i` keeps its value unless a
      later pair has the same key. */
  lemma LastWinsStep(d': Report, r: Report, spl: seq<string>, i: nat)
    requires i + 1 < |spl| && PairValue(ValueAt(spl, i)).Ok?
    requires Get(d', KeyAt(spl, i)) == Some(PairValue(ValueAt(spl, i)).value)
    requires LastWins(r, spl, i + 1) && OthersKept(r, d', spl, i + 1)
    ensures LastWins(r, spl, i)
  {
    if LastOfKey(spl, i) {
      assert Get(r, KeyAt(spl, i)) == Get(d', KeyAt(spl, i));
    }
  }

  /** One more pair in front: keys of no pair from `i` on keep their value. */
  lemma OthersKeptStep(d: Report, r: Report, spl: seq<string>, i: nat, v: Value)
    requires i + 1 < |spl|
    requires OthersKept(r, Put(d, KeyAt(spl, i), v), spl, i + 1)
    ensures OthersKept(r, d, spl, i)
  {
    var k := KeyAt(spl, i);
    forall key | forall j :: i <= j < |spl| - 1 ==> KeyAt(spl, j) != key
      ensures Get(r, key) == Get(d, key)
    {
      assert KeyAt(spl, i) != key;
      GetPutOther(d, k, v, key);
    }
  }

  /** When every value is well formed, a key holds the value of its last pair
      and keys of no pair keep their value. */
  lemma {:induction false} PairsStore(d: Report, spl: seq<string>, i: nat)
    requires i < |spl| && ValuesOk(spl, i)
    ensures PairsFrom(d, spl, i).Ok?
    ensures LastWins(PairsFrom(d, spl, i).value, spl, i)
    ensures OthersKept(PairsFrom(d, spl, i).value, d, spl, i)
    decreases |spl| - i
  {
    PairsOk(d, spl, i);
    if i + 1 < |spl| {
      var d' := Put(d, KeyAt(spl, i), PairValue(ValueAt(spl, i)).value);
      assert ValuesOk(spl, i + 1);
      PairsStore(d', spl, i + 1);
      assert PairsFrom(d, spl, i) == PairsFrom(d', spl, i + 1);
      var r := PairsFrom(d', spl, i + 1).value;
      LastWinsStep(d', r, spl, i);
      OthersKeptStep(d, r, spl, i, PairValue(ValueAt(spl, i)).value);
    }
  }

  /** The loop over the pairs of one `key : value` line. */
  method StorePairs(d: Report, spl: seq<string>) returns (r: Result<Report>)
    requires |spl| >= 1
    ensures r == PairsFrom(d, spl, 0)
  {
    var cur := d;
    for i := 0 to |spl| - 1
      invariant PairsFrom(d, spl, 0) == PairsFrom(cur, spl, i)
    {
      var val := PairValue(ValueAt(spl, i));
      if val.Fail? {
        return Fail(val.exc);
      }
      cur := Put(cur, KeyAt(spl, i), val.value);
    }
    return Ok(cur);
  }

  /** The entries of a table line: a blank goes before each minus sign and
      every `s` becomes a blank before splitting at blanks. */
  function TableTokens(line: string): seq<string>
  {
    Tokens(Replace(Replace(line, "-", " -"), "s", " "))
  }

  /** `for h in headers: d[h] = []` from header `i` on. */
  function NewColumnsFrom(d: Report, hs: seq<string>, i: nat): Report
    requires i <= |hs|
    decreases |hs| - i
  {
    if i == |hs| then d else NewColumnsFrom(Put(d, hs[i], Column([])), hs, i + 1)
  }

  /** The header line makes every header an empty column and leaves the other
      keys alone. */
  lemma {:induction false} NewColumnsEmpty(d: Report, hs: seq<string>, i: nat)
    requires i <= |hs|
    ensures forall k :: i <= k < |hs| ==> Get(NewColumnsFrom(d, hs, i), hs[k]) == Some(Column([]))
    ensures forall key :: (forall k :: i <= k < |hs| ==> hs[k] != key) ==>
      Get(NewColumnsFrom(d, hs, i), key) == Get(d, key)
    decreases |hs| - i
  {
    if i < |hs| {
      var d' := Put(d, hs[i], Column([]));
      NewColumnsEmpty(d', hs, i + 1);
      var r := NewColumnsFrom(d', hs, i + 1);
      assert NewColumnsFrom(d, hs, i) == r;
      if exists j :: i < j < |hs| && hs[j] == hs[i] {
        var j :| i < j < |hs| && hs[j] == hs[i];
        assert Get(r, hs[j]) == Some(Column([]));
      } else {
        assert Get(r, hs[i]) == Get(d', hs[i]);
      }
      forall key | forall k :: i <= k < |hs| ==> hs[k] != key
        ensures Get(r, key) == Get(d, key)
      {
        assert Get(r, key) == Get(d', key);
        GetPutOther(d, hs[i], Column([]), key);
      }
    }
  }

  method AddColumns(d: Report, hs: seq<string>) returns (r: Report)
    ensures r == NewColumnsFrom(d, hs, 0)
  {
    r := d;
    for i := 0 to |hs|
      invariant NewColumnsFrom(d, hs, 0) == NewColumnsFrom(r, hs, i)
    {
      r := Put(r, hs[i], Column([]));
    }
  }

  /** What the reader knows after some lines: the dictionary and the headers
      (`None` until the first table line). */
  datatype OpState = OpState(d: Report, headers: Option<seq<string>>)

  /** One line of the operating-point listing. */
  function OpLine(st: OpState, line: string): Result<OpState>
  {
    if IsRule(line) then Ok(st)
    else if Contains(line, ":") then
      var spl := StripAll(Split(line, ":"));
      match PairsFrom(st.d, spl, 0)
      case Fail(e) => Fail(e)
      case Ok(d) => Ok(OpState(d, st.headers))
    else
      var vals := TableTokens(line);
      match st.headers
      case None => Ok(OpState(NewColumnsFrom(st.d, vals, 0), Some(vals)))
      case Some(hs) =>
        match AppendFrom(st.d, hs, vals, 0, false)
        case Fail(e) => Fail(e)
        case Ok(d) => Ok(OpState(d, st.headers))
  }

  /** The lines from `i` on, read in order. */
  function OpFrom(st: OpState, lines: seq<string>, i: nat): Result<OpState>
    requires i <= |lines|
    decreases |lines| - i
  {
    if i == |lines| then Ok(st)
    else
      match OpLine(st, lines[i])
      case Fail(e) => Fail(e)
      case Ok(st') => OpFrom(st', lines, i + 1)
  }

  /** Rule lines change nothing; the first table line fixes the headers and
      later lines of any kind never change them. */
  lemma HeadersFixedOnce(st: OpState, line: string)
    ensures IsRule(line) ==> OpLine(st, line) == Ok(st)
    ensures OpLine(st, line).Ok? && st.headers.Some? ==> OpLine(st, line).value.headers == st.headers
    ensures OpLine(st, line).Ok? && st.headers.None? && OpLine(st, line).value.headers.Some? ==>
      !IsRule(line) && !Contains(line, ":") && OpLine(st, line).value.headers == Some(TableTokens(line))
  {
  }

  // ---------------------------------------------------------------- Reynolds-number exponent

  const RE_CHARS := {'R', 'E', 'x', '1', '0', '^'}

  /** `int(h.strip('REx10^'))` as the reader writes it: `strip` removes any of
      the characters R, E, x, 1, 0, ^ from both ends, so exponent digits 1 and 0
      at either end are lost too. */
  function ExponentAsWritten(h: string): (r: Option<int>)
    ensures PlainExponent(h) ==> r == Exponent(h)
  {
    if PlainExponent(h) then
      StripPlain(h);
      ParseInt(StripChars(h, RE_CHARS))
    else ParseInt(StripChars(h, RE_CHARS))
  }

  /** A marked header whose exponent neither begins nor ends with one of the
      stripped characters. */
  predicate PlainExponent(h: string)
  {
    |h| > 6 && h[..6] == RE_MARK && h[6] !in RE_CHARS && h[|h| - 1] !in RE_CHARS
  }

  /** For such a header the strip keeps exactly the exponent's text. */
  lemma StripPlain(h: string)
    requires PlainExponent(h)
    ensures StripChars(h, RE_CHARS) == h[6..] && Exponent(h) == ParseInt(h[6..])
  {
    StripMarked(h, 0);
    assert OccursAt(h, RE_MARK, 0);
  }

  /** The exponent the header spells: the integer after the marker. */
  function Exponent(h: string): Option<int>
  {
    match Find(h, RE_MARK)
    case None => None
    case Some(i) => ParseInt(h[i + |RE_MARK|..])
  }

  /** The header of the column of Reynolds numbers in units of `10**k`. */
  function ReHeader(k: nat): string
  {
    RE_MARK + NatToDigits(k)
  }

  /** The marker followed by `n` further characters all in the stripped set,
      then one outside it, keeps only what follows. */
  lemma StripMarked(h: string, n: nat)
    requires 6 + n < |h| && h[..6] == RE_MARK
    requires forall i :: 6 <= i < 6 + n ==> h[i] in RE_CHARS
    requires h[6 + n] !in RE_CHARS && h[|h| - 1] !in RE_CHARS
    ensures StripChars(h, RE_CHARS) == h[6 + n..]
  {
    forall i | 0 <= i < 6 + n
      ensures InSet(RE_CHARS)(h[i])
    {
      if i < 6 {
        assert h[i] == RE_MARK[i];
      }
    }
    LeadCountExact(h, InSet(RE_CHARS), 6 + n);
    var t := h[6 + n..];
    assert t[|t| - 1] == h[|h| - 1];
  }

  /** A marked header ending in one digit outside the stripped set is read
      with that digit as its exponent. */
  lemma StripMarkedDigit(h: string, n: nat)
    requires |h| == 7 + n && h[..6] == RE_MARK
    requires forall i :: 6 <= i < 6 + n ==> h[i] in RE_CHARS
    requires IsDigit(h[6 + n]) && h[6 + n] !in RE_CHARS
    ensures ExponentAsWritten(h) == Some(DigitVal(h[6 + n]))
  {
    StripMarked(h, n);
    var t := h[6 + n..];
    assert t == [h[6 + n]];
    StripNoOp(t);
    assert SplitSign(t) == (false, t);
    assert IsNumeric(t);
    assert t[..0] == [];
    assert DigitsValue(t) == DigitVal(h[6 + n]);
  }

  /** A header made of the stripped characters only is read as no integer. */
  lemma StripAllMarked(tail: string)
    requires forall i :: 0 <= i < |tail| ==> tail[i] in RE_CHARS
    ensures ExponentAsWritten(RE_MARK + tail).None?
  {
    var h := RE_MARK + tail;
    forall i | 0 <= i < |h|
      ensures InSet(RE_CHARS)(h[i])
    {
      if i < 6 {
        assert h[i] == RE_MARK[i];
      } else {
        assert h[i] == tail[i - 6];
      }
    }
    LeadCountExact(h, InSet(RE_CHARS), |h|);
    assert StripChars(h, RE_CHARS) == "";
  }

  /** A header `REx10^6` is read with exponent 6, as meant. */
  lemma ExponentAsWrittenSix()
    ensures ExponentAsWritten("REx10^6") == Some(6)
  {
    StripMarkedDigit("REx10^6", 0);
  }

  /** A header `REx10^12` is read with exponent 2: the leading `1` of the
      exponent is stripped with the marker. */
  lemma ExponentAsWrittenMisreadsTwelve()
    ensures ExponentAsWritten("REx10^12") == Some(2)
  {
    StripMarkedDigit("REx10^12", 1);
  }

  /** A header `REx10^10` leaves nothing to parse and is rejected. */
  lemma ExponentAsWrittenRejectsTen()
    ensures ExponentAsWritten("REx10^10").None?
  {
    var tail := "10";
    assert tail[0] in RE_CHARS && tail[1] in RE_CHARS;
    StripAllMarked(tail);
    assert RE_MARK + tail == "REx10^10";
  }

  /** Every header `REx10^k` is read with exponent `k`. */
  lemma ExponentOfHeader(k: nat)
    ensures Exponent(ReHeader(k)) == Some(k)
  {
    var h := ReHeader(k);
    assert OccursAt(h, RE_MARK, 0);
    assert h[|RE_MARK|..] == NatToDigits(k) == IntToString(k);
    ParseIntOfString(k);
  }

  /** `old_res * 10 ** exponent` on the numbers of a column. */
  function ScaleCells(cs: seq<Cell>, e: int): (r: seq<Cell>)
    ensures |r| == |cs|
    ensures forall i :: 0 <= i < |cs| ==> r[i] == (if cs[i].Num? then Num(Scale10(cs[i].v, e)) else NaN)
  {
    if |cs| == 0 then []
    else
      var last := cs[|cs| - 1];
      ScaleCells(cs[..|cs| - 1], e) + [if last.Num? then Num(Scale10(last.v, e)) else NaN]
  }

  /** The product of a stored value with a power of ten; text cannot be scaled. */
  function ScaleValue(v: Value, e: int): Result<Value>
  {
    match v
    case Column(cs) => Ok(Column(ScaleCells(cs, e)))
    case Scalar(c) => Ok(Scalar(if c.Num? then Num(Scale10(c.v, e)) else NaN))
    case Word(_) => Fail(TypeError)
  }

  /** The exponent of a Reynolds-number header: `asWritten` reads it with the
      character strip of the code, otherwise as the integer after the marker. */
  function HeaderExponent(h: string, asWritten: bool): Option<int>
  {
    if asWritten then ExponentAsWritten(h) else Exponent(h)
  }

  /** The end of the reader for one header: its column stays (as an array),
      unless it is a Reynolds-number column, which is popped and stored again
      as `RE` scaled by its power of ten. */
  function ConvertHeader(d: Report, h: string, asWritten: bool): (r: Result<Report>)
    ensures r.Ok? <==> Get(d, h).Some? && (Contains(h, RE_MARK) ==> HeaderExponent(h, asWritten).Some? && !Get(d, h).value.Word?)
    ensures r.Fail? ==> r.exc in {KeyError, ValueError, TypeError}
    ensures r.Ok? && !Contains(h, RE_MARK) ==> r.value == d
    ensures r.Ok? && Contains(h, RE_MARK) ==> Get(r.value, "RE").Some?
  {
    match Get(d, h)
    case None => Fail(KeyError)
    case Some(v) =>
      if !Contains(h, RE_MARK) then Ok(d)
      else
        match HeaderExponent(h, asWritten)
        case None => Fail(ValueError)
        case Some(e) =>
          match ScaleValue(v, e)
          case Fail(x) => Fail(x)
          case Ok(scaled) => Ok(Put(Remove(d, h), "RE", scaled))
  }

  function ConvertFrom(d: Report, hs: seq<string>, i: nat, asWritten: bool): Result<Report>
    requires i <= |hs|
    decreases |hs| - i
  {
    if i == |hs| then Ok(d)
    else
      match ConvertHeader(d, hs[i], asWritten)
      case Fail(e) => Fail(e)
      case Ok(d') => ConvertFrom(d', hs, i + 1, asWritten)
  }

  /** A column `REx10^k` of a table becomes the column `RE` holding each of its
      numbers times `10**k`, NaN staying NaN; the marked column is gone and the
      other keys keep their values. */
  lemma ReynoldsColumnScaled(d: Report, k: nat, cs: seq<Cell>)
    requires NoDupKeys(d) && Get(d, ReHeader(k)) == Some(Column(cs))
    ensures ConvertHeader(d, ReHeader(k), false).Ok?
    ensures var r := ConvertHeader(d, ReHeader(k), false).value;
      !HasKey(r, ReHeader(k)) &&
      Get(r, "RE") == Some(Column(ScaleCells(cs, k))) &&
      forall key :: key != ReHeader(k) && key != "RE" ==> Get(r, key) == Get(d, key)
  {
    var h := ReHeader(k);
    ExponentOfHeader(k);
    assert OccursAt(h, RE_MARK, 0);
    var removed := Remove(d, h);
    var col := Column(ScaleCells(cs, k));
    var r := Put(removed, "RE", col);
    assert ConvertHeader(d, h, false) == Ok(r);
    PutOthers(removed, "RE", col);
    forall key | key != h && key != "RE"
      ensures Get(r, key) == Get(d, key)
    {
      GetRemoveOther(d, h, key);
    }
    assert h != "RE" by { assert |h| > 2; }
    assert Get(r, h) == Get(removed, h);
  }

  /** As written, the column `REx10^12` is stored as `RE` scaled by `10**2`
      only, ten orders of magnitude short. */
  lemma TwelveScaledAsWritten(d: Report, cs: seq<Cell>)
    requires Get(d, "REx10^12") == Some(Column(cs))
    ensures ConvertHeader(d, "REx10^12", true) == Ok(Put(Remove(d, "REx10^12"), "RE", Column(ScaleCells(cs, 2))))
  {
    ExponentAsWrittenMisreadsTwelve();
    MarkedTwelve();
    ColumnScaledBy(d, "REx10^12", cs, 2, true);
  }

  lemma MarkedTwelve()
    ensures Contains("REx10^12", RE_MARK)
  {
    assert OccursAt("REx10^12", RE_MARK, 0);
  }

  /** A marked column whose exponent reads as `e` is stored as `RE` scaled by `10**e`. */
  lemma ColumnScaledBy(d: Report, h: string, cs: seq<Cell>, e: int, asWritten: bool)
    requires Get(d, h) == Some(Column(cs)) && Contains(h, RE_MARK) && HeaderExponent(h, asWritten) == Some(e)
    ensures ConvertHeader(d, h, asWritten) == Ok(Put(Remove(d, h), "RE", Column(ScaleCells(cs, e))))
  {
  }

  /** As written, a table with a column `REx10^10` cannot be read: the
      exponent strips to nothing and `int` raises ValueError. */
  lemma TenRejectedAsWritten(d: Report, v: Value)
    requires Get(d, "REx10^10") == Some(v)
    ensures ConvertHeader(d, "REx10^10", true) == Fail(ValueError)
  {
    ExponentAsWrittenRejectsTen();
    assert OccursAt("REx10^10", RE_MARK, 0);
  }

  method ConvertHeaders(d: Report, hs: seq<string>, asWritten: bool) returns (r: Result<Report>)
    ensures r == ConvertFrom(d, hs, 0, asWritten)
  {
    var cur := d;
    for i := 0 to |hs|
      invariant ConvertFrom(d, hs, 0, asWritten) == ConvertFrom(cur, hs, i, asWritten)
    {
      var step := ConvertHeader(cur, hs[i], asWritten);
      if step.Fail? {
        return step;
      }
      cur := step.value;
    }
    return Ok(cur);
  }

  /** The pairs of a `:` line fail only on a value too short to read or not a float. */
  lemma {:induction false} PairsFromErrors(d: Report, spl: seq<string>, i: nat)
    requires i < |spl|
    ensures PairsFrom(d, spl, i).Fail? ==> PairsFrom(d, spl, i).exc in {IndexError, ValueError}
    decreases |spl| - i
  {
    if i + 1 < |spl| {
      var v := PairValue(ValueAt(spl, i));
      if v.Ok? {
        PairsFromErrors(Put(d, KeyAt(spl, i), v.value), spl, i + 1);
      }
    }
  }

  /** The lines of a report fail only on a pair or a table row. */
  lemma {:induction false} OpFromErrors(st: OpState, lines: seq<string>, i: nat)
    requires i <= |lines|
    ensures OpFrom(st, lines, i).Fail? ==> OpFrom(st, lines, i).exc in {IndexError, KeyError, AttributeError, ValueError}
    decreases |lines| - i
  {
    if i < |lines| {
      var line := lines[i];
      if !IsRule(line) && Contains(line, ":") {
        PairsFromErrors(st.d, StripAll(Split(line, ":")), 0);
      } else if !IsRule(line) && st.headers.Some? {
        AppendFromErrors(st.d, st.headers.value, TableTokens(line), 0, false);
      }
      var next := OpLine(st, line);
      if next.Ok? {
        OpFromErrors(next.value, lines, i + 1);
      }
    }
  }

  /** Converting the headers fails only on a missing key, an unreadable
      exponent or a text value. */
  lemma {:induction false} ConvertFromErrors(d: Report, hs: seq<string>, i: nat, asWritten: bool)
    requires i <= |hs|
    ensures ConvertFrom(d, hs, i, asWritten).Fail? ==> ConvertFrom(d, hs, i, asWritten).exc in {KeyError, ValueError, TypeError}
    decreases |hs| - i
  {
    if i < |hs| {
      var next := ConvertHeader(d, hs[i], asWritten);
      if next.Ok? {
        ConvertFromErrors(next.value, hs, i + 1, asWritten);
      }
    }
  }

  /** The whole operating-point reader on the text of the file; `asWritten`
      reads the Reynolds exponent as the code does, otherwise as intended.
      Besides the package error for an unconverged run, it raises only the
      built-in exceptions of its indexing, lookups and conversions. */
  function ReadOp(txt: string, asWritten: bool): (r: Result<Report>)
    ensures r.Fail? ==> r.exc == PdtError(NOT_CONVERGED_MSG) || r.exc in {TypeError, IndexError, KeyError, AttributeError, ValueError}
    ensures r.Fail? && r.exc.PdtError? ==> Contains(txt, NOT_CONVERGED)
  {
    if Contains(txt, NOT_CONVERGED) then Fail(PdtError(NOT_CONVERGED_MSG))
    else
      OpFromErrors(OpState([], None), Split(txt, "\n"), 0);
      match OpFrom(OpState([], None), Split(txt, "\n"), 0)
      case Fail(e) => Fail(e)
      case Ok(st) =>
        match st.headers
        case None => Fail(TypeError)
        case Some(hs) =>
          ConvertFromErrors(st.d, hs, 0, asWritten);
          ConvertFrom(st.d, hs, 0, asWritten)
  }

  /** The body of the reader's line loop: one line of the report. */
  method ReadOpLine(st: OpState, line: string) returns (r: Result<OpState>)
    ensures r == OpLine(st, line)
  {
    if IsRule(line) {
      return Ok(st);
    } else if Contains(line, ":") {
      var stored := StorePairs(st.d, StripAll(Split(line, ":")));
      if stored.Fail? {
        return Fail(stored.exc);
      }
      return Ok(OpState(stored.value, st.headers));
    } else {
      var vals := TableTokens(line);
      if st.headers.None? {
        var d := AddColumns(st.d, vals);
        return Ok(OpState(d, Some(vals)));
      }
      var grown := AppendRowCells(st.d, st.headers.value, vals, false);
      if grown.Fail? {
        return Fail(grown.exc);
      }
      return Ok(OpState(grown.value, st.headers));
    }
  }

  /** A report holding the banner is refused; a report whose lines read
      without error but hold no table raises TypeError; a report with a table
      is its dictionary after the Reynolds columns are converted. */
  lemma ReadOpOutcomes(txt: string, asWritten: bool)
    ensures Contains(txt, NOT_CONVERGED) ==> ReadOp(txt, asWritten) == Fail(PdtError(NOT_CONVERGED_MSG))
    ensures var st := OpFrom(OpState([], None), Split(txt, "\n"), 0);
      (!Contains(txt, NOT_CONVERGED) && st.Ok? && st.value.headers.None?) ==> ReadOp(txt, asWritten) == Fail(TypeError)
    ensures var st := OpFrom(OpState([], None), Split(txt, "\n"), 0);
      (!Contains(txt, NOT_CONVERGED) && st.Ok? && st.value.headers.Some?) ==>
      ReadOp(txt, asWritten) == ConvertFrom(st.value.d, st.value.headers.value, 0, asWritten)
  {
  }

  /** The reader's line loop. */
  method ReadOpLines(lines: seq<string>) returns (r: Result<OpState>)
    ensures r == OpFrom(OpState([], None), lines, 0)
  {
    var st := OpState([], None);
    for i := 0 to |lines|
      invariant OpFrom(OpState([], None), lines, 0) == OpFrom(st, lines, i)
    {
      var next := ReadOpLine(st, lines[i]);
      if next.Fail? {
        return Fail(next.exc);
      }
      st := next.value;
    }
    return Ok(st);
  }

  /** `read_xrotor_op_file` on the text of the file. */
  method ReadXrotorOpFile(txt: string, asWritten: bool) returns (r: Result<Report>)
    ensures r == ReadOp(txt, asWritten)
  {
    if Contains(txt, NOT_CONVERGED) {
      return Fail(PdtError(NOT_CONVERGED_MSG));
    }
    var st := ReadOpLines(Split(txt, "\n"));
    if st.Fail? {
      return Fail(st.exc);
    }
    if st.value.headers.None? {
      return Fail(TypeError);
    }
    r := ConvertHeaders(st.value.d, st.value.headers.value, asWritten);
  }

  // ---------------------------------------------------------------- the slipstream listing

  /** The scalar a keyword word of lines 3 and 4 announces, checked in the
      reader's order: rpm, vel, beta_tip, power, thrust. */
  function Keyword(word: string): Option<string>
  {
    var w := Lower(word);
    if Contains(w, "rpm") then Some("rpm")
    else if Contains(w, "vel") then Some("vel")
    else if Contains(w, "beta_tip") then Some("beta_tip")
    else if Contains(w, "power") then Some("power")
    else if Contains(w, "thrust") then Some("thrust")
    else None
  }

  /** Power and thrust fall back to NaN when their value is not a number. */
  predicate NaNAllowed(key: string) { key == "power" || key == "thrust" }

  /** The word after a keyword, as the value stored for it. */
  function KeywordValue(words: seq<string>, j: nat, key: string): (r: Result<Cell>)
    requires j < |words|
    ensures r == Fail(IndexError) <==> j + 1 == |words|
    ensures r.Fail? ==> r.exc == IndexError || r.exc == ValueError
    ensures r.Ok? ==> r.value == CellOf(words[j + 1])
    ensures r.Ok? && r.value.NaN? ==> NaNAllowed(key)
  {
    if j + 1 >= |words| then Fail(IndexError)
    else
      match ParseFloat(words[j + 1])
      case Some(x) => Ok(Num(x))
      case None => if NaNAllowed(key) then Ok(NaN) else Fail(ValueError)
  }

  /** The words of line 3 or 4 from word `j` on. */
  function KeywordsFrom(d: Report, words: seq<string>, j: nat): Result<Report>
    requires j <= |words|
    decreases |words| - j
  {
    if j == |words| then Ok(d)
    else
      match Keyword(words[j])
      case None => KeywordsFrom(d, words, j + 1)
      case Some(key) =>
        match KeywordValue(words, j, key)
        case Fail(e) => Fail(e)
        case Ok(c) => KeywordsFrom(Put(d, key, Scalar(c)), words, j + 1)
  }

  /** A keyword followed by a word that names nothing stores that word's value
      under the keyword: a number, or NaN for power and thrust; any other
      keyword with a non-number raises ValueError. */
  lemma KeywordPair(d: Report, kw: string, val: string)
    requires Keyword(kw).Some? && Keyword(val).None?
    ensures var key := Keyword(kw).value;
      KeywordsFrom(d, [kw, val], 0) ==
        if ParseFloat(val).Some? || NaNAllowed(key) then Ok(Put(d, key, Scalar(CellOf(val))))
        else Fail(ValueError)
  {
    var words := [kw, val];
    var key := Keyword(kw).value;
    var c := KeywordValue(words, 0, key);
    if c.Ok? {
      var d' := Put(d, key, Scalar(c.value));
      assert KeywordsFrom(d', words, 1) == KeywordsFrom(d', words, 2);
    }
  }

  /** The word loop of lines 3 and 4. */
  method KeywordScan(d: Report, words: seq<string>) returns (r: Result<Report>)
    ensures r == KeywordsFrom(d, words, 0)
  {
    var cur := d;
    for j := 0 to |words|
      invariant KeywordsFrom(d, words, 0) == KeywordsFrom(cur, words, j)
    {
      var key := Keyword(words[j]);
      if key.Some? {
        var c := KeywordValue(words, j, key.value);
        if c.Fail? {
          return Fail(c.exc);
        }
        cur := Put(cur, key.value, Scalar(c.value));
      }
    }
    return Ok(cur);
  }

  /** The keyword words fail only on a missing or non-numeric value. */
  lemma {:induction false} KeywordsErrors(d: Report, words: seq<string>, j: nat)
    requires j <= |words|
    ensures KeywordsFrom(d, words, j).Fail? ==> KeywordsFrom(d, words, j).exc in {IndexError, ValueError}
    decreases |words| - j
  {
    if j < |words| {
      match Keyword(words[j])
      case None => KeywordsErrors(d, words, j + 1);
      case Some(key) =>
        var c := KeywordValue(words, j, key);
        if c.Ok? {
          KeywordsErrors(Put(d, key, Scalar(c.value)), words, j + 1);
        }
    }
  }

  /** `data.setdefault(h, [])` from header `i` on. */
  function SetDefaultsFrom(d: Report, hs: seq<string>, i: nat): Report
    requires i <= |hs|
    decreases |hs| - i
  {
    if i == |hs| then d
    else SetDefaultsFrom(if HasKey(d, hs[i]) then d else Put(d, hs[i], Column([])), hs, i + 1)
  }

  /** Every key of `d` keeps its value in `r`. */
  ghost predicate PresentKept(r: Report, d: Report)
  {
    forall key :: HasKey(d, key) ==> Get(r, key) == Get(d, key)
  }

  /** Every header from `i` on that `d` lacks is an empty column of `r`. */
  predicate MissingEmpty(r: Report, d: Report, hs: seq<string>, i: nat)
    requires i <= |hs|
  {
    forall k :: i <= k < |hs| && !HasKey(d, hs[k]) ==> Get(r, hs[k]) == Some(Column([]))
  }

  /** `r` has no key that is neither in `d` nor a header from `i` on. */
  ghost predicate NoStrays(r: Report, d: Report, hs: seq<string>, i: nat)
    requires i <= |hs|
  {
    forall key :: !HasKey(d, key) && (forall k :: i <= k < |hs| ==> hs[k] != key) ==> !HasKey(r, key)
  }

  /** One more header in front of the defaults. */
  lemma SetDefaultsStep(d: Report, r: Report, hs: seq<string>, i: nat)
    requires i < |hs|
    requires var d' := if HasKey(d, hs[i]) then d else Put(d, hs[i], Column([]));
      PresentKept(r, d') && MissingEmpty(r, d', hs, i + 1) && NoStrays(r, d', hs, i + 1)
    ensures PresentKept(r, d) && MissingEmpty(r, d, hs, i) && NoStrays(r, d, hs, i)
  {
    var h := hs[i];
    if !HasKey(d, h) {
      var d' := Put(d, h, Column([]));
      PutOthers(d, h, Column([]));
      forall key | HasKey(d, key)
        ensures Get(r, key) == Get(d, key)
      {
        assert Get(d', key) == Get(d, key);
      }
      assert Get(r, h) == Get(d', h);
      forall key | !HasKey(d, key) && (forall k :: i <= k < |hs| ==> hs[k] != key)
        ensures !HasKey(r, key)
      {
        assert Get(d', key) == Get(d, key);
      }
    }
  }

  /** A header already present keeps its value; a new one starts as an empty
      column; keys that are no header stay absent. */
  lemma {:induction false} SetDefaultsKeep(d: Report, hs: seq<string>, i: nat)
    requires i <= |hs|
    ensures PresentKept(SetDefaultsFrom(d, hs, i), d)
    ensures MissingEmpty(SetDefaultsFrom(d, hs, i), d, hs, i)
    ensures NoStrays(SetDefaultsFrom(d, hs, i), d, hs, i)
    decreases |hs| - i
  {
    if i < |hs| {
      var d' := if HasKey(d, hs[i]) then d else Put(d, hs[i], Column([]));
      SetDefaultsKeep(d', hs, i + 1);
      assert SetDefaultsFrom(d, hs, i) == SetDefaultsFrom(d', hs, i + 1);
      SetDefaultsStep(d, SetDefaultsFrom(d', hs, i + 1), hs, i);
    }
  }

  method SetDefaultColumns(d: Report, hs: seq<string>) returns (r: Report)
    ensures r == SetDefaultsFrom(d, hs, 0)
  {
    r := d;
    for i := 0 to |hs|
      invariant SetDefaultsFrom(d, hs, 0) == SetDefaultsFrom(r, hs, i)
    {
      if !HasKey(r, hs[i]) {
        r := Put(r, hs[i], Column([]));
      }
    }
  }

  /** The lines of the file: stripped, after dropping the empty ones. */
  function WVelLines(txt: string): seq<string>
  {
    StripAll(NonEmpty(Split(Strip(txt), "\n")))
  }

  datatype WVelState = WVelState(d: Report, headers: Option<seq<string>>)

  /** Line `i` of the slipstream listing, after `=` gets a blank behind it:
      lines 3 and 4 hold keyword values, line 6 the column headers (with
      ` + ` closed up), the lines after it the table. */
  function WVelLine(st: WVelState, i: nat, line: string): Result<WVelState>
  {
    var spaced := Replace(line, "=", "= ");
    var words := Tokens(spaced);
    if i == 3 || i == 4 then
      match KeywordsFrom(st.d, words, 0)
      case Fail(e) => Fail(e)
      case Ok(d) => Ok(WVelState(d, st.headers))
    else if i == 6 then
      var hs := Tokens(Replace(spaced, " + ", "+"));
      Ok(WVelState(SetDefaultsFrom(st.d, hs, 0), Some(hs)))
    else if i > 6 then
      match st.headers
      case None => Fail(UnboundLocalError)
      case Some(hs) =>
        match AppendFrom(st.d, hs, words, 0, true)
        case Fail(e) => Fail(e)
        case Ok(d) => Ok(WVelState(d, st.headers))
    else Ok(st)
  }

  function WVelFrom(st: WVelState, lines: seq<string>, i: nat): (r: Result<WVelState>)
    requires i <= |lines|
    ensures (i >= 7 ==> st.headers.Some?) && r.Fail? ==> r.exc in {IndexError, KeyError, AttributeError, ValueError}
    decreases |lines| - i
  {
    if i == |lines| then Ok(st)
    else
      WVelLineErrors(st, i, lines[i]);
      match WVelLine(st, i, lines[i])
      case Fail(e) => Fail(e)
      case Ok(st') => WVelFrom(st', lines, i + 1)
  }

  /** Lines 0 to 2 and 5 are headings the reader passes over. */
  lemma WVelHeadingLinesSkipped(st: WVelState, i: nat, line: string)
    requires i <= 2 || i == 5
    ensures WVelLine(st, i, line) == Ok(st)
  {
  }

  /** One line fails only on a keyword's value or a table row, and line 6
      leaves the headers known. */
  lemma WVelLineErrors(st: WVelState, i: nat, line: string)
    ensures (i >= 7 ==> st.headers.Some?) && WVelLine(st, i, line).Fail? ==>
              WVelLine(st, i, line).exc in {IndexError, KeyError, AttributeError, ValueError}
    ensures (i >= 7 ==> st.headers.Some?) && WVelLine(st, i, line).Ok? && i >= 6 ==>
              WVelLine(st, i, line).value.headers.Some?
  {
    var words := Tokens(Replace(line, "=", "= "));
    if i == 3 || i == 4 {
      KeywordsErrors(st.d, words, 0);
    } else if i > 6 && st.headers.Some? {
      AppendFromErrors(st.d, st.headers.value, words, 0, true);
    }
  }

  /** `read_xrotor_wvel_file` on the text: it raises only the built-in
      exceptions of its indexing, lookups and conversions. */
  function ReadWVel(txt: string): (r: Result<Report>)
    ensures r.Fail? ==> r.exc in {IndexError, KeyError, AttributeError, ValueError}
  {
    match WVelFrom(WVelState([], None), WVelLines(txt), 0)
    case Fail(e) => Fail(e)
    case Ok(st) => Ok(st.d)
  }

  /** `read_xrotor_wvel_file` on the text of the file. The headers are known
      from line 6 on, so the table never finds them missing. */
  method ReadXrotorWvelFile(txt: string) returns (r: Result<Report>)
    ensures r == ReadWVel(txt)
    ensures r.Fail? ==> r.exc in {IndexError, KeyError, AttributeError, ValueError}
  {
    var lines := WVelLines(txt);
    var d: Report := [];
    var headers: Option<seq<string>> := None;
    for i := 0 to |lines|
      invariant WVelFrom(WVelState([], None), lines, 0) == WVelFrom(WVelState(d, headers), lines, i)
      invariant i >= 7 ==> headers.Some?
    {
      var spaced := Replace(lines[i], "=", "= ");
      var words := Tokens(spaced);
      if i == 3 || i == 4 {
        var kw := KeywordScan(d, words);
        if kw.Fail? {
          KeywordsErrors(d, words, 0);
          return Fail(kw.exc);
        }
        d := kw.value;
      } else if i == 6 {
        var hs := Tokens(Replace(spaced, " + ", "+"));
        d := SetDefaultColumns(d, hs);
        headers := Some(hs);
      } else if i > 6 {
        var grown := AppendRowCells(d, headers.value, words, true);
        if grown.Fail? {
          AppendFromErrors(d, headers.value, words, 0, true);
          return Fail(grown.exc);
        }
        d := grown.value;
      }
    }
    return Ok(d);
  }
}
