// The XROTOR restart file `<name>.xrr` as `Propeller.read_xrotor_restart`
// (propeller.py) reads it: by fixed line positions. Keyword lines (with a
// leading `!`) are paired with the value line below them; the design
// parameters sit on lines 2, 4, 6 and 8, aerodynamic section k (k = 1 ..
// Naero) starts at line 10k, and after the last section come a line pair of
// texts, a line pair of integers and the geometry table.

module RestartFile {
  import opened Wrappers
  import opened Text
  import opened Numbers
  import opened Dicts

  /** A value of the restart dictionary: a design parameter, a section's
      parameters, a text, an integer or a geometry column. */
  datatype Entry = Scalar(f: real) | Section(fields: Dict<string, real>) | Word(s: string) | Count(n: int)
                 | Column(vals: seq<real>)

  const DESIGN_LINES: seq<nat> := [2, 4, 6, 8]
  const NAERO := "Naero"
  const SECTION_PREFIX := "Xisection_"

  /** The lines of the file: its stripped text split at newlines. */
  function Lines(text: string): (r: seq<string>)
    ensures |r| >= 1
  {
    Split(Strip(text), "\n")
  }

  /** `line.strip('!').split()`: the keywords of a keyword line. */
  function Keywords(line: string): seq<string>
  {
    Words(StripChars(line, {'!'}))
  }

  /** `dict(zip(ks, vs))` over the first `n` pairs: a repeated keyword keeps
      its first position and takes its last value. */
  function Zipped(ks: seq<string>, vs: seq<string>, n: nat): (r: Dict<string, string>)
    requires n <= |ks| && n <= |vs|
    ensures NoDupKeys(r)
  {
    if n == 0 then []
    else
      var d := Zipped(ks, vs, n - 1);
      PutNoDup(d, ks[n - 1], vs[n - 1]);
      Put(d, ks[n - 1], vs[n - 1])
  }

  function Min(a: nat, b: nat): nat { if a <= b then a else b }

  /** `read_line_pair(i)`: the keywords of line `i` zipped with the values of
      line `i + 1`; IndexError past the end of the file. */
  function LinePair(lines: seq<string>, i: nat): Result<Dict<string, string>>
  {
    if i + 1 >= |lines| then Fail(IndexError)
    else
      var ks, vs := Keywords(lines[i]), Words(lines[i + 1]);
      Ok(Zipped(ks, vs, Min(|ks|, |vs|)))
  }

  /** `float(v)` */
  function AsFloat(v: string): Result<real>
  {
    match ParseFloat(v)
    case None => Fail(ValueError)
    case Some(f) => Ok(f)
  }

  /** `v`, kept as a text. */
  function AsWord(v: string): Result<Entry>
  {
    Ok(Word(v))
  }

  /** `int(v)` */
  function AsCount(v: string): Result<Entry>
  {
    match ParseInt(v)
    case None => Fail(ValueError)
    case Some(n) => Ok(Count(n))
  }

  /** `for k, v in pairs.items(): d[k] = conv(v)`, stopping at the first
      value that does not convert. */
  function PutAll<V>(d: Dict<string, V>, pairs: Dict<string, string>, conv: string -> Result<V>): Result<Dict<string, V>>
  {
    if |pairs| == 0 then Ok(d)
    else
      match PutAll(d, pairs[..|pairs| - 1], conv)
      case Fail(e) => Fail(e)
      case Ok(d1) =>
        var (k, v) := pairs[|pairs| - 1];
        match conv(v)
        case Fail(e) => Fail(e)
        case Ok(x) => Ok(Put(d1, k, x))
  }

  /** The line pairs starting at the lines `idxs`, merged in that order. */
  function PairsAt<V>(d: Dict<string, V>, lines: seq<string>, idxs: seq<nat>, conv: string -> Result<V>): Result<Dict<string, V>>
  {
    if |idxs| == 0 then Ok(d)
    else
      match PairsAt(d, lines, idxs[..|idxs| - 1], conv)
      case Fail(e) => Fail(e)
      case Ok(d1) =>
        match LinePair(lines, idxs[|idxs| - 1])
        case Fail(e) => Fail(e)
        case Ok(p) => PutAll(d1, p, conv)
  }

  /** `read_xi_sect(at)`: the pairs at offsets 0, 2, 4, 6 and 8, as floats. */
  function SectionAt(lines: seq<string>, at: nat, num: string -> Result<real>): Result<Dict<string, real>>
  {
    PairsAt([], lines, [at, at + 2, at + 4, at + 6, at + 8], num)
  }

  /** `'Xisection_{}'.format(k)` */
  function SectionName(k: nat): string
  {
    SECTION_PREFIX + IntToString(k)
  }

  /** `10 * (k + 1)`: the first line of section k. */
  function SectionLine(k: nat): nat
  {
    10 * (k + 1)
  }

  /** The reader of section k: `read_xi_sect(10 * (k + 1))`. */
  function SectionReader(lines: seq<string>, num: string -> Result<real>): nat -> Result<Dict<string, real>>
  {
    (k: nat) => SectionAt(lines, SectionLine(k), num)
  }

  /** The sections 0 .. n-1, section k as `read` gives it. */
  function Sections(d: Dict<string, Entry>, read: nat -> Result<Dict<string, real>>, n: nat): (r: Result<Dict<string, Entry>>)
    ensures r.Fail? ==> exists k :: 0 <= k < n && read(k) == Fail(r.exc)
  {
    if n == 0 then Ok(d)
    else
      match Sections(d, read, n - 1)
      case Fail(e) => Fail(e)
      case Ok(d1) =>
        match read(n - 1)
        case Fail(e) => Fail(e)
        case Ok(s) => Ok(Put(d1, SectionName(n - 1), Section(s)))
  }

  /** `range(int(naero))` has `max(int(naero), 0)` elements. */
  function SectionCount(naero: real): nat
  {
    var n := Trunc(naero);
    if n < 0 then 0 else n
  }

  /** The design parameters as entries of the restart dictionary. */
  function Scalars(d: Dict<string, real>): (r: Dict<string, Entry>)
    ensures |r| == |d| && forall i :: 0 <= i < |d| ==> r[i] == (d[i].0, Scalar(d[i].1))
  {
    seq(|d|, i requires 0 <= i < |d| => (d[i].0, Scalar(d[i].1)))
  }

  // ---------------------------------------------------------------- the geometry table

  /** `geo_d[h] = []` for every header, in order. */
  function EmptyColumns(hs: seq<string>): (r: Dict<string, seq<real>>)
  {
    if |hs| == 0 then [] else Put(EmptyColumns(hs[..|hs| - 1]), hs[|hs| - 1], [])
  }

  /** The column under `k` so far. */
  function Cur(g: Dict<string, seq<real>>, k: string): seq<real>
  {
    match Get(g, k)
    case Some(col) => col
    case None => []
  }

  /** `geo_d[k].append(f)` */
  function Append(g: Dict<string, seq<real>>, k: string, f: real): Dict<string, seq<real>>
  {
    Put(g, k, Cur(g, k) + [f])
  }

  /** The cells `i ..` of a kept row appended to their columns, each
      converted by `num` (`float`, whose ValueError stops the reading). */
  function AppendCells(g: Dict<string, seq<real>>, hs: seq<string>, vals: seq<string>, i: nat, num: string -> Result<real>): Result<Dict<string, seq<real>>>
    requires |vals| == |hs| && i <= |hs|
    decreases |hs| - i
  {
    if i == |hs| then Ok(g)
    else
      match num(vals[i])
      case Fail(e) => Fail(e)
      case Ok(f) => AppendCells(Append(g, hs[i], f), hs, vals, i + 1, num)
  }

  /** The rows of the table: a row is kept exactly when it has as many
      tokens as there are headers. */
  function GeoRows(g: Dict<string, seq<real>>, hs: seq<string>, rows: seq<string>, num: string -> Result<real>): Result<Dict<string, seq<real>>>
  {
    if |rows| == 0 then Ok(g)
    else
      match GeoRows(g, hs, rows[..|rows| - 1], num)
      case Fail(e) => Fail(e)
      case Ok(g1) =>
        var vals := Words(rows[|rows| - 1]);
        if |vals| == |hs| then AppendCells(g1, hs, vals, 0, num) else Ok(g1)
  }

  /** `read_geo_stations(h)`: the header line `h` and every later line. */
  function GeoStations(lines: seq<string>, h: nat, num: string -> Result<real>): Result<Dict<string, seq<real>>>
  {
    if h >= |lines| then Fail(IndexError)
    else
      var hs := Keywords(lines[h]);
      GeoRows(EmptyColumns(hs), hs, lines[h + 1..], num)
  }

  /** `for k, v in geo.items(): d[k] = v` */
  function PutColumns(d: Dict<string, Entry>, g: Dict<string, seq<real>>): Dict<string, Entry>
  {
    if |g| == 0 then d else Put(PutColumns(d, g[..|g| - 1]), g[|g| - 1].0, Column(g[|g| - 1].1))
  }

  // ---------------------------------------------------------------- the reader

  /** The line pair of texts, 10 lines past the last section's first line
      `10 * count`. */
  function TextsLine(count: nat): nat { 10 * count + 10 }

  /** The line pair of integers, 12 lines past it. */
  function CountsLine(count: nat): nat { 10 * count + 12 }

  /** The header line of the geometry table, 14 lines past it. */
  function GeometryLine(count: nat): nat { 10 * count + 14 }

  /** What follows the design parameters: the `count` sections, then the
      texts at 10 lines past the last section, the integers at 12 and the
      geometry table at 14. No section at all is an IndexError (the last
      section's line does not exist). */
  function AfterDesign(d: Dict<string, Entry>, lines: seq<string>, count: nat, num: string -> Result<real>,
                       whole: string -> Result<Entry>): Result<Dict<string, Entry>>
  {
    match Sections(d, SectionReader(lines, num), count)
    case Fail(e) => Fail(e)
    case Ok(d1) =>
      if count == 0 then Fail(IndexError)
      else
        match PairsAt(d1, lines, [TextsLine(count)], AsWord)
        case Fail(e) => Fail(e)
        case Ok(d2) =>
          match PairsAt(d2, lines, [CountsLine(count)], whole)
          case Fail(e) => Fail(e)
          case Ok(d3) =>
            match GeoStations(lines, GeometryLine(count), num)
            case Fail(e) => Fail(e)
            case Ok(g) => Ok(PutColumns(d3, g))
  }

  /** `read_xrotor_restart()` of a file with text `text`: KeyError when the
      design lines name no `Naero`. */
  function Restart(text: string, num: string -> Result<real>, whole: string -> Result<Entry>): Result<Dict<string, Entry>>
  {
    var lines := Lines(text);
    match PairsAt([], lines, DESIGN_LINES, num)
    case Fail(e) => Fail(e)
    case Ok(design) =>
      match Get(design, NAERO)
      case None => Fail(KeyError)
      case Some(naero) =>
        AfterDesign(Scalars(design), lines, SectionCount(naero), num, whole)
  }

  /** `read_xrotor_restart()` itself: `float` for the design and section
      parameters and the table, `int` for the integer line pair. */
  function ReadRestart(text: string): (r: Result<Dict<string, Entry>>)
    ensures r.Ok? ==> |Lines(text)| > GeometryLine(1)
  {
    RestartLength(text, AsFloat, AsCount);
    Restart(text, AsFloat, AsCount)
  }

  // ---------------------------------------------------------------- line pairs

  /** In `dict(zip(ks, vs))` a keyword takes the value beside its last
      occurrence. */
  lemma {:induction false} ZippedGet(ks: seq<string>, vs: seq<string>, n: nat, i: nat)
    requires i < n <= |ks| && n <= |vs|
    requires forall j :: i < j < n ==> ks[j] != ks[i]
    ensures Get(Zipped(ks, vs, n), ks[i]) == Some(vs[i])
  {
    if i < n - 1 {
      ZippedGet(ks, vs, n - 1, i);
      GetPutOther(Zipped(ks, vs, n - 1), ks[n - 1], vs[n - 1], ks[i]);
    }
  }

  /** The merge fails exactly when some value does not convert, with the
      exception of the first such value. */
  lemma {:induction false} PutAllFails<V>(d: Dict<string, V>, pairs: Dict<string, string>, conv: string -> Result<V>)
    ensures PutAll(d, pairs, conv).Fail? <==> exists i :: 0 <= i < |pairs| && conv(pairs[i].1).Fail?
    ensures PutAll(d, pairs, conv).Fail? ==>
              exists i :: 0 <= i < |pairs| && conv(pairs[i].1).Fail? && PutAll(d, pairs, conv).exc == conv(pairs[i].1).exc
    decreases |pairs|
  {
    if |pairs| > 0 {
      var front := pairs[..|pairs| - 1];
      PutAllFails(d, front, conv);
      assert forall i :: 0 <= i < |front| ==> front[i] == pairs[i];
    }
  }

  /** A merge that succeeds sets the key of the last pair naming it to that
      pair's converted value. */
  lemma {:induction false} PutAllSets<V>(d: Dict<string, V>, pairs: Dict<string, string>, conv: string -> Result<V>, i: nat)
    requires PutAll(d, pairs, conv).Ok? && i < |pairs|
    requires forall j :: i < j < |pairs| ==> pairs[j].0 != pairs[i].0
    ensures conv(pairs[i].1).Ok? && Get(PutAll(d, pairs, conv).value, pairs[i].0) == Some(conv(pairs[i].1).value)
    decreases |pairs|
  {
    var front := pairs[..|pairs| - 1];
    var last := pairs[|pairs| - 1];
    var d1 := PutAll(d, front, conv);
    assert d1.Ok? && conv(last.1).Ok?;
    assert PutAll(d, pairs, conv).value == Put(d1.value, last.0, conv(last.1).value);
    if i < |pairs| - 1 {
      assert front[i] == pairs[i];
      PutAllSets(d, front, conv, i);
      GetPutOther(d1.value, last.0, conv(last.1).value, pairs[i].0);
    }
  }

  /** A merge that succeeds leaves every key no pair names as it was. */
  lemma {:induction false} PutAllKeeps<V>(d: Dict<string, V>, pairs: Dict<string, string>, conv: string -> Result<V>, k: string)
    requires PutAll(d, pairs, conv).Ok? && !HasKey(pairs, k)
    ensures Get(PutAll(d, pairs, conv).value, k) == Get(d, k)
    decreases |pairs|
  {
    if |pairs| > 0 {
      var front := pairs[..|pairs| - 1];
      var last := pairs[|pairs| - 1];
      assert last.0 != k;
      assert !HasKey(front, k) by {
        forall i | 0 <= i < |front| ensures front[i].0 != k { assert front[i] == pairs[i]; }
      }
      PutAllKeeps(d, front, conv, k);
      GetPutOther(PutAll(d, front, conv).value, last.0, conv(last.1).value, k);
    }
  }

  // ---------------------------------------------------------------- sections

  /** Different section numbers give different names. */
  lemma SectionNamesDiffer(j: nat, k: nat)
    requires j != k
    ensures SectionName(j) != SectionName(k)
  {
    assert IntToString(j) == SectionName(j)[|SECTION_PREFIX|..];
    assert IntToString(k) == SectionName(k)[|SECTION_PREFIX|..];
    ParseIntOfString(j);
    ParseIntOfString(k);
  }

  /** Every one of the first `n` sections reads. */
  predicate AllRead(read: nat -> Result<Dict<string, real>>, n: nat)
  {
    forall k: nat :: k < n ==> read(k).Ok?
  }

  /** Reading the sections succeeds exactly when every one of them reads. */
  lemma {:induction false} SectionsFail(d: Dict<string, Entry>, read: nat -> Result<Dict<string, real>>, n: nat)
    ensures Sections(d, read, n).Ok? <==> AllRead(read, n)
  {
    if n > 0 {
      SectionsFail(d, read, n - 1);
      assert Sections(d, read, n).Ok? <==> Sections(d, read, n - 1).Ok? && read(n - 1).Ok?;
      assert AllRead(read, n) <==> AllRead(read, n - 1) && read(n - 1).Ok?;
    }
  }

  /** Section k is stored under `Xisection_k`. */
  lemma {:induction false} SectionStored(d: Dict<string, Entry>, read: nat -> Result<Dict<string, real>>, n: nat, k: nat)
    requires Sections(d, read, n).Ok? && k < n
    ensures read(k).Ok? && Get(Sections(d, read, n).value, SectionName(k)) == Some(Section(read(k).value))
  {
    var d1 := Sections(d, read, n - 1);
    assert d1.Ok? && read(n - 1).Ok?;
    assert Sections(d, read, n).value == Put(d1.value, SectionName(n - 1), Section(read(n - 1).value));
    if k < n - 1 {
      SectionStored(d, read, n - 1, k);
      SectionNamesDiffer(k, n - 1);
      GetPutOther(d1.value, SectionName(n - 1), Section(read(n - 1).value), SectionName(k));
    }
  }

  /** Every key that is not a section name keeps its value. */
  lemma {:induction false} SectionsKeep(d: Dict<string, Entry>, read: nat -> Result<Dict<string, real>>, n: nat, key: string)
    requires Sections(d, read, n).Ok?
    requires forall k :: 0 <= k < n ==> key != SectionName(k)
    ensures Get(Sections(d, read, n).value, key) == Get(d, key)
  {
    if n > 0 {
      var d1 := Sections(d, read, n - 1);
      assert d1.Ok? && read(n - 1).Ok?;
      assert Sections(d, read, n).value == Put(d1.value, SectionName(n - 1), Section(read(n - 1).value));
      SectionsKeep(d, read, n - 1, key);
      GetPutOther(d1.value, SectionName(n - 1), Section(read(n - 1).value), key);
    }
  }

  // ---------------------------------------------------------------- geometry columns

  /** The token lists of the rows the table keeps: those with `w` tokens. */
  function Kept(rows: seq<string>, w: nat): (r: seq<seq<string>>)
    ensures forall j :: 0 <= j < |r| ==> |r[j]| == w
  {
    if |rows| == 0 then []
    else
      var vals := Words(rows[|rows| - 1]);
      Kept(rows[..|rows| - 1], w) + (if |vals| == w then [vals] else [])
  }

  /** Column `i` of the kept rows. */
  function ColumnTexts(kept: seq<seq<string>>, i: nat): (r: seq<string>)
    requires forall j :: 0 <= j < |kept| ==> i < |kept[j]|
    ensures |r| == |kept| && forall j :: 0 <= j < |kept| ==> r[j] == kept[j][i]
  {
    seq(|kept|, j requires 0 <= j < |kept| => kept[j][i])
  }

  /** `vals` are the floats of `texts`, one for one. */
  predicate Parsed(texts: seq<string>, vals: seq<real>, num: string -> Result<real>)
  {
    |texts| == |vals| && forall j :: 0 <= j < |texts| ==> num(texts[j]) == Ok(vals[j])
  }


  /** Every header's column holds the floats of its column of `kept`. */
  predicate Columns(g: Dict<string, seq<real>>, hs: seq<string>, kept: seq<seq<string>>, num: string -> Result<real>)
    requires forall j :: 0 <= j < |kept| ==> |kept[j]| == |hs|
  {
    forall i :: 0 <= i < |hs| ==> HasKey(g, hs[i]) && Parsed(ColumnTexts(kept, i), Cur(g, hs[i]), num)
  }

  /** Every header starts with an empty column. */
  lemma {:induction false} EmptyColumnsGet(hs: seq<string>, i: nat)
    requires Distinct(hs) && i < |hs|
    ensures Get(EmptyColumns(hs), hs[i]) == Some([])
  {
    var front := hs[..|hs| - 1];
    if i < |hs| - 1 {
      assert front[i] == hs[i];
      EmptyColumnsGet(front, i);
      GetPutOther(EmptyColumns(front), hs[|hs| - 1], [], hs[i]);
    }
  }

  /** Appending the first `n` cells of a row grows the column of each of
      the first `n` headers by its cell's value. */
  lemma {:induction false} AppendCellsGrow(g: Dict<string, seq<real>>, hs: seq<string>, vals: seq<string>, i0: nat, num: string -> Result<real>, i: nat)
    requires Distinct(hs) && |vals| == |hs| && i0 <= i < |hs|
    requires AppendCells(g, hs, vals, i0, num).Ok?
    ensures var g' := AppendCells(g, hs, vals, i0, num).value;
      num(vals[i]).Ok? && HasKey(g', hs[i]) && Cur(g', hs[i]) == Cur(g, hs[i]) + [num(vals[i]).value]
    decreases |hs| - i0
  {
    assert num(vals[i0]).Ok?;
    var col := Cur(g, hs[i0]) + [num(vals[i0]).value];
    var g1 := Put(g, hs[i0], col);
    assert AppendCells(g, hs, vals, i0, num) == AppendCells(g1, hs, vals, i0 + 1, num);
    if i == i0 {
      AppendCellsKeep(g1, hs, vals, i0 + 1, num, i);
    } else {
      AppendCellsGrow(g1, hs, vals, i0 + 1, num, i);
      GetPutOther(g, hs[i0], col, hs[i]);
    }
  }

  /** ... and leaves the columns of the earlier headers as they were. */
  lemma {:induction false} AppendCellsKeep(g: Dict<string, seq<real>>, hs: seq<string>, vals: seq<string>, i0: nat, num: string -> Result<real>, i: nat)
    requires Distinct(hs) && |vals| == |hs| && i < i0 <= |hs|
    requires AppendCells(g, hs, vals, i0, num).Ok?
    ensures Get(AppendCells(g, hs, vals, i0, num).value, hs[i]) == Get(g, hs[i])
    decreases |hs| - i0
  {
    if i0 < |hs| {
      assert num(vals[i0]).Ok?;
      var col := Cur(g, hs[i0]) + [num(vals[i0]).value];
      assert AppendCells(g, hs, vals, i0, num) == AppendCells(Put(g, hs[i0], col), hs, vals, i0 + 1, num);
      AppendCellsKeep(Put(g, hs[i0], col), hs, vals, i0 + 1, num, i);
      GetPutOther(g, hs[i0], col, hs[i]);
    }
  }

  /** A kept row extends every column by its cell. */
  lemma RowKept(g: Dict<string, seq<real>>, hs: seq<string>, kept: seq<seq<string>>, vals: seq<string>, num: string -> Result<real>)
    requires Distinct(hs) && |vals| == |hs| && forall j :: 0 <= j < |kept| ==> |kept[j]| == |hs|
    requires Columns(g, hs, kept, num) && AppendCells(g, hs, vals, 0, num).Ok?
    ensures Columns(AppendCells(g, hs, vals, 0, num).value, hs, kept + [vals], num)
  {
    var g' := AppendCells(g, hs, vals, 0, num).value;
    forall i | 0 <= i < |hs|
      ensures HasKey(g', hs[i]) && Parsed(ColumnTexts(kept + [vals], i), Cur(g', hs[i]), num)
    {
      AppendCellsGrow(g, hs, vals, 0, num, i);
      ColumnSnoc(kept, vals, i);
      ParsedSnoc(ColumnTexts(kept, i), Cur(g, hs[i]), vals[i], num(vals[i]).value, num);
    }
  }

  lemma ColumnSnoc(kept: seq<seq<string>>, vals: seq<string>, i: nat)
    requires i < |vals| && forall j :: 0 <= j < |kept| ==> i < |kept[j]|
    ensures ColumnTexts(kept + [vals], i) == ColumnTexts(kept, i) + [vals[i]]
  {
  }

  lemma ParsedSnoc(texts: seq<string>, vals: seq<real>, t: string, v: real, num: string -> Result<real>)
    requires Parsed(texts, vals, num) && num(t) == Ok(v)
    ensures Parsed(texts + [t], vals + [v], num)
  {
  }

  /** A row with as many tokens as headers is appended to every column;
      any other row is skipped. */
  lemma GeoRowsLast(g: Dict<string, seq<real>>, hs: seq<string>, rows: seq<string>, num: string -> Result<real>)
    requires |rows| > 0 && GeoRows(g, hs, rows[..|rows| - 1], num).Ok?
    ensures var vals := Words(rows[|rows| - 1]);
      var g1 := GeoRows(g, hs, rows[..|rows| - 1], num).value;
      GeoRows(g, hs, rows, num) == (if |vals| == |hs| then AppendCells(g1, hs, vals, 0, num) else Ok(g1))
      && Kept(rows, |hs|) == Kept(rows[..|rows| - 1], |hs|) + (if |vals| == |hs| then [vals] else [])
  {
  }

  /** One more row: if the columns hold the kept rows before it, they hold
      the kept rows through it. */
  lemma GeoRowsStep(g: Dict<string, seq<real>>, hs: seq<string>, rows: seq<string>, num: string -> Result<real>)
    requires Distinct(hs) && |rows| > 0 && GeoRows(g, hs, rows, num).Ok?
    requires GeoRows(g, hs, rows[..|rows| - 1], num).Ok?
    requires Columns(GeoRows(g, hs, rows[..|rows| - 1], num).value, hs, Kept(rows[..|rows| - 1], |hs|), num)
    ensures Columns(GeoRows(g, hs, rows, num).value, hs, Kept(rows, |hs|), num)
  {
    GeoRowsLast(g, hs, rows, num);
    var vals := Words(rows[|rows| - 1]);
    if |vals| == |hs| {
      RowKept(GeoRows(g, hs, rows[..|rows| - 1], num).value, hs, Kept(rows[..|rows| - 1], |hs|), vals, num);
    }
  }

  /** Reading the rows: each header's column holds, in order, the values of
      its column of the kept rows. */
  lemma {:induction false} GeoRowsColumns(g: Dict<string, seq<real>>, hs: seq<string>, rows: seq<string>, num: string -> Result<real>)
    requires Distinct(hs) && Columns(g, hs, [], num) && GeoRows(g, hs, rows, num).Ok?
    ensures Columns(GeoRows(g, hs, rows, num).value, hs, Kept(rows, |hs|), num)
  {
    if |rows| > 0 {
      assert GeoRows(g, hs, rows[..|rows| - 1], num).Ok?;
      GeoRowsColumns(g, hs, rows[..|rows| - 1], num);
      GeoRowsStep(g, hs, rows, num);
    }
  }

  /** `read_geo_stations`: with distinct headers, each header's column is
      the list of the floats in its position of the rows that have as many
      tokens as there are headers, in file order. */
  lemma GeoStationsColumns(lines: seq<string>, h: nat, num: string -> Result<real>)
    requires h < |lines| && Distinct(Keywords(lines[h])) && GeoStations(lines, h, num).Ok?
    ensures var hs := Keywords(lines[h]);
      Columns(GeoStations(lines, h, num).value, hs, Kept(lines[h + 1..], |hs|), num)
  {
    var hs := Keywords(lines[h]);
    forall i | 0 <= i < |hs|
      ensures HasKey(EmptyColumns(hs), hs[i]) && Parsed(ColumnTexts([], i), Cur(EmptyColumns(hs), hs[i]), num)
    {
      EmptyColumnsGet(hs, i);
    }
    GeoRowsColumns(EmptyColumns(hs), hs, lines[h + 1..], num);
  }

  // ---------------------------------------------------------------- the whole file

  /** After `for k, v in geo.items(): d[k] = v` every column is stored under
      its header and every other key keeps its value. */
  lemma {:induction false} PutColumnsGet(d: Dict<string, Entry>, g: Dict<string, seq<real>>, k: string)
    requires NoDupKeys(g)
    ensures Get(PutColumns(d, g), k) == if HasKey(g, k) then Some(Column(Get(g, k).value)) else Get(d, k)
  {
    if |g| > 0 {
      var front, last := g[..|g| - 1], g[|g| - 1];
      assert g == front + [last];
      PutColumnsGet(d, front, k);
      GetConcat(front, [last], k);
      if k == last.0 {
        assert !HasKey(front, k);
      } else {
        GetPutOther(PutColumns(d, front), last.0, Column(last.1), k);
      }
    }
  }

  /** Design lines that name no `Naero` make the reading raise KeyError. */
  lemma RestartWithoutNaero(text: string, num: string -> Result<real>, whole: string -> Result<Entry>)
    requires PairsAt([], Lines(text), DESIGN_LINES, num).Ok?
    requires !HasKey(PairsAt([], Lines(text), DESIGN_LINES, num).value, NAERO)
    ensures Restart(text, num, whole) == Fail(KeyError)
  {
  }

  /** A `Naero` below 1 leaves no section, and the reading raises IndexError. */
  lemma RestartWithoutSections(text: string, naero: real, num: string -> Result<real>, whole: string -> Result<Entry>)
    requires PairsAt([], Lines(text), DESIGN_LINES, num).Ok?
    requires Get(PairsAt([], Lines(text), DESIGN_LINES, num).value, NAERO) == Some(naero)
    requires naero < 1.0
    ensures Restart(text, num, whole) == Fail(IndexError)
  {
  }

  /** The columns the table reading builds have no repeated header. */
  lemma {:induction false} EmptyColumnsNoDup(hs: seq<string>)
    ensures NoDupKeys(EmptyColumns(hs))
  {
    if |hs| > 0 {
      EmptyColumnsNoDup(hs[..|hs| - 1]);
      PutNoDup(EmptyColumns(hs[..|hs| - 1]), hs[|hs| - 1], []);
    }
  }

  lemma {:induction false} AppendCellsNoDup(g: Dict<string, seq<real>>, hs: seq<string>, vals: seq<string>, i: nat, num: string -> Result<real>)
    requires |vals| == |hs| && i <= |hs| && NoDupKeys(g) && AppendCells(g, hs, vals, i, num).Ok?
    ensures NoDupKeys(AppendCells(g, hs, vals, i, num).value)
    decreases |hs| - i
  {
    if i < |hs| {
      var col := Cur(g, hs[i]) + [num(vals[i]).value];
      PutNoDup(g, hs[i], col);
      AppendCellsNoDup(Put(g, hs[i], col), hs, vals, i + 1, num);
    }
  }

  lemma {:induction false} GeoRowsNoDup(g: Dict<string, seq<real>>, hs: seq<string>, rows: seq<string>, num: string -> Result<real>)
    requires NoDupKeys(g) && GeoRows(g, hs, rows, num).Ok?
    ensures NoDupKeys(GeoRows(g, hs, rows, num).value)
  {
    if |rows| > 0 {
      var front := rows[..|rows| - 1];
      assert GeoRows(g, hs, front, num).Ok?;
      GeoRowsNoDup(g, hs, front, num);
      if |Words(rows[|rows| - 1])| == |hs| {
        AppendCellsNoDup(GeoRows(g, hs, front, num).value, hs, Words(rows[|rows| - 1]), 0, num);
      }
    }
  }

  /** Every column of `g` is stored, as a column entry, under its header. */
  ghost predicate ColumnsIn(r: Dict<string, Entry>, g: Dict<string, seq<real>>)
  {
    forall k :: HasKey(g, k) ==> Get(r, k) == Some(Column(Get(g, k).value))
  }

  /** What follows the design parameters, when it reads: at least one
      section, and the geometry table read from 14 lines past the last
      section's first line, each of whose columns ends up under its header. */
  lemma AfterDesignColumns(d: Dict<string, Entry>, lines: seq<string>, count: nat, num: string -> Result<real>, whole: string -> Result<Entry>)
    requires AfterDesign(d, lines, count, num, whole).Ok?
    ensures count >= 1 && GeoStations(lines, GeometryLine(count), num).Ok?
    ensures var g := GeoStations(lines, GeometryLine(count), num).value;
      ColumnsIn(AfterDesign(d, lines, count, num, whole).value, g)
  {
    match Sections(d, SectionReader(lines, num), count)
    case Fail(_) =>
    case Ok(d1) =>
      match PairsAt(d1, lines, [TextsLine(count)], AsWord)
      case Fail(_) =>
      case Ok(d2) =>
        match PairsAt(d2, lines, [CountsLine(count)], whole)
        case Fail(_) =>
        case Ok(d3) =>
          match GeoStations(lines, GeometryLine(count), num)
          case Fail(_) =>
          case Ok(g) =>
            assert AfterDesign(d, lines, count, num, whole) == Ok(PutColumns(d3, g));
            TableColumns(d3, lines, GeometryLine(count), num);
  }

  /** The columns of a table that reads all end up under their headers. */
  lemma TableColumns(d: Dict<string, Entry>, lines: seq<string>, h: nat, num: string -> Result<real>)
    requires GeoStations(lines, h, num).Ok?
    ensures var g := GeoStations(lines, h, num).value;
      ColumnsIn(PutColumns(d, g), g)
  {
    var g := GeoStations(lines, h, num).value;
    var hs := Keywords(lines[h]);
    EmptyColumnsNoDup(hs);
    GeoRowsNoDup(EmptyColumns(hs), hs, lines[h + 1..], num);
    forall k | HasKey(g, k)
      ensures Get(PutColumns(d, g), k) == Some(Column(Get(g, k).value))
    {
      PutColumnsGet(d, g, k);
    }
  }

  /** Every header of the table holds, in the restart dictionary, the
      column of floats of its column of `kept`. */
  predicate Stored(r: Dict<string, Entry>, hs: seq<string>, kept: seq<seq<string>>, num: string -> Result<real>)
    requires forall j :: 0 <= j < |kept| ==> |kept[j]| == |hs|
  {
    forall i :: 0 <= i < |hs| ==>
      var e := Get(r, hs[i]);
      e.Some? && e.value.Column? && Parsed(ColumnTexts(kept, i), e.value.vals, num)
  }

  lemma StoredOfColumns(r: Dict<string, Entry>, g: Dict<string, seq<real>>, hs: seq<string>, kept: seq<seq<string>>, num: string -> Result<real>)
    requires forall j :: 0 <= j < |kept| ==> |kept[j]| == |hs|
    requires Columns(g, hs, kept, num)
    requires ColumnsIn(r, g)
    ensures Stored(r, hs, kept, num)
  {
    forall i | 0 <= i < |hs|
      ensures Get(r, hs[i]) == Some(Column(Cur(g, hs[i])))
    {
      assert HasKey(g, hs[i]);
    }
  }

  lemma HeaderExists(lines: seq<string>, h: nat, num: string -> Result<real>)
    requires GeoStations(lines, h, num).Ok?
    ensures h < |lines|
  {
  }

  /** A restart file whose design lines read is read on by `AfterDesign`
      with as many sections as `Naero` truncates to. */
  lemma RestartStages(text: string, naero: real, num: string -> Result<real>, whole: string -> Result<Entry>)
    requires PairsAt([], Lines(text), DESIGN_LINES, num).Ok?
    requires Get(PairsAt([], Lines(text), DESIGN_LINES, num).value, NAERO) == Some(naero)
    ensures var design := PairsAt([], Lines(text), DESIGN_LINES, num).value;
      Restart(text, num, whole) == AfterDesign(Scalars(design), Lines(text), SectionCount(naero), num, whole)
  {
  }

  /** A restart file that reads through `AfterDesign` with `count` sections
      has at least one section, its geometry header line, 14 lines past the
      last section's first line, exists, and every column of the table read
      from there is stored under its header. */
  lemma RestartGeometry(text: string, design: Dict<string, real>, count: nat, num: string -> Result<real>, whole: string -> Result<Entry>)
    requires Restart(text, num, whole) == AfterDesign(Scalars(design), Lines(text), count, num, whole)
    requires Restart(text, num, whole).Ok?
    ensures count >= 1 && GeometryLine(count) < |Lines(text)|
    ensures GeoStations(Lines(text), GeometryLine(count), num).Ok?
    ensures ColumnsIn(Restart(text, num, whole).value, GeoStations(Lines(text), GeometryLine(count), num).value)
  {
    AfterDesignColumns(Scalars(design), Lines(text), count, num, whole);
    HeaderExists(Lines(text), GeometryLine(count), num);
  }

  /** A file that reads has at least one section, so it reaches at least
      the geometry header of a one-section file. */
  lemma RestartLength(text: string, num: string -> Result<real>, whole: string -> Result<Entry>)
    ensures Restart(text, num, whole).Ok? ==> |Lines(text)| > GeometryLine(1)
  {
    if Restart(text, num, whole).Ok? {
      var design := PairsAt([], Lines(text), DESIGN_LINES, num).value;
      var naero := Get(design, NAERO).value;
      RestartStages(text, naero, num, whole);
      RestartGeometry(text, design, SectionCount(naero), num, whole);
    }
  }

  // ---------------------------------------------------------------- the reader, step by step

  /** Once a prefix of the pairs fails to convert, so do all of them. */
  lemma {:induction false} PutAllStops<V>(d: Dict<string, V>, pairs: Dict<string, string>, conv: string -> Result<V>, i: nat)
    requires i <= |pairs| && PutAll(d, pairs[..i], conv).Fail?
    ensures PutAll(d, pairs, conv) == PutAll(d, pairs[..i], conv)
    decreases |pairs| - i
  {
    if i < |pairs| {
      assert pairs[..i + 1][..i] == pairs[..i];
      PutAllStops(d, pairs, conv, i + 1);
    } else {
      assert pairs[..i] == pairs;
    }
  }

  /** `for k, v in pairs.items(): d[k] = conv(v)` */
  method MergePairs<V>(d: Dict<string, V>, pairs: Dict<string, string>, conv: string -> Result<V>) returns (r: Result<Dict<string, V>>)
    ensures r == PutAll(d, pairs, conv)
  {
    var acc := d;
    var i := 0;
    while i < |pairs|
      invariant i <= |pairs| && PutAll(d, pairs[..i], conv) == Ok(acc)
    {
      assert pairs[..i + 1][..i] == pairs[..i];
      var (k, v) := pairs[i];
      match conv(v)
      case Fail(e) =>
        PutAllStops(d, pairs, conv, i + 1);
        return Fail(e);
      case Ok(x) =>
        acc := Put(acc, k, x);
      i := i + 1;
    }
    assert pairs[..i] == pairs;
    return Ok(acc);
  }

  /** `dict(zip(ks, vs))`, built pair by pair. */
  method Zip(ks: seq<string>, vs: seq<string>) returns (pairs: Dict<string, string>)
    ensures pairs == Zipped(ks, vs, Min(|ks|, |vs|))
  {
    pairs := [];
    var n, j := Min(|ks|, |vs|), 0;
    while j < n
      invariant j <= n && pairs == Zipped(ks, vs, j)
    {
      assert Zipped(ks, vs, j + 1) == Put(Zipped(ks, vs, j), ks[j], vs[j]);
      pairs := Put(pairs, ks[j], vs[j]);
      j := j + 1;
    }
  }

  /** `read_line_pair(i)` */
  method ReadLinePair(lines: seq<string>, i: nat) returns (r: Result<Dict<string, string>>)
    ensures r == LinePair(lines, i)
  {
    if i + 1 >= |lines| {
      return Fail(IndexError);
    }
    var pairs := Zip(Keywords(lines[i]), Words(lines[i + 1]));
    return Ok(pairs);
  }

  lemma {:induction false} PairsAtStops<V>(d: Dict<string, V>, lines: seq<string>, idxs: seq<nat>, conv: string -> Result<V>, i: nat)
    requires i <= |idxs| && PairsAt(d, lines, idxs[..i], conv).Fail?
    ensures PairsAt(d, lines, idxs, conv) == PairsAt(d, lines, idxs[..i], conv)
    decreases |idxs| - i
  {
    if i < |idxs| {
      assert idxs[..i + 1][..i] == idxs[..i];
      PairsAtStops(d, lines, idxs, conv, i + 1);
    } else {
      assert idxs[..i] == idxs;
    }
  }

  /** The line pairs at `idxs` merged into `d` one after the other, as the
      design-parameter loop and `read_xi_sect` do. */
  method ReadPairsAt<V>(d: Dict<string, V>, lines: seq<string>, idxs: seq<nat>, conv: string -> Result<V>) returns (r: Result<Dict<string, V>>)
    ensures r == PairsAt(d, lines, idxs, conv)
  {
    var acc := d;
    var i := 0;
    while i < |idxs|
      invariant i <= |idxs| && PairsAt(d, lines, idxs[..i], conv) == Ok(acc)
    {
      assert idxs[..i + 1][..i] == idxs[..i];
      var pair := ReadLinePair(lines, idxs[i]);
      if pair.Fail? {
        PairsAtStops(d, lines, idxs, conv, i + 1);
        return Fail(pair.exc);
      }
      var merged := MergePairs(acc, pair.value, conv);
      if merged.Fail? {
        PairsAtStops(d, lines, idxs, conv, i + 1);
        return merged;
      }
      acc := merged.value;
      i := i + 1;
    }
    assert idxs[..i] == idxs;
    return Ok(acc);
  }

  lemma {:induction false} SectionsStops(d: Dict<string, Entry>, read: nat -> Result<Dict<string, real>>, n: nat, k: nat)
    requires k <= n && Sections(d, read, k).Fail?
    ensures Sections(d, read, n) == Sections(d, read, k)
  {
    if k < n {
      SectionsStops(d, read, n - 1, k);
    }
  }

  /** `read_xi_sect(at)` */
  method ReadSection(lines: seq<string>, at: nat, num: string -> Result<real>) returns (r: Result<Dict<string, real>>)
    ensures r == SectionAt(lines, at, num)
  {
    r := ReadPairsAt([], lines, [at, at + 2, at + 4, at + 6, at + 8], num);
  }

  /** `for sect_idx, ln_idx in enumerate(xi_lines): d['Xisection_{}'.format(sect_idx)] = read_xi_sect(ln_idx)` */
  method ReadSections(d: Dict<string, Entry>, lines: seq<string>, count: nat, num: string -> Result<real>) returns (r: Result<Dict<string, Entry>>)
    ensures r == Sections(d, SectionReader(lines, num), count)
  {
    var acc := d;
    var k := 0;
    while k < count
      invariant k <= count && Sections(d, SectionReader(lines, num), k) == Ok(acc)
    {
      var sect := ReadSection(lines, SectionLine(k), num);
      assert sect == SectionReader(lines, num)(k);
      if sect.Fail? {
        SectionsStops(d, SectionReader(lines, num), count, k + 1);
        return Fail(sect.exc);
      }
      acc := Put(acc, SectionName(k), Section(sect.value));
      k := k + 1;
    }
    return Ok(acc);
  }

  /** `for i, val in enumerate(vals): geo_d[headers[i]].append(float(val))` */
  method AppendRow(g: Dict<string, seq<real>>, hs: seq<string>, vals: seq<string>, num: string -> Result<real>) returns (r: Result<Dict<string, seq<real>>>)
    requires |vals| == |hs|
    ensures r == AppendCells(g, hs, vals, 0, num)
  {
    var acc := g;
    for i := 0 to |hs|
      invariant AppendCells(g, hs, vals, 0, num) == AppendCells(acc, hs, vals, i, num)
    {
      var f := num(vals[i]);
      if f.Fail? {
        return Fail(f.exc);
      }
      acc := Append(acc, hs[i], f.value);
    }
    return Ok(acc);
  }

  lemma {:induction false} GeoRowsStops(g: Dict<string, seq<real>>, hs: seq<string>, rows: seq<string>, num: string -> Result<real>, i: nat)
    requires i <= |rows| && GeoRows(g, hs, rows[..i], num).Fail?
    ensures GeoRows(g, hs, rows, num) == GeoRows(g, hs, rows[..i], num)
    decreases |rows| - i
  {
    if i < |rows| {
      assert rows[..i + 1][..i] == rows[..i];
      GeoRowsStops(g, hs, rows, num, i + 1);
    } else {
      assert rows[..i] == rows;
    }
  }

  /** The row loop of `read_geo_stations`: a row with as many tokens as
      there are headers is appended, any other row skipped. */
  method ReadRows(g: Dict<string, seq<real>>, hs: seq<string>, rows: seq<string>, num: string -> Result<real>) returns (r: Result<Dict<string, seq<real>>>)
    ensures r == GeoRows(g, hs, rows, num)
  {
    var acc := g;
    var i := 0;
    while i < |rows|
      invariant i <= |rows| && GeoRows(g, hs, rows[..i], num) == Ok(acc)
    {
      assert rows[..i + 1][..i] == rows[..i];
      var vals := Words(rows[i]);
      if |vals| == |hs| {
        var row := AppendRow(acc, hs, vals, num);
        if row.Fail? {
          GeoRowsStops(g, hs, rows, num, i + 1);
          return row;
        }
        acc := row.value;
      }
      i := i + 1;
    }
    assert rows[..i] == rows;
    return Ok(acc);
  }

  /** `read_geo_stations(h)`: an empty column per header, then the rows. */
  method ReadGeoStations(lines: seq<string>, h: nat, num: string -> Result<real>) returns (r: Result<Dict<string, seq<real>>>)
    ensures r == GeoStations(lines, h, num)
  {
    if h >= |lines| {
      return Fail(IndexError);
    }
    var hs := Keywords(lines[h]);
    var g: Dict<string, seq<real>> := [];
    var j := 0;
    while j < |hs|
      invariant j <= |hs| && g == EmptyColumns(hs[..j])
    {
      assert hs[..j + 1][..j] == hs[..j];
      g := Put(g, hs[j], []);
      j := j + 1;
    }
    assert hs[..j] == hs;
    r := ReadRows(g, hs, lines[h + 1..], num);
  }

  /** `for k, v in geo.items(): d[k] = v` */
  method MergeColumns(d: Dict<string, Entry>, g: Dict<string, seq<real>>) returns (r: Dict<string, Entry>)
    ensures r == PutColumns(d, g)
  {
    r := d;
    var i := 0;
    while i < |g|
      invariant i <= |g| && r == PutColumns(d, g[..i])
    {
      assert g[..i + 1][..i] == g[..i];
      r := Put(r, g[i].0, Column(g[i].1));
      i := i + 1;
    }
    assert g[..i] == g;
  }

  /** `read_xrotor_restart()` of a file with text `text`. */
  method ReadXrotorRestart(text: string) returns (r: Result<Dict<string, Entry>>)
    ensures r == ReadRestart(text)
  {
    var lines := Lines(text);
    var design := ReadPairsAt([], lines, DESIGN_LINES, AsFloat);
    if design.Fail? {
      return Fail(design.exc);
    }
    var naero := Get(design.value, NAERO);
    if naero.None? {
      return Fail(KeyError);
    }
    var count := SectionCount(naero.value);
    r := ReadAfterDesign(Scalars(design.value), lines, count, AsFloat, AsCount);
  }

  /** The sections, the text and integer line pairs and the geometry table. */
  method ReadAfterDesign(d: Dict<string, Entry>, lines: seq<string>, count: nat, num: string -> Result<real>,
                         whole: string -> Result<Entry>) returns (r: Result<Dict<string, Entry>>)
    ensures r == AfterDesign(d, lines, count, num, whole)
  {
    var d1 := ReadSections(d, lines, count, num);
    if d1.Fail? {
      assert AfterDesign(d, lines, count, num, whole) == Fail(d1.exc);
      return Fail(d1.exc);
    }
    if count == 0 {
      return Fail(IndexError);
    }
    var d2 := ReadPairsAt(d1.value, lines, [TextsLine(count)], AsWord);
    if d2.Fail? {
      assert AfterDesign(d, lines, count, num, whole) == Fail(d2.exc);
      return Fail(d2.exc);
    }
    var d3 := ReadPairsAt(d2.value, lines, [CountsLine(count)], whole);
    if d3.Fail? {
      assert AfterDesign(d, lines, count, num, whole) == Fail(d3.exc);
      return Fail(d3.exc);
    }
    var g := ReadGeoStations(lines, GeometryLine(count), num);
    if g.Fail? {
      assert AfterDesign(d, lines, count, num, whole) == Fail(g.exc);
      return Fail(g.exc);
    }
    var merged := MergeColumns(d3.value, g.value);
    assert AfterDesign(d, lines, count, num, whole) == Ok(PutColumns(d3.value, g.value));
    return Ok(merged);
  }
}
