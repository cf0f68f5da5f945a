// The package's own polar archive (funcs.py): one block per
// (Re, Mach, Ncrit) condition, holding one `key: (v1, v2, ...)` line per
// array field, written by `save_polar_data_file` and read back by
// `read_polar_data_file`.

module PolarArchive {
  import opened Wrappers
  import opened Text
  import opened Numbers
  import opened Dicts
  import opened PolarFiles
  import MetaFile

  /** The key of a block: Reynolds number, Mach number, Ncrit. */
  type Cond = (int, real, int)

  /** The polars of one airfoil, in insertion order. */
  type Archive = Dict<Cond, Polar>

  /** The key of a block while the reader still holds it as text. */
  type TextKey = (string, string, string)

  const DEFAULT_NAME := "unnamed airfoil"
  const STARS := "*****"
  const PAIR_SEP := ": "
  const ITEM_SEP := ", "
  const EQ_SEP := " = "
  const RE_LABEL := "Re"
  const MACH_LABEL := "Mach"
  const NCRIT_LABEL := "nCrit"
  const NAME_KEY := "name"
  const RE_KEY := "re"
  const MACH_KEY := "mach"
  const NCRIT_KEY := "ncrit"

  // ================================================================ writing

  /** `name` falls back to the default when it is None or empty. */
  function NameText(name: Option<string>): (r: string)
    ensures name.Some? && name.value != "" ==> r == name.value
  {
    if name.None? || name.value == "" then DEFAULT_NAME else name.value
  }

  /** `label = value` */
  function Assign(lhs: string, val: string): string
  {
    lhs + EQ_SEP + val
  }

  /** The three assignments of a block header, comma separated. */
  function HeaderBody(k: Cond, repr: real -> string): string
  {
    Join([Assign(RE_LABEL, IntToString(k.0)), Assign(MACH_LABEL, repr(k.1)),
          Assign(NCRIT_LABEL, IntToString(k.2))], ITEM_SEP)
  }

  /** `***** Re = {}, Mach = {}, nCrit = {} *****`; `repr` is Python's
      text of a float. */
  function HeaderLine(k: Cond, repr: real -> string): string
  {
    STARS + " " + HeaderBody(k, repr) + " " + STARS
  }

  /** The text numpy gives one element of a `CL/CD` array. */
  function QuotientText(q: Quotient, repr: real -> string): string
  {
    match q
    case Finite(v) => repr(v)
    case Infinite(neg) => if neg then "-inf" else "inf"
    case NotANumber => "nan"
  }

  /** The element texts of an array value; None for the values the writer
      skips, which are those that are not numpy arrays. */
  function ArrayTexts(v: PolarValue, repr: real -> string): (r: Option<seq<string>>)
    ensures r.Some? <==> v.Reals? || v.Ratios?
    ensures v.Reals? ==> r == Some(MetaFile.Reprs(v.xs, repr))
  {
    match v
    case Reals(xs) => Some(MetaFile.Reprs(xs, repr))
    case Ratios(qs) => Some(seq(|qs|, i requires 0 <= i < |qs| => QuotientText(qs[i], repr)))
    case _ => None
  }

  /** `str(tuple(a))`: a one-element tuple carries a trailing comma. */
  function TupleText(ts: seq<string>): string
  {
    "(" + (if |ts| == 1 then ts[0] + "," else Join(ts, ITEM_SEP)) + ")"
  }

  /** `{key}: {tuple}` */
  function FieldLine(key: string, ts: seq<string>): string
  {
    key + PAIR_SEP + TupleText(ts)
  }

  /** The line of one field: one for an array, none otherwise. */
  function FieldLineOf(key: string, v: PolarValue, repr: real -> string): seq<string>
  {
    match ArrayTexts(v, repr)
    case Some(ts) => [FieldLine(key, ts)]
    case None => []
  }

  /** One line per array field of the polar, in its order. */
  function FieldLines(p: Polar, repr: real -> string): (r: seq<string>)
    ensures |r| <= |p|
  {
    if |p| == 0 then []
    else FieldLines(p[..|p| - 1], repr) + FieldLineOf(p[|p| - 1].0, p[|p| - 1].1, repr)
  }

  /** A blank line, the header, the field lines. */
  function Block(k: Cond, p: Polar, repr: real -> string): seq<string>
  {
    ["", HeaderLine(k, repr)] + FieldLines(p, repr)
  }

  function BlockLines(polars: Archive, repr: real -> string): (r: seq<string>)
    ensures |polars| > 0 ==> |r| > 0 && r[0] == ""
  {
    if |polars| == 0 then []
    else
      var last := polars[|polars| - 1];
      BlockLines(polars[..|polars| - 1], repr) + Block(last.0, last.1, repr)
  }

  /** The text `save_polar_data_file` writes: the name line, then the blocks,
      every line ended by a newline. */
  function SaveText(polars: Archive, name: Option<string>, repr: real -> string): string
  {
    FileText([NameText(name)] + BlockLines(polars, repr))
  }

  // ================================================================ reading the lines

  /** The reader's state: the dictionaries it has created (Python objects,
      addressed by their position here), the stored entries, which hold
      positions and so alias the dictionary the reader still fills, and the
      position of the current dictionary `d`, None while it is unbound. */
  datatype ArchState = ArchState(heap: seq<Dict<string, string>>, stored: Dict<TextKey, nat>, cur: Option<nat>)

  /** Every position refers to a created dictionary. */
  predicate Linked(st: ArchState)
  {
    (st.cur.Some? ==> st.cur.value < |st.heap|)
    && forall i :: 0 <= i < |st.stored| ==> st.stored[i].1 < |st.heap|
  }

  /** A reader state whose positions all refer to created dictionaries. */
  type State = st: ArchState | Linked(st) witness ArchState([], [], None)

  const Start: State := ArchState([], [], None)

  /** The `key = value` pairs of a header, lower-cased keys, added in order. */
  function AddPairs(d: Dict<string, string>, pairs: seq<string>): Result<Dict<string, string>>
    decreases |pairs|
  {
    if |pairs| == 0 then Ok(d)
    else
      var kv := Split(pairs[0], EQ_SEP);
      if |kv| != 2 then Fail(ValueError)
      else AddPairs(Put(d, Lower(kv[0]), kv[1]), pairs[1..])
  }

  /** The new dictionary of a header line: the airfoil name, then the
      pairs found once stars and surrounding whitespace are stripped. */
  function HeaderDict(name: string, line: string): Result<Dict<string, string>>
  {
    AddPairs([(NAME_KEY, name)], Split(Strip(StripChars(line, {'*'})), ITEM_SEP))
  }

  /** One line after the first two: a header starts a new dictionary, a
      `key: value` line adds to the current one, and a blank line stores the
      current one under its `re`, `mach` and `ncrit` texts. */
  function Step(st: State, name: string, line: string): Result<State>
  {
    if Contains(line, STARS) then
      match HeaderDict(name, line)
      case Fail(e) => Fail(e)
      case Ok(d) => Ok(Opened(st, d))
    else if Strip(line) != "" then
      var kv := Split(line, PAIR_SEP);
      if |kv| != 2 then Fail(ValueError)
      else if st.cur.None? then Fail(UnboundLocalError)
      else Ok(Added(st, kv[0], kv[1]))
    else if st.cur.None? then Fail(UnboundLocalError)
    else
      var d := st.heap[st.cur.value];
      match (Get(d, RE_KEY), Get(d, MACH_KEY), Get(d, NCRIT_KEY))
      case (Some(re), Some(mach), Some(ncrit)) => Ok(Filed(st, (re, mach, ncrit)))
      case _ => Fail(KeyError)
  }

  /** `d = {...}`: a new dictionary becomes the current one. */
  function Opened(st: State, d: Dict<string, string>): State
  {
    ArchState(st.heap + [d], st.stored, Some(|st.heap|))
  }

  /** `d[key] = val` on the current dictionary. */
  function Added(st: State, key: string, val: string): State
    requires st.cur.Some?
  {
    var c := st.cur.value;
    st.(heap := st.heap[c := Put(st.heap[c], key, val)])
  }

  /** `polar_data[k] = d`: the current dictionary stored under `k`. */
  function Filed(st: State, k: TextKey): State
    requires st.cur.Some?
  {
    var r := st.(stored := Put(st.stored, k, st.cur.value));
    assert forall x :: x in r.stored ==> x in st.stored || x == (k, st.cur.value) by {
      PutItems(st.stored, k, st.cur.value);
    }
    r
  }

  /** The lines from `i` on, each handled by `f` in order; the first
      exception ends the read. */
  function Fold(f: (State, string) -> Result<State>, st: State, lines: seq<string>, i: nat): Result<State>
    requires i <= |lines|
    decreases |lines| - i
  {
    if i == |lines| then Ok(st)
    else
      match f(st, lines[i])
      case Fail(e) => Fail(e)
      case Ok(next) => Fold(f, next, lines, i + 1)
  }

  /** The reader's loop from line `i` on. */
  function Scan(st: State, name: string, lines: seq<string>, i: nat): Result<State>
    requires i <= |lines|
  {
    Fold((s: State, line: string) => Step(s, name, line), st, lines, i)
  }

  /** The text split at newlines: line 0 is the name, line 1 is skipped. */
  function ReadLines(text: string): Result<State>
  {
    var lines := Split(text, "\n");
    if |lines| < 2 then Ok(Start) else Scan(Start, lines[0], lines, 2)
  }

  // ================================================================ converting the texts

  /** `[float(i.strip()) for i in val.replace('(', '').replace(')', '').split(',')]`;
      `lenient` also drops the pieces that strip to nothing, which the
      one-element and empty tuples leave. */
  function TupleFloats(val: string, lenient: bool): Result<seq<real>>
  {
    var stripped := StripAll(Split(Unparen(val), ","));
    MetaFile.FloatsOf(if lenient then NonEmpty(stripped) else stripped)
  }

  /** `val.replace('(', '').replace(')', '')` */
  function Unparen(val: string): string
  {
    Replace(Replace(val, "(", ""), ")", "")
  }

  /** `[i.strip() for i in pieces]` */
  function StripAll(pieces: seq<string>): (r: seq<string>)
    ensures |r| == |pieces| && forall i :: 0 <= i < |r| ==> r[i] == Strip(pieces[i])
  {
    seq(|pieces|, i requires 0 <= i < |pieces| => Strip(pieces[i]))
  }

  /** A value text by its shape and key: a tuple becomes a float array, a
      key containing `re` or `ncrit` an integer, one containing `mach` a
      float; anything else stays text. */
  function ConvertValue(key: string, val: string, lenient: bool): (r: Result<PolarValue>)
    ensures r.Ok? ==> !r.value.Ratios?
  {
    if Contains(val, "(") then
      match TupleFloats(val, lenient)
      case Fail(e) => Fail(e)
      case Ok(xs) => Ok(Reals(xs))
    else if Contains(key, RE_KEY) || Contains(key, NCRIT_KEY) then
      match ParseInt(val)
      case None => Fail(ValueError)
      case Some(i) => Ok(Whole(i))
    else if Contains(key, MACH_KEY) then
      match ParseFloat(val)
      case None => Fail(ValueError)
      case Some(x) => Ok(Real(x))
    else Ok(Word(val))
  }

  /** Every value of a dictionary converted by `f` in place, keys kept in
      order; the first exception ends the conversion. */
  function MapValues(f: (string, string) -> Result<PolarValue>, d: Dict<string, string>): Result<Polar>
  {
    if |d| == 0 then Ok([])
    else
      match f(d[0].0, d[0].1)
      case Fail(e) => Fail(e)
      case Ok(v) =>
        match MapValues(f, d[1..])
        case Fail(e) => Fail(e)
        case Ok(rest) => Ok([(d[0].0, v)] + rest)
  }

  /** Every value of one dictionary converted in place, keys kept in order. */
  function ConvertFields(d: Dict<string, string>, lenient: bool): (r: Result<Polar>)
    ensures r.Ok? ==> Keys(r.value) == Keys(d)
  {
    var f := (key: string, val: string) => ConvertValue(key, val, lenient);
    MapKeys(f, d);
    MapValues(f, d)
  }

  /** The converted dictionary has the keys of the texts, in order. */
  lemma {:induction false} MapKeys(f: (string, string) -> Result<PolarValue>, d: Dict<string, string>)
    ensures MapValues(f, d).Ok? ==> Keys(MapValues(f, d).value) == Keys(d)
    decreases |d|
  {
    if |d| > 0 {
      MapKeys(f, d[1..]);
    }
  }

  /** `(int(float(re)), float(mach), int(float(ncrit)))` */
  function NewKey(k: TextKey): Result<Cond>
  {
    match (ParseFloat(k.0), ParseFloat(k.1), ParseFloat(k.2))
    case (None, _, _) => Fail(ValueError)
    case (_, None, _) => Fail(ValueError)
    case (_, _, None) => Fail(ValueError)
    case (Some(re), Some(mach), Some(ncrit)) => Ok((Trunc(re), mach, Trunc(ncrit)))
  }

  /** The conversion loop meeting a value it has already converted in place,
      which happens to a dictionary filed under two text keys: a text is
      converted again; `'(' in val` raises TypeError on an int or a float and
      is False on an array, so `int(val)` and `float(val)` then apply to the
      arrays of `re`/`ncrit` and `mach` keys, which only a one-element array
      survives. The archive never holds ratio arrays (`ConvertValue` makes
      none), so they are kept. */
  function ReconvertValue(key: string, v: PolarValue, lenient: bool): Result<PolarValue>
  {
    match v
    case Word(t) => ConvertValue(key, t, lenient)
    case Whole(_) => Fail(TypeError)
    case Real(_) => Fail(TypeError)
    case Reals(xs) =>
      if Contains(key, RE_KEY) || Contains(key, NCRIT_KEY) then
        if |xs| == 1 then Ok(Whole(Trunc(xs[0]))) else Fail(TypeError)
      else if Contains(key, MACH_KEY) then
        if |xs| == 1 then Ok(Real(xs[0])) else Fail(TypeError)
      else Ok(v)
    case Ratios(_) => Ok(v)
  }

  /** The conversion loop run a second time over a dictionary it has already
      converted, keys kept in order; the first exception ends it. */
  function Reconvert(p: Polar, lenient: bool): (r: Result<Polar>)
    ensures r.Ok? ==> Keys(r.value) == Keys(p)
  {
    if |p| == 0 then Ok([])
    else
      match ReconvertValue(p[0].0, p[0].1, lenient)
      case Fail(e) => Fail(e)
      case Ok(v) =>
        match Reconvert(p[1..], lenient)
        case Fail(e) => Fail(e)
        case Ok(rest) => Ok([(p[0].0, v)] + rest)
  }

  /** The dictionary filed as entry `i`, converted in place: from its texts
      the first time, again from its converted values when `done` shows the
      loop has already met it under an earlier text key. */
  function ConvertEntry(st: State, done: map<nat, Polar>, i: nat, lenient: bool): Result<Polar>
    requires i < |st.stored|
  {
    var c := st.stored[i].1;
    if c in done then Reconvert(done[c], lenient) else ConvertFields(st.heap[c], lenient)
  }

  /** Each filed entry from `i` on, in filing order: its dictionary converted
      in place (`done` holds, by position, the dictionaries converted so far),
      then a copy stored under the numeric key, which replaces the text key. */
  function ConvertAll(st: State, acc: Archive, done: map<nat, Polar>, i: nat, lenient: bool): (r: Result<Archive>)
    requires i <= |st.stored|
    ensures r.Ok? ==> |r.value| <= |acc| + |st.stored| - i
    decreases |st.stored| - i
  {
    if i == |st.stored| then Ok(acc)
    else
      match ConvertEntry(st, done, i, lenient)
      case Fail(e) => Fail(e)
      case Ok(p) =>
        match NewKey(st.stored[i].0)
        case Fail(e) => Fail(e)
        case Ok(k) => ConvertAll(st, Put(acc, k, p), done[st.stored[i].1 := p], i + 1, lenient)
  }

  /** The conversion adds at most one condition per filed entry, and no
      condition twice: a numeric key met again replaces its polar. */
  lemma {:induction false} ConvertAllKeys(st: State, acc: Archive, done: map<nat, Polar>, i: nat, lenient: bool)
    requires i <= |st.stored|
    ensures var r := ConvertAll(st, acc, done, i, lenient);
      r.Ok? && NoDupKeys(acc) ==> NoDupKeys(r.value)
    decreases |st.stored| - i
  {
    if i < |st.stored| {
      var p := ConvertEntry(st, done, i, lenient);
      var k := NewKey(st.stored[i].0);
      if p.Ok? && k.Ok? {
        PutNoDup(acc, k.value, p.value);
        ConvertAllKeys(st, Put(acc, k.value, p.value), done[st.stored[i].1 := p.value], i + 1, lenient);
      }
    }
  }

  /** `read_polar_data_file` on the file's text. */
  function ReadArchive(text: string, lenient: bool): (r: Result<Archive>)
    ensures r.Ok? ==> NoDupKeys(r.value)
    ensures |Split(text, "\n")| <= 2 ==> r == Ok([])
  {
    match ReadLines(text)
    case Fail(e) => Fail(e)
    case Ok(st) =>
      ConvertAllKeys(st, [], map[], 0, lenient);
      ConvertAll(st, [], map[], 0, lenient)
  }
  // ================================================================ the procedures

  /** The field lines of one more item follow those of the items before. */
  lemma FieldLinesNext(p: Polar, repr: real -> string, m: nat)
    requires m < |p|
    ensures FieldLines(p[..m + 1], repr) == FieldLines(p[..m], repr) + FieldLineOf(p[m].0, p[m].1, repr)
  {
    assert p[..m + 1][..m] == p[..m];
  }

  lemma BlockLinesNext(polars: Archive, repr: real -> string, j: nat)
    requires j < |polars|
    ensures BlockLines(polars[..j + 1], repr) == BlockLines(polars[..j], repr) + Block(polars[j].0, polars[j].1, repr)
  {
    assert polars[..j + 1][..j] == polars[..j];
  }

  /** A blank line and a header add their text. */
  lemma HeaderText(lines: seq<string>, header: string)
    ensures FileText(lines + ["", header]) == FileText(lines) + "\n" + header + "\n"
  {
    FileTextAppend(lines, "");
    FileTextAppend(lines + [""], header);
    assert lines + [""] + [header] == lines + ["", header];
  }

  lemma BlockLinesGrow(polars: Archive, repr: real -> string, nm: string, j: nat)
    requires j < |polars|
    ensures [nm] + BlockLines(polars[..j], repr) + ["", HeaderLine(polars[j].0, repr)] + FieldLines(polars[j].1, repr)
              == [nm] + BlockLines(polars[..j + 1], repr)
  {
    BlockLinesNext(polars, repr, j);
    GrowLines(nm, BlockLines(polars[..j], repr), HeaderLine(polars[j].0, repr), FieldLines(polars[j].1, repr));
  }

  lemma GrowLines(nm: string, written: seq<string>, header: string, fields: seq<string>)
    ensures [nm] + written + ["", header] + fields == [nm] + (written + (["", header] + fields))
  {
  }

  /** Writes the line of one field, if it has one, after the text of `lines`. */
  method WriteField(text0: string, lines: seq<string>, key: string, v: PolarValue, repr: real -> string)
    returns (text: string)
    requires text0 == FileText(lines)
    ensures text == FileText(lines + FieldLineOf(key, v, repr))
  {
    match ArrayTexts(v, repr)
    case Some(ts) =>
      var line := FieldLine(key, ts);
      FileTextAppend(lines, line);
      text := text0 + line + "\n";
    case None =>
      assert lines + [] == lines;
      text := text0;
  }

  /** Writes the array fields of `p` after the text of `lines`. */
  method WriteFields(text0: string, lines: seq<string>, p: Polar, repr: real -> string) returns (text: string)
    requires text0 == FileText(lines)
    ensures text == FileText(lines + FieldLines(p, repr))
  {
    text := text0;
    assert lines + FieldLines(p[..0], repr) == lines;
    for m := 0 to |p|
      invariant text == FileText(lines + FieldLines(p[..m], repr))
    {
      FieldLinesNext(p, repr, m);
      text := WriteField(text, lines + FieldLines(p[..m], repr), p[m].0, p[m].1, repr);
      assert lines + FieldLines(p[..m], repr) + FieldLineOf(p[m].0, p[m].1, repr)
          == lines + FieldLines(p[..m + 1], repr);
    }
    assert p[..|p|] == p;
  }

  /** `save_polar_data_file`, with the file's text as its result. */
  method SavePolarDataFile(polars: Archive, name: Option<string>, repr: real -> string) returns (text: string)
    ensures text == SaveText(polars, name, repr)
  {
    var nm := NameText(name);
    FileTextAppend([], nm);
    text := nm + "\n";
    for j := 0 to |polars|
      invariant text == FileText([nm] + BlockLines(polars[..j], repr))
    {
      var lines := [nm] + BlockLines(polars[..j], repr);
      var header := HeaderLine(polars[j].0, repr);
      HeaderText(lines, header);
      text := text + "\n" + header + "\n";
      text := WriteFields(text, lines + ["", header], polars[j].1, repr);
      BlockLinesGrow(polars, repr, nm, j);
    }
    assert polars[..|polars|] == polars;
  }

  /** One line of the reader's loop. */
  method ReadArchiveLine(st: State, name: string, line: string) returns (r: Result<State>)
    ensures r == Step(st, name, line)
  {
    if Contains(line, STARS) {
      var d := HeaderDict(name, line);
      if d.Fail? {
        return Fail(d.exc);
      }
      return Ok(Opened(st, d.value));
    }
    if Strip(line) != "" {
      var kv := Split(line, PAIR_SEP);
      if |kv| != 2 {
        return Fail(ValueError);
      }
      if st.cur.None? {
        return Fail(UnboundLocalError);
      }
      return Ok(Added(st, kv[0], kv[1]));
    }
    if st.cur.None? {
      return Fail(UnboundLocalError);
    }
    var d := st.heap[st.cur.value];
    var re, mach, ncrit := Get(d, RE_KEY), Get(d, MACH_KEY), Get(d, NCRIT_KEY);
    if re.None? || mach.None? || ncrit.None? {
      return Fail(KeyError);
    }
    return Ok(Filed(st, (re.value, mach.value, ncrit.value)));
  }

  /** The line loop of `read_polar_data_file`. */
  method ReadPolarLines(text: string) returns (r: Result<State>)
    ensures r == ReadLines(text)
  {
    var lines := Split(text, "\n");
    if |lines| < 2 {
      return Ok(Start);
    }
    var name := lines[0];
    var st: State := Start;
    for i := 2 to |lines|
      invariant Scan(Start, name, lines, 2) == Scan(st, name, lines, i)
    {
      var next := ReadArchiveLine(st, name, lines[i]);
      if next.Fail? {
        return Fail(next.exc);
      }
      st := next.value;
    }
    return Ok(st);
  }

  /** `out` followed by the converted rest, or the rest's exception. */
  function After(out: Polar, rest: Result<Polar>): Result<Polar>
  {
    match rest
    case Ok(r) => Ok(out + r)
    case Fail(e) => Fail(e)
  }

  lemma AfterNothing(rest: Result<Polar>)
    ensures After([], rest) == rest
  {
    if rest.Ok? {
      assert [] + rest.value == rest.value;
    }
  }

  /** Converting item `i` moves it from the rest to `out`. */
  lemma ConvertNext(f: (string, string) -> Result<PolarValue>, d: Dict<string, string>, out: Polar, i: nat,
                    v: Result<PolarValue>)
    requires i < |d| && v == f(d[i].0, d[i].1)
    ensures v.Fail? ==> After(out, MapValues(f, d[i..])) == Fail(v.exc)
    ensures v.Ok? ==> After(out, MapValues(f, d[i..]))
                        == After(out + [(d[i].0, v.value)], MapValues(f, d[i + 1..]))
  {
    assert d[i..][1..] == d[i + 1..];
    if v.Ok? {
      match MapValues(f, d[i + 1..])
      case Ok(rest) =>
        assert out + ([(d[i].0, v.value)] + rest) == (out + [(d[i].0, v.value)]) + rest;
      case Fail(_) =>
    }
  }

  /** The conversion loop over the values of one dictionary. */
  method ConvertDict(d: Dict<string, string>, lenient: bool) returns (r: Result<Polar>)
    ensures r == ConvertFields(d, lenient)
  {
    var out: Polar := [];
    assert d[0..] == d;
    AfterNothing(ConvertFields(d, lenient));
    for i := 0 to |d|
      invariant ConvertFields(d, lenient) == After(out, ConvertFields(d[i..], lenient))
    {
      var v := ConvertValue(d[i].0, d[i].1, lenient);
      ConvertNext((key: string, val: string) => ConvertValue(key, val, lenient), d, out, i, v);
      if v.Fail? {
        return Fail(v.exc);
      }
      out := out + [(d[i].0, v.value)];
    }
    assert d[|d|..] == [];
    assert out + [] == out;
    return Ok(out);
  }

  /** The body of the conversion loop for entry `i`: its dictionary converted
      in place, for the first time or again. */
  method ConvertStored(st: State, done: map<nat, Polar>, i: nat, lenient: bool) returns (p: Result<Polar>)
    requires i < |st.stored|
    ensures p == ConvertEntry(st, done, i, lenient)
  {
    var c := st.stored[i].1;
    if c in done {
      p := Reconvert(done[c], lenient);
    } else {
      p := ConvertDict(st.heap[c], lenient);
    }
  }

  /** The conversion loop over the filed entries. A dictionary filed under
      two text keys is met twice and converted in place both times. */
  method ConvertArchive(st: State, lenient: bool) returns (r: Result<Archive>)
    ensures r == ConvertAll(st, [], map[], 0, lenient)
  {
    var acc: Archive := [];
    var done: map<nat, Polar> := map[];
    for i := 0 to |st.stored|
      invariant ConvertAll(st, [], map[], 0, lenient) == ConvertAll(st, acc, done, i, lenient)
    {
      var c := st.stored[i].1;
      var p := ConvertStored(st, done, i, lenient);
      var k := NewKey(st.stored[i].0);
      ConvertAllStep(st, acc, done, i, lenient);
      if p.Fail? {
        return Fail(p.exc);
      }
      if k.Fail? {
        return Fail(k.exc);
      }
      acc := Put(acc, k.value, p.value);
      done := done[c := p.value];
    }
    return Ok(acc);
  }

  /** One entry of the conversion loop: its exception, the key's exception,
      or the loop going on with the converted copy stored. */
  lemma ConvertAllStep(st: State, acc: Archive, done: map<nat, Polar>, i: nat, lenient: bool)
    requires i < |st.stored|
    ensures var p := ConvertEntry(st, done, i, lenient);
      var k := NewKey(st.stored[i].0);
      ConvertAll(st, acc, done, i, lenient)
        == if p.Fail? then Fail(p.exc)
           else if k.Fail? then Fail(k.exc)
           else ConvertAll(st, Put(acc, k.value, p.value), done[st.stored[i].1 := p.value], i + 1, lenient)
  {
  }

  /** A dictionary converted once, whose `name` text has no parenthesis and
      whose `re` has become a number, cannot be converted again: the name
      stays text, then `'(' in val` on the number raises TypeError. */
  lemma ReconvertRaises(p: Polar, name: string, lenient: bool)
    requires |p| >= 2 && p[0] == (NAME_KEY, Word(name)) && Excludes(name, '(')
    requires p[1].0 == RE_KEY && (p[1].1.Whole? || p[1].1.Real?)
    ensures Reconvert(p, lenient) == Fail(TypeError)
  {
    NameConverts(name, lenient);
    assert p[1..][0] == p[1];
  }

  /** Entry `i` referring to a dictionary the loop has already converted
      (one filed under an earlier text key too) ends the conversion with
      TypeError when that dictionary starts with its name and number `re`. */
  lemma RefiledRaises(st: State, acc: Archive, done: map<nat, Polar>, i: nat, lenient: bool, name: string)
    requires i < |st.stored| && st.stored[i].1 in done
    requires |done[st.stored[i].1]| >= 2 && done[st.stored[i].1][0] == (NAME_KEY, Word(name)) && Excludes(name, '(')
    requires done[st.stored[i].1][1].0 == RE_KEY && done[st.stored[i].1][1].1.Whole?
    ensures ConvertAll(st, acc, done, i, lenient) == Fail(TypeError)
  {
    ReconvertRaises(done[st.stored[i].1], name, lenient);
    ConvertAllStep(st, acc, done, i, lenient);
  }

  /** One dictionary filed under two text keys (a header line, a blank line,
      a `key: value` line and a second blank line file the dictionary, by
      then changed, again under its new texts): the first pass converts it
      in place, the second meets its numbers and raises TypeError. */
  lemma TwiceFiledRaises(st: State, name: string, lenient: bool, p: Polar)
    requires |st.stored| >= 2 && st.stored[1].1 == st.stored[0].1 && NewKey(st.stored[0].0).Ok?
    requires ConvertFields(st.heap[st.stored[0].1], lenient) == Ok(p)
    requires |st.heap[st.stored[0].1]| >= 2 && st.heap[st.stored[0].1][0] == (NAME_KEY, name) && Excludes(name, '(')
    requires st.heap[st.stored[0].1][1].0 == RE_KEY && Excludes(st.heap[st.stored[0].1][1].1, '(')
    ensures ConvertAll(st, [], map[], 0, lenient) == Fail(TypeError)
  {
    var c := st.stored[0].1;
    FirstConversion(st.heap[c], name, lenient, p);
    ConvertAllStep(st, [], map[], 0, lenient);
    RefiledRaises(st, Put([], NewKey(st.stored[0].0).value, p), map[c := p], 1, lenient, name);
  }

  /** The first blank line files the current dictionary under its texts; a
      `key: value` line then changes it, and the next blank line files the
      same dictionary again under the changed texts. */
  lemma FiledTwice(st: State, k1: TextKey, key: string, val: string, k2: TextKey)
    requires st.cur.Some? && st.stored == [] && k1 != k2
    ensures Filed(Added(Filed(st, k1), key, val), k2).stored == [(k1, st.cur.value), (k2, st.cur.value)]
  {
    var s1 := Filed(st, k1);
    assert s1.stored == [(k1, st.cur.value)];
    var s2 := Added(s1, key, val);
    assert !HasKey(s2.stored, k2);
  }

  /** The first conversion of a dictionary starting with its name and `re`
      texts keeps the name as text and turns `re` into an integer. */
  lemma FirstConversion(d: Dict<string, string>, name: string, lenient: bool, p: Polar)
    requires ConvertFields(d, lenient) == Ok(p)
    requires |d| >= 2 && d[0] == (NAME_KEY, name) && Excludes(name, '(')
    requires d[1].0 == RE_KEY && Excludes(d[1].1, '(')
    ensures |p| >= 2 && p[0] == (NAME_KEY, Word(name)) && p[1].0 == RE_KEY && p[1].1.Whole?
  {
    NameConverts(name, lenient);
    NoParen(d[1].1);
    assert OccursAt(RE_KEY, RE_KEY, 0);
    var f := (key: string, val: string) => ConvertValue(key, val, lenient);
    assert MapValues(f, d) == ConvertFields(d, lenient);
    var rest := MapValues(f, d[1..]);
    assert rest.Ok? && p == [(d[0].0, Word(name))] + rest.value;
    assert d[1..][0] == d[1];
    assert f(d[1].0, d[1].1).Ok?;
    assert rest.value[0] == (RE_KEY, f(d[1].0, d[1].1).value);
  }

  /** `read_polar_data_file` on the file's text. */
  method ReadPolarDataFile(text: string, lenient: bool) returns (r: Result<Archive>)
    ensures r == ReadArchive(text, lenient)
  {
    var st := ReadPolarLines(text);
    if st.Fail? {
      return Fail(st.exc);
    }
    r := ConvertArchive(st.value, lenient);
  }

  // ================================================================ array texts read back

  /** An element text that the archive's syntax leaves intact: not empty,
      no whitespace, and none of the characters the writer or the reader
      treats specially. */
  predicate Solid(t: string)
  {
    |t| > 0 && NoSpace(t) && Excludes(t, ',') && Excludes(t, '(') && Excludes(t, ')')
    && Excludes(t, ':') && Excludes(t, '*')
  }

  /** A float whose text reads back as itself and is solid. */
  predicate ReprFits(f: real, repr: real -> string)
  {
    ParseFloat(repr(f)) == Some(f) && Solid(repr(f))
  }

  /** The tuple text without its parentheses. */
  function Inner(ts: seq<string>): string
  {
    if |ts| == 1 then ts[0] + "," else Join(ts, ITEM_SEP)
  }

  /** `' ' + t` for every text. */
  function Spaced(ts: seq<string>): (r: seq<string>)
    ensures |r| == |ts| && forall i :: 0 <= i < |ts| ==> r[i] == " " + ts[i]
  {
    seq(|ts|, i requires 0 <= i < |ts| => " " + ts[i])
  }

  lemma {:induction false} JoinExcludes(parts: seq<string>, sep: string, c: char)
    requires Excludes(sep, c) && forall k :: 0 <= k < |parts| ==> Excludes(parts[k], c)
    ensures Excludes(Join(parts, sep), c)
    decreases |parts|
  {
    if |parts| > 1 {
      JoinExcludes(parts[1..], sep, c);
      ExcludesConcat(parts[0], sep, c);
      ExcludesConcat(parts[0] + sep, Join(parts[1..], sep), c);
    }
  }

  /** Joining texts with a space in front of each by commas is joining them
      by comma and space, after a leading space. */
  lemma {:induction false} JoinSpaced(q: seq<string>)
    requires |q| > 0
    ensures Join(Spaced(q), ",") == " " + Join(q, ITEM_SEP)
    decreases |q|
  {
    if |q| > 1 {
      JoinSpaced(q[1..]);
      assert Spaced(q)[1..] == Spaced(q[1..]);
      assert Join(Spaced(q), ",") == (" " + q[0]) + "," + (" " + Join(q[1..], ITEM_SEP));
      assert Join(q, ITEM_SEP) == q[0] + ITEM_SEP + Join(q[1..], ITEM_SEP);
    }
  }

  lemma CommaSpace(a: string, b: string)
    ensures a + ITEM_SEP + b == a + "," + (" " + b)
  {
  }

  /** Splitting a comma-and-space join at commas leaves a space in front of
      every text but the first. */
  lemma SplitItems(ts: seq<string>)
    requires |ts| >= 2 && forall k :: 0 <= k < |ts| ==> Excludes(ts[k], ',')
    ensures Split(Join(ts, ITEM_SEP), ",") == [ts[0]] + Spaced(ts[1..])
  {
    var parts := [ts[0]] + Spaced(ts[1..]);
    var rest := Join(ts[1..], ITEM_SEP);
    JoinSpaced(ts[1..]);
    assert parts[1..] == Spaced(ts[1..]);
    assert Join(parts, ",") == ts[0] + "," + (" " + rest);
    assert Join(ts, ITEM_SEP) == ts[0] + ITEM_SEP + rest;
    CommaSpace(ts[0], rest);
    SpacedExcludes(ts, ',');
    assert ","[0] == ',';
    SplitJoin(parts, ",");
  }

  lemma SpacedExcludes(ts: seq<string>, c: char)
    requires |ts| >= 1 && c != ' ' && forall k :: 0 <= k < |ts| ==> Excludes(ts[k], c)
    ensures forall k :: 0 <= k < |[ts[0]] + Spaced(ts[1..])| ==> Excludes(([ts[0]] + Spaced(ts[1..]))[k], c)
  {
    var parts := [ts[0]] + Spaced(ts[1..]);
    forall k | 0 <= k < |parts|
      ensures Excludes(parts[k], c)
    {
      if k > 0 {
        assert parts[k] == " " + ts[k];
      }
    }
  }

  /** Removing the characters `c` when there is one, at the end. */
  lemma ReplaceLast(x: string, c: char)
    requires Excludes(x, c)
    ensures Replace(x + [c], [c], "") == x
  {
    SplitPair(x, [c], "");
    assert x + [c] + "" == x + [c];
    assert Join([x, ""], "") == x + "" + "";
  }

  /** The tuple text loses exactly its own parentheses. */
  lemma UnparenTuple(ts: seq<string>)
    requires forall k :: 0 <= k < |ts| ==> Solid(ts[k])
    ensures Unparen(TupleText(ts)) == Inner(ts)
  {
    var x := Inner(ts);
    if |ts| == 1 {
      ExcludesConcat(ts[0], ",", '(');
      ExcludesConcat(ts[0], ",", ')');
    } else {
      JoinExcludes(ts, ITEM_SEP, '(');
      JoinExcludes(ts, ITEM_SEP, ')');
    }
    ExcludesConcat(x, ")", '(');
    ReplacePrefix("(", x + ")");
    assert TupleText(ts) == "(" + (x + ")");
    ReplaceLast(x, ')');
  }

  /** The stripped pieces of a tuple of two or more elements are its texts;
      a one-element tuple leaves an empty piece after its text, the empty
      tuple a single empty piece. */
  lemma TuplePieces(ts: seq<string>)
    requires forall k :: 0 <= k < |ts| ==> Solid(ts[k])
    ensures |ts| >= 2 ==> StripAll(Split(Inner(ts), ",")) == ts
    ensures |ts| == 1 ==> StripAll(Split(Inner(ts), ",")) == [ts[0], ""]
    ensures |ts| == 0 ==> StripAll(Split(Inner(ts), ",")) == [""]
  {
    if |ts| >= 2 {
      SplitItems(ts);
      var r := StripAll([ts[0]] + Spaced(ts[1..]));
      forall k | 0 <= k < |ts|
        ensures r[k] == ts[k]
      {
        if k == 0 {
          StripNoOp(ts[0]);
        } else {
          assert ([ts[0]] + Spaced(ts[1..]))[k] == " " + ts[k];
          MetaFile.StripSpaced(ts[k]);
        }
      }
    } else if |ts| == 1 {
      SplitPair(ts[0], ",", "");
      assert ts[0] + "," + "" == ts[0] + ",";
      StripNoOp(ts[0]);
      StripNoOp("");
    } else {
      assert Inner(ts) == "";
      assert Split("", ",") == [""];
      StripNoOp("");
    }
  }

  /** The empty text is not a float. */
  lemma EmptyNotFloat()
    ensures ParseFloat("") == None
  {
    StripNoOp("");
    assert SplitSign("") == (false, "");
    assert FirstOf("", {'e', 'E'}) == 0;
    assert FirstOf("", {'.'}) == 0;
  }

  /** The texts of floats read back as the floats. */
  lemma FloatsOfTexts(ts: seq<string>, xs: seq<real>)
    requires |ts| == |xs| && forall k :: 0 <= k < |ts| ==> ParseFloat(ts[k]) == Some(xs[k])
    ensures MetaFile.FloatsOf(ts) == Ok(xs)
  {
    MetaFile.ParseEachOk(ParseFloat, ts, xs);
  }

  lemma {:induction false} NonEmptyKeeps(ts: seq<string>)
    requires forall k :: 0 <= k < |ts| ==> ts[k] != ""
    ensures NonEmpty(ts) == ts
    decreases |ts|
  {
    if |ts| > 0 {
      NonEmptyKeeps(ts[1..]);
      assert ts == [ts[0]] + ts[1..];
    }
  }

  /** A written tuple reads back as its floats, except that the reader as
      written rejects the one-element and the empty tuple. */
  lemma TupleRoundTrip(ts: seq<string>, xs: seq<real>, lenient: bool)
    requires |ts| == |xs| && forall k :: 0 <= k < |ts| ==> Solid(ts[k]) && ParseFloat(ts[k]) == Some(xs[k])
    ensures lenient || |ts| >= 2 ==> TupleFloats(TupleText(ts), lenient) == Ok(xs)
    ensures !lenient && |ts| < 2 ==> TupleFloats(TupleText(ts), lenient) == Fail(ValueError)
  {
    UnparenTuple(ts);
    TuplePieces(ts);
    var stripped := StripAll(Split(Inner(ts), ","));
    EmptyNotFloat();
    if |ts| >= 2 {
      NonEmptyKeeps(ts);
      FloatsOfTexts(ts, xs);
    } else if |ts| == 1 {
      assert NonEmpty([ts[0], ""]) == [ts[0]] + NonEmpty([""]);
      assert NonEmpty([""]) == NonEmpty([]);
      FloatsOfTexts(ts, xs);
      assert MetaFile.FloatsOf([""]) == Fail(ValueError);
      assert [ts[0], ""][1..] == [""];
    } else {
      assert NonEmpty([""]) == NonEmpty([]);
      assert xs == [];
    }
  }

  // ================================================================ a header read back

  /** The dictionary a header line starts, as the reader builds it. */
  function HeaderItems(name: string, k: Cond, repr: real -> string): Dict<string, string>
  {
    [(NAME_KEY, name)] + [(RE_KEY, IntToString(k.0))] + [(MACH_KEY, repr(k.1))] + [(NCRIT_KEY, IntToString(k.2))]
  }

  /** `str(i)` is solid text. */
  lemma IntSolid(i: int)
    ensures Solid(IntToString(i))
  {
    var t := IntToString(i);
    var u := NatToDigits(if i < 0 then -i else i);
    assert forall k :: 0 <= k < |u| ==> IsDigit(u[k]);
    assert t == u || t == "-" + u;
  }

  /** Stars stripped from both ends of a text that starts and ends with
      something else. */
  lemma StripStars(y: string)
    requires |y| > 0 && y[0] != '*' && y[|y| - 1] != '*'
    ensures StripChars(STARS + y + STARS, {'*'}) == y
  {
    var s := STARS + y + STARS;
    var star := InSet({'*'});
    LeadCountExact(s, star, 5);
    var t := s[5..];
    assert t == y + STARS;
    TrailCountExact(t, star, 5);
    assert t[..|t| - 5] == y;
  }

  /** One space stripped from both ends. */
  lemma StripBothSpaces(x: string)
    requires |x| > 0 && !IsSpace(x[0]) && !IsSpace(x[|x| - 1])
    ensures Strip(" " + x + " ") == x
  {
    var s := " " + x + " ";
    LeadCountExact(s, IsSpace, 1);
    var t := s[1..];
    assert t == x + " ";
    TrailCountExact(t, IsSpace, 1);
    assert t[..|t| - 1] == x;
  }

  lemma AssignSplits(lhs: string, t: string)
    requires Excludes(lhs, ' ') && Solid(t)
    ensures Split(Assign(lhs, t), EQ_SEP) == [lhs, t]
  {
    SplitPair(lhs, EQ_SEP, t);
  }

  lemma AssignExcludes(lhs: string, t: string, c: char)
    requires c != ' ' && c != '=' && Excludes(lhs, c) && Excludes(t, c)
    ensures Excludes(Assign(lhs, t), c)
  {
  }

  lemma LabelsLower()
    ensures Lower(RE_LABEL) == RE_KEY && Lower(MACH_LABEL) == MACH_KEY && Lower(NCRIT_LABEL) == NCRIT_KEY
  {
  }

  /** The three assignments of a header, once split at commas and
      spaces. */
  lemma SplitThree(t1: string, t2: string, t3: string)
    requires Solid(t1) && Solid(t2) && Solid(t3)
    ensures Split(Join([Assign(RE_LABEL, t1), Assign(MACH_LABEL, t2), Assign(NCRIT_LABEL, t3)], ITEM_SEP), ITEM_SEP)
      == [Assign(RE_LABEL, t1), Assign(MACH_LABEL, t2), Assign(NCRIT_LABEL, t3)]
  {
    var parts := [Assign(RE_LABEL, t1), Assign(MACH_LABEL, t2), Assign(NCRIT_LABEL, t3)];
    AssignExcludes(RE_LABEL, t1, ',');
    AssignExcludes(MACH_LABEL, t2, ',');
    AssignExcludes(NCRIT_LABEL, t3, ',');
    SplitJoin(parts, ITEM_SEP);
  }

  lemma HeaderAssignments(k: Cond, repr: real -> string)
    requires ReprFits(k.1, repr)
    ensures Split(HeaderBody(k, repr), ITEM_SEP) ==
      [Assign(RE_LABEL, IntToString(k.0)), Assign(MACH_LABEL, repr(k.1)), Assign(NCRIT_LABEL, IntToString(k.2))]
  {
    IntSolid(k.0);
    IntSolid(k.2);
    SplitThree(IntToString(k.0), repr(k.1), IntToString(k.2));
  }

  /** The body of a header starts with a letter and ends with a digit. */
  lemma HeaderBodyEnds(k: Cond, repr: real -> string)
    ensures var b := HeaderBody(k, repr);
      |b| > 0 && b[0] == 'R' && !IsSpace(b[|b| - 1]) && b[|b| - 1] != '*'
  {
    IntSolid(k.2);
    var t := IntToString(k.2);
    var parts := [Assign(RE_LABEL, IntToString(k.0)), Assign(MACH_LABEL, repr(k.1)), Assign(NCRIT_LABEL, t)];
    MetaFile.JoinEnds(parts, ITEM_SEP);
    assert parts[2][|parts[2]| - 1] == t[|t| - 1];
  }

  /** Adding one `lhs = t` pair with a new key appends it. */
  lemma AddPairsStep(d: Dict<string, string>, lhs: string, t: string, key: string, ps: seq<string>)
    requires |ps| > 0 && ps[0] == Assign(lhs, t)
    requires Excludes(lhs, ' ') && Solid(t) && Lower(lhs) == key && !HasKey(d, key)
    ensures AddPairs(d, ps) == AddPairs(d + [(key, t)], ps[1..])
  {
    AssignSplits(lhs, t);
  }

  lemma KeysDiffer()
    ensures RE_KEY != NAME_KEY && MACH_KEY != NAME_KEY && MACH_KEY != RE_KEY
    ensures NCRIT_KEY != NAME_KEY && NCRIT_KEY != RE_KEY && NCRIT_KEY != MACH_KEY
  {
  }

  lemma AddThreePairs(name: string, t1: string, t2: string, t3: string)
    requires Solid(t1) && Solid(t2) && Solid(t3)
    ensures AddPairs([(NAME_KEY, name)], [Assign(RE_LABEL, t1), Assign(MACH_LABEL, t2), Assign(NCRIT_LABEL, t3)])
      == Ok([(NAME_KEY, name)] + [(RE_KEY, t1)] + [(MACH_KEY, t2)] + [(NCRIT_KEY, t3)])
  {
    LabelsLower();
    var a1, a2, a3 := Assign(RE_LABEL, t1), Assign(MACH_LABEL, t2), Assign(NCRIT_LABEL, t3);
    var d0 := [(NAME_KEY, name)];
    var d1 := d0 + [(RE_KEY, t1)];
    var d2 := d1 + [(MACH_KEY, t2)];
    FreshHeaderKeys(name, t1, t2);
    AddPairsStep(d0, RE_LABEL, t1, RE_KEY, [a1, a2, a3]);
    assert [a1, a2, a3][1..] == [a2, a3];
    AddPairsStep(d1, MACH_LABEL, t2, MACH_KEY, [a2, a3]);
    assert [a2, a3][1..] == [a3];
    AddPairsStep(d2, NCRIT_LABEL, t3, NCRIT_KEY, [a3]);
    assert [a3][1..] == [];
  }

  /** Each header key is new when it is added. */
  lemma FreshHeaderKeys(name: string, t1: string, t2: string)
    ensures !HasKey([(NAME_KEY, name)], RE_KEY)
    ensures !HasKey([(NAME_KEY, name)] + [(RE_KEY, t1)], MACH_KEY)
    ensures !HasKey([(NAME_KEY, name)] + [(RE_KEY, t1)] + [(MACH_KEY, t2)], NCRIT_KEY)
  {
    KeysDiffer();
  }

  /** The header pairs added to the name give the header's dictionary. */
  lemma HeaderPairs(name: string, k: Cond, repr: real -> string)
    requires ReprFits(k.1, repr)
    ensures AddPairs([(NAME_KEY, name)],
      [Assign(RE_LABEL, IntToString(k.0)), Assign(MACH_LABEL, repr(k.1)), Assign(NCRIT_LABEL, IntToString(k.2))])
      == Ok(HeaderItems(name, k, repr))
  {
    IntSolid(k.0);
    IntSolid(k.2);
    AddThreePairs(name, IntToString(k.0), repr(k.1), IntToString(k.2));
  }

  /** A written header is a header line, and it starts the dictionary of its
      name and condition. */
  lemma HeaderRoundTrip(name: string, k: Cond, repr: real -> string)
    requires ReprFits(k.1, repr)
    ensures Contains(HeaderLine(k, repr), STARS)
    ensures HeaderDict(name, HeaderLine(k, repr)) == Ok(HeaderItems(name, k, repr))
  {
    assert OccursAt(HeaderLine(k, repr), STARS, 0);
    HeaderBodyEnds(k, repr);
    StarredStrip(HeaderBody(k, repr));
    HeaderAssignments(k, repr);
    HeaderPairs(name, k, repr);
  }

  /** Stars, then one space, stripped from both ends of a starred text. */
  lemma StarredStrip(b: string)
    requires |b| > 0 && !IsSpace(b[0]) && b[0] != '*' && !IsSpace(b[|b| - 1]) && b[|b| - 1] != '*'
    ensures Strip(StripChars(STARS + " " + b + " " + STARS, {'*'})) == b
  {
    var y := " " + b + " ";
    assert STARS + " " + b + " " + STARS == STARS + y + STARS;
    StripStars(y);
    StripBothSpaces(b);
  }

  // ================================================================ scanning written lines

  /** `Scan` continued from a result, on further lines. */
  function ScanThen(r: Result<State>, name: string, more: seq<string>): Result<State>
  {
    match r
    case Ok(st) => Scan(st, name, more, 0)
    case Fail(e) => Fail(e)
  }

  /** Folding from `i` is folding the lines from `k` on from `i - k`. */
  lemma {:induction false} FoldDrop(f: (State, string) -> Result<State>, st: State, lines: seq<string>, k: nat, i: nat)
    requires k <= i <= |lines|
    ensures Fold(f, st, lines, i) == Fold(f, st, lines[k..], i - k)
    decreases |lines| - i
  {
    if i < |lines| {
      assert lines[k..][i - k] == lines[i];
      match f(st, lines[i])
      case Fail(_) =>
      case Ok(next) => FoldDrop(f, next, lines, k, i + 1);
    }
  }

  /** Folding up to `j`, then on from `j`. */
  lemma {:induction false} FoldSplit(f: (State, string) -> Result<State>, st: State, lines: seq<string>, i: nat, j: nat)
    requires i <= j <= |lines|
    ensures Fold(f, st, lines, i) ==
      match Fold(f, st, lines[..j], i)
      case Ok(mid) => Fold(f, mid, lines, j)
      case Fail(e) => Fail(e)
    decreases j - i
  {
    if i < j {
      assert lines[..j][i] == lines[i];
      match f(st, lines[i])
      case Fail(_) =>
      case Ok(next) => FoldSplit(f, next, lines, i + 1, j);
    }
  }

  /** Scanning from line `k` is scanning the lines from `k` on. */
  lemma ScanDrop(st: State, name: string, lines: seq<string>, k: nat)
    requires k <= |lines|
    ensures Scan(st, name, lines, k) == Scan(st, name, lines[k..], 0)
  {
    FoldDrop((s: State, line: string) => Step(s, name, line), st, lines, k, k);
  }

  /** Scanning two runs of lines is scanning the first, then the second. */
  lemma ScanAppend(st: State, name: string, a: seq<string>, b: seq<string>)
    ensures Scan(st, name, a + b, 0) == ScanThen(Scan(st, name, a, 0), name, b)
  {
    var f := (s: State, line: string) => Step(s, name, line);
    FoldSplit(f, st, a + b, 0, |a|);
    assert (a + b)[..|a|] == a;
    match Fold(f, st, a, 0)
    case Fail(_) =>
    case Ok(mid) =>
      FoldDrop(f, mid, a + b, |a|, |a|);
      assert (a + b)[|a|..] == b;
  }

  /** The text item the reader makes of one field's line. */
  function FieldItem(key: string, v: PolarValue, repr: real -> string): Dict<string, string>
  {
    match ArrayTexts(v, repr)
    case Some(ts) => [(key, TupleText(ts))]
    case None => []
  }

  /** The text items of the array fields, as the reader adds them. */
  function FieldTexts(p: Polar, repr: real -> string): Dict<string, string>
  {
    if |p| == 0 then []
    else FieldTexts(p[..|p| - 1], repr) + FieldItem(p[|p| - 1].0, p[|p| - 1].1, repr)
  }

  /** Every key among the text items is the key of an array field. */
  lemma {:induction false} FieldTextsKeys(p: Polar, repr: real -> string, key: string)
    requires HasKey(FieldTexts(p, repr), key)
    ensures exists i :: 0 <= i < |p| && p[i].0 == key && ArrayTexts(p[i].1, repr).Some?
    decreases |p|
  {
    var n := |p| - 1;
    var front := p[..n];
    HasKeyConcat(FieldTexts(front, repr), FieldItem(p[n].0, p[n].1, repr), key);
    if HasKey(FieldTexts(front, repr), key) {
      FieldTextsKeys(front, repr, key);
      var i :| 0 <= i < n && front[i].0 == key && ArrayTexts(front[i].1, repr).Some?;
      assert p[i] == front[i];
    } else {
      assert p[n].0 == key && ArrayTexts(p[n].1, repr).Some?;
    }
  }

  /** The text dictionary of a written block. */
  function BlockDict(name: string, k: Cond, p: Polar, repr: real -> string): Dict<string, string>
  {
    HeaderItems(name, k, repr) + FieldTexts(p, repr)
  }

  /** The key a field may have: one that reads back from its line and that
      the header does not claim. */
  predicate FieldKey(key: string)
  {
    Excludes(key, ':') && Excludes(key, '*') && Excludes(key, '\n')
    && key != NAME_KEY && key != RE_KEY && key != MACH_KEY && key != NCRIT_KEY
  }

  /** An array value whose elements are finite floats with solid texts. */
  predicate ValueFits(v: PolarValue, repr: real -> string)
  {
    match v
    case Reals(xs) => forall i :: 0 <= i < |xs| ==> ReprFits(xs[i], repr)
    case Ratios(qs) => forall i :: 0 <= i < |qs| ==> qs[i].Finite? && ReprFits(qs[i].v, repr)
    case _ => true
  }

  /** A polar the archive can carry: distinct keys, and arrays under field
      keys holding floats that read back. */
  predicate PolarFits(p: Polar, repr: real -> string)
  {
    NoDupKeys(p)
    && forall i :: 0 <= i < |p| && ArrayTexts(p[i].1, repr).Some? ==> FieldKey(p[i].0) && ValueFits(p[i].1, repr)
  }

  /** The element texts of a fitting array are solid. */
  lemma TextsSolid(v: PolarValue, repr: real -> string)
    requires ArrayTexts(v, repr).Some? && ValueFits(v, repr)
    ensures forall i :: 0 <= i < |ArrayTexts(v, repr).value| ==> Solid(ArrayTexts(v, repr).value[i])
  {
  }

  /** A tuple of texts without `c` has no `c` either, unless `c` is part of
      the tuple syntax. */
  lemma TupleExcludes(ts: seq<string>, c: char)
    requires c !in {'(', ')', ',', ' '} && forall i :: 0 <= i < |ts| ==> Excludes(ts[i], c)
    ensures Excludes(TupleText(ts), c)
  {
    if |ts| == 1 {
      ExcludesConcat(ts[0], ",", c);
    } else {
      JoinExcludes(ts, ITEM_SEP, c);
    }
    ExcludesConcat("(" + Inner(ts), ")", c);
    assert TupleText(ts) == "(" + Inner(ts) + ")";
  }

  /** A text ending in something other than whitespace is not blank. */
  lemma NotBlank(s: string)
    requires |s| > 0 && !IsSpace(s[|s| - 1])
    ensures Strip(s) != ""
  {
    var t := TrimLeft(s, IsSpace);
    assert |t| > 0 && t[|t| - 1] == s[|s| - 1];
  }

  /** A written field line is added to the current dictionary. */
  lemma FieldStep(st: State, name: string, key: string, ts: seq<string>)
    requires st.cur.Some? && FieldKey(key)
    requires forall i :: 0 <= i < |ts| ==> Solid(ts[i])
    ensures var c := st.cur.value;
      Step(st, name, FieldLine(key, ts)) == Ok(Added(st, key, TupleText(ts)))
  {
    var t := TupleText(ts);
    var line := FieldLine(key, ts);
    TupleExcludes(ts, ':');
    TupleExcludes(ts, '*');
    ExcludesConcat(key, PAIR_SEP, '*');
    ExcludesConcat(key + PAIR_SEP, t, '*');
    NoOccurrence(line, STARS);
    NotBlank(line);
    SplitPair(key, PAIR_SEP, t);
  }

  /** Scanning one line is that line's step. */
  lemma ScanOne(st: State, name: string, line: string)
    ensures Scan(st, name, [line], 0) == Step(st, name, line)
  {
    var f := (s: State, l: string) => Step(s, name, l);
    assert [line][0] == line;
    match Step(st, name, line)
    case Fail(_) =>
    case Ok(next) =>
      assert Fold(f, next, [line], 1) == Ok(next);
  }

  /** The current dictionary with `items` appended. */
  function Grew(st: State, items: Dict<string, string>): State
    requires st.cur.Some?
  {
    var c := st.cur.value;
    st.(heap := st.heap[c := st.heap[c] + items])
  }

  lemma GrewTwice(st: State, a: Dict<string, string>, b: Dict<string, string>)
    requires st.cur.Some?
    ensures Grew(Grew(st, a), b) == Grew(st, a + b)
  {
    var c := st.cur.value;
    assert st.heap[c] + a + b == st.heap[c] + (a + b);
  }

  lemma GrewNothing(st: State)
    requires st.cur.Some?
    ensures Grew(st, []) == st
  {
    var c := st.cur.value;
    assert st.heap[c] + [] == st.heap[c];
    assert st.heap[c := st.heap[c]] == st.heap;
  }

  /** The line of one field adds its item. */
  lemma FieldScan(st: State, name: string, key: string, v: PolarValue, repr: real -> string)
    requires st.cur.Some?
    requires ArrayTexts(v, repr).Some? ==> FieldKey(key) && ValueFits(v, repr) && !HasKey(st.heap[st.cur.value], key)
    ensures Scan(st, name, FieldLineOf(key, v, repr), 0) == Ok(Grew(st, FieldItem(key, v, repr)))
  {
    match ArrayTexts(v, repr)
    case None =>
      GrewNothing(st);
    case Some(ts) =>
      TextsSolid(v, repr);
      ScanOne(st, name, FieldLine(key, ts));
      FieldStep(st, name, key, ts);
  }

  /** The field lines of a polar add its array fields to the current
      dictionary, after what it already holds. */
  lemma {:induction false} FieldsScan(st: State, name: string, p: Polar, repr: real -> string)
    requires st.cur.Some? && PolarFits(p, repr)
    requires forall i :: 0 <= i < |p| && ArrayTexts(p[i].1, repr).Some? ==> !HasKey(st.heap[st.cur.value], p[i].0)
    ensures Scan(st, name, FieldLines(p, repr), 0) == Ok(Grew(st, FieldTexts(p, repr)))
    decreases |p|
  {
    if |p| == 0 {
      GrewNothing(st);
    } else {
      var n := |p| - 1;
      var front := p[..n];
      var key := p[n].0;
      assert forall i :: 0 <= i < n ==> front[i] == p[i];
      FieldsScan(st, name, front, repr);
      var s1 := Grew(st, FieldTexts(front, repr));
      ScanAppend(st, name, FieldLines(front, repr), FieldLineOf(key, p[n].1, repr));
      if ArrayTexts(p[n].1, repr).Some? {
        if HasKey(FieldTexts(front, repr), key) {
          FieldTextsKeys(front, repr, key);
        }
        HasKeyConcat(st.heap[st.cur.value], FieldTexts(front, repr), key);
      }
      FieldScan(s1, name, key, p[n].1, repr);
      GrewTwice(st, FieldTexts(front, repr), FieldItem(key, p[n].1, repr));
    }
  }

  /** The keys of a header's dictionary. */
  lemma HeaderKeys(name: string, k: Cond, repr: real -> string, key: string)
    requires HasKey(HeaderItems(name, k, repr), key)
    ensures key == NAME_KEY || key == RE_KEY || key == MACH_KEY || key == NCRIT_KEY
  {
    var h := HeaderItems(name, k, repr);
    var i :| 0 <= i < |h| && h[i].0 == key;
  }

  /** A header line opens the dictionary of its items. */
  lemma HeaderScan(st: State, name: string, k: Cond, repr: real -> string)
    requires ReprFits(k.1, repr)
    ensures Scan(st, name, [HeaderLine(k, repr)], 0) == Ok(Opened(st, HeaderItems(name, k, repr)))
  {
    HeaderRoundTrip(name, k, repr);
    ScanOne(st, name, HeaderLine(k, repr));
  }

  /** No array field of a fitting polar has a header key. */
  lemma FieldsFresh(name: string, k: Cond, p: Polar, repr: real -> string)
    requires PolarFits(p, repr)
    ensures forall i :: 0 <= i < |p| && ArrayTexts(p[i].1, repr).Some? ==> !HasKey(HeaderItems(name, k, repr), p[i].0)
  {
    forall i | 0 <= i < |p| && ArrayTexts(p[i].1, repr).Some?
      ensures !HasKey(HeaderItems(name, k, repr), p[i].0)
    {
      if HasKey(HeaderItems(name, k, repr), p[i].0) {
        HeaderKeys(name, k, repr, p[i].0);
      }
    }
  }

  lemma OpenedGrew(st: State, a: Dict<string, string>, b: Dict<string, string>)
    ensures Grew(Opened(st, a), b) == Opened(st, a + b)
  {
  }

  /** A written block opens its dictionary and fills it. */
  lemma BlockScan(st: State, name: string, k: Cond, p: Polar, repr: real -> string)
    requires ReprFits(k.1, repr) && PolarFits(p, repr)
    ensures Scan(st, name, [HeaderLine(k, repr)] + FieldLines(p, repr), 0) == Ok(Opened(st, BlockDict(name, k, p, repr)))
  {
    var h := HeaderItems(name, k, repr);
    ScanAppend(st, name, [HeaderLine(k, repr)], FieldLines(p, repr));
    HeaderScan(st, name, k, repr);
    var s1 := Opened(st, h);
    FieldsFresh(name, k, p, repr);
    FieldsScan(s1, name, p, repr);
    OpenedGrew(st, h, FieldTexts(p, repr));
  }

  // ================================================================ a saved archive read back

  /** The text key the reader files a written block under. */
  function TextKeyOf(k: Cond, repr: real -> string): TextKey
  {
    (IntToString(k.0), repr(k.1), IntToString(k.2))
  }

  /** The polars the archive can carry: distinct conditions whose Mach
      numbers read back, each polar fitting. */
  predicate ArchiveFits(polars: Archive, repr: real -> string)
  {
    NoDupKeys(polars)
    && forall i :: 0 <= i < |polars| ==> ReprFits(polars[i].0.1, repr) && PolarFits(polars[i].1, repr)
  }

  /** Distinct conditions have distinct text keys. */
  lemma TextKeyInjective(a: Cond, b: Cond, repr: real -> string)
    requires ReprFits(a.1, repr) && ReprFits(b.1, repr)
    requires TextKeyOf(a, repr) == TextKeyOf(b, repr)
    ensures a == b
  {
    ParseIntOfString(a.0);
    ParseIntOfString(b.0);
    ParseIntOfString(a.2);
    ParseIntOfString(b.2);
  }

  /** One written block as the reader meets it: the header, the fields, then
      the blank line that files it. */
  function Reblock(k: Cond, p: Polar, repr: real -> string): seq<string>
  {
    [HeaderLine(k, repr)] + FieldLines(p, repr) + [""]
  }

  function Reblocks(polars: Archive, repr: real -> string): seq<string>
  {
    if |polars| == 0 then []
    else
      var last := polars[|polars| - 1];
      Reblocks(polars[..|polars| - 1], repr) + Reblock(last.0, last.1, repr)
  }

  /** The written blocks and the final newline regroup as the reader's blocks. */
  lemma {:induction false} RegroupBlocks(polars: Archive, repr: real -> string)
    ensures [""] + Reblocks(polars, repr) == BlockLines(polars, repr) + [""]
    decreases |polars|
  {
    if |polars| > 0 {
      var n := |polars| - 1;
      var front := polars[..n];
      RegroupBlocks(front, repr);
      var h := HeaderLine(polars[n].0, repr);
      var f := FieldLines(polars[n].1, repr);
      RegroupStep(Reblocks(front, repr), BlockLines(front, repr), h, f);
    }
  }

  lemma RegroupStep(a: seq<string>, b: seq<string>, h: string, f: seq<string>)
    requires [""] + a == b + [""]
    ensures [""] + (a + ([h] + f + [""])) == b + (["", h] + f) + [""]
  {
    assert [""] + (a + ([h] + f + [""])) == ([""] + a) + ([h] + f + [""]);
  }

  /** The reader's state once it has filed the first `j` written blocks. */
  function Loaded(name: string, polars: Archive, j: nat, repr: real -> string): State
    requires j <= |polars|
  {
    ArchState(seq(j, i requires 0 <= i < j => BlockDict(name, polars[i].0, polars[i].1, repr)),
              seq(j, i requires 0 <= i < j => (TextKeyOf(polars[i].0, repr), i)),
              if j == 0 then None else Some(j - 1))
  }

  /** The header's `re`, `mach` and `ncrit` texts are found in a block's dictionary. */
  lemma BlockGets(name: string, k: Cond, p: Polar, repr: real -> string)
    ensures Get(BlockDict(name, k, p, repr), RE_KEY) == Some(IntToString(k.0))
    ensures Get(BlockDict(name, k, p, repr), MACH_KEY) == Some(repr(k.1))
    ensures Get(BlockDict(name, k, p, repr), NCRIT_KEY) == Some(IntToString(k.2))
  {
    var h := HeaderItems(name, k, repr);
    IndexOfExact(h, RE_KEY, 1);
    IndexOfExact(h, MACH_KEY, 2);
    IndexOfExact(h, NCRIT_KEY, 3);
    GetConcat(h, FieldTexts(p, repr), RE_KEY);
    GetConcat(h, FieldTexts(p, repr), MACH_KEY);
    GetConcat(h, FieldTexts(p, repr), NCRIT_KEY);
  }

  /** The blank line after a written block files the block under its text key. */
  lemma BlankStep(st: State, name: string, k: Cond, p: Polar, repr: real -> string)
    requires st.cur.Some? && st.heap[st.cur.value] == BlockDict(name, k, p, repr)
    ensures Step(st, name, "") == Ok(Filed(st, TextKeyOf(k, repr)))
  {
    ShortAbsent("", STARS);
    StripNoOp("");
    BlockGets(name, k, p, repr);
  }

  /** Filing block `j` after opening it gives the state after `j + 1` blocks. */
  lemma LoadedFiled(name: string, polars: Archive, j: nat, repr: real -> string)
    requires j < |polars|
    requires forall i :: 0 <= i < j ==> TextKeyOf(polars[i].0, repr) != TextKeyOf(polars[j].0, repr)
    ensures Filed(Opened(Loaded(name, polars, j, repr), BlockDict(name, polars[j].0, polars[j].1, repr)),
                  TextKeyOf(polars[j].0, repr))
         == Loaded(name, polars, j + 1, repr)
  {
    var st := Loaded(name, polars, j, repr);
    var tk := TextKeyOf(polars[j].0, repr);
    assert !HasKey(st.stored, tk);
    var next := Loaded(name, polars, j + 1, repr);
    assert st.stored + [(tk, j)] == next.stored;
    assert st.heap + [BlockDict(name, polars[j].0, polars[j].1, repr)] == next.heap;
  }

  /** Reading block `j` from the state after `j` blocks. */
  lemma LoadNext(name: string, polars: Archive, j: nat, repr: real -> string)
    requires j < |polars| && ReprFits(polars[j].0.1, repr) && PolarFits(polars[j].1, repr)
    requires forall i :: 0 <= i < j ==> TextKeyOf(polars[i].0, repr) != TextKeyOf(polars[j].0, repr)
    ensures Scan(Loaded(name, polars, j, repr), name, Reblock(polars[j].0, polars[j].1, repr), 0)
         == Ok(Loaded(name, polars, j + 1, repr))
  {
    var st := Loaded(name, polars, j, repr);
    var k := polars[j].0;
    var p := polars[j].1;
    ScanAppend(st, name, [HeaderLine(k, repr)] + FieldLines(p, repr), [""]);
    BlockScan(st, name, k, p, repr);
    var s1 := Opened(st, BlockDict(name, k, p, repr));
    ScanOne(s1, name, "");
    BlankStep(s1, name, k, p, repr);
    LoadedFiled(name, polars, j, repr);
  }

  /** The text key of block `n` differs from those of the blocks before it. */
  lemma TextKeysDiffer(polars: Archive, n: nat, repr: real -> string)
    requires ArchiveFits(polars, repr) && n < |polars|
    ensures forall i :: 0 <= i < n ==> TextKeyOf(polars[i].0, repr) != TextKeyOf(polars[n].0, repr)
  {
    forall i | 0 <= i < n
      ensures TextKeyOf(polars[i].0, repr) != TextKeyOf(polars[n].0, repr)
    {
      if TextKeyOf(polars[i].0, repr) == TextKeyOf(polars[n].0, repr) {
        TextKeyInjective(polars[i].0, polars[n].0, repr);
      }
    }
  }

  /** Reading the first `j` written blocks. */
  lemma {:induction false} LoadAll(name: string, polars: Archive, j: nat, repr: real -> string)
    requires ArchiveFits(polars, repr) && j <= |polars|
    ensures Scan(Start, name, Reblocks(polars[..j], repr), 0) == Ok(Loaded(name, polars, j, repr))
    decreases j
  {
    if j == 0 {
      assert Loaded(name, polars, 0, repr) == Start;
    } else {
      var n := j - 1;
      LoadAll(name, polars, n, repr);
      assert polars[..j][..n] == polars[..n];
      ScanAppend(Start, name, Reblocks(polars[..n], repr), Reblock(polars[n].0, polars[n].1, repr));
      TextKeysDiffer(polars, n, repr);
      LoadNext(name, polars, n, repr);
    }
  }

  /** Lines without a newline. */
  predicate OneLines(lines: seq<string>)
  {
    forall k :: 0 <= k < |lines| ==> Excludes(lines[k], '\n')
  }

  lemma OneLinesConcat(a: seq<string>, b: seq<string>)
    requires OneLines(a) && OneLines(b)
    ensures OneLines(a + b)
  {
    assert forall k :: |a| <= k < |a + b| ==> (a + b)[k] == b[k - |a|];
  }

  lemma SolidOneLine(t: string)
    requires Solid(t)
    ensures Excludes(t, '\n')
  {
    assert IsSpace('\n');
  }

  lemma HeaderOneLine(k: Cond, repr: real -> string)
    requires ReprFits(k.1, repr)
    ensures Excludes(HeaderLine(k, repr), '\n')
  {
    IntSolid(k.0);
    IntSolid(k.2);
    StarredOneLine(IntToString(k.0), repr(k.1), IntToString(k.2));
  }

  lemma StarredOneLine(t1: string, t2: string, t3: string)
    requires Solid(t1) && Solid(t2) && Solid(t3)
    ensures Excludes(STARS + " " + Join([Assign(RE_LABEL, t1), Assign(MACH_LABEL, t2), Assign(NCRIT_LABEL, t3)], ITEM_SEP)
                     + " " + STARS, '\n')
  {
    SolidOneLine(t1);
    SolidOneLine(t2);
    SolidOneLine(t3);
    var parts := [Assign(RE_LABEL, t1), Assign(MACH_LABEL, t2), Assign(NCRIT_LABEL, t3)];
    AssignExcludes(RE_LABEL, t1, '\n');
    AssignExcludes(MACH_LABEL, t2, '\n');
    AssignExcludes(NCRIT_LABEL, t3, '\n');
    JoinExcludes(parts, ITEM_SEP, '\n');
    var b := Join(parts, ITEM_SEP);
    ExcludesConcat(STARS + " ", b, '\n');
    ExcludesConcat(STARS + " " + b, " " + STARS, '\n');
    assert STARS + " " + b + " " + STARS == (STARS + " " + b) + (" " + STARS);
  }

  lemma FieldOneLine(key: string, v: PolarValue, repr: real -> string)
    requires ArrayTexts(v, repr).Some? ==> FieldKey(key) && ValueFits(v, repr)
    ensures OneLines(FieldLineOf(key, v, repr))
  {
    match ArrayTexts(v, repr)
    case None =>
    case Some(ts) =>
      TextsSolid(v, repr);
      forall i | 0 <= i < |ts|
        ensures Excludes(ts[i], '\n')
      {
        SolidOneLine(ts[i]);
      }
      TupleExcludes(ts, '\n');
      ExcludesConcat(key, PAIR_SEP, '\n');
      ExcludesConcat(key + PAIR_SEP, TupleText(ts), '\n');
  }

  lemma {:induction false} FieldsOneLine(p: Polar, repr: real -> string)
    requires PolarFits(p, repr)
    ensures OneLines(FieldLines(p, repr))
    decreases |p|
  {
    if |p| > 0 {
      var n := |p| - 1;
      var front := p[..n];
      assert forall i :: 0 <= i < n ==> front[i] == p[i];
      FieldsOneLine(front, repr);
      FieldOneLine(p[n].0, p[n].1, repr);
      OneLinesConcat(FieldLines(front, repr), FieldLineOf(p[n].0, p[n].1, repr));
    }
  }

  lemma BlockOneLine(k: Cond, p: Polar, repr: real -> string)
    requires ReprFits(k.1, repr) && PolarFits(p, repr)
    ensures OneLines(Block(k, p, repr))
  {
    HeaderOneLine(k, repr);
    FieldsOneLine(p, repr);
    OneLinesConcat(["", HeaderLine(k, repr)], FieldLines(p, repr));
  }

  lemma {:induction false} BlocksOneLine(polars: Archive, repr: real -> string)
    requires ArchiveFits(polars, repr)
    ensures OneLines(BlockLines(polars, repr))
    decreases |polars|
  {
    if |polars| > 0 {
      var n := |polars| - 1;
      var front := polars[..n];
      assert NoDupKeys(front) by {
        assert forall i :: 0 <= i < n ==> front[i] == polars[i];
      }
      BlocksOneLine(front, repr);
      BlockOneLine(polars[n].0, polars[n].1, repr);
      OneLinesConcat(BlockLines(front, repr), Block(polars[n].0, polars[n].1, repr));
    }
  }

  /** A saved archive's text splits into the name, a blank line and the
      reader's blocks. */
  lemma SavedLines(polars: Archive, name: Option<string>, repr: real -> string)
    requires ArchiveFits(polars, repr) && Excludes(NameText(name), '\n')
    ensures Split(SaveText(polars, name, repr), "\n") == [NameText(name), ""] + Reblocks(polars, repr)
  {
    BlocksOneLine(polars, repr);
    RegroupBlocks(polars, repr);
    SplitRegrouped(NameText(name), BlockLines(polars, repr), Reblocks(polars, repr));
  }

  lemma SplitRegrouped(nm: string, written: seq<string>, regrouped: seq<string>)
    requires Excludes(nm, '\n') && OneLines(written) && [""] + regrouped == written + [""]
    ensures Split(FileText([nm] + written), "\n") == [nm, ""] + regrouped
  {
    OneLinesConcat([nm], written);
    SplitFileText([nm] + written);
    assert [nm] + written + [""] == [nm] + (written + [""]);
  }

  /** Reading a saved archive's lines files every block, in order. */
  lemma ReadSavedLines(polars: Archive, name: Option<string>, repr: real -> string)
    requires ArchiveFits(polars, repr) && Excludes(NameText(name), '\n')
    ensures ReadLines(SaveText(polars, name, repr)) == Ok(Loaded(NameText(name), polars, |polars|, repr))
  {
    var nm := NameText(name);
    var all := Split(SaveText(polars, name, repr), "\n");
    SavedLines(polars, name, repr);
    assert all[0] == nm && all[2..] == Reblocks(polars, repr);
    ScanDrop(Start, nm, all, 2);
    LoadAll(nm, polars, |polars|, repr);
    assert polars[..|polars|] == polars;
  }

  // ================================================================ the texts converted back

  /** An array value with no infinite or NaN ratio. */
  predicate FiniteArray(v: PolarValue)
  {
    v.Ratios? ==> forall i :: 0 <= i < |v.qs| ==> v.qs[i].Finite?
  }

  /** An array value long enough for the reader as written: two elements or more. */
  predicate LongArray(v: PolarValue)
  {
    match v
    case Reals(xs) => |xs| >= 2
    case Ratios(qs) => |qs| >= 2
    case _ => true
  }

  /** The floats of an array value. */
  function ArrayReals(v: PolarValue): (r: seq<real>)
    requires FiniteArray(v)
    ensures v.Reals? ==> r == v.xs
    ensures v.Ratios? ==> |r| == |v.qs| && forall i :: 0 <= i < |r| ==> v.qs[i] == Finite(r[i])
  {
    match v
    case Reals(xs) => xs
    case Ratios(qs) => seq(|qs|, i requires 0 <= i < |qs| => qs[i].v)
    case _ => []
  }

  predicate FiniteArrays(p: Polar)
  {
    forall i :: 0 <= i < |p| ==> FiniteArray(p[i].1)
  }

  /** What a saved field reads back as: an array comes back as a float array;
      any other value was never written. */
  function FieldBack(key: string, v: PolarValue): Polar
    requires FiniteArray(v)
  {
    if v.Reals? || v.Ratios? then [(key, Reals(ArrayReals(v)))] else []
  }

  function FieldsBack(p: Polar): Polar
    requires FiniteArrays(p)
  {
    if |p| == 0 then []
    else FieldsBack(p[..|p| - 1]) + FieldBack(p[|p| - 1].0, p[|p| - 1].1)
  }

  /** The header values a saved block reads back with. */
  function HeaderBack(name: string, k: Cond): Polar
  {
    [(NAME_KEY, Word(name)), (RE_KEY, Whole(k.0)), (MACH_KEY, Real(k.1)), (NCRIT_KEY, Whole(k.2))]
  }

  /** The archive a saved one reads back as: the same conditions in the same
      order, each polar holding the airfoil name, its condition, and its
      arrays as float arrays. */
  function Restored(name: string, polars: Archive): (r: Archive)
    requires forall i :: 0 <= i < |polars| ==> FiniteArrays(polars[i].1)
    ensures Keys(r) == Keys(polars)
  {
    seq(|polars|, i requires 0 <= i < |polars| =>
      (polars[i].0, HeaderBack(name, polars[i].0) + FieldsBack(polars[i].1)))
  }

  lemma FitsFinite(p: Polar, repr: real -> string)
    requires PolarFits(p, repr)
    ensures FiniteArrays(p)
  {
    forall i | 0 <= i < |p|
      ensures FiniteArray(p[i].1)
    {
      if p[i].1.Ratios? {
        assert ArrayTexts(p[i].1, repr).Some?;
      }
    }
  }

  /** Converting two runs of items is converting each. */
  lemma {:induction false} MapConcat(f: (string, string) -> Result<PolarValue>, a: Dict<string, string>,
                                     b: Dict<string, string>, x: Polar, y: Polar)
    requires MapValues(f, a) == Ok(x) && MapValues(f, b) == Ok(y)
    ensures MapValues(f, a + b) == Ok(x + y)
    decreases |a|
  {
    if |a| == 0 {
      assert a + b == b;
      assert x + y == y;
    } else {
      assert (a + b)[1..] == a[1..] + b;
      assert (a + b)[0] == a[0];
      var v := f(a[0].0, a[0].1).value;
      var rest := MapValues(f, a[1..]).value;
      MapConcat(f, a[1..], b, rest, y);
      assert x == [(a[0].0, v)] + rest;
      assert MapValues(f, a + b) == Ok([(a[0].0, v)] + (rest + y));
      assert [(a[0].0, v)] + (rest + y) == x + y;
    }
  }

  lemma ConvertConcat(a: Dict<string, string>, b: Dict<string, string>, lenient: bool, x: Polar, y: Polar)
    requires ConvertFields(a, lenient) == Ok(x) && ConvertFields(b, lenient) == Ok(y)
    ensures ConvertFields(a + b, lenient) == Ok(x + y)
  {
    MapConcat((key: string, val: string) => ConvertValue(key, val, lenient), a, b, x, y);
  }

  lemma MapSingle(f: (string, string) -> Result<PolarValue>, key: string, val: string, v: PolarValue)
    requires f(key, val) == Ok(v)
    ensures MapValues(f, [(key, val)]) == Ok([(key, v)])
  {
    assert [(key, val)][1..] == [];
    assert MapValues(f, []) == Ok([]);
    assert [(key, v)] + [] == [(key, v)];
  }

  lemma ConvertSingle(key: string, val: string, lenient: bool, v: PolarValue)
    requires ConvertValue(key, val, lenient) == Ok(v)
    ensures ConvertFields([(key, val)], lenient) == Ok([(key, v)])
  {
    MapSingle((key: string, val: string) => ConvertValue(key, val, lenient), key, val, v);
  }

  /** A text without `(`: the reader does not take it for a tuple. */
  lemma NoParen(t: string)
    requires Excludes(t, '(')
    ensures !Contains(t, "(")
  {
    ContainsChar(t, '(');
  }

  lemma NameConverts(name: string, lenient: bool)
    requires Excludes(name, '(')
    ensures ConvertValue(NAME_KEY, name, lenient) == Ok(Word(name))
  {
    NoParen(name);
    NoOccurrence(NAME_KEY, RE_KEY);
    ShortAbsent(NAME_KEY, NCRIT_KEY);
    assert !OccursAt(NAME_KEY, MACH_KEY, 0);
  }

  lemma IntConverts(key: string, i: int, lenient: bool)
    requires key == RE_KEY || key == NCRIT_KEY
    ensures ConvertValue(key, IntToString(i), lenient) == Ok(Whole(i))
  {
    IntSolid(i);
    NoParen(IntToString(i));
    assert OccursAt(key, key, 0);
    ParseIntOfString(i);
  }

  lemma MachConverts(x: real, repr: real -> string, lenient: bool)
    requires ReprFits(x, repr)
    ensures ConvertValue(MACH_KEY, repr(x), lenient) == Ok(Real(x))
  {
    NoParen(repr(x));
    NoOccurrence(MACH_KEY, RE_KEY);
    ShortAbsent(MACH_KEY, NCRIT_KEY);
    assert OccursAt(MACH_KEY, MACH_KEY, 0);
  }

  /** A written header's texts convert to the name and the condition. */
  lemma HeaderConverts(name: string, k: Cond, repr: real -> string, lenient: bool)
    requires ReprFits(k.1, repr) && Excludes(name, '(')
    ensures ConvertFields(HeaderItems(name, k, repr), lenient) == Ok(HeaderBack(name, k))
  {
    NameConverts(name, lenient);
    IntConverts(RE_KEY, k.0, lenient);
    MachConverts(k.1, repr, lenient);
    IntConverts(NCRIT_KEY, k.2, lenient);
    MapFour((key: string, val: string) => ConvertValue(key, val, lenient),
            (NAME_KEY, name), (RE_KEY, IntToString(k.0)), (MACH_KEY, repr(k.1)), (NCRIT_KEY, IntToString(k.2)),
            Word(name), Whole(k.0), Real(k.1), Whole(k.2));
  }

  lemma MapFour(f: (string, string) -> Result<PolarValue>, a: (string, string), b: (string, string),
                c: (string, string), d: (string, string), va: PolarValue, vb: PolarValue, vc: PolarValue, vd: PolarValue)
    requires f(a.0, a.1) == Ok(va) && f(b.0, b.1) == Ok(vb) && f(c.0, c.1) == Ok(vc) && f(d.0, d.1) == Ok(vd)
    ensures MapValues(f, [a] + [b] + [c] + [d]) == Ok([(a.0, va), (b.0, vb), (c.0, vc), (d.0, vd)])
  {
    MapSingle(f, a.0, a.1, va);
    MapSingle(f, b.0, b.1, vb);
    MapSingle(f, c.0, c.1, vc);
    MapSingle(f, d.0, d.1, vd);
    MapConcat(f, [a], [b], [(a.0, va)], [(b.0, vb)]);
    assert [(a.0, va)] + [(b.0, vb)] == [(a.0, va), (b.0, vb)];
    MapConcat(f, [a] + [b], [c], [(a.0, va), (b.0, vb)], [(c.0, vc)]);
    assert [(a.0, va), (b.0, vb)] + [(c.0, vc)] == [(a.0, va), (b.0, vb), (c.0, vc)];
    MapConcat(f, [a] + [b] + [c], [d], [(a.0, va), (b.0, vb), (c.0, vc)], [(d.0, vd)]);
    assert [(a.0, va), (b.0, vb), (c.0, vc)] + [(d.0, vd)] == [(a.0, va), (b.0, vb), (c.0, vc), (d.0, vd)];
  }

  /** A written array field converts back to its floats, when the reader
      accepts its length. */
  lemma FieldConverts(key: string, v: PolarValue, repr: real -> string, lenient: bool)
    requires ArrayTexts(v, repr).Some? ==> ValueFits(v, repr)
    requires FiniteArray(v) && (lenient || LongArray(v))
    ensures ConvertFields(FieldItem(key, v, repr), lenient) == Ok(FieldBack(key, v))
  {
    match ArrayTexts(v, repr)
    case None =>
    case Some(ts) =>
      var xs := ArrayReals(v);
      TextsSolid(v, repr);
      assert |ts| == |xs|;
      forall i | 0 <= i < |ts|
        ensures ParseFloat(ts[i]) == Some(xs[i])
      {
        if v.Ratios? {
          assert v.qs[i] == Finite(xs[i]);
        }
      }
      TupleRoundTrip(ts, xs, lenient);
      assert OccursAt(TupleText(ts), "(", 0);
      ConvertSingle(key, TupleText(ts), lenient, Reals(xs));
  }

  lemma {:induction false} FieldsConvert(p: Polar, repr: real -> string, lenient: bool)
    requires PolarFits(p, repr) && (lenient || forall i :: 0 <= i < |p| ==> LongArray(p[i].1))
    ensures FiniteArrays(p) && ConvertFields(FieldTexts(p, repr), lenient) == Ok(FieldsBack(p))
    decreases |p|
  {
    FitsFinite(p, repr);
    if |p| == 0 {
    } else {
      var n := |p| - 1;
      var front := p[..n];
      assert forall i :: 0 <= i < n ==> front[i] == p[i];
      FieldsConvert(front, repr, lenient);
      FieldConverts(p[n].0, p[n].1, repr, lenient);
      ConvertConcat(FieldTexts(front, repr), FieldItem(p[n].0, p[n].1, repr), lenient,
                    FieldsBack(front), FieldBack(p[n].0, p[n].1));
    }
  }

  /** `(int(float(re)), float(mach), int(float(ncrit)))` of a written key is the key. */
  lemma NewKeyOfText(k: Cond, repr: real -> string)
    requires ReprFits(k.1, repr)
    ensures NewKey(TextKeyOf(k, repr)) == Ok(k)
  {
    ParseFloatOfInt(k.0);
    ParseFloatOfInt(k.2);
    assert Trunc(k.0 as real) == k.0;
    assert Trunc(k.2 as real) == k.2;
  }

  /** The reader as written refuses a saved array of fewer than two elements. */
  lemma ShortFieldFails(key: string, v: PolarValue, repr: real -> string)
    requires ArrayTexts(v, repr).Some? && ValueFits(v, repr) && !LongArray(v)
    ensures ConvertValue(key, TupleText(ArrayTexts(v, repr).value), false) == Fail(ValueError)
  {
    var ts := ArrayTexts(v, repr).value;
    var xs := ArrayReals(v);
    TextsSolid(v, repr);
    forall i | 0 <= i < |ts|
      ensures ParseFloat(ts[i]) == Some(xs[i])
    {
      if v.Ratios? {
        assert v.qs[i] == Finite(xs[i]);
      }
    }
    TupleRoundTrip(ts, xs, false);
    assert OccursAt(TupleText(ts), "(", 0);
  }

  /** A saved block's texts convert to its header values and its arrays. */
  lemma BlockConverts(name: string, k: Cond, p: Polar, repr: real -> string, lenient: bool)
    requires ReprFits(k.1, repr) && PolarFits(p, repr) && Excludes(name, '(')
    requires lenient || forall i :: 0 <= i < |p| ==> LongArray(p[i].1)
    ensures FiniteArrays(p)
    ensures ConvertFields(BlockDict(name, k, p, repr), lenient) == Ok(HeaderBack(name, k) + FieldsBack(p))
  {
    HeaderConverts(name, k, repr, lenient);
    FieldsConvert(p, repr, lenient);
    ConvertConcat(HeaderItems(name, k, repr), FieldTexts(p, repr), lenient, HeaderBack(name, k), FieldsBack(p));
  }

  /** Every array of every polar has two elements or more. */
  predicate LongArrays(polars: Archive)
  {
    forall i, j :: 0 <= i < |polars| && 0 <= j < |polars[i].1| ==> LongArray(polars[i].1[j].1)
  }

  lemma ArchiveFinite(polars: Archive, repr: real -> string)
    requires ArchiveFits(polars, repr)
    ensures forall i :: 0 <= i < |polars| ==> FiniteArrays(polars[i].1)
  {
    forall i | 0 <= i < |polars|
      ensures FiniteArrays(polars[i].1)
    {
      FitsFinite(polars[i].1, repr);
    }
  }

  lemma ConvertAllNext(st: State, acc: Archive, done: map<nat, Polar>, i: nat, lenient: bool, p: Polar, k: Cond,
                       acc': Archive, done': map<nat, Polar>)
    requires i < |st.stored| && ConvertEntry(st, done, i, lenient) == Ok(p) && NewKey(st.stored[i].0) == Ok(k)
    requires acc' == Put(acc, k, p) && done' == done[st.stored[i].1 := p]
    ensures ConvertAll(st, acc, done, i, lenient) == ConvertAll(st, acc', done', i + 1, lenient)
  {
  }

  /** Storing polar `i` under its condition extends the restored archive. */
  lemma RestoredNext(name: string, polars: Archive, i: nat)
    requires i < |polars| && NoDupKeys(polars)
    requires forall j :: 0 <= j < |polars| ==> FiniteArrays(polars[j].1)
    ensures Put(Restored(name, polars[..i]), polars[i].0, HeaderBack(name, polars[i].0) + FieldsBack(polars[i].1))
         == Restored(name, polars[..i + 1])
  {
    var acc := Restored(name, polars[..i]);
    var k := polars[i].0;
    assert !HasKey(acc, k);
  }

  /** Saved entry `i` converts to polar `i` under its condition. */
  lemma SavedItemConverts(name: string, polars: Archive, repr: real -> string, lenient: bool, i: nat)
    requires ArchiveFits(polars, repr) && Excludes(name, '(') && (lenient || LongArrays(polars)) && i < |polars|
    ensures FiniteArrays(polars[i].1)
    ensures ConvertFields(BlockDict(name, polars[i].0, polars[i].1, repr), lenient)
         == Ok(HeaderBack(name, polars[i].0) + FieldsBack(polars[i].1))
    ensures NewKey(TextKeyOf(polars[i].0, repr)) == Ok(polars[i].0)
  {
    var k := polars[i].0;
    var p := polars[i].1;
    assert lenient || forall j :: 0 <= j < |p| ==> LongArray(p[j].1);
    BlockConverts(name, k, p, repr, lenient);
    NewKeyOfText(k, repr);
  }

  /** Entry `i` of a saved archive is block `i`, met for the first time. */
  lemma LoadedEntry(name: string, polars: Archive, repr: real -> string, lenient: bool, i: nat, done: map<nat, Polar>)
    requires i < |polars| && i !in done
    ensures Loaded(name, polars, |polars|, repr).stored[i] == (TextKeyOf(polars[i].0, repr), i)
    ensures ConvertEntry(Loaded(name, polars, |polars|, repr), done, i, lenient)
         == ConvertFields(BlockDict(name, polars[i].0, polars[i].1, repr), lenient)
  {
  }

  /** Converting the saved entries from `i` on completes the restored archive. */
  lemma {:induction false} ConvertLoaded(name: string, polars: Archive, repr: real -> string, lenient: bool, i: nat,
                                         done: map<nat, Polar>)
    requires ArchiveFits(polars, repr) && Excludes(name, '(') && (lenient || LongArrays(polars)) && i <= |polars|
    requires forall c :: c in done ==> c < i
    ensures forall j :: 0 <= j < |polars| ==> FiniteArrays(polars[j].1)
    ensures ConvertAll(Loaded(name, polars, |polars|, repr), Restored(name, polars[..i]), done, i, lenient)
         == Ok(Restored(name, polars))
    decreases |polars| - i
  {
    ArchiveFinite(polars, repr);
    ConvertRest(name, polars, repr, lenient, i, done);
  }

  /** What a saved archive needs to read back: distinct conditions that
      their texts spell, finite arrays, long enough unless the reading is
      lenient, and a name without `(`. */
  predicate Loadable(name: string, polars: Archive, repr: real -> string, lenient: bool)
  {
    && ArchiveFits(polars, repr) && Excludes(name, '(') && (lenient || LongArrays(polars))
    && forall j :: 0 <= j < |polars| ==> FiniteArrays(polars[j].1)
  }

  /** The induction of `ConvertLoaded`, over the entries from `i` on. */
  lemma {:induction false} ConvertRest(name: string, polars: Archive, repr: real -> string, lenient: bool, i: nat,
                                       done: map<nat, Polar>)
    requires Loadable(name, polars, repr, lenient) && i <= |polars|
    requires forall c :: c in done ==> c < i
    ensures ConvertAll(Loaded(name, polars, |polars|, repr), Restored(name, polars[..i]), done, i, lenient)
         == Ok(Restored(name, polars))
    decreases |polars| - i
  {
    if i == |polars| {
      assert polars[..i] == polars;
    } else {
      var q := ConvertLoadedStep(name, polars, repr, lenient, i, done);
      ConvertRest(name, polars, repr, lenient, i + 1, done[i := q]);
    }
  }

  /** Saved entry `i`, met for the first time, converts to polar `i` under its condition. */
  lemma LoadedConverts(name: string, polars: Archive, repr: real -> string, lenient: bool, i: nat,
                       done: map<nat, Polar>)
    requires ArchiveFits(polars, repr) && Excludes(name, '(') && (lenient || LongArrays(polars)) && i < |polars|
    requires FiniteArrays(polars[i].1) && i !in done
    ensures Loaded(name, polars, |polars|, repr).stored[i].1 == i
    ensures NewKey(Loaded(name, polars, |polars|, repr).stored[i].0) == Ok(polars[i].0)
    ensures ConvertEntry(Loaded(name, polars, |polars|, repr), done, i, lenient)
         == Ok(HeaderBack(name, polars[i].0) + FieldsBack(polars[i].1))
  {
    SavedItemConverts(name, polars, repr, lenient, i);
    LoadedEntry(name, polars, repr, lenient, i, done);
  }

  /** Converting saved entry `i`, met for the first time, stores polar `i`
      under its condition and records its dictionary under `i`. */
  lemma LoadedNext(name: string, polars: Archive, repr: real -> string, lenient: bool, i: nat,
                   done: map<nat, Polar>, acc: Archive, acc': Archive)
    requires ArchiveFits(polars, repr) && Excludes(name, '(') && (lenient || LongArrays(polars)) && i < |polars|
    requires FiniteArrays(polars[i].1) && i !in done
    requires acc' == Put(acc, polars[i].0, HeaderBack(name, polars[i].0) + FieldsBack(polars[i].1))
    ensures ConvertAll(Loaded(name, polars, |polars|, repr), acc, done, i, lenient)
         == ConvertAll(Loaded(name, polars, |polars|, repr), acc',
                       done[i := HeaderBack(name, polars[i].0) + FieldsBack(polars[i].1)], i + 1, lenient)
  {
    LoadedConverts(name, polars, repr, lenient, i, done);
    var q := HeaderBack(name, polars[i].0) + FieldsBack(polars[i].1);
    ConvertAllNext(Loaded(name, polars, |polars|, repr), acc, done, i, lenient, q, polars[i].0, acc', done[i := q]);
  }

  /** One saved entry of the restored archive: converting it adds the
      restored entry `i` and records its converted dictionary under `i`. */
  lemma ConvertLoadedStep(name: string, polars: Archive, repr: real -> string, lenient: bool, i: nat,
                          done: map<nat, Polar>) returns (q: Polar)
    requires Loadable(name, polars, repr, lenient) && i < |polars|
    requires i !in done
    ensures ConvertAll(Loaded(name, polars, |polars|, repr), Restored(name, polars[..i]), done, i, lenient)
         == ConvertAll(Loaded(name, polars, |polars|, repr), Restored(name, polars[..i + 1]), done[i := q], i + 1, lenient)
  {
    q := HeaderBack(name, polars[i].0) + FieldsBack(polars[i].1);
    RestoredNext(name, polars, i);
    LoadedNext(name, polars, repr, lenient, i, done, Restored(name, polars[..i]), Restored(name, polars[..i + 1]));
  }

  /** A saved archive reads back as the restored archive: same conditions in
      the same order, each with the airfoil name, its condition and its
      arrays. The reader as written needs every array to have two elements or
      more; the lenient reader does not. */
  lemma ArchiveRoundTrip(polars: Archive, name: Option<string>, repr: real -> string, lenient: bool)
    requires ArchiveFits(polars, repr)
    requires Excludes(NameText(name), '\n') && Excludes(NameText(name), '(')
    requires lenient || LongArrays(polars)
    ensures forall j :: 0 <= j < |polars| ==> FiniteArrays(polars[j].1)
    ensures ReadArchive(SaveText(polars, name, repr), lenient) == Ok(Restored(NameText(name), polars))
  {
    ReadSavedLines(polars, name, repr);
    ConvertLoaded(NameText(name), polars, repr, lenient, 0, map[]);
    assert Restored(NameText(name), polars[..0]) == [];
  }
}
