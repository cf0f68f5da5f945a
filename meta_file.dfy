// The propeller meta-file `<name>.meta` of propeller.py: one `attr: value`
// line per save/load attribute, written by `Propeller.save_meta_file` from
// the attributes' `str()` and read back by `Propeller.read_pdt_metafile`,
// whose small dictionary parser turns `{k: v, ...}` texts into
// dictionaries. The reading loop and the writing loop themselves live in
// the `Propeller` class; this module holds what one line means.

module MetaFile {
  import opened Wrappers
  import opened Text
  import opened Numbers
  import opened Dicts

  /** The type `saveload_attrs` declares for an attribute. */
  datatype Tipe = IntT | FloatT | DictT | StrT | ListT

  /** `Propeller.saveload_attrs`: the creation attributes, then the stored ones. */
  const SAVELOAD: Dict<string, Tipe> :=
    [("nblades", IntT), ("radius", FloatT), ("hub_radius", FloatT), ("hub_wake_disp_br", FloatT),
     ("design_speed_mps", FloatT), ("design_adv", FloatT), ("design_rpm", FloatT),
     ("design_thrust", FloatT), ("design_power", FloatT), ("design_cl", DictT),
     ("design_atmo_props", DictT), ("design_vorform", StrT), ("station_params", DictT),
     ("station_polars", ListT), ("geo_params", DictT), ("name", StrT), ("meta_file", StrT),
     ("xrr_file", StrT), ("xrop_file", StrT), ("blade_data", DictT), ("blade_xyz_profiles", DictT)]

  /** `Propeller.creation_attrs`: the attributes a new propeller may be
      given, the first fifteen of the save/load ones. */
  const CREATION_ATTRS: Dict<string, Tipe> := SAVELOAD[..15]

  /** `attrs_2_ignore` of `save_meta_file`. */
  const IGNORED: seq<string> := ["blade_xyz_profiles", "meta_file", "xrr_file", "xrop_file", "station_polars"]

  /** The save/load attributes that are read-only properties of the class:
      `setattr` on them raises AttributeError. */
  const READ_ONLY: seq<string> := ["meta_file", "xrr_file", "xrop_file"]

  const BLADE_DATA := "blade_data"
  const BLADE_PREFIX := "blade_data_"
  const CLOUD_PREFIX := "point_cloud_"
  const NONE_TEXT := "None"
  const NONE_LOWER := "none"
  const ITEM_SEP := ", "
  const PAIR_SEP := ": "

  // ---------------------------------------------------------------- values

  /** A key of a parsed dictionary: the text, or its float when every key is numeric. */
  datatype Key = SKey(s: string) | FKey(f: real)

  /** A value of a parsed dictionary: None, a float, or the text. */
  datatype Entry = ENone | EFloat(f: real) | EStr(s: string)

  /** An attribute value as `read_pdt_metafile` sets it. */
  datatype Value = NoneV | IntV(i: int) | FloatV(f: real) | StrV(s: string) | DictV(d: Dict<Key, Entry>) | ListV

  // ---------------------------------------------------------------- the dictionary parser

  /** The text with every `{`, `}` and `'` removed. */
  function Unbraced(val: string): string
  {
    Without(Without(Without(val, '{'), '}'), '\'')
  }

  /** The items `[item.split(': ') for item in text.split(', ')]`. */
  function Items(val: string): (r: seq<seq<string>>)
    ensures forall i :: 0 <= i < |r| ==> |r[i]| >= 1
  {
    var parts := Split(Unbraced(val), ITEM_SEP);
    seq(|parts|, i requires 0 <= i < |parts| => Split(parts[i], PAIR_SEP))
  }

  /** `k.replace('.', '').isnumeric()` on ASCII text. */
  predicate NumericKey(k: string)
  {
    IsNumeric(Without(k, '.'))
  }

  predicate Nonempty(items: seq<seq<string>>)
  {
    forall i :: 0 <= i < |items| ==> |items[i]| >= 1
  }

  predicate KeysNumeric(items: seq<seq<string>>)
    requires Nonempty(items)
  {
    forall i :: 0 <= i < |items| ==> NumericKey(items[i][0])
  }

  /** One item rewritten as `[float(itm[0]), itm[1]]`: ValueError for a key
      that is no float, IndexError for an item without a value; parts after
      the second are dropped. */
  function NumberItem(item: seq<string>): Result<(Key, string)>
    requires |item| >= 1
  {
    match ParseFloat(item[0])
    case None => Fail(ValueError)
    case Some(f) => if |item| < 2 then Fail(IndexError) else Ok((FKey(f), item[1]))
  }

  /** One item unpacked as `key, entry`: ValueError unless it has exactly
      two parts. */
  function TextItem(item: seq<string>): Result<(Key, string)>
  {
    if |item| != 2 then Fail(ValueError) else Ok((SKey(item[0]), item[1]))
  }

  /** The first failure of the head, then of the tail, or both values. */
  function Prepend<T>(h: Result<T>, t: Result<seq<T>>): (r: Result<seq<T>>)
    ensures r.Ok? ==> t.Ok? && |r.value| == |t.value| + 1
  {
    match h
    case Fail(e) => Fail(e)
    case Ok(x) =>
      match t
      case Fail(e) => Fail(e)
      case Ok(rest) => Ok([x] + rest)
  }

  /** The items with their keys read as numbers, in order. */
  function NumberKeyed(items: seq<seq<string>>): (r: Result<seq<(Key, string)>>)
    requires Nonempty(items)
    ensures r.Ok? ==> |r.value| == |items|
  {
    if |items| == 0 then Ok([]) else Prepend(NumberItem(items[0]), NumberKeyed(items[1..]))
  }

  /** The items unpacked as text keys and values, in order. */
  function TextKeyed(items: seq<seq<string>>): (r: Result<seq<(Key, string)>>)
    ensures r.Ok? ==> |r.value| == |items|
  {
    if |items| == 0 then Ok([]) else Prepend(TextItem(items[0]), TextKeyed(items[1..]))
  }

  /** A dictionary value: None when it reads `none` in any case, a float
      when it converts, the text otherwise. */
  function EntryOf(s: string): Entry
  {
    if Lower(s) == NONE_LOWER then ENone
    else
      match ParseFloat(s)
      case Some(f) => EFloat(f)
      case None => EStr(s)
  }

  /** `val[key] = entry` for the pairs in order. */
  function Build(pairs: seq<(Key, string)>): Dict<Key, Entry>
  {
    if |pairs| == 0 then []
    else
      var last := pairs[|pairs| - 1];
      Put(Build(pairs[..|pairs| - 1]), last.0, EntryOf(last.1))
  }

  /** The `{k: v, ...}` parser of `read_pdt_metafile`. */
  function ParseDict(val: string): (r: Result<Dict<Key, Entry>>)
    ensures r.Ok? ==> NoDupKeys(r.value) && |r.value| <= |Items(val)|
  {
    var items := Items(val);
    var keyed := if KeysNumeric(items) then NumberKeyed(items) else TextKeyed(items);
    match keyed
    case Fail(e) => Fail(e)
    case Ok(pairs) => BuildKeys(pairs); Ok(Build(pairs))
  }

  /** A later pair for the same key replaces the earlier value, so the
      dictionary holds each key once and no more entries than pairs. */
  lemma {:induction false} BuildKeys(pairs: seq<(Key, string)>)
    ensures NoDupKeys(Build(pairs)) && |Build(pairs)| <= |pairs|
  {
    if |pairs| > 0 {
      var last := pairs[|pairs| - 1];
      BuildKeys(pairs[..|pairs| - 1]);
      PutNoDup(Build(pairs[..|pairs| - 1]), last.0, EntryOf(last.1));
    }
  }

  /** The value text of an attribute line, converted to the attribute's type. */
  function ParseTyped(t: Tipe, val: string): Result<Value>
  {
    if val == NONE_TEXT then Ok(NoneV)
    else
      match t
      case IntT => (match ParseInt(val) case Some(i) => Ok(IntV(i)) case None => Fail(ValueError))
      case FloatT => (match ParseFloat(val) case Some(f) => Ok(FloatV(f)) case None => Fail(ValueError))
      case DictT => (match ParseDict(val) case Ok(d) => Ok(DictV(d)) case Fail(e) => Fail(e))
      case StrT => Ok(StrV(val))
      case ListT => Ok(ListV)
  }

  // ---------------------------------------------------------------- lines

  /** What the reading loop has built: the attributes set so far and the
      local `blade_data` dictionary. */
  datatype Meta = Meta(attrs: Dict<string, Value>, bladeData: Dict<string, seq<real>>)

  /** `[float(v) for v in text.split(', ')]` */
  function Floats(text: string): (r: Result<seq<real>>)
  {
    FloatsOf(Split(text, ITEM_SEP))
  }

  function FloatsOf(parts: seq<string>): (r: Result<seq<real>>)
    ensures r.Ok? ==> |r.value| == |parts|
  {
    ParseEach(ParseFloat, parts)
  }

  /** Each part parsed in order; the first failure raises ValueError. */
  function ParseEach(parse: string -> Option<real>, parts: seq<string>): (r: Result<seq<real>>)
    ensures r.Ok? ==> |r.value| == |parts|
  {
    if |parts| == 0 then Ok([])
    else
      match parse(parts[0])
      case None => Fail(ValueError)
      case Some(f) =>
        match ParseEach(parse, parts[1..])
        case Fail(e) => Fail(e)
        case Ok(rest) => Ok([f] + rest)
  }

  /** Parts that each parse give their values. */
  lemma {:induction false} ParseEachOk(parse: string -> Option<real>, parts: seq<string>, xs: seq<real>)
    requires |parts| == |xs| && forall k :: 0 <= k < |parts| ==> parse(parts[k]) == Some(xs[k])
    ensures ParseEach(parse, parts) == Ok(xs)
    decreases |parts|
  {
    if |parts| > 0 {
      ParseEachOk(parse, parts[1..], xs[1..]);
      assert xs == [xs[0]] + xs[1..];
    }
  }

  /** The blade-data step of a line: `blade_data_<key>` lines add their float
      list under the key. */
  function BladeStep(m: Meta, lineAttr: string, lineVal: string): Result<Meta>
  {
    if !Contains(lineAttr, BLADE_PREFIX) then Ok(m)
    else
      match Floats(Strip(lineVal))
      case Fail(e) => Fail(e)
      case Ok(vals) => Ok(m.(bladeData := Put(m.bladeData, SplitOnce(lineAttr, BLADE_PREFIX)[1], vals)))
  }

  /** The point-cloud step: the floats are converted, and dropped. */
  function CloudStep(lineAttr: string, lineVal: string): Result<()>
  {
    if !Contains(lineAttr, CLOUD_PREFIX) then Ok(())
    else
      match Floats(Strip(lineVal))
      case Fail(e) => Fail(e)
      case Ok(_) => Ok(())
  }

  /** The attribute step: a line naming a save/load attribute sets it from
      the text after the first `': '` (IndexError without one); setting one
      of the read-only properties raises AttributeError once the value is
      converted. */
  function AttrStep(m: Meta, line: string, lineAttr: string): Result<Meta>
  {
    match Get(SAVELOAD, lineAttr)
    case None => Ok(m)
    case Some(t) =>
      var halves := SplitOnce(line, PAIR_SEP);
      if |halves| < 2 then Fail(IndexError)
      else
        match ParseTyped(t, halves[1])
        case Fail(e) => Fail(e)
        case Ok(v) => if lineAttr in READ_ONLY then Fail(AttributeError) else Ok(m.(attrs := Put(m.attrs, lineAttr, v)))
  }

  /** One pass of the reading loop: ValueError for a line without a `:`. */
  function ReadLine(m: Meta, line: string): Result<Meta>
  {
    var halves := SplitOnce(line, ":");
    if |halves| < 2 then Fail(ValueError)
    else
      var lineAttr, lineVal := Strip(halves[0]), Strip(halves[1]);
      match BladeStep(m, lineAttr, lineVal)
      case Fail(e) => Fail(e)
      case Ok(m1) =>
        match CloudStep(lineAttr, lineVal)
        case Fail(e) => Fail(e)
        case Ok(_) => AttrStep(m1, line, lineAttr)
  }

  /** The lines of a meta-file: its stripped text split at newlines. */
  function MetaLines(text: string): (r: seq<string>)
    ensures |r| >= 1
  {
    Split(Strip(text), "\n")
  }

  /** The reading loop over `lines` from state `m`: the state when the loop
      ends, and the exception that ended it early, if any. A failing line
      sets nothing. */
  function ReadLines(m: Meta, lines: seq<string>): (Meta, Option<Exc>)
  {
    if |lines| == 0 then (m, None)
    else
      var (m1, e) := ReadLines(m, lines[..|lines| - 1]);
      if e.Some? then (m1, e)
      else
        match ReadLine(m1, lines[|lines| - 1])
        case Fail(x) => (m1, Some(x))
        case Ok(m2) => (m2, None)
  }

  /** A line that reads cleanly moves the loop on by one. */
  lemma ReadLinesNext(m: Meta, lines: seq<string>, i: nat)
    requires i < |lines| && ReadLines(m, lines[..i]).1.None?
    requires ReadLine(ReadLines(m, lines[..i]).0, lines[i]).Ok?
    ensures ReadLines(m, lines[..i + 1]) == (ReadLine(ReadLines(m, lines[..i]).0, lines[i]).value, None)
  {
    assert lines[..i + 1][..i] == lines[..i];
  }

  /** Once a line raises, the loop ends there: the state is the one
      before that line and the exception is the line's. */
  lemma {:induction false} ReadLinesStops(m: Meta, lines: seq<string>, i: nat)
    requires i < |lines| && ReadLines(m, lines[..i]).1.None?
    requires ReadLine(ReadLines(m, lines[..i]).0, lines[i]).Fail?
    ensures ReadLines(m, lines) == (ReadLines(m, lines[..i]).0, Some(ReadLine(ReadLines(m, lines[..i]).0, lines[i]).exc))
    decreases |lines|
  {
    var front := lines[..|lines| - 1];
    if i + 1 < |lines| {
      assert front[..i] == lines[..i] && front[i] == lines[i];
      ReadLinesStops(m, front, i);
    } else {
      assert front == lines[..i];
    }
  }

  // ---------------------------------------------------------------- the writer

  /** `str()` of a dictionary key, with the float repr `repr`. */
  function ShowKey(k: Key, repr: real -> string): string
  {
    match k
    case SKey(s) => StrRepr(s)
    case FKey(f) => repr(f)
  }

  function ShowEntry(e: Entry, repr: real -> string): string
  {
    match e
    case ENone => NONE_TEXT
    case EFloat(f) => repr(f)
    case EStr(s) => StrRepr(s)
  }

  function ShowItems(d: Dict<Key, Entry>, repr: real -> string): seq<string>
  {
    seq(|d|, i requires 0 <= i < |d| => ShowKey(d[i].0, repr) + PAIR_SEP + ShowEntry(d[i].1, repr))
  }

  /** `str(d)` of a dictionary. */
  function ShowDict(d: Dict<Key, Entry>, repr: real -> string): string
  {
    "{" + Join(ShowItems(d, repr), ITEM_SEP) + "}"
  }

  /** `str(v)` of an attribute value. */
  function ShowValue(v: Value, repr: real -> string): string
  {
    match v
    case NoneV => NONE_TEXT
    case IntV(i) => IntToString(i)
    case FloatV(f) => repr(f)
    case StrV(s) => s
    case DictV(d) => ShowDict(d, repr)
    case ListV => "[]"
  }

  /** The attributes `save_meta_file` writes, in declaration order. */
  function Saved(names: seq<string>): (r: seq<string>)
    ensures forall i :: 0 <= i < |r| ==> r[i] in names && r[i] !in IGNORED
  {
    if |names| == 0 then []
    else (if names[0] in IGNORED then [] else [names[0]]) + Saved(names[1..])
  }

  /** The attributes `save_meta_file` writes. */
  const SAVED_NAMES: seq<string> := Saved(Keys(SAVELOAD))

  /** The names before the first `x`; all of them when there is none. */
  function Before(names: seq<string>, x: string): (r: seq<string>)
    ensures x !in r
  {
    if |names| == 0 || names[0] == x then [] else [names[0]] + Before(names[1..], x)
  }

  /** `Before` stops at the first `x`, and keeps everything without one. */
  lemma {:induction false} BeforeAt(names: seq<string>, x: string, i: nat)
    requires i <= |names| && x !in names[..i] && (i < |names| ==> names[i] == x)
    ensures Before(names, x) == names[..i]
  {
    if i > 0 {
      assert names[1..][..i - 1] == names[1..i];
      BeforeAt(names[1..], x, i - 1);
    }
  }

  /** `getattr(self, attr)`: every attribute starts as None. */
  function Attr(attrs: Dict<string, Value>, a: string): Value
  {
    match Get(attrs, a)
    case Some(v) => v
    case None => NoneV
  }

  /** `', '.join([str(i) for i in val])` */
  function ShowFloats(vals: seq<real>, repr: real -> string): string
  {
    Join(seq(|vals|, i requires 0 <= i < |vals| => repr(vals[i])), ITEM_SEP)
  }

  /** The line of one `blade_data` key. */
  function BladeLine(key: string, vals: seq<real>, repr: real -> string): string
  {
    BLADE_PREFIX + key + PAIR_SEP + ShowFloats(vals, repr)
  }

  /** The line of one plain attribute. */
  function AttrLine(a: string, v: Value, repr: real -> string): string
  {
    a + PAIR_SEP + ShowValue(v, repr)
  }

  /** The lines written for the attributes `names`: `blade_data` expands to
      one line per key. */
  function WrittenLines(names: seq<string>, m: Meta, repr: real -> string): (r: seq<string>)
    ensures BLADE_DATA !in names ==> |r| == |names|
    ensures BLADE_DATA !in names ==>
              forall i :: 0 <= i < |names| ==> r[i] == AttrLine(names[i], Attr(m.attrs, names[i]), repr)
  {
    if |names| == 0 then []
    else
      var a := names[|names| - 1];
      var front := WrittenLines(names[..|names| - 1], m, repr);
      if a == BLADE_DATA then front + BladeLines(m.bladeData, repr)
      else front + [AttrLine(a, Attr(m.attrs, a), repr)]
  }

  function BladeLines(bd: Dict<string, seq<real>>, repr: real -> string): (r: seq<string>)
    ensures |r| == |bd|
  {
    seq(|bd|, i requires 0 <= i < |bd| => BladeLine(bd[i].0, bd[i].1, repr))
  }

  /** Writing one more name adds its lines. */
  lemma WrittenLinesNext(names: seq<string>, m: Meta, repr: real -> string, i: nat)
    requires i < |names|
    ensures WrittenLines(names[..i + 1], m, repr) ==
              WrittenLines(names[..i], m, repr)
                + (if names[i] == BLADE_DATA then BladeLines(m.bladeData, repr) else [AttrLine(names[i], Attr(m.attrs, names[i]), repr)])
  {
    assert names[..i + 1][..i] == names[..i];
  }

  /** The blade line of key `j` follows those of the keys before it. */
  lemma BladeLinesNext(bd: Dict<string, seq<real>>, repr: real -> string, j: nat)
    requires j < |bd|
    ensures BladeLines(bd, repr)[..j + 1] == BladeLines(bd, repr)[..j] + [BladeLine(bd[j].0, bd[j].1, repr)]
  {
  }

  // ---------------------------------------------------------------- the dictionary round trip

  /** Text that `repr` writes as itself and the dictionary syntax leaves
      alone: no braces, commas or colons, and no quote, backslash or
      control character. */
  predicate Plain(s: string)
  {
    forall i :: 0 <= i < |s| ==> s[i] !in {'{', '}', ',', ':'} && ReprSafe(s[i])
  }

  /** A float whose repr reads back as itself: plain text without spaces,
      which is not the word none. */
  predicate FloatText(f: real, repr: real -> string)
  {
    var t := repr(f);
    ParseFloat(t) == Some(f) && Plain(t) && NoSpace(t) && |t| > 0 && Lower(t) != NONE_LOWER
  }

  /** The key as it stands once braces and quotes are removed. */
  function KeyText(k: Key, repr: real -> string): string
  {
    match k
    case SKey(s) => s
    case FKey(f) => repr(f)
  }

  function EntryText(e: Entry, repr: real -> string): string
  {
    match e
    case ENone => NONE_TEXT
    case EFloat(f) => repr(f)
    case EStr(s) => s
  }

  /** A key that reads back as itself, as a number key or as a text key. */
  predicate KeyFits(k: Key, numeric: bool, repr: real -> string)
  {
    if numeric then k.FKey? && FloatText(k.f, repr) && NumericKey(repr(k.f))
    else k.SKey? && Plain(k.s) && !NumericKey(k.s)
  }

  /** A value that reads back as itself: None, a float, or a text that reads
      as neither. */
  predicate EntryFits(e: Entry, repr: real -> string)
  {
    match e
    case ENone => true
    case EFloat(f) => FloatText(f, repr)
    case EStr(s) => Plain(s) && EntryOf(s) == EStr(s)
  }

  predicate KeysFit(d: Dict<Key, Entry>, numeric: bool, repr: real -> string)
  {
    forall i :: 0 <= i < |d| ==> KeyFits(d[i].0, numeric, repr)
  }

  /** A non-empty dictionary with distinct keys, all number keys or all text
      keys, whose keys and values read back. */
  predicate DictFits(d: Dict<Key, Entry>, repr: real -> string)
  {
    && |d| > 0 && NoDupKeys(d)
    && (KeysFit(d, true, repr) || KeysFit(d, false, repr))
    && (forall i :: 0 <= i < |d| ==> EntryFits(d[i].1, repr))
  }

  /** The items of the written dictionary, split in two. */
  function Parts(d: Dict<Key, Entry>, repr: real -> string): (r: seq<seq<string>>)
    ensures |r| == |d| && Nonempty(r)
  {
    seq(|d|, i requires 0 <= i < |d| => [KeyText(d[i].0, repr), EntryText(d[i].1, repr)])
  }

  function Pairs(d: Dict<Key, Entry>, repr: real -> string): (r: seq<(Key, string)>)
    ensures |r| == |d|
  {
    seq(|d|, i requires 0 <= i < |d| => (d[i].0, EntryText(d[i].1, repr)))
  }

  lemma {:induction false} WithoutConcat(a: string, b: string, c: char)
    ensures Without(a + b, c) == Without(a, c) + Without(b, c)
    decreases |a|
  {
    if |a| > 0 {
      assert (a + b)[0] == a[0] && (a + b)[1..] == a[1..] + b;
      WithoutConcat(a[1..], b, c);
    } else {
      assert a + b == b;
    }
  }

  lemma UnbracedConcat(a: string, b: string)
    ensures Unbraced(a + b) == Unbraced(a) + Unbraced(b)
  {
    WithoutConcat(a, b, '{');
    WithoutConcat(Without(a, '{'), Without(b, '{'), '}');
    WithoutConcat(Without(Without(a, '{'), '}'), Without(Without(b, '{'), '}'), '\'');
  }

  /** Text without braces and quotes is left as it is. */
  lemma UnbracedNoOp(s: string)
    requires forall i :: 0 <= i < |s| ==> s[i] != '{' && s[i] != '}' && s[i] != '\''
    ensures Unbraced(s) == s
  {
    WithoutAbsent(s, '{');
    WithoutAbsent(s, '}');
    WithoutAbsent(s, '\'');
  }

  lemma {:induction false} UnbracedJoin(parts: seq<string>, sep: string)
    requires Unbraced(sep) == sep
    ensures Unbraced(Join(parts, sep)) == Join(seq(|parts|, i requires 0 <= i < |parts| => Unbraced(parts[i])), sep)
    decreases |parts|
  {
    var un := seq(|parts|, i requires 0 <= i < |parts| => Unbraced(parts[i]));
    if |parts| > 1 {
      UnbracedJoin(parts[1..], sep);
      UnbracedConcat(parts[0] + sep, Join(parts[1..], sep));
      UnbracedConcat(parts[0], sep);
      assert un[1..] == seq(|parts| - 1, i requires 0 <= i < |parts| - 1 => Unbraced(parts[1..][i]));
    }
  }

  lemma QuoteUnbraced()
    ensures Unbraced("'") == ""
  {
    assert Without("'", '{') == "'";
    assert Without("'", '}') == "'";
  }

  /** The two separators hold no brace or quote. */
  lemma SepsUnbraced()
    ensures Unbraced(PAIR_SEP) == PAIR_SEP && Unbraced(ITEM_SEP) == ITEM_SEP
  {
    assert |PAIR_SEP| == 2 && PAIR_SEP[0] == ':' && PAIR_SEP[1] == ' ';
    UnbracedNoOp(PAIR_SEP);
    assert |ITEM_SEP| == 2 && ITEM_SEP[0] == ',' && ITEM_SEP[1] == ' ';
    UnbracedNoOp(ITEM_SEP);
  }

  /** Syntax-free text: no braces, quotes, commas or colons. */
  predicate Bare(s: string)
  {
    forall i :: 0 <= i < |s| ==> s[i] !in {'{', '}', '\'', ',', ':'}
  }

  /** A quoted syntax-free text loses its quotes. */
  lemma Unquoted(t: string)
    requires Bare(t)
    ensures Unbraced("'" + t + "'") == t
  {
    UnbracedNoOp(t);
    QuoteUnbraced();
    UnbracedConcat("'" + t, "'");
    UnbracedConcat("'", t);
  }

  lemma KeyUnbraced(k: Key, repr: real -> string)
    requires Plain(KeyText(k, repr))
    ensures Unbraced(ShowKey(k, repr)) == KeyText(k, repr)
  {
    match k
    case SKey(t) => ReprQuotesOnly(t); Unquoted(t);
    case FKey(f) => UnbracedNoOp(repr(f));
  }

  lemma EntryUnbraced(e: Entry, repr: real -> string)
    requires Plain(EntryText(e, repr))
    ensures Unbraced(ShowEntry(e, repr)) == EntryText(e, repr)
  {
    match e
    case ENone => UnbracedNoOp(NONE_TEXT);
    case EFloat(f) => UnbracedNoOp(repr(f));
    case EStr(t) => ReprQuotesOnly(t); Unquoted(t);
  }

  /** One written item, once braces and quotes are removed. */
  lemma UnbracedItem(k: Key, e: Entry, repr: real -> string)
    requires Plain(KeyText(k, repr)) && Plain(EntryText(e, repr))
    ensures Unbraced(ShowKey(k, repr) + PAIR_SEP + ShowEntry(e, repr)) == KeyText(k, repr) + PAIR_SEP + EntryText(e, repr)
  {
    var x, y := ShowKey(k, repr), ShowEntry(e, repr);
    KeyUnbraced(k, repr);
    EntryUnbraced(e, repr);
    SepsUnbraced();
    UnbracedConcat(x + PAIR_SEP, y);
    UnbracedConcat(x, PAIR_SEP);
  }

  /** The written items, once braces and quotes are removed. */
  function ItemTexts(d: Dict<Key, Entry>, repr: real -> string): (r: seq<string>)
    ensures |r| == |d|
  {
    seq(|d|, i requires 0 <= i < |d| => KeyText(d[i].0, repr) + PAIR_SEP + EntryText(d[i].1, repr))
  }

  predicate PlainTexts(d: Dict<Key, Entry>, repr: real -> string)
  {
    forall i :: 0 <= i < |d| ==> Plain(KeyText(d[i].0, repr)) && Plain(EntryText(d[i].1, repr))
  }

  lemma BracesUnbraced()
    ensures Unbraced("{") == "" && Unbraced("}") == ""
  {
    assert Without("{", '{') == "";
    assert Without("}", '{') == "}";
    assert Without("}", '}') == "";
  }

  lemma UnbracedShowDict(d: Dict<Key, Entry>, repr: real -> string)
    requires PlainTexts(d, repr)
    ensures Unbraced(ShowDict(d, repr)) == Join(ItemTexts(d, repr), ITEM_SEP)
  {
    var items := ShowItems(d, repr);
    var j := Join(items, ITEM_SEP);
    SepsUnbraced();
    UnbracedJoin(items, ITEM_SEP);
    forall i | 0 <= i < |d|
      ensures Unbraced(items[i]) == ItemTexts(d, repr)[i]
    {
      UnbracedItem(d[i].0, d[i].1, repr);
    }
    assert seq(|items|, i requires 0 <= i < |items| => Unbraced(items[i])) == ItemTexts(d, repr);
    BracesUnbraced();
    UnbracedConcat("{" + j, "}");
    UnbracedConcat("{", j);
  }

  /** A written item splits back into its key and value. */
  lemma SplitItem(kt: string, et: string)
    requires Plain(kt) && Plain(et)
    ensures Split(kt + PAIR_SEP + et, PAIR_SEP) == [kt, et]
  {
    assert PAIR_SEP[0] == ':';
    assert Join([kt, et], PAIR_SEP) == kt + PAIR_SEP + Join([et], PAIR_SEP) == kt + PAIR_SEP + et;
    SplitJoin([kt, et], PAIR_SEP);
  }

  /** The parser's items of a written dictionary are its keys and values. */
  lemma ItemsOfShown(d: Dict<Key, Entry>, repr: real -> string)
    requires |d| > 0 && PlainTexts(d, repr)
    ensures Items(ShowDict(d, repr)) == Parts(d, repr)
  {
    UnbracedShowDict(d, repr);
    var texts := ItemTexts(d, repr);
    assert ITEM_SEP[0] == ',' && PAIR_SEP[0] == ':' && PAIR_SEP[1] == ' ';
    forall k | 0 <= k < |texts|
      ensures Excludes(texts[k], ITEM_SEP[0])
    {
      var kt, et := KeyText(d[k].0, repr), EntryText(d[k].1, repr);
      assert texts[k] == kt + PAIR_SEP + et;
      forall i | 0 <= i < |texts[k]|
        ensures texts[k][i] != ','
      {
        if i < |kt| {
          assert texts[k][i] == kt[i];
        } else if i >= |kt| + 2 {
          assert texts[k][i] == et[i - |kt| - 2];
        }
      }
    }
    SplitJoin(texts, ITEM_SEP);
    forall i | 0 <= i < |d|
      ensures Split(texts[i], PAIR_SEP) == Parts(d, repr)[i]
    {
      SplitItem(KeyText(d[i].0, repr), EntryText(d[i].1, repr));
    }
  }

  /** The key conversion succeeds when every item converts. */
  lemma {:induction false} NumberKeyedOk(items: seq<seq<string>>, pairs: seq<(Key, string)>)
    requires Nonempty(items) && |pairs| == |items|
    requires forall i :: 0 <= i < |items| ==> NumberItem(items[i]) == Ok(pairs[i])
    ensures NumberKeyed(items) == Ok(pairs)
    decreases |items|
  {
    if |items| > 0 {
      NumberKeyedOk(items[1..], pairs[1..]);
      HeadTail(pairs);
    }
  }

  /** A fitting number key's item converts to the key and its value text. */
  lemma NumberItemFits(k: Key, e: Entry, repr: real -> string)
    requires KeyFits(k, true, repr)
    ensures NumberItem([KeyText(k, repr), EntryText(e, repr)]) == Ok((k, EntryText(e, repr)))
  {
  }

  lemma {:induction false} TextKeyedParts(d: Dict<Key, Entry>, repr: real -> string)
    requires KeysFit(d, false, repr)
    ensures TextKeyed(Parts(d, repr)) == Ok(Pairs(d, repr))
    decreases |d|
  {
    if |d| > 0 {
      assert Parts(d, repr)[1..] == Parts(d[1..], repr);
      assert Pairs(d, repr)[1..] == Pairs(d[1..], repr);
      HeadTail(Pairs(d, repr));
      TextKeyedParts(d[1..], repr);
    }
  }

  lemma HeadTail<T>(s: seq<T>)
    requires |s| > 0
    ensures s == [s[0]] + s[1..]
  {
  }

  lemma NoneLower()
    ensures Lower(NONE_TEXT) == NONE_LOWER
  {
    assert NONE_TEXT == ['N'] + "one";
    assert Lower("one") == "one" by {
      assert Lower("e") == "e";
      assert "one"[1..] == "ne" && "ne"[1..] == "e";
    }
  }

  /** A fitting value's text reads back as the value. */
  lemma EntryRoundTrip(e: Entry, repr: real -> string)
    requires EntryFits(e, repr)
    ensures EntryOf(EntryText(e, repr)) == e
  {
    if e.ENone? {
      NoneLower();
    }
  }

  lemma {:induction false} BuildPairs(d: Dict<Key, Entry>, repr: real -> string)
    requires NoDupKeys(d) && forall i :: 0 <= i < |d| ==> EntryFits(d[i].1, repr)
    ensures Build(Pairs(d, repr)) == d
    decreases |d|
  {
    if |d| > 0 {
      var n := |d| - 1;
      var init, pairs := d[..n], Pairs(d, repr);
      assert pairs[..n] == Pairs(init, repr);
      assert Build(pairs) == Put(Build(pairs[..n]), pairs[n].0, EntryOf(pairs[n].1));
      BuildPairs(init, repr);
      EntryRoundTrip(d[n].1, repr);
      LastKeyFresh(d);
      assert init + [d[n]] == d;
    }
  }

  /** The last key of a dictionary with distinct keys is not among the others. */
  lemma LastKeyFresh<K, V>(d: Dict<K, V>)
    requires |d| > 0 && NoDupKeys(d)
    ensures NoDupKeys(d[..|d| - 1]) && !HasKey(d[..|d| - 1], d[|d| - 1].0)
  {
    var n := |d| - 1;
    forall i | 0 <= i < n
      ensures d[..n][i].0 != d[n].0
    {
      assert d[i].0 != d[n].0;
    }
  }

  /** Fitting keys and values are plain text. */
  lemma FitsPlain(d: Dict<Key, Entry>, repr: real -> string)
    requires DictFits(d, repr)
    ensures PlainTexts(d, repr)
  {
    NoneTextPlain();
    forall i | 0 <= i < |d|
      ensures Plain(KeyText(d[i].0, repr)) && Plain(EntryText(d[i].1, repr))
    {
      assert KeyFits(d[i].0, true, repr) || KeyFits(d[i].0, false, repr);
      assert EntryFits(d[i].1, repr);
    }
  }

  /** The parser's key conversion on a fitting dictionary's parts. */
  lemma KeyedParts(d: Dict<Key, Entry>, repr: real -> string)
    requires DictFits(d, repr)
    ensures var items := Parts(d, repr);
            (if KeysNumeric(items) then NumberKeyed(items) else TextKeyed(items)) == Ok(Pairs(d, repr))
  {
    var items := Parts(d, repr);
    if KeysFit(d, true, repr) {
      assert forall i :: 0 <= i < |d| ==> KeyFits(d[i].0, true, repr);
      assert KeysNumeric(items);
      forall i | 0 <= i < |d|
        ensures NumberItem(items[i]) == Ok(Pairs(d, repr)[i])
      {
        NumberItemFits(d[i].0, d[i].1, repr);
      }
      NumberKeyedOk(items, Pairs(d, repr));
    } else {
      assert KeyFits(d[0].0, false, repr);
      assert !NumericKey(items[0][0]);
      TextKeyedParts(d, repr);
    }
  }

  lemma NoneTextPlain()
    ensures Plain(NONE_TEXT) && NoSpace(NONE_TEXT)
  {
    assert NONE_TEXT == ['N', 'o', 'n', 'e'];
  }

  /** A one-item dictionary text with quoted key and value splits into the
      key and the value, whatever else the two texts hold. */
  lemma OneItemUnbraced(kt: string, et: string)
    requires Bare(kt) && Bare(et)
    ensures Unbraced("{" + ("'" + kt + "'") + PAIR_SEP + ("'" + et + "'") + "}") == kt + PAIR_SEP + et
  {
    var x, y := "'" + kt + "'", "'" + et + "'";
    Unquoted(kt);
    Unquoted(et);
    SepsUnbraced();
    BracesUnbraced();
    UnbracedConcat("{" + x + PAIR_SEP + y, "}");
    UnbracedConcat("{" + x + PAIR_SEP, y);
    UnbracedConcat("{" + x, PAIR_SEP);
    UnbracedConcat("{", x);
  }

  lemma OneItemParts(kt: string, et: string)
    requires Bare(kt) && Bare(et)
    ensures Items("{" + ("'" + kt + "'") + PAIR_SEP + ("'" + et + "'") + "}") == [[kt, et]]
  {
    OneItemUnbraced(kt, et);
    var item := kt + PAIR_SEP + et;
    assert ITEM_SEP[0] == ',' && PAIR_SEP[0] == ':' && PAIR_SEP[1] == ' ';
    assert Excludes(item, ',') by {
      forall i | 0 <= i < |item|
        ensures item[i] != ','
      {
        if i < |kt| {
          assert item[i] == kt[i];
        } else if i >= |kt| + 2 {
          assert item[i] == et[i - |kt| - 2];
        }
      }
    }
    SplitJoin([item], ITEM_SEP);
    assert Join([kt, et], PAIR_SEP) == item;
    SplitJoin([kt, et], PAIR_SEP);
  }


  /** A one-item dictionary text with a text key reads as that key and
      its converted value. */
  lemma OneItemParsed(kt: string, et: string)
    requires Bare(kt) && Bare(et) && !NumericKey(kt)
    ensures ParseDict("{" + ("'" + kt + "'") + PAIR_SEP + ("'" + et + "'") + "}") == Ok([(SKey(kt), EntryOf(et))])
  {
    OneItemParts(kt, et);
    var items := [[kt, et]];
    assert items[0][0] == kt;
    assert !KeysNumeric(items);
    assert TextKeyed(items) == Ok([(SKey(kt), et)]) by {
      assert items[1..] == [];
      assert TextItem(items[0]) == Ok((SKey(kt), et));
      assert TextKeyed(items[1..]) == Ok([]);
      assert [(SKey(kt), et)] + [] == [(SKey(kt), et)];
      assert TextKeyed(items) == Prepend(TextItem(items[0]), TextKeyed(items[1..]));
    }
    assert Build([(SKey(kt), et)]) == [(SKey(kt), EntryOf(et))] by {
      assert [(SKey(kt), et)][..0] == [];
    }
  }

  /** `str()` of a one-item dictionary with a plain text key and a text
      value without quotes. */
  lemma ShownOneItem(kt: string, v: string, repr: real -> string)
    requires Plain(kt) && '\'' !in v
    ensures ShowDict([(SKey(kt), EStr(v))], repr) == "{" + ("'" + kt + "'") + PAIR_SEP + ("'" + Escaped(v, '\'') + "'") + "}"
  {
    var d: Dict<Key, Entry> := [(SKey(kt), EStr(v))];
    ReprQuotesOnly(kt);
    var item := ("'" + kt + "'") + PAIR_SEP + ("'" + Escaped(v, '\'') + "'");
    assert ShowItems(d, repr)[0] == item;
    assert ShowItems(d, repr) == [item];
  }

  /** The reader does not undo `repr`'s escapes: a text value comes back as
      its escaped form, which differs from it as soon as it holds a
      backslash or a control character. */
  lemma EscapedReadBack(kt: string, v: string, repr: real -> string)
    requires Plain(kt) && !NumericKey(kt) && '\'' !in v && Bare(Escaped(v, '\''))
    ensures ParseDict(ShowDict([(SKey(kt), EStr(v))], repr)) == Ok([(SKey(kt), EntryOf(Escaped(v, '\'')))])
    ensures Escaped(v, '\'') == v <==> Printable(v)
  {
    ShownOneItem(kt, v, repr);
    OneItemParsed(kt, Escaped(v, '\''));
    EscapedSame(v, '\'');
    ReprQuotesOnly(v);
  }

  /** A text value holding a backslash does not read back as written:
      `str()` writes `{'fi': 'a\\b'}` with the backslash doubled, and the
      reader keeps both backslashes. */
  lemma BackslashReadDoubled(repr: real -> string)
    ensures ParseDict(ShowDict([(SKey("fi"), EStr("a\\b"))], repr)) == Ok([(SKey("fi"), EStr("a\\\\b"))])
  {
    var kt, v, et := "fi", "a\\b", "a\\\\b";
    ReprDoublesBackslash();
    assert Escaped(v, '\'') == et;
    WithoutAbsent(kt, '.');
    EscapedReadBack(kt, v, repr);
    BackslashEntry();
  }

  /** The value read back is the text with both backslashes. */
  lemma BackslashEntry()
    ensures EntryOf("a\\\\b") == EStr("a\\\\b")
  {
    var et := "a\\\\b";
    LetterNoFloat(et);
    assert Lower(et)[0] == 'a';
  }



  /** Writing a fitting dictionary with `str()` and parsing it gives it back. */
  lemma DictRoundTrip(d: Dict<Key, Entry>, repr: real -> string)
    requires DictFits(d, repr)
    ensures ParseDict(ShowDict(d, repr)) == Ok(d)
  {
    FitsPlain(d, repr);
    ItemsOfShown(d, repr);
    KeyedParts(d, repr);
    BuildPairs(d, repr);
  }

  /** `str({})` does not read back: its single item has no value. */
  lemma EmptyDictUnreadable()
    ensures ParseDict("{}") == Fail(ValueError)
  {
    assert Unbraced("{}") == "" by {
      assert Without("{}", '{') == "}" by {
        assert "{}"[1..] == "}";
      }
      assert Without("}", '}') == "";
    }
    assert Split("", ITEM_SEP) == [""];
    assert Split("", PAIR_SEP) == [""];
    assert Items("{}") == [[""]];
    assert !NumericKey("");
  }

  // ---------------------------------------------------------------- line round trips

  /** An attribute value that reads back as itself through its declared type. */
  predicate ValueFits(t: Tipe, v: Value, repr: real -> string)
  {
    match v
    case NoneV => true
    case IntV(_) => t == IntT
    case FloatV(f) => t == FloatT && FloatText(f, repr)
    case StrV(s) => t == StrT && s != NONE_TEXT
    case DictV(d) => t == DictT && DictFits(d, repr)
    case ListV => t == ListT
  }

  /** `str(i)` ends with a digit, so it is never the word None. */
  lemma IntTextNotNone(i: int)
    ensures IntToString(i) != NONE_TEXT
  {
    var t := IntToString(i);
    var u := NatToDigits(if i < 0 then -i else i);
    assert t[|t| - 1] == u[|u| - 1];
    assert IsDigit(u[|u| - 1]);
  }

  /** Writing an attribute value with `str()` and converting the text back
      through the attribute's type gives the value back. */
  lemma ValueRoundTrip(t: Tipe, v: Value, repr: real -> string)
    requires ValueFits(t, v, repr)
    ensures ParseTyped(t, ShowValue(v, repr)) == Ok(v)
  {
    match v
    case NoneV =>
    case IntV(i) =>
      IntTextNotNone(i);
      ParseIntOfString(i);
    case FloatV(f) =>
      NoneLower();
    case StrV(s) =>
    case DictV(d) =>
      assert ShowValue(v, repr)[0] == '{';
      DictRoundTrip(d, repr);
    case ListV =>
      assert ShowValue(v, repr)[0] == '[';
  }

  /** A name the reading loop can match: non-empty, without colons or
      whitespace, and containing neither line prefix. */
  predicate AttrName(a: string)
  {
    |a| > 0 && Excludes(a, ':') && NoSpace(a) && !Contains(a, BLADE_PREFIX) && !Contains(a, CLOUD_PREFIX)
  }

  /** The two splits of a `name: text` line whose name has no colon. */
  lemma SplitPair(a: string, shown: string)
    requires Excludes(a, ':')
    ensures SplitOnce(a + PAIR_SEP + shown, ":") == [a, " " + shown]
    ensures SplitOnce(a + PAIR_SEP + shown, PAIR_SEP) == [a, shown]
  {
    assert a + PAIR_SEP + shown == a + ":" + (" " + shown);
    FirstOccurrenceAfter(a, ":", " " + shown);
    assert PAIR_SEP[0] == ':';
    FirstOccurrenceAfter(a, PAIR_SEP, shown);
  }

  /** The attribute step of a line that names a save/load attribute. */
  lemma AttrStepSets(m: Meta, a: string, t: Tipe, v: Value, repr: real -> string)
    requires Get(SAVELOAD, a) == Some(t) && a !in READ_ONLY && Excludes(a, ':') && ValueFits(t, v, repr)
    ensures AttrStep(m, AttrLine(a, v, repr), a) == Ok(m.(attrs := Put(m.attrs, a, v)))
  {
    SplitPair(a, ShowValue(v, repr));
    ValueRoundTrip(t, v, repr);
  }

  /** A written attribute line reads back: the attribute is set to the value
      it was written from, and nothing else changes. */
  lemma AttrLineRoundTrip(m: Meta, a: string, t: Tipe, v: Value, repr: real -> string)
    requires Get(SAVELOAD, a) == Some(t) && a !in READ_ONLY && AttrName(a) && ValueFits(t, v, repr)
    ensures ReadLine(m, AttrLine(a, v, repr)) == Ok(m.(attrs := Put(m.attrs, a, v)))
  {
    SplitPair(a, ShowValue(v, repr));
    StripNoOp(a);
    AttrStepSets(m, a, t, v, repr);
  }

  /** The reprs of a float list, as `ShowFloats` joins them. */
  function Reprs(vals: seq<real>, repr: real -> string): (r: seq<string>)
    ensures |r| == |vals| && forall i :: 0 <= i < |vals| ==> r[i] == repr(vals[i])
  {
    seq(|vals|, i requires 0 <= i < |vals| => repr(vals[i]))
  }

  /** Converting the reprs of floats that read back gives the floats. */
  lemma {:induction false} FloatsOfReprs(vals: seq<real>, repr: real -> string)
    requires forall i :: 0 <= i < |vals| ==> FloatText(vals[i], repr)
    ensures FloatsOf(Reprs(vals, repr)) == Ok(vals)
    decreases |vals|
  {
    if |vals| > 0 {
      assert Reprs(vals, repr)[1..] == Reprs(vals[1..], repr);
      FloatsOfReprs(vals[1..], repr);
      assert vals == [vals[0]] + vals[1..];
    }
  }

  /** The first and last characters of a join are those of the first and the
      last part. */
  lemma {:induction false} JoinEnds(parts: seq<string>, sep: string)
    requires |parts| > 0 && forall k :: 0 <= k < |parts| ==> |parts[k]| > 0
    ensures var j := Join(parts, sep); var l := parts[|parts| - 1];
      |j| > 0 && j[0] == parts[0][0] && j[|j| - 1] == l[|l| - 1]
    decreases |parts|
  {
    if |parts| > 1 {
      JoinEnds(parts[1..], sep);
    }
  }

  /** A written float list reads back as the list. */
  lemma FloatsRoundTrip(vals: seq<real>, repr: real -> string)
    requires |vals| > 0 && forall i :: 0 <= i < |vals| ==> FloatText(vals[i], repr)
    ensures Floats(ShowFloats(vals, repr)) == Ok(vals)
  {
    var r := Reprs(vals, repr);
    assert ShowFloats(vals, repr) == Join(r, ITEM_SEP);
    forall k | 0 <= k < |r|
      ensures Excludes(r[k], ITEM_SEP[0])
    {
      assert FloatText(vals[k], repr);
    }
    SplitJoin(r, ITEM_SEP);
    FloatsOfReprs(vals, repr);
  }

  /** A join of non-empty parts without whitespace starts and ends with a
      character that is not whitespace. */
  lemma JoinSolid(parts: seq<string>, sep: string)
    requires |parts| > 0 && forall k :: 0 <= k < |parts| ==> |parts[k]| > 0 && NoSpace(parts[k])
    ensures var x := Join(parts, sep); |x| > 0 && !IsSpace(x[0]) && !IsSpace(x[|x| - 1])
  {
    JoinEnds(parts, sep);
  }

  /** A written float list starts and ends with a character that is not
      whitespace. */
  lemma FloatsEnds(vals: seq<real>, repr: real -> string)
    requires |vals| > 0 && forall i :: 0 <= i < |vals| ==> FloatText(vals[i], repr)
    ensures var x := ShowFloats(vals, repr); |x| > 0 && !IsSpace(x[0]) && !IsSpace(x[|x| - 1])
  {
    var r := Reprs(vals, repr);
    forall k | 0 <= k < |r|
      ensures |r[k]| > 0 && NoSpace(r[k])
    {
      assert FloatText(vals[k], repr);
    }
    JoinSolid(r, ITEM_SEP);
  }

  /** `strip()` of a text after one space, when the text has no whitespace
      at either end. */
  lemma StripSpaced(x: string)
    requires |x| > 0 && !IsSpace(x[0]) && !IsSpace(x[|x| - 1])
    ensures Strip(" " + x) == x
  {
    LeadCountExact(" " + x, IsSpace, 1);
    assert TrimLeft(" " + x, IsSpace) == x;
    StripNoOp(x);
  }

  /** No save/load attribute is named like a blade-data line. */
  lemma NoBladeName(key: string)
    ensures !HasKey(SAVELOAD, BLADE_PREFIX + key)
  {
    var b := BLADE_PREFIX + key;
    assert b[0] == 'b' && b[6] == 'd' && |b| >= 11;
    forall i | 0 <= i < |SAVELOAD|
      ensures SAVELOAD[i].0 != b
    {
      var n := SAVELOAD[i].0;
      assert n[0] != 'b' || |n| < 11 || n[6] != 'd';
    }
  }

  /** The steps of a blade-data line: the list is stored under the key, the
      point-cloud step passes, and no attribute is named by it. */
  lemma BladeStepsSet(m: Meta, key: string, vals: seq<real>, repr: real -> string)
    requires |vals| > 0 && forall i :: 0 <= i < |vals| ==> FloatText(vals[i], repr)
    ensures var b, x := BLADE_PREFIX + key, ShowFloats(vals, repr);
      var m1 := m.(bladeData := Put(m.bladeData, key, vals));
      BladeStep(m, b, x) == Ok(m1) && CloudStep(b, x) == Ok(()) && AttrStep(m1, BladeLine(key, vals, repr), b) == Ok(m1)
  {
    var x := ShowFloats(vals, repr);
    FloatsEnds(vals, repr);
    StripNoOp(x);
    FloatsRoundTrip(vals, repr);
    FirstOccurrenceAfter("", BLADE_PREFIX, key);
    assert "" + BLADE_PREFIX + key == BLADE_PREFIX + key;
    NoBladeName(key);
  }

  /** The name half of a blade-data line is its stripped attribute. */
  lemma BladeLineSplit(key: string, x: string)
    requires Excludes(key, ':') && NoSpace(key)
    ensures SplitOnce(BLADE_PREFIX + key + PAIR_SEP + x, ":") == [BLADE_PREFIX + key, " " + x]
    ensures Strip(BLADE_PREFIX + key) == BLADE_PREFIX + key
  {
    var b := BLADE_PREFIX + key;
    assert Excludes(BLADE_PREFIX, ':');
    assert Excludes(b, ':');
    SplitPair(b, x);
    assert b[0] == 'b' && (|key| > 0 ==> b[|b| - 1] == key[|key| - 1]);
    StripNoOp(b);
  }

  /** A written blade-data line reads back: the key's list is set to the
      floats it was written from, and nothing else changes. */
  lemma BladeLineRoundTrip(m: Meta, key: string, vals: seq<real>, repr: real -> string)
    requires Excludes(key, ':') && NoSpace(key)
    requires |vals| > 0 && forall i :: 0 <= i < |vals| ==> FloatText(vals[i], repr)
    ensures ReadLine(m, BladeLine(key, vals, repr)) == Ok(m.(bladeData := Put(m.bladeData, key, vals)))
  {
    var x := ShowFloats(vals, repr);
    BladeLineSplit(key, x);
    FloatsEnds(vals, repr);
    StripSpaced(x);
    BladeStepsSet(m, key, vals, repr);
  }
}
