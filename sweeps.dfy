/** The two result datasets of a propeller (propeller.py: PropellerOperData
    and PropellerWVelData): the key a result file is filed under, read back
    from its name; the loop that loads every result file of a folder; and the
    queries over the loaded datapoints. */
module Sweeps {
  import opened Wrappers
  import opened Text
  import opened Dicts
  import opened Numbers
  import opened Sorting
  import opened XRotorReports
  import XRotorCommands

  /** The operating-point dataset reads `.oper` files, the slipstream dataset `.wvel` files. */
  datatype Kind = Oper | WVel

  function Ext(kind: Kind): string
  {
    match kind
    case Oper => ".oper"
    case WVel => ".wvel"
  }

  /** The characters `str.strip(ext)` removes from either end. */
  function ExtChars(kind: Kind): set<char>
  {
    match kind
    case Oper => {'.', 'o', 'p', 'e', 'r'}
    case WVel => {'.', 'w', 'v', 'e', 'l'}
  }

  /** The characters `str.strip('velo_')` removes from either end. */
  const VELO_CHARS: set<char> := {'v', 'e', 'l', 'o', '_'}

  const RPM_SEP := "_rpm_"

  /** A datapoint's key: the velocity in m/s and the rpm. */
  type Key = (real, real)

  // ---------------------------------------------------------------- file names

  /** `[float(num) for num in fname.strip('velo_').strip(ext).split('_rpm_')]`
      unpacked into two numbers, the first divided by 100. A part that is not
      a number and a part count other than two both raise ValueError. */
  function ParseResultKey(fname: string, kind: Kind): (r: Result<Key>)
    ensures r.Fail? ==> r.exc == ValueError
    ensures r.Ok? <==> var parts := Split(KeyText(fname, kind), RPM_SEP);
                       |parts| == 2 && ParseFloat(parts[0]).Some? && ParseFloat(parts[1]).Some?
    ensures r.Ok? ==> r.value.0 * 100.0 == ParseFloat(Split(KeyText(fname, kind), RPM_SEP)[0]).value
  {
    var parts := Split(KeyText(fname, kind), RPM_SEP);
    var nums := ParseAll(parts);
    assert |nums| == 2 ==> nums[0] == ParseFloat(parts[0]) && nums[1] == ParseFloat(parts[1]);
    KeyOfNumbers(nums)
  }

  /** What is left of a result file's name after the two strips. */
  function KeyText(fname: string, kind: Kind): string
  {
    StripChars(StripChars(fname, VELO_CHARS), ExtChars(kind))
  }

  /** `float` of every part; None where it raises ValueError. */
  function ParseAll(parts: seq<string>): (r: seq<Option<real>>)
    ensures |r| == |parts|
  {
    seq(|parts|, i requires 0 <= i < |parts| => ParseFloat(parts[i]))
  }

  /** The two numbers of a key, the velocity given in cm/s. */
  function KeyOfNumbers(nums: seq<Option<real>>): (r: Result<Key>)
    ensures r.Fail? ==> r.exc == ValueError
    ensures r.Ok? <==> |nums| == 2 && nums[0].Some? && nums[1].Some?
    ensures r.Ok? ==> r.value.0 * 100.0 == nums[0].value
  {
    if exists i :: 0 <= i < |nums| && nums[i].None? then Fail(ValueError)
    else if |nums| != 2 then Fail(ValueError)
    else Ok((nums[0].value / 100.0, nums[1].value))
  }

  /** A rendering with no decimals: an optional minus sign and digits, ending in a digit. */
  predicate WholeText(s: string)
  {
    |s| > 0 && IsDigit(s[|s| - 1]) && forall i :: 0 <= i < |s| ==> s[i] == '-' || IsDigit(s[i])
  }

  lemma FormatWhole(x: real)
    ensures WholeText(FormatFixed(x, 0))
  {
    FixedDigitsValue(x, 0);
    var body := FixedBody(x, 0);
    assert body == FixedDigits(x, 0);
    var s := FormatFixed(x, 0);
    if x < 0.0 {
      assert s == "-" + body;
      assert forall i :: 1 <= i < |s| ==> s[i] == body[i - 1];
    } else {
      assert s == body;
    }
  }

  /** Stripping a character set from `pre + mid + suf` leaves `mid` when
      every character of `pre` and `suf` is in the set and both ends of `mid`
      are not. */
  lemma StripFrame(pre: string, mid: string, suf: string, chars: set<char>)
    requires forall i :: 0 <= i < |pre| ==> pre[i] in chars
    requires forall i :: 0 <= i < |suf| ==> suf[i] in chars
    requires |mid| > 0 && mid[0] !in chars && mid[|mid| - 1] !in chars
    ensures StripChars(pre + mid + suf, chars) == mid
  {
    var s := pre + mid + suf;
    assert s[|pre|] == mid[0];
    assert forall i :: 0 <= i < |pre| ==> s[i] == pre[i];
    LeadCountExact(s, InSet(chars), |pre|);
    var t := s[|pre|..];
    assert t == mid + suf;
    assert t[|t| - |suf| - 1] == mid[|mid| - 1];
    assert forall i :: |t| - |suf| <= i < |t| ==> t[i] == suf[i - |mid|];
    TrailCountExact(t, InSet(chars), |suf|);
    assert t[..|t| - |suf|] == mid;
  }

  /** Splitting `a + sep + b` on `sep` gives back `a` and `b` when neither
      holds the separator's first character. */
  lemma SplitTwo(a: string, sep: string, b: string)
    requires |sep| > 0 && Excludes(a, sep[0]) && Excludes(b, sep[0])
    ensures Split(a + sep + b, sep) == [a, b]
  {
    var s := a + sep + b;
    FirstOccurrenceAfter(a, sep, b);
    assert s[..|a|] == a;
    assert s[|a| + |sep|..] == b;
    NoOccurrence(b, sep);
  }

  /** The part between the two strips: both numbers around `_rpm_`. */
  lemma StripsLeaveNumbers(a: string, b: string, kind: Kind)
    requires WholeText(a) && WholeText(b)
    ensures KeyText("velo_" + (a + RPM_SEP + b) + Ext(kind), kind) == a + RPM_SEP + b
  {
    var core := a + RPM_SEP + b;
    assert core[0] == a[0] && core[|core| - 1] == b[|b| - 1];
    match kind
    case Oper => OperStrips(core);
    case WVel => WVelStrips(core);
  }

  /** The ends a name's middle part has: a digit or minus sign first, a digit last. */
  predicate NumberEnds(core: string)
  {
    |core| > 0 && (core[0] == '-' || IsDigit(core[0])) && IsDigit(core[|core| - 1])
  }

  /** No character of a number is stripped. */
  lemma KeptChar(c: char)
    requires c == '-' || IsDigit(c)
    ensures c !in VELO_CHARS && c !in ExtChars(Oper) && c !in ExtChars(WVel)
  {
  }

  lemma OperStrips(core: string)
    requires NumberEnds(core)
    ensures StripChars(StripChars("velo_" + core + ".oper", VELO_CHARS), ExtChars(Oper)) == core
  {
    KeptChar(core[0]);
    KeptChar(core[|core| - 1]);
    var mid := core + ".oper";
    Regroup("velo_", core, ".oper");
    assert mid[|mid| - 1] == 'r';
    StripLeft("velo_", mid, VELO_CHARS);
    StripRight(core, ".oper", ExtChars(Oper));
  }

  lemma WVelStrips(core: string)
    requires NumberEnds(core)
    ensures StripChars(StripChars("velo_" + core + ".wvel", VELO_CHARS), ExtChars(WVel)) == core
  {
    KeptChar(core[0]);
    KeptChar(core[|core| - 1]);
    var mid := core + ".w";
    assert ".w" + "vel" == ".wvel";
    Regroup2("velo_", core, ".w", "vel");
    assert mid[|mid| - 1] == 'w';
    StripFrame("velo_", mid, "vel", VELO_CHARS);
    StripRight(core, ".w", ExtChars(WVel));
  }

  lemma Regroup(pre: string, core: string, e: string)
    ensures pre + core + e == pre + (core + e)
  {
  }

  lemma Regroup2(pre: string, core: string, e1: string, e2: string)
    ensures pre + core + (e1 + e2) == pre + (core + e1) + e2
  {
  }

  /** `StripFrame` with nothing after the middle part. */
  lemma StripLeft(pre: string, mid: string, chars: set<char>)
    requires forall i :: 0 <= i < |pre| ==> pre[i] in chars
    requires |mid| > 0 && mid[0] !in chars && mid[|mid| - 1] !in chars
    ensures StripChars(pre + mid, chars) == mid
  {
    StripFrame(pre, mid, "", chars);
    assert pre + mid + "" == pre + mid;
  }

  /** `StripFrame` with nothing before the middle part. */
  lemma StripRight(mid: string, suf: string, chars: set<char>)
    requires forall i :: 0 <= i < |suf| ==> suf[i] in chars
    requires |mid| > 0 && mid[0] !in chars && mid[|mid| - 1] !in chars
    ensures StripChars(mid + suf, chars) == mid
  {
    StripFrame("", mid, suf, chars);
    assert "" + mid + suf == mid + suf;
  }

  /** The name a solver run files its results under (funcs.py, line 743) reads
      back as its velocity to the nearest cm/s and its rpm to the nearest
      whole number: neither strip reaches a digit, and neither number holds an
      underscore. For `.wvel` the first strip also eats the trailing "vel",
      which the second strip then finishes. */
  lemma ResultKeyRoundTrip(velo: real, rpm: real, kind: Kind)
    ensures var r := ParseResultKey(XRotorCommands.ResultFileName(velo, rpm, Ext(kind)), kind);
            && r.Ok?
            && r.value.0 == RoundTo(100.0 * velo, 0) / 100.0
            && r.value.1 == RoundTo(rpm, 0)
  {
    var x, y := RoundTo(100.0 * velo, 0), RoundTo(rpm, 0);
    FormatRendered(100.0 * velo, x);
    FormatRendered(rpm, y);
    RenderedKey(velo, rpm, kind, x, y);
  }

  /** The round trip for whatever values the two rendered numbers read as. */
  lemma RenderedKey(velo: real, rpm: real, kind: Kind, x: real, y: real)
    requires Rendered(FormatFixed(100.0 * velo, 0), x) && Rendered(FormatFixed(rpm, 0), y)
    ensures ParseResultKey(XRotorCommands.ResultFileName(velo, rpm, Ext(kind)), kind) == Ok((x / 100.0, y))
  {
    NameRoundTrip(FormatFixed(100.0 * velo, 0), FormatFixed(rpm, 0), kind, x, y);
  }

  /** `s` is a number without decimals that reads back as `v`. */
  predicate Rendered(s: string, v: real)
  {
    WholeText(s) && ParseFloat(s) == Some(v)
  }

  lemma FormatRendered(x: real, v: real)
    requires v == RoundTo(x, 0)
    ensures Rendered(FormatFixed(x, 0), v)
  {
    FormatWhole(x);
    ParseFormatFixed(x, 0);
  }

  /** The round trip for any two numbers written without decimals. */
  lemma NameRoundTrip(a: string, b: string, kind: Kind, x: real, y: real)
    requires Rendered(a, x) && Rendered(b, y)
    ensures ParseResultKey("velo_" + a + RPM_SEP + b + Ext(kind), kind) == Ok((x / 100.0, y))
  {
    var name := "velo_" + a + RPM_SEP + b + Ext(kind);
    NameParts(a, b, Ext(kind));
    StripsLeaveNumbers(a, b, kind);
    SplitTwo(a, RPM_SEP, b);
    ParseKeyOf(name, kind, a, b, x, y);
  }

  lemma ParseKeyOf(fname: string, kind: Kind, a: string, b: string, x: real, y: real)
    requires Split(KeyText(fname, kind), RPM_SEP) == [a, b]
    requires ParseFloat(a) == Some(x) && ParseFloat(b) == Some(y)
    ensures ParseResultKey(fname, kind) == Ok((x / 100.0, y))
  {
    var nums := ParseAll([a, b]);
    assert nums[0] == Some(x) && nums[1] == Some(y);
    TwoNumbers(nums, x, y);
  }

  lemma TwoNumbers(nums: seq<Option<real>>, x: real, y: real)
    requires |nums| == 2 && nums[0] == Some(x) && nums[1] == Some(y)
    ensures KeyOfNumbers(nums) == Ok((x / 100.0, y))
  {
  }

  lemma NameParts(a: string, b: string, ext: string)
    ensures "velo_" + a + RPM_SEP + b + ext == "velo_" + (a + RPM_SEP + b) + ext
  {
  }

  /** Rounding a whole number to no decimals leaves it as it is. */
  lemma RoundWhole(x: real)
    requires x == x.Floor as real
    ensures RoundTo(x, 0) == x
  {
    ScaledWhole(x);
    ShiftedZero(Scaled(x, 0));
  }

  lemma ScaledWhole(x: real)
    requires x == x.Floor as real
    ensures Scaled(x, 0) as real == Abs(x)
  {
    var y := Abs(x);
    WholeAbs(x);
    assert Pow10(0) == 1;
    assert y * Pow10(0) as real == y;
    HalfEvenWhole(y);
  }

  lemma WholeAbs(x: real)
    requires x == x.Floor as real
    ensures Abs(x) == Abs(x).Floor as real && Abs(x) >= 0.0
  {
    var f := x.Floor;
    assert Abs(x) == (if f < 0 then -f else f) as real;
  }

  lemma HalfEvenWhole(y: real)
    requires y == y.Floor as real
    ensures RoundHalfEven(y) == y.Floor
  {
  }

  /** A velocity in whole cm/s and a whole rpm come back exactly. */
  lemma ResultKeyExact(velo: real, rpm: real, kind: Kind)
    requires 100.0 * velo == (100.0 * velo).Floor as real && rpm == rpm.Floor as real
    ensures ParseResultKey(XRotorCommands.ResultFileName(velo, rpm, Ext(kind)), kind) == Ok((velo, rpm))
  {
    var x := 100.0 * velo;
    RoundWhole(x);
    RoundWhole(rpm);
    FormatRendered(x, x);
    FormatRendered(rpm, rpm);
    RenderedKey(velo, rpm, kind, x, rpm);
    assert x / 100.0 == velo;
  }

  // ---------------------------------------------------------------- loading

  /** How a dataset files one result file: the key its name parses to, and
      the report its text reads as. */
  datatype Loader = Loader(key: string -> Result<Key>, read: string -> Result<Report>)

  /** The dataset's loader: `.oper` files are read by `read_xrotor_op_file`
      as written (Reynolds exponent included), `.wvel` files by
      `read_xrotor_wvel_file`. */
  function LoaderOf(kind: Kind): (r: Loader)
    ensures forall fname :: r.key(fname).Fail? ==> r.key(fname).exc == ValueError
    ensures forall txt :: r.read(txt).Fail? ==>
              r.read(txt).exc == PdtError(NOT_CONVERGED_MSG)
              || r.read(txt).exc in {TypeError, IndexError, KeyError, AttributeError, ValueError}
  {
    Loader(fname => ParseResultKey(fname, kind),
           match kind case Oper => (txt: string) => ReadOp(txt, true) case WVel => ReadWVel)
  }

  /** `get_*_files(fullpath=False)` on a folder listing (name and text of each
      file, in listing order): the files whose names end in the extension. */
  function ResultFiles(listing: seq<(string, string)>, ext: string): (r: seq<(string, string)>)
    ensures forall i :: 0 <= i < |r| ==> EndsWith(r[i].0, ext) && r[i] in listing
    ensures forall i :: 0 <= i < |listing| && EndsWith(listing[i].0, ext) ==> listing[i] in r
  {
    if |listing| == 0 then []
    else (if EndsWith(listing[0].0, ext) then [listing[0]] else []) + ResultFiles(listing[1..], ext)
  }

  /** The loading loop over `files`, starting from the datapoints `d`: the
      datapoints it ends with, and the exception that stopped it, if any. A
      file's key is parsed before its text is read. */
  function LoadFrom(files: seq<(string, string)>, d: Dict<Key, Report>, ld: Loader): (Dict<Key, Report>, Option<Exc>)
  {
    if |files| == 0 then (d, None)
    else
      match ld.key(files[0].0)
      case Fail(e) => (d, Some(e))
      case Ok(k) =>
        match ld.read(files[0].1)
        case Fail(e) => (d, Some(e))
        case Ok(rep) => LoadFrom(files[1..], Put(d, k, rep), ld)
  }

  /** A file whose name or text fails stops the loading with that exception. */
  lemma LoadStops(files: seq<(string, string)>, d: Dict<Key, Report>, ld: Loader)
    requires |files| > 0
    requires ld.key(files[0].0).Fail? || ld.read(files[0].1).Fail?
    ensures LoadFrom(files, d, ld)
            == (d, Some(if ld.key(files[0].0).Fail? then ld.key(files[0].0).exc else ld.read(files[0].1).exc))
  {
  }

  /** A file that loads adds its datapoint and the loading goes on with the rest. */
  lemma LoadStep(files: seq<(string, string)>, d: Dict<Key, Report>, ld: Loader)
    requires |files| > 0 && ld.key(files[0].0).Ok? && ld.read(files[0].1).Ok?
    ensures LoadFrom(files, d, ld)
            == LoadFrom(files[1..], Put(d, ld.key(files[0].0).value, ld.read(files[0].1).value), ld)
  {
  }

  /** Every datapoint of `d` is the report of a file of `pool` whose name parses to its key. */
  ghost predicate Filed(d: Dict<Key, Report>, pool: seq<(string, string)>, ld: Loader)
  {
    forall k :: HasKey(d, k) ==>
      exists j :: 0 <= j < |pool| && ld.key(pool[j].0) == Ok(k) && ld.read(pool[j].1) == Ok(Get(d, k).value)
  }

  /** Loading only files the result names: each datapoint is the report of a
      file filed under that datapoint's key, and no key occurs twice. */
  lemma {:induction false} LoadSound(files: seq<(string, string)>, d: Dict<Key, Report>,
                                     pool: seq<(string, string)>, ld: Loader)
    requires forall j :: 0 <= j < |files| ==> files[j] in pool
    requires Filed(d, pool, ld) && NoDupKeys(d)
    ensures Filed(LoadFrom(files, d, ld).0, pool, ld) && NoDupKeys(LoadFrom(files, d, ld).0)
  {
    if |files| > 0 && ld.key(files[0].0).Ok? && ld.read(files[0].1).Ok? {
      var k, rep := ld.key(files[0].0).value, ld.read(files[0].1).value;
      var j :| 0 <= j < |pool| && pool[j] == files[0];
      PutFiled(d, k, rep, pool, j, ld);
      PutNoDup(d, k, rep);
      LoadSound(files[1..], Put(d, k, rep), pool, ld);
    }
  }

  lemma PutFiled(d: Dict<Key, Report>, k: Key, rep: Report, pool: seq<(string, string)>, j: nat, ld: Loader)
    requires Filed(d, pool, ld)
    requires j < |pool| && ld.key(pool[j].0) == Ok(k) && ld.read(pool[j].1) == Ok(rep)
    ensures Filed(Put(d, k, rep), pool, ld)
  {
    var r := Put(d, k, rep);
    PutOthers(d, k, rep);
    forall k' | HasKey(r, k')
      ensures exists j' :: 0 <= j' < |pool| && ld.key(pool[j'].0) == Ok(k') && ld.read(pool[j'].1) == Ok(Get(r, k').value)
    {
      if k' == k {
        assert ld.read(pool[j].1) == Ok(Get(r, k').value);
      } else {
        assert Get(r, k') == Get(d, k');
      }
    }
  }

  /** A loading run that raises nothing has a datapoint under the key of every
      file it was given, and keeps the keys it started with. */
  lemma {:induction false} LoadComplete(files: seq<(string, string)>, d: Dict<Key, Report>, ld: Loader)
    requires LoadFrom(files, d, ld).1.None?
    ensures forall j :: 0 <= j < |files| ==> ld.key(files[j].0).Ok?
    ensures forall j :: 0 <= j < |files| ==> HasKey(LoadFrom(files, d, ld).0, ld.key(files[j].0).value)
    ensures forall k :: HasKey(d, k) ==> HasKey(LoadFrom(files, d, ld).0, k)
  {
    if |files| > 0 {
      var k, rep := ld.key(files[0].0).value, ld.read(files[0].1).value;
      var d' := Put(d, k, rep);
      LoadComplete(files[1..], d', ld);
      PutOthers(d, k, rep);
      forall k' | HasKey(d, k') ensures HasKey(d', k') {
        if k' != k { assert Get(d', k') == Get(d, k'); }
      }
      assert forall j :: 1 <= j < |files| ==> files[j] == files[1..][j - 1];
    }
  }

  // ---------------------------------------------------------------- queries

  /** Python `==` between two report values: numbers by value (NaN equals
      nothing), text by its characters; a float never equals a str. A
      column is never equal here, although Python compares lists by their
      items: the plotted parameters are scalars, so no column is ever compared. */
  predicate SameValue(a: Value, b: Value)
  {
    match a
    case Scalar(x) => b.Scalar? && x.Num? && b.c.Num? && x.v == b.c.v
    case Word(s) => b.Word? && s == b.s
    case Column(_) => false
  }

  /** `dp[param] == val`, for a datapoint that has `param`. */
  predicate Matches(dp: Report, param: string, val: Value)
  {
    match Get(dp, param)
    case Some(v) => SameValue(v, val)
    case None => false
  }

  /** The datapoints of `dps` whose `param` equals `val`, in order; KeyError
      when one of them has no `param`. */
  function Matching(dps: seq<Report>, param: string, val: Value): (r: Result<seq<Report>>)
  {
    if |dps| == 0 then Ok([])
    else
      match Matching(dps[..|dps| - 1], param, val)
      case Fail(e) => Fail(e)
      case Ok(pts) =>
        var dp := dps[|dps| - 1];
        match Get(dp, param)
        case None => Fail(KeyError)
        case Some(v) => Ok(if SameValue(v, val) then pts + [dp] else pts)
  }

  /** The query fails exactly when a datapoint lacks the parameter; otherwise
      it keeps exactly the datapoints whose value equals `val`. */
  lemma {:induction false} MatchingSpec(dps: seq<Report>, param: string, val: Value)
    ensures Matching(dps, param, val).Ok? <==> forall i :: 0 <= i < |dps| ==> HasKey(dps[i], param)
    ensures Matching(dps, param, val).Fail? ==> Matching(dps, param, val).exc == KeyError
    ensures Matching(dps, param, val).Ok? ==>
      var pts := Matching(dps, param, val).value;
      && |pts| <= |dps|
      && (forall k :: 0 <= k < |pts| ==> pts[k] in dps && Matches(pts[k], param, val))
      && (forall i :: 0 <= i < |dps| && Matches(dps[i], param, val) ==> dps[i] in pts)
  {
    if |dps| > 0 {
      var init := dps[..|dps| - 1];
      MatchingSpec(init, param, val);
      assert forall i :: 0 <= i < |init| ==> init[i] == dps[i];
      assert forall x :: x in init ==> x in dps;
    }
  }

  /** `get_datapoints_by_paramval` when the first datapoint decides: KeyError
      from the first datapoint, else whether more than two but not all of the
      datapoints share its value. */
  function Decide(param: string, dps: seq<Report>): Result<bool>
  {
    if |dps| == 0 then Ok(false)
    else
      match Get(dps[0], param)
      case None => Fail(KeyError)
      case Some(v) =>
        match Matching(dps, param, v)
        case Fail(e) => Fail(e)
        case Ok(pts) => Ok(2 < |pts| < |dps|)
  }

  /** `get_swept_params` over the parameters `params`, in their order: a
      parameter already swept is passed over; otherwise its first datapoint
      decides it. */
  function Swept(params: seq<string>, dps: seq<Report>): Result<seq<string>>
  {
    if |params| == 0 then Ok([])
    else
      match Swept(params[..|params| - 1], dps)
      case Fail(e) => Fail(e)
      case Ok(prev) =>
        var p := params[|params| - 1];
        if p in prev then Ok(prev)
        else
          match Decide(p, dps)
          case Fail(e) => Fail(e)
          case Ok(b) => Ok(if b then prev + [p] else prev)
  }

  /** The first position of `p` in `params`. */
  function Pos(params: seq<string>, p: string): nat
    requires p in params
  {
    if params[0] == p then 0 else 1 + Pos(params[1..], p)
  }

  lemma PosPrefix(params: seq<string>, n: nat, p: string)
    requires n <= |params| && p in params[..n]
    ensures p in params && Pos(params, p) == Pos(params[..n], p) < n
  {
    if params[0] != p {
      assert params[1..][..n - 1] == params[..n][1..];
      PosPrefix(params[1..], n - 1, p);
    }
  }

  lemma PosLast(params: seq<string>, p: string)
    requires |params| > 0 && p == params[|params| - 1] && p !in params[..|params| - 1]
    ensures Pos(params, p) == |params| - 1
  {
    if |params| > 1 {
      assert params[0] == params[..|params| - 1][0];
      assert params[1..][..|params| - 2] == params[..|params| - 1][1..];
      PosLast(params[1..], p);
    }
  }

  /** A datapoint lacking a listed parameter raises KeyError, unless there
      are no datapoints; nothing else fails. */
  lemma {:induction false} SweptFails(params: seq<string>, dps: seq<Report>)
    ensures Swept(params, dps).Fail? <==> exists q :: q in params && Decide(q, dps).Fail?
    ensures Swept(params, dps).Fail? ==> Swept(params, dps).exc == KeyError
  {
    if |params| > 0 {
      var init := params[..|params| - 1];
      SweptFails(init, dps);
      DecideFails(params[|params| - 1], dps);
      SweptMembers(init, dps);
      assert forall q :: q in params <==> q in init || q == params[|params| - 1];
    }
  }

  /** The swept parameters are the listed parameters whose first datapoint's
      value is shared by more than two but not all datapoints. */
  lemma {:induction false} SweptMembers(params: seq<string>, dps: seq<Report>)
    ensures Swept(params, dps).Ok? ==>
      forall q :: q in Swept(params, dps).value <==> q in params && Decide(q, dps) == Ok(true)
  {
    if |params| > 0 {
      var init := params[..|params| - 1];
      SweptMembers(init, dps);
      assert forall q :: q in params <==> q in init || q == params[|params| - 1];
    }
  }

  /** They come in the order of the list, without repeats. */
  lemma {:induction false} SweptOrder(params: seq<string>, dps: seq<Report>)
    ensures Swept(params, dps).Ok? ==>
      var ps := Swept(params, dps).value;
      forall i, j :: 0 <= i < j < |ps| ==> ps[i] in params && ps[j] in params && Pos(params, ps[i]) < Pos(params, ps[j])
  {
    if |params| > 0 {
      var init := params[..|params| - 1];
      var p := params[|params| - 1];
      SweptOrder(init, dps);
      var r := Swept(init, dps);
      if r.Ok? {
        forall i | 0 <= i < |r.value|
          ensures r.value[i] in init && r.value[i] in params && Pos(params, r.value[i]) == Pos(init, r.value[i]) < |init|
        {
          SweptIn(init, dps, i);
          PosPrefix(params, |params| - 1, r.value[i]);
        }
        if p !in r.value && Decide(p, dps) == Ok(true) {
          SweptMembers(init, dps);
          assert p !in init;
          PosLast(params, p);
        }
      }
    }
  }

  lemma SweptIn(params: seq<string>, dps: seq<Report>, i: nat)
    requires Swept(params, dps).Ok? && i < |Swept(params, dps).value|
    ensures Swept(params, dps).value[i] in params
  {
    SweptMembers(params, dps);
    assert Swept(params, dps).value[i] in Swept(params, dps).value;
  }

  /** A decision fails only by KeyError, when some datapoint lacks the parameter. */
  lemma DecideFails(p: string, dps: seq<Report>)
    ensures Decide(p, dps).Fail? ==> Decide(p, dps).exc == KeyError
    ensures Decide(p, dps).Fail? <==> |dps| > 0 && exists i :: 0 <= i < |dps| && !HasKey(dps[i], p)
  {
    if |dps| > 0 && HasKey(dps[0], p) {
      MatchingSpec(dps, p, Get(dps[0], p).value);
    }
  }

  /** `VALID_OPER_PLOT_PARAMS`: the parameters a sweep can vary, in the order
      `get_swept_params` tries them. */
  const PLOT_PARAMS: seq<string> := [
    "adv. ratio", "J", "speed(m/s)", "rpm", "thrust(N)", "power(W)", "torque(N-m)", "Efficiency",
    "Eff induced", "Eff ideal", "Pvisc(W)", "Ct", "Tc", "Cp", "Pc", "Sigma"]

  /** The datapoint values of `param`, without repeats, in first-seen order:
      `val[param] not in uniq_vals` compares numbers by value and texts by
      their characters, and a number never equals a text. */
  function Uniques(dps: seq<Report>, param: string): Result<seq<Value>>
  {
    if |dps| == 0 then Ok([])
    else
      match Uniques(dps[..|dps| - 1], param)
      case Fail(e) => Fail(e)
      case Ok(u) =>
        match Get(dps[|dps| - 1], param)
        case None => Fail(KeyError)
        case Some(v) => Ok(if v in u then u else u + [v])
  }

  /** A value `sorted` orders: a number or a text. */
  predicate Sortable(v: Value)
  {
    (v.Scalar? && v.c.Num?) || v.Word?
  }

  predicate SortableOrMissing(v: Option<Value>)
  {
    v.None? || Sortable(v.value)
  }

  /** The value of `param` in every datapoint that has it is a number or a text. */
  predicate SortablesAt(dps: seq<Report>, param: string)
  {
    forall i :: 0 <= i < |dps| ==> SortableOrMissing(Get(dps[i], param))
  }

  predicate IsNumber(v: Option<Value>) { v.Some? && v.value.Scalar? && v.value.c.Num? }

  predicate IsText(v: Option<Value>) { v.Some? && v.value.Word? }

  predicate AllNumbers(vals: seq<Value>)
  {
    forall i :: 0 <= i < |vals| ==> vals[i].Scalar? && vals[i].c.Num?
  }

  predicate AllTexts(vals: seq<Value>)
  {
    forall i :: 0 <= i < |vals| ==> vals[i].Word?
  }

  function NumbersOf(vals: seq<Value>): (r: seq<real>)
    requires AllNumbers(vals)
    ensures |r| == |vals| && forall i :: 0 <= i < |r| ==> vals[i] == Scalar(Num(r[i]))
  {
    seq(|vals|, i requires 0 <= i < |vals| => vals[i].c.v)
  }

  function TextsOf(vals: seq<Value>): (r: seq<string>)
    requires AllTexts(vals)
    ensures |r| == |vals| && forall i :: 0 <= i < |r| ==> vals[i] == Word(r[i])
  {
    seq(|vals|, i requires 0 <= i < |vals| => vals[i].s)
  }

  function AsNumbers(xs: seq<real>): (r: seq<Value>)
    ensures |r| == |xs| && forall i :: 0 <= i < |r| ==> r[i] == Scalar(Num(xs[i]))
  {
    seq(|xs|, i requires 0 <= i < |xs| => Scalar(Num(xs[i])))
  }

  function AsTexts(xs: seq<string>): (r: seq<Value>)
    ensures |r| == |xs| && forall i :: 0 <= i < |r| ==> r[i] == Word(xs[i])
  {
    seq(|xs|, i requires 0 <= i < |xs| => Word(xs[i]))
  }

  /** `sorted(vals)`: numbers by value, texts code point by code point; a
      list holding both a number and a text raises TypeError, since sorting
      it compares the two. */
  function SortValues(vals: seq<Value>): Result<seq<Value>>
    requires forall i :: 0 <= i < |vals| ==> Sortable(vals[i])
  {
    if AllNumbers(vals) then Ok(AsNumbers(Sort(NumbersOf(vals))))
    else if AllTexts(vals) then Ok(AsTexts(SortTexts(TextsOf(vals))))
    else Fail(TypeError)
  }

  /** `get_unique_param(param)` on the datapoints `dps`. */
  function UniqueParamOf(dps: seq<Report>, param: string): Result<seq<Value>>
    requires SortablesAt(dps, param)
  {
    match Uniques(dps, param)
    case Fail(e) => Fail(e)
    case Ok(u) => UniquesSortable(dps, param); SortValues(u)
  }

  /** `a` comes strictly before `b`: two numbers in increasing order, or
      two different texts in Python's text order. */
  predicate Before(a: Value, b: Value)
  {
    || (a.Scalar? && a.c.Num? && b.Scalar? && b.c.Num? && a.c.v < b.c.v)
    || (a.Word? && b.Word? && TextLe(a.s, b.s) && a.s != b.s)
  }

  predicate Ascending(vals: seq<Value>)
  {
    forall i, j :: 0 <= i < j < |vals| ==> Before(vals[i], vals[j])
  }

  /** Strictly increasing order. */
  predicate Increasing(xs: seq<real>)
  {
    forall i, j :: 0 <= i < j < |xs| ==> xs[i] < xs[j]
  }

  /** The number of times `x` occurs in `xs`. */
  lemma {:induction false} DistinctCount<T>(xs: seq<T>, x: T)
    requires Distinct(xs)
    ensures multiset(xs)[x] <= 1
  {
    if |xs| > 0 {
      var t := xs[1..];
      assert xs == [xs[0]] + t;
      assert Distinct(t) by {
        forall i, j | 0 <= i < j < |t| ensures t[i] != t[j] {
          assert t[i] == xs[i + 1] && t[j] == xs[j + 1];
          assert xs[i + 1] != xs[j + 1];
        }
      }
      DistinctCount(t, x);
      if xs[0] == x {
        assert x !in t;
        assert multiset(t)[x] == 0;
      }
    }
  }

  /** A sorted list with no value occurring twice is strictly increasing. */
  lemma SortedDistinct(s: seq<real>)
    requires Sorted(s) && forall x :: multiset(s)[x] <= 1
    ensures Increasing(s)
  {
    forall i, j | 0 <= i < j < |s|
      ensures s[i] < s[j]
    {
      var v := s[i];
      assert s == s[..j] + s[j..];
      assert v == s[..j][i] && s[j] == s[j..][0];
      assert v in multiset(s[..j]) && s[j] in multiset(s[j..]);
      assert multiset(s)[v] == multiset(s[..j])[v] + multiset(s[j..])[v];
      assert multiset(s[j..])[v] == 0;
    }
  }

  /** A sorted list of texts with no text occurring twice has no repeat. */
  lemma TextsSortedDistinct(s: seq<string>)
    requires forall x :: multiset(s)[x] <= 1
    ensures Distinct(s)
  {
    forall i, j | 0 <= i < j < |s|
      ensures s[i] != s[j]
    {
      var v := s[i];
      assert s == s[..j] + s[j..];
      assert v == s[..j][i] && s[j] == s[j..][0];
      assert v in multiset(s[..j]) && s[j] in multiset(s[j..]);
      assert multiset(s)[v] == multiset(s[..j])[v] + multiset(s[j..])[v];
    }
  }

  /** Distinct numbers sort into an ascending list of the same numbers. */
  lemma SortNumbersAscending(vals: seq<Value>)
    requires AllNumbers(vals) && Distinct(vals)
    ensures var r := AsNumbers(Sort(NumbersOf(vals)));
      Ascending(r) && forall v :: v in r <==> v in vals
  {
    var xs := NumbersOf(vals);
    var s := Sort(xs);
    assert Distinct(xs) by {
      forall i, j | 0 <= i < j < |xs| ensures xs[i] != xs[j] {
        assert vals[i] != vals[j];
      }
    }
    SortSpec(xs);
    forall x
      ensures multiset(s)[x] <= 1
    {
      DistinctCount(xs, x);
    }
    SortedDistinct(s);
    var r := AsNumbers(s);
    forall v
      ensures v in r <==> v in vals
    {
      if v in r {
        var k :| 0 <= k < |r| && r[k] == v;
        assert s[k] in multiset(xs);
        var i :| 0 <= i < |xs| && xs[i] == s[k];
        assert vals[i] == v;
      }
      if v in vals {
        var i :| 0 <= i < |vals| && vals[i] == v;
        assert xs[i] in multiset(s);
        var k :| 0 <= k < |s| && s[k] == xs[i];
        assert r[k] == v;
      }
    }
  }

  /** Distinct texts sort into an ascending list of the same texts. */
  lemma SortTextsAscending(vals: seq<Value>)
    requires AllTexts(vals) && Distinct(vals)
    ensures var r := AsTexts(SortTexts(TextsOf(vals)));
      Ascending(r) && forall v :: v in r <==> v in vals
  {
    var xs := TextsOf(vals);
    var s := SortTexts(xs);
    assert Distinct(xs) by {
      forall i, j | 0 <= i < j < |xs| ensures xs[i] != xs[j] {
        assert vals[i] != vals[j];
      }
    }
    SortTextsSpec(xs);
    forall x
      ensures multiset(s)[x] <= 1
    {
      DistinctCount(xs, x);
    }
    TextsSortedDistinct(s);
    var r := AsTexts(s);
    forall v
      ensures v in r <==> v in vals
    {
      if v in r {
        var k :| 0 <= k < |r| && r[k] == v;
        assert s[k] in multiset(xs);
        var i :| 0 <= i < |xs| && xs[i] == s[k];
        assert vals[i] == v;
      }
      if v in vals {
        var i :| 0 <= i < |vals| && vals[i] == v;
        assert xs[i] in multiset(s);
        var k :| 0 <= k < |s| && s[k] == xs[i];
        assert r[k] == v;
      }
    }
  }

  /** The collected values fail exactly when a datapoint lacks the parameter
      and otherwise hold each value some datapoint takes, once. */
  lemma {:induction false} UniquesSpec(dps: seq<Report>, param: string)
    ensures Uniques(dps, param).Ok? <==> forall i :: 0 <= i < |dps| ==> HasKey(dps[i], param)
    ensures Uniques(dps, param).Ok? ==>
      var u := Uniques(dps, param).value;
      && Distinct(u)
      && forall v :: v in u <==> exists i :: 0 <= i < |dps| && Get(dps[i], param) == Some(v)
  {
    if |dps| > 0 {
      var init := dps[..|dps| - 1];
      assert forall i :: 0 <= i < |init| ==> init[i] == dps[i];
      UniquesSpec(init, param);
      var r := Uniques(init, param);
      if r.Ok? && HasKey(dps[|dps| - 1], param) {
        var u := r.value;
        var x := Get(dps[|dps| - 1], param).value;
        if x !in u {
          assert Distinct(u + [x]) by {
            forall i, j | 0 <= i < j < |u + [x]| ensures (u + [x])[i] != (u + [x])[j] {
              if j == |u| { assert (u + [x])[i] == u[i]; }
            }
          }
        }
      }
    }
  }

  /** Values the datapoints hold as numbers or texts are collected as such. */
  lemma UniquesSortable(dps: seq<Report>, param: string)
    requires SortablesAt(dps, param) && Uniques(dps, param).Ok?
    ensures forall k :: 0 <= k < |Uniques(dps, param).value| ==> Sortable(Uniques(dps, param).value[k])
  {
    UniquesSpec(dps, param);
    var u := Uniques(dps, param).value;
    forall k | 0 <= k < |u|
      ensures Sortable(u[k])
    {
      var i :| 0 <= i < |dps| && Get(dps[i], param) == Some(u[k]);
      assert SortableOrMissing(Get(dps[i], param));
    }
  }

  /** A result of `get_unique_param` lists the values the datapoints hold,
      each once, in ascending order. */
  lemma UniqueParamOk(dps: seq<Report>, param: string)
    requires SortablesAt(dps, param) && UniqueParamOf(dps, param).Ok?
    ensures var s := UniqueParamOf(dps, param).value;
      && Ascending(s)
      && forall v :: v in s <==> exists i :: 0 <= i < |dps| && Get(dps[i], param) == Some(v)
  {
    UniquesSpec(dps, param);
    var u := Uniques(dps, param).value;
    if AllNumbers(u) {
      SortNumbersAscending(u);
    } else {
      SortTextsAscending(u);
    }
  }

  /** A failed sort had both a number and a text to compare. */
  lemma MixedWitnesses(dps: seq<Report>, param: string)
    requires SortablesAt(dps, param) && Uniques(dps, param).Ok? && UniqueParamOf(dps, param).Fail?
    ensures exists i :: 0 <= i < |dps| && IsNumber(Get(dps[i], param))
    ensures exists j :: 0 <= j < |dps| && IsText(Get(dps[j], param))
  {
    UniquesSpec(dps, param);
    UniquesSortable(dps, param);
    var u := Uniques(dps, param).value;
    var a :| 0 <= a < |u| && !(u[a].Scalar? && u[a].c.Num?);
    var b :| 0 <= b < |u| && !u[b].Word?;
    var i :| 0 <= i < |dps| && Get(dps[i], param) == Some(u[b]);
    var j :| 0 <= j < |dps| && Get(dps[j], param) == Some(u[a]);
    assert IsNumber(Get(dps[i], param)) && IsText(Get(dps[j], param));
  }

  /** A number and a text among the values make the sort raise. */
  lemma WitnessesMixed(dps: seq<Report>, param: string, i: nat, j: nat)
    requires SortablesAt(dps, param) && Uniques(dps, param).Ok?
    requires i < |dps| && j < |dps| && IsNumber(Get(dps[i], param)) && IsText(Get(dps[j], param))
    ensures UniqueParamOf(dps, param).Fail?
  {
    UniquesSpec(dps, param);
    var u := Uniques(dps, param).value;
    assert Get(dps[i], param).value in u && Get(dps[j], param).value in u;
  }

  /** Sorting raises TypeError exactly when the datapoints hold both a
      number and a text. */
  lemma UniqueParamMixed(dps: seq<Report>, param: string)
    requires SortablesAt(dps, param) && Uniques(dps, param).Ok?
    ensures UniqueParamOf(dps, param).Fail? <==>
      && (exists i :: 0 <= i < |dps| && IsNumber(Get(dps[i], param)))
      && (exists j :: 0 <= j < |dps| && IsText(Get(dps[j], param)))
  {
    if UniqueParamOf(dps, param).Fail? {
      MixedWitnesses(dps, param);
    } else if exists i :: 0 <= i < |dps| && IsNumber(Get(dps[i], param)) {
      var i :| 0 <= i < |dps| && IsNumber(Get(dps[i], param));
      if j :| 0 <= j < |dps| && IsText(Get(dps[j], param)) {
        WitnessesMixed(dps, param, i, j);
      }
    }
  }

  /** `get_unique_param` raises KeyError when a datapoint lacks the
      parameter, TypeError when the datapoints hold both a number and a text
      for it, and otherwise returns each value some datapoint holds exactly
      once, in ascending order. */
  lemma UniqueParamSorted(dps: seq<Report>, param: string)
    requires SortablesAt(dps, param)
    ensures UniqueParamOf(dps, param) == Fail(KeyError) <==> exists i :: 0 <= i < |dps| && !HasKey(dps[i], param)
    ensures UniqueParamOf(dps, param) == Fail(TypeError) <==>
      && (forall i :: 0 <= i < |dps| ==> HasKey(dps[i], param))
      && (exists i :: 0 <= i < |dps| && IsNumber(Get(dps[i], param)))
      && (exists j :: 0 <= j < |dps| && IsText(Get(dps[j], param)))
    ensures UniqueParamOf(dps, param).Fail? ==> UniqueParamOf(dps, param).exc in {KeyError, TypeError}
    ensures UniqueParamOf(dps, param).Ok? ==>
      var s := UniqueParamOf(dps, param).value;
      && Ascending(s)
      && forall v :: v in s <==> exists i :: 0 <= i < |dps| && Get(dps[i], param) == Some(v)
  {
    UniquesSpec(dps, param);
    UniquesFails(dps, param);
    if Uniques(dps, param).Ok? {
      UniqueParamMixed(dps, param);
      if UniqueParamOf(dps, param).Ok? {
        UniqueParamOk(dps, param);
      }
    }
  }

  // ---------------------------------------------------------------- the dataset

  /** The loop of `get_unique_param`: each datapoint's value of `param` is
      appended when it has not been seen; a datapoint without it raises
      KeyError. */
  method CollectUniques(dps: seq<Report>, param: string) returns (r: Result<seq<Value>>)
    requires SortablesAt(dps, param)
    ensures r == Uniques(dps, param)
  {
    var uniq: seq<Value> := [];
    for i := 0 to |dps|
      invariant Uniques(dps[..i], param) == Ok(uniq)
    {
      assert dps[..i + 1][..i] == dps[..i];
      var v := Get(dps[i], param);
      if v.None? {
        UniquesPrefix(dps, i + 1, param);
        return Fail(KeyError);
      }
      if v.value !in uniq {
        uniq := uniq + [v.value];
      }
    }
    assert dps[..|dps|] == dps;
    return Ok(uniq);
  }

  /** A dataset: its kind, how it files a result file, and its datapoints,
      keyed by (velocity, rpm), in the order they were loaded. */
  class SweepData {
    const kind: Kind
    const loader: Loader
    var datapoints: Dict<Key, Report>

    constructor (kind: Kind)
      ensures this.kind == kind && loader == LoaderOf(kind) && datapoints == []
    {
      this.kind := kind;
      loader := LoaderOf(kind);
      datapoints := [];
    }

    /** `load_oper_sweep_results` / `load_wvel_sweep_results` on a folder
        listing. The datapoints are reset first and filled in place, so a
        file that raises leaves the datapoints of the files before it. */
    method LoadSweepResults(listing: seq<(string, string)>) returns (raised: Option<Exc>)
      modifies this
      ensures (datapoints, raised) == LoadFrom(ResultFiles(listing, Ext(kind)), [], loader)
    {
      datapoints := [];
      var files := ResultFiles(listing, Ext(kind));
      var i := 0;
      while i < |files|
        invariant 0 <= i <= |files|
        invariant LoadFrom(files[i..], datapoints, loader) == LoadFrom(files, [], loader)
      {
        var key := loader.key(files[i].0);
        if key.Fail? {
          LoadStops(files[i..], datapoints, loader);
          return Some(key.exc);
        }
        var rep := loader.read(files[i].1);
        if rep.Fail? {
          LoadStops(files[i..], datapoints, loader);
          return Some(rep.exc);
        }
        LoadStep(files[i..], datapoints, loader);
        assert files[i..][1..] == files[i + 1..];
        datapoints := Put(datapoints, key.value, rep.value);
        i := i + 1;
      }
      return None;
    }

    /** `get_datapoints_by_paramval` */
    method DatapointsByParamVal(param: string, val: Value) returns (r: Result<seq<Report>>)
      ensures r == Matching(Values(datapoints), param, val)
    {
      var dps := Values(datapoints);
      var pnts: seq<Report> := [];
      for i := 0 to |dps|
        invariant Matching(dps[..i], param, val) == Ok(pnts)
      {
        assert dps[..i + 1][..i] == dps[..i];
        var v := Get(dps[i], param);
        if v.None? {
          MatchingPrefix(dps, i + 1, param, val);
          return Fail(KeyError);
        }
        if SameValue(v.value, val) {
          pnts := pnts + [dps[i]];
        }
      }
      assert dps[..|dps|] == dps;
      return Ok(pnts);
    }

    /** `get_unique_param`: the distinct values of `param`, sorted. */
    method UniqueParam(param: string) returns (r: Result<seq<Value>>)
      requires SortablesAt(Values(datapoints), param)
      ensures r == UniqueParamOf(Values(datapoints), param)
    {
      var dps := Values(datapoints);
      var u := CollectUniques(dps, param);
      if u.Fail? {
        return Fail(u.exc);
      }
      UniquesSortable(dps, param);
      return SortValues(u.value);
    }

    /** `get_swept_params` */
    method SweptParams() returns (r: Result<seq<string>>)
      ensures r == Swept(PLOT_PARAMS, Values(datapoints))
    {
      r := SweptAmong(PLOT_PARAMS);
    }

    /** The loop of `get_swept_params` over the parameters `params`. */
    method SweptAmong(params: seq<string>) returns (r: Result<seq<string>>)
      ensures r == Swept(params, Values(datapoints))
    {
      var dps := Values(datapoints);
      var swept: seq<string> := [];
      var avoid: seq<string> := [];
      for i := 0 to |params|
        invariant Swept(params[..i], dps) == Ok(swept)
        invariant forall q :: q in avoid ==> Decide(q, dps) == Ok(false)
      {
        var p := params[i];
        assert params[..i + 1][..i] == params[..i];
        var res := SweepParam(p, dps, swept, avoid);
        if res.Fail? {
          SweptFailPrefix(params, i + 1, dps);
          return Fail(res.exc);
        }
        swept, avoid := res.value.0, res.value.1;
      }
      assert params[..|params|] == params;
      return Ok(swept);
    }

    /** The inner loop of `get_swept_params` for one parameter. */
    method SweepParam(p: string, dps: seq<Report>, swept0: seq<string>, avoid0: seq<string>)
      returns (r: Result<(seq<string>, seq<string>)>)
      requires dps == Values(datapoints)
      requires forall q :: q in avoid0 ==> Decide(q, dps) == Ok(false)
      ensures r.Fail? <==> p !in swept0 && Decide(p, dps).Fail?
      ensures r.Fail? ==> r.exc == Decide(p, dps).exc
      ensures r.Ok? ==> r.value.0 == (if p !in swept0 && Decide(p, dps) == Ok(true) then swept0 + [p] else swept0)
      ensures r.Ok? ==> forall q :: q in r.value.1 ==> Decide(q, dps) == Ok(false)
    {
      var swept, avoid := swept0, avoid0;
      ghost var expected := if p !in swept0 && Decide(p, dps) == Ok(true) then swept0 + [p] else swept0;
      for j := 0 to |dps|
        invariant j == 0 ==> swept == swept0 && avoid == avoid0
        invariant j > 0 && p !in swept0 ==> Decide(p, dps).Ok? && forall i :: 0 <= i < |dps| ==> HasKey(dps[i], p)
        invariant j > 0 && p !in swept0 && Decide(p, dps) == Ok(false) ==> p in avoid
        invariant j > 0 ==> swept == expected
        invariant forall q :: q in avoid ==> Decide(q, dps) == Ok(false)
      {
        if p !in swept {
          var v := Get(dps[j], p);
          if v.None? {
            assert j == 0;
            return Fail(KeyError);
          }
          var pts := DatapointsByParamVal(p, v.value);
          if pts.Fail? {
            if j > 0 {
              MatchingSpec(dps, p, v.value);
              assert false;
            }
            return Fail(pts.exc);
          }
          if j == 0 {
            DecideFails(p, dps);
          }
          if 2 < |pts.value| < |datapoints| && p !in avoid {
            swept := swept + [p];
          } else {
            avoid := avoid + [p];
          }
        }
      }
      return Ok((swept, avoid));
    }
  }

  lemma MatchingPrefix(dps: seq<Report>, n: nat, param: string, val: Value)
    requires 0 < n <= |dps| && !HasKey(dps[n - 1], param)
    ensures Matching(dps, param, val) == Fail(KeyError)
  {
    MatchingSpec(dps, param, val);
    MatchingSpec(dps[..n], param, val);
    assert dps[..n][n - 1] == dps[n - 1];
  }

  lemma UniquesPrefix(dps: seq<Report>, n: nat, param: string)
    requires 0 < n <= |dps| && !HasKey(dps[n - 1], param)
    ensures Uniques(dps, param) == Fail(KeyError)
    decreases |dps|
  {
    if n < |dps| {
      assert dps[..|dps| - 1][n - 1] == dps[n - 1];
      UniquesPrefix(dps[..|dps| - 1], n, param);
    } else {
      UniquesFails(dps[..|dps| - 1], param);
    }
  }

  /** The values are collected or KeyError is raised: nothing else fails. */
  lemma {:induction false} UniquesFails(dps: seq<Report>, param: string)
    ensures Uniques(dps, param).Fail? ==> Uniques(dps, param).exc == KeyError
  {
    if |dps| > 0 {
      UniquesFails(dps[..|dps| - 1], param);
    }
  }

  /** A failure on a prefix of the parameters is the failure of the whole list. */
  lemma {:induction false} SweptFailPrefix(params: seq<string>, n: nat, dps: seq<Report>)
    requires n <= |params| && Swept(params[..n], dps).Fail?
    ensures Swept(params, dps) == Swept(params[..n], dps)
    decreases |params|
  {
    if n < |params| {
      assert params[..|params| - 1][..n] == params[..n];
      SweptFailPrefix(params[..|params| - 1], n, dps);
    } else {
      assert params[..n] == params;
    }
  }
}
