// `DutyCycleDesignOptimization` of optimizations.py: a grid of propeller
// designs around a base design (design speed x design CL x advance ratio or
// rpm), each created by `create_propeller` and kept under its rounded grid
// values, and the reloading of that grid from the names of the folders the
// designs are saved in.

module Optimization {
  import opened Wrappers
  import opened Dicts
  import opened Text
  import opened Numbers
  import opened Sorting
  import Sweeps

  /** The key of a grid design: design speed, design CL and the value of
      the second design variable (advance ratio or rpm). */
  type GridKey = (real, real, real)

  // ---------------------------------------------------------------- folder names

  /** The folder name of a grid design, `vel-{:.2f}_cl-{:.2f}_{base}-{:.3f}`. */
  function OptName(vel: real, cl: real, base: string, val2: real): (r: string)
    ensures NameParts(r) == Some(("vel-" + FormatFixed(vel, 2), "cl-" + FormatFixed(cl, 2), base + "-" + FormatFixed(val2, 3)))
  {
    var a := FormatFixed(vel, 2);
    var b := FormatFixed(cl, 2);
    var c := FormatFixed(val2, 3);
    FormatFixedChars(vel, 2, '_');
    FormatFixedChars(cl, 2, '_');
    Regroup(a, b, base, c);
    PrefixedPlain(a, b);
    NamePartsOf("vel-" + a, "cl-" + b, base + "-" + c);
    "vel-" + a + "_cl-" + b + "_" + base + "-" + c
  }

  /** `name.split('_', 2)` when it has three parts. */
  function NameParts(name: string): Option<(string, string, string)>
  {
    var p := SplitOnce(name, "_");
    if |p| < 2 then None
    else
      var q := SplitOnce(p[1], "_");
      if |q| < 2 then None else Some((p[0], q[0], q[1]))
  }

  /** The key and second variable read from the three parts of a folder
      name: the first two are floats once `vel-` and `cl-` are removed, and
      the last is `<base>-<float>` with exactly one `-`; ValueError
      otherwise. */
  function ParseParts(velPart: string, clPart: string, last: string): (r: Result<(GridKey, string)>)
    ensures r.Fail? ==> r.exc == ValueError
    ensures r.Ok? ==> r.value.1 == "design_" + Split(last, "-")[0]
  {
    var vel := ParseFloat(Replace(velPart, "vel-", ""));
    var cl := ParseFloat(Replace(clPart, "cl-", ""));
    var halves := Split(last, "-");
    if vel.None? || cl.None? || |halves| != 2 then Fail(ValueError)
    else
      var val2 := ParseFloat(halves[1]);
      if val2.None? then Fail(ValueError)
      else Ok(((vel.value, cl.value, val2.value), "design_" + halves[0]))
  }

  /** What `__init__` reads from a folder name; ValueError when it does not
      have three `_`-separated parts. */
  function ParseOptName(name: string): (r: Result<(GridKey, string)>)
    ensures r.Fail? ==> r.exc == ValueError
    ensures r.Ok? ==> NameParts(name).Some? && StartsWith(r.value.1, "design_")
  {
    match NameParts(name)
    case None => Fail(ValueError)
    case Some((velPart, clPart, last)) => ParseParts(velPart, clPart, last)
  }

  /** The three parts of a name joined by `_` come back out. */
  lemma NamePartsOf(x: string, y: string, z: string)
    requires Excludes(x, '_') && Excludes(y, '_')
    ensures NameParts(x + "_" + y + "_" + z) == Some((x, y, z))
  {
    assert x + "_" + y + "_" + z == x + "_" + (y + "_" + z);
    SplitOnceAt(x, "_", y + "_" + z);
    SplitOnceAt(y, "_", z);
  }

  /** The parts written for a grid design read back as their values. */
  lemma ParsePartsOf(a: string, b: string, base: string, c: string, va: real, vb: real, vc: real)
    requires Excludes(a, 'v') && Excludes(b, 'c') && PlainBase(base) && Excludes(c, '-')
    requires ParseFloat(a) == Some(va) && ParseFloat(b) == Some(vb) && ParseFloat(c) == Some(vc)
    ensures ParseParts("vel-" + a, "cl-" + b, base + "-" + c) == Ok(((va, vb, vc), "design_" + base))
  {
    StripPrefixes(a, b);
    SplitLast(base, c);
  }

  /** Removing `vel-` and `cl-` gives back the two values' texts. */
  lemma StripPrefixes(a: string, b: string)
    requires Excludes(a, 'v') && Excludes(b, 'c')
    ensures Replace("vel-" + a, "vel-", "") == a && Replace("cl-" + b, "cl-", "") == b
  {
    ReplacePrefix("vel-", a);
    ReplacePrefix("cl-", b);
  }

  /** The last part of a name splits on `-` into its base and its value. */
  lemma SplitLast(base: string, c: string)
    requires PlainBase(base) && Excludes(c, '-')
    ensures Split(base + "-" + c, "-") == [base, c]
  {
    SplitJoin([base, c], "-");
    assert Join([base, c], "-") == base + "-" + c;
  }

  /** A second-variable name usable in a folder name: `base` holds no `_`
      and no `-`. */
  predicate PlainBase(base: string)
  {
    Excludes(base, '_') && Excludes(base, '-')
  }

  /** The shape of a folder name: three parts joined by `_`. */
  lemma Regroup(a: string, b: string, base: string, c: string)
    ensures "vel-" + a + "_cl-" + b + "_" + base + "-" + c == ("vel-" + a) + "_" + ("cl-" + b) + "_" + (base + "-" + c)
  {
    assert "_cl-" == "_" + "cl-";
  }

  /** The first two parts of a name hold no `_` when their values do not. */
  lemma PrefixedPlain(a: string, b: string)
    requires Excludes(a, '_') && Excludes(b, '_')
    ensures Excludes("vel-" + a, '_') && Excludes("cl-" + b, '_')
  {
    ExcludesConcat("vel-", a, '_');
    ExcludesConcat("cl-", b, '_');
  }

  /** A name assembled from parts that read back reads back. */
  lemma NameRoundTrip(a: string, b: string, base: string, c: string, va: real, vb: real, vc: real)
    requires Excludes(a, '_') && Excludes(a, 'v') && Excludes(b, '_') && Excludes(b, 'c')
    requires PlainBase(base) && Excludes(c, '-')
    requires ParseFloat(a) == Some(va) && ParseFloat(b) == Some(vb) && ParseFloat(c) == Some(vc)
    ensures ParseOptName("vel-" + a + "_cl-" + b + "_" + base + "-" + c) == Ok(((va, vb, vc), "design_" + base))
  {
    Regroup(a, b, base, c);
    PrefixedPlain(a, b);
    NamePartsOf("vel-" + a, "cl-" + b, base + "-" + c);
    ParsePartsOf(a, b, base, c, va, vb, vc);
  }

  /** Reading a folder name gives back the values it was written from,
      rounded as the name rounds them, when the second value is not
      negative. */
  lemma OptNameRoundTrip(vel: real, cl: real, base: string, val2: real)
    requires val2 >= 0.0 && PlainBase(base)
    ensures ParseOptName(OptName(vel, cl, base, val2)) == Ok(((RoundTo(vel, 2), RoundTo(cl, 2), RoundTo(val2, 3)), "design_" + base))
  {
    FormatFixedChars(vel, 2, '_');
    FormatFixedChars(vel, 2, 'v');
    FormatFixedChars(cl, 2, '_');
    FormatFixedChars(cl, 2, 'c');
    FormatFixedChars(val2, 3, '-');
    ParseFormatFixed(vel, 2);
    ParseFormatFixed(cl, 2);
    ParseFormatFixed(val2, 3);
    NameRoundTrip(FormatFixed(vel, 2), FormatFixed(cl, 2), base, FormatFixed(val2, 3), RoundTo(vel, 2), RoundTo(cl, 2), RoundTo(val2, 3));
  }

  /** `base-<c>` splits on `-` into more than two pieces when `c` itself
      starts with `-`. */
  lemma SplitNegative(base: string, body: string)
    requires PlainBase(base)
    ensures |Split(base + "-" + ("-" + body), "-")| > 2
  {
    var c := "-" + body;
    var tail := base + "-" + c;
    FirstOccurrenceAfter(base, "-", c);
    assert tail[|base| + 1..] == c && tail[..|base|] == base;
    FirstOccurrenceAfter("", "-", body);
    assert "" + "-" + body == c;
    assert c[1..] == body;
    assert Split(tail, "-") == [base] + Split(c, "-");
  }

  /** A name whose last part has two `-` does not read back. */
  lemma NameNegative(a: string, b: string, base: string, body: string)
    requires Excludes(a, '_') && Excludes(b, '_') && PlainBase(base)
    ensures ParseOptName("vel-" + a + "_cl-" + b + "_" + base + "-" + ("-" + body)) == Fail(ValueError)
  {
    Regroup(a, b, base, "-" + body);
    PrefixedPlain(a, b);
    NamePartsOf("vel-" + a, "cl-" + b, base + "-" + ("-" + body));
    SplitNegative(base, body);
  }

  /** A negative second value is written with a second `-`, and the folder
      cannot be read back. */
  lemma OptNameNegative(vel: real, cl: real, base: string, val2: real)
    requires val2 < 0.0 && PlainBase(base)
    ensures ParseOptName(OptName(vel, cl, base, val2)) == Fail(ValueError)
  {
    FormatFixedChars(vel, 2, '_');
    FormatFixedChars(cl, 2, '_');
    NameNegative(FormatFixed(vel, 2), FormatFixed(cl, 2), base, FixedBody(val2, 3));
  }

  // ---------------------------------------------------------------- the second design variable

  const ADV := "design_adv"
  const RPM := "design_rpm"

  /** `var2.replace('design_', '')`, the second variable's name in a folder
      name. */
  function VarBase(var2: string): string
  {
    Replace(var2, "design_", "")
  }

  /** A second variable whose name survives the trip through a folder name. */
  predicate GoodVar(var2: string)
  {
    PlainBase(VarBase(var2)) && "design_" + VarBase(var2) == var2
  }

  /** A short plain name after `design_` reads back. */
  lemma GoodVarOf(b: string)
    requires |b| < 7 && PlainBase(b)
    ensures GoodVar("design_" + b)
  {
    ShortAbsent(b, "design_");
    ReplaceLeading("design_", b);
  }

  /** Both second variables `create_prop_grid` sweeps read back from their
      folder names. */
  lemma AdvRpmGood()
    ensures GoodVar(ADV) && GoodVar(RPM)
  {
    AdvGood();
    RpmGood();
  }

  lemma AdvGood()
    ensures GoodVar(ADV)
  {
    assert ADV == "design_" + "adv";
    assert PlainBase("adv");
    GoodVarOf("adv");
  }

  lemma RpmGood()
    ensures GoodVar(RPM)
  {
    assert RPM == "design_" + "rpm";
    assert PlainBase("rpm");
    GoodVarOf("rpm");
  }

  // ---------------------------------------------------------------- the grid loop

  /** What `create_propeller` does for one grid design: it is given the
      folder name, the design speed, the design CL, the keyword of the second
      variable and its value. */
  type CreateFn = (string, real, real, string, real) -> Result<()>

  datatype GridEnv = GridEnv(var2: string, create: CreateFn)

  /** The state of the three nested loops: the designs kept, the folders in
      the optimisation folder, an exception that ended the loops, and the
      current values of the loop variables `vel` and `cl`, which the body
      rebinds to their rounded values. */
  datatype GridState = GridState(props: Dict<GridKey, string>, saved: seq<string>, raised: Option<Exc>, vel: real, cl: real)

  /** The key a design is kept under: speed and CL to 2 places, the second
      value to 3. */
  function Key(vel: real, cl: real, val2: real): GridKey
  {
    (RoundTo(vel, 2), RoundTo(cl, 2), RoundTo(val2, 3))
  }

  /** One pass of the innermost loop body: create the design; on success
      move its folder into the optimisation folder (shutil.Error when a
      folder of that name is already there) and keep it under its rounded
      key; an `Error` keeps nothing; both round `vel` and `cl`; any other
      exception ends the loops. */
  function Step(s: GridState, env: GridEnv, val2: real): (r: GridState)
    ensures s.raised.Some? ==> r == s
    ensures s.saved <= r.saved && |r.saved| <= |s.saved| + 1
  {
    if s.raised.Some? then s
    else
      var name := OptName(s.vel, s.cl, VarBase(env.var2), val2);
      match env.create(name, s.vel, s.cl, env.var2, val2)
      case Ok(_) =>
        if name in s.saved then s.(raised := Some(ShutilError))
        else GridState(Put(s.props, Key(s.vel, s.cl, val2), name), s.saved + [name], None, RoundTo(s.vel, 2), RoundTo(s.cl, 2))
      case Fail(e) =>
        if e.PdtError? then s.(vel := RoundTo(s.vel, 2), cl := RoundTo(s.cl, 2))
        else s.(raised := Some(e))
  }

  /** `for val2 in vals`. */
  function ValLoop(s: GridState, env: GridEnv, vals: seq<real>): (r: GridState)
    ensures s.raised.Some? ==> r == s
    ensures s.saved <= r.saved && |r.saved| <= |s.saved| + |vals|
  {
    if |vals| == 0 then s
    else Step(ValLoop(s, env, vals[..|vals| - 1]), env, vals[|vals| - 1])
  }

  /** `for cl in cls`, each pass running the innermost loop. */
  function ClLoop(s: GridState, env: GridEnv, cls: seq<real>, vals: seq<real>): (r: GridState)
    ensures s.raised.Some? ==> r == s
    ensures s.saved <= r.saved
  {
    if |cls| == 0 then s
    else
      var t := ClLoop(s, env, cls[..|cls| - 1], vals);
      if t.raised.Some? then t else ValLoop(t.(cl := cls[|cls| - 1]), env, vals)
  }

  /** `for vel in vels`, each pass running the loop over the CLs. */
  function VelLoop(s: GridState, env: GridEnv, vels: seq<real>, cls: seq<real>, vals: seq<real>): (r: GridState)
    ensures s.raised.Some? ==> r == s
    ensures s.saved <= r.saved
  {
    if |vels| == 0 then s
    else
      var t := VelLoop(s, env, vels[..|vels| - 1], cls, vals);
      if t.raised.Some? then t else ClLoop(t.(vel := vels[|vels| - 1]), env, cls, vals)
  }

  lemma ValLoopNext(s: GridState, env: GridEnv, vals: seq<real>, k: nat)
    requires k < |vals|
    ensures ValLoop(s, env, vals[..k + 1]) == Step(ValLoop(s, env, vals[..k]), env, vals[k])
  {
    assert vals[..k + 1][..k] == vals[..k];
  }

  lemma {:induction false} ValLoopStops(s: GridState, env: GridEnv, vals: seq<real>, k: nat)
    requires k <= |vals| && ValLoop(s, env, vals[..k]).raised.Some?
    ensures ValLoop(s, env, vals) == ValLoop(s, env, vals[..k])
    decreases |vals| - k
  {
    if k < |vals| {
      ValLoopNext(s, env, vals, k);
      ValLoopStops(s, env, vals, k + 1);
    } else {
      assert vals[..k] == vals;
    }
  }

  lemma ClLoopNext(s: GridState, env: GridEnv, cls: seq<real>, vals: seq<real>, i: nat)
    requires i < |cls|
    ensures var t := ClLoop(s, env, cls[..i], vals);
      ClLoop(s, env, cls[..i + 1], vals) == if t.raised.Some? then t else ValLoop(t.(cl := cls[i]), env, vals)
  {
    assert cls[..i + 1][..i] == cls[..i];
  }

  lemma {:induction false} ClLoopStops(s: GridState, env: GridEnv, cls: seq<real>, vals: seq<real>, i: nat)
    requires i <= |cls| && ClLoop(s, env, cls[..i], vals).raised.Some?
    ensures ClLoop(s, env, cls, vals) == ClLoop(s, env, cls[..i], vals)
    decreases |cls| - i
  {
    if i < |cls| {
      ClLoopNext(s, env, cls, vals, i);
      ClLoopStops(s, env, cls, vals, i + 1);
    } else {
      assert cls[..i] == cls;
    }
  }

  lemma VelLoopNext(s: GridState, env: GridEnv, vels: seq<real>, cls: seq<real>, vals: seq<real>, v: nat)
    requires v < |vels|
    ensures var t := VelLoop(s, env, vels[..v], cls, vals);
      VelLoop(s, env, vels[..v + 1], cls, vals) == if t.raised.Some? then t else ClLoop(t.(vel := vels[v]), env, cls, vals)
  {
    assert vels[..v + 1][..v] == vels[..v];
  }

  lemma {:induction false} VelLoopStops(s: GridState, env: GridEnv, vels: seq<real>, cls: seq<real>, vals: seq<real>, v: nat)
    requires v <= |vels| && VelLoop(s, env, vels[..v], cls, vals).raised.Some?
    ensures VelLoop(s, env, vels, cls, vals) == VelLoop(s, env, vels[..v], cls, vals)
    decreases |vels| - v
  {
    if v < |vels| {
      VelLoopNext(s, env, vels, cls, vals, v);
      VelLoopStops(s, env, vels, cls, vals, v + 1);
    } else {
      assert vels[..v] == vels;
    }
  }

  // ---------------------------------------------------------------- what the grid keeps

  /** Every value is at least zero. */
  predicate NonNeg(xs: seq<real>)
  {
    forall i :: 0 <= i < |xs| ==> xs[i] >= 0.0
  }

  /** How a folder name is read back into a key and a second variable. */
  type Parser = string -> Result<(GridKey, string)>

  /** The design kept under `k` in `t` sits in a folder moved in after the
      first `from` folders, and that folder's name reads back as `k` and
      `var2`. */
  predicate Recorded(t: GridState, k: GridKey, from: nat, parse: Parser, var2: string)
  {
    var g := Get(t.props, k);
    && g.Some?
    && from <= |t.saved|
    && g.value in t.saved[from..]
    && parse(g.value) == Ok((k, var2))
  }

  /** `t` is `s` after more of the grid: the folders only grow, no key is
      lost, and every key whose design changed was created on the way and
      is named so that it reads back as itself. */
  ghost predicate Extends(s: GridState, t: GridState, parse: Parser, var2: string)
  {
    && s.saved <= t.saved
    && (forall k :: Get(s.props, k).Some? ==> Get(t.props, k).Some?)
    && (forall k :: Get(t.props, k) != Get(s.props, k) ==> Recorded(t, k, |s.saved|, parse, var2))
  }

  lemma ExtendsTrans(a: GridState, b: GridState, c: GridState, parse: Parser, var2: string)
    requires Extends(a, b, parse, var2) && Extends(b, c, parse, var2)
    ensures Extends(a, c, parse, var2)
  {
    forall k | Get(c.props, k) != Get(a.props, k)
      ensures Recorded(c, k, |a.saved|, parse, var2)
    {
      if Get(c.props, k) == Get(b.props, k) {
        RecordedLater(b, c, k, |a.saved|, parse, var2);
      } else {
        RecordedEarlier(c, k, |a.saved|, |b.saved|, parse, var2);
      }
    }
  }

  /** A design recorded in `b` and unchanged in `c` is recorded in `c`. */
  lemma RecordedLater(b: GridState, c: GridState, k: GridKey, from: nat, parse: Parser, var2: string)
    requires Recorded(b, k, from, parse, var2) && Get(c.props, k) == Get(b.props, k) && b.saved <= c.saved
    ensures Recorded(c, k, from, parse, var2)
  {
    var n := Get(b.props, k).value;
    var i :| from <= i < |b.saved| && b.saved[i] == n;
    assert c.saved[i] == n;
  }

  /** A folder moved in after `mid` folders was moved in after `from <= mid`. */
  lemma RecordedEarlier(c: GridState, k: GridKey, from: nat, mid: nat, parse: Parser, var2: string)
    requires Recorded(c, k, mid, parse, var2) && from <= mid
    ensures Recorded(c, k, from, parse, var2)
  {
    var n := Get(c.props, k).value;
    var i :| mid <= i < |c.saved| && c.saved[i] == n;
    assert c.saved[from..][i - from] == n;
  }

  /** Nothing kept and no folder moved in. */
  lemma SameExtends(s: GridState, t: GridState, parse: Parser, var2: string)
    requires t.props == s.props && t.saved == s.saved
    ensures Extends(s, t, parse, var2)
  {
  }

  lemma RecordedNew(t: GridState, key: GridKey, from: nat, name: string, parse: Parser, var2: string)
    requires Get(t.props, key) == Some(name) && from <= |t.saved| && t.saved[from..] == [name]
    requires parse(name) == Ok((key, var2))
    ensures Recorded(t, key, from, parse, var2)
  {
  }

  /** One design kept in a new folder whose name reads back as its key. */
  lemma PutExtends(s: GridState, t: GridState, key: GridKey, name: string, parse: Parser, var2: string)
    requires t.props == Put(s.props, key, name) && t.saved == s.saved + [name]
    requires parse(name) == Ok((key, var2))
    ensures Extends(s, t, parse, var2)
  {
    PutHasKeys(s.props, key, name);
    PutChanged(s, t, key, name, parse, var2);
  }

  lemma PutChanged(s: GridState, t: GridState, key: GridKey, name: string, parse: Parser, var2: string)
    requires t.props == Put(s.props, key, name) && t.saved == s.saved + [name]
    requires parse(name) == Ok((key, var2))
    ensures forall k :: Get(t.props, k) != Get(s.props, k) ==> Recorded(t, k, |s.saved|, parse, var2)
  {
    PutOthers(s.props, key, name);
    assert t.saved[|s.saved|..] == [name];
    RecordedNew(t, key, |s.saved|, name, parse, var2);
    forall k | Get(t.props, k) != Get(s.props, k)
      ensures Recorded(t, k, |s.saved|, parse, var2)
    {
      assert k == key;
    }
  }

  /** One pass of the loop body keeps the invariant. */
  lemma StepExtends(s: GridState, env: GridEnv, val2: real)
    requires val2 >= 0.0 && GoodVar(env.var2)
    ensures Extends(s, Step(s, env, val2), ParseOptName, env.var2)
  {
    var t := Step(s, env, val2);
    if s.raised.Some? {
      SameExtends(s, t, ParseOptName, env.var2);
    } else {
      var name := OptName(s.vel, s.cl, VarBase(env.var2), val2);
      if env.create(name, s.vel, s.cl, env.var2, val2).Ok? && name !in s.saved {
        OptNameRoundTrip(s.vel, s.cl, VarBase(env.var2), val2);
        PutExtends(s, t, Key(s.vel, s.cl, val2), name, ParseOptName, env.var2);
      } else {
        SameExtends(s, t, ParseOptName, env.var2);
      }
    }
  }

  lemma {:induction false} ValLoopExtends(s: GridState, env: GridEnv, vals: seq<real>)
    requires NonNeg(vals) && GoodVar(env.var2)
    ensures Extends(s, ValLoop(s, env, vals), ParseOptName, env.var2)
  {
    if |vals| > 0 {
      var init := vals[..|vals| - 1];
      assert NonNeg(init);
      ValLoopExtends(s, env, init);
      StepExtends(ValLoop(s, env, init), env, vals[|vals| - 1]);
      ExtendsTrans(s, ValLoop(s, env, init), ValLoop(s, env, vals), ParseOptName, env.var2);
    }
  }

  lemma {:induction false} ClLoopExtends(s: GridState, env: GridEnv, cls: seq<real>, vals: seq<real>)
    requires NonNeg(vals) && GoodVar(env.var2)
    ensures Extends(s, ClLoop(s, env, cls, vals), ParseOptName, env.var2)
  {
    if |cls| > 0 {
      var t := ClLoop(s, env, cls[..|cls| - 1], vals);
      ClLoopExtends(s, env, cls[..|cls| - 1], vals);
      if t.raised.None? {
        var u := t.(cl := cls[|cls| - 1]);
        ValLoopExtends(u, env, vals);
        ExtendsTrans(s, u, ValLoop(u, env, vals), ParseOptName, env.var2);
      }
    }
  }

  /** The whole grid keeps the invariant: no design is lost, and every
      design it keeps anew sits in a folder it moved in whose name reads
      back as the design's key. */
  lemma {:induction false} VelLoopExtends(s: GridState, env: GridEnv, vels: seq<real>, cls: seq<real>, vals: seq<real>)
    requires NonNeg(vals) && GoodVar(env.var2)
    ensures Extends(s, VelLoop(s, env, vels, cls, vals), ParseOptName, env.var2)
  {
    if |vels| > 0 {
      var t := VelLoop(s, env, vels[..|vels| - 1], cls, vals);
      VelLoopExtends(s, env, vels[..|vels| - 1], cls, vals);
      if t.raised.None? {
        var u := t.(vel := vels[|vels| - 1]);
        ClLoopExtends(u, env, cls, vals);
        ExtendsTrans(s, u, ClLoop(u, env, cls, vals), ParseOptName, env.var2);
      }
    }
  }

  // ---------------------------------------------------------------- which designs the grid gains

  /** The body pass for `val2` keeps a design: nothing was raised,
      `create_propeller` converged, and no folder of its name is there yet. */
  predicate Converges(s: GridState, env: GridEnv, val2: real)
  {
    var name := OptName(s.vel, s.cl, VarBase(env.var2), val2);
    s.raised.None? && env.create(name, s.vel, s.cl, env.var2, val2).Ok? && name !in s.saved
  }

  /** A converged pass keeps its folder under the pass's rounded key; any
      other pass keeps the designs as they were. */
  lemma StepStores(s: GridState, env: GridEnv, val2: real)
    ensures Converges(s, env, val2) ==>
      Get(Step(s, env, val2).props, Key(s.vel, s.cl, val2)) == Some(OptName(s.vel, s.cl, VarBase(env.var2), val2))
    ensures !Converges(s, env, val2) ==> Step(s, env, val2).props == s.props
  {
  }

  /** The keys of the converged passes of `for val2 in vals`. */
  function ValKept(s: GridState, env: GridEnv, vals: seq<real>): set<GridKey>
  {
    if |vals| == 0 then {}
    else
      var t := ValLoop(s, env, vals[..|vals| - 1]);
      var last := vals[|vals| - 1];
      ValKept(s, env, vals[..|vals| - 1]) + (if Converges(t, env, last) then {Key(t.vel, t.cl, last)} else {})
  }

  /** The keys of the converged passes of `for cl in cls`. */
  function ClKept(s: GridState, env: GridEnv, cls: seq<real>, vals: seq<real>): set<GridKey>
  {
    if |cls| == 0 then {}
    else
      var t := ClLoop(s, env, cls[..|cls| - 1], vals);
      ClKept(s, env, cls[..|cls| - 1], vals) + (if t.raised.Some? then {} else ValKept(t.(cl := cls[|cls| - 1]), env, vals))
  }

  /** The keys of the converged passes of the whole grid. */
  function VelKept(s: GridState, env: GridEnv, vels: seq<real>, cls: seq<real>, vals: seq<real>): set<GridKey>
  {
    if |vels| == 0 then {}
    else
      var t := VelLoop(s, env, vels[..|vels| - 1], cls, vals);
      VelKept(s, env, vels[..|vels| - 1], cls, vals) + (if t.raised.Some? then {} else ClKept(t.(vel := vels[|vels| - 1]), env, cls, vals))
  }

  /** The keys of `t` are those of `s` and the keys in `kept`. */
  ghost predicate Gains(s: GridState, t: GridState, kept: set<GridKey>)
  {
    forall k :: HasKey(t.props, k) <==> HasKey(s.props, k) || k in kept
  }

  lemma GainsTrans(a: GridState, b: GridState, c: GridState, k1: set<GridKey>, k2: set<GridKey>)
    requires Gains(a, b, k1) && Gains(b, c, k2)
    ensures Gains(a, c, k1 + k2)
  {
  }

  lemma PutGains(s: GridState, t: GridState, key: GridKey, name: string)
    requires t.props == Put(s.props, key, name)
    ensures Gains(s, t, {key})
  {
    PutHasKeys(s.props, key, name);
    PutOthers(s.props, key, name);
    forall k
      ensures HasKey(t.props, k) <==> HasKey(s.props, k) || k in {key}
    {
      if k != key {
        assert Get(t.props, k) == Get(s.props, k);
      }
    }
  }

  lemma StepGains(s: GridState, env: GridEnv, val2: real)
    ensures Gains(s, Step(s, env, val2), if Converges(s, env, val2) then {Key(s.vel, s.cl, val2)} else {})
  {
    var t := Step(s, env, val2);
    if Converges(s, env, val2) {
      var name := OptName(s.vel, s.cl, VarBase(env.var2), val2);
      assert t.props == Put(s.props, Key(s.vel, s.cl, val2), name);
      PutGains(s, t, Key(s.vel, s.cl, val2), name);
    } else {
      StepStores(s, env, val2);
      assert t.props == s.props;
    }
  }

  lemma {:induction false} ValLoopGains(s: GridState, env: GridEnv, vals: seq<real>)
    ensures Gains(s, ValLoop(s, env, vals), ValKept(s, env, vals))
  {
    if |vals| > 0 {
      var init := vals[..|vals| - 1];
      ValLoopGains(s, env, init);
      StepGains(ValLoop(s, env, init), env, vals[|vals| - 1]);
      GainsTrans(s, ValLoop(s, env, init), ValLoop(s, env, vals), ValKept(s, env, init),
        var t := ValLoop(s, env, init);
        if Converges(t, env, vals[|vals| - 1]) then {Key(t.vel, t.cl, vals[|vals| - 1])} else {});
    }
  }

  lemma {:induction false} ClLoopGains(s: GridState, env: GridEnv, cls: seq<real>, vals: seq<real>)
    ensures Gains(s, ClLoop(s, env, cls, vals), ClKept(s, env, cls, vals))
  {
    if |cls| > 0 {
      var t := ClLoop(s, env, cls[..|cls| - 1], vals);
      ClLoopGains(s, env, cls[..|cls| - 1], vals);
      if t.raised.None? {
        var u := t.(cl := cls[|cls| - 1]);
        ValLoopGains(u, env, vals);
        GainsTrans(s, t, ValLoop(u, env, vals), ClKept(s, env, cls[..|cls| - 1], vals), ValKept(u, env, vals));
      }
    }
  }

  lemma {:induction false} VelLoopGains(s: GridState, env: GridEnv, vels: seq<real>, cls: seq<real>, vals: seq<real>)
    ensures Gains(s, VelLoop(s, env, vels, cls, vals), VelKept(s, env, vels, cls, vals))
  {
    if |vels| > 0 {
      var t := VelLoop(s, env, vels[..|vels| - 1], cls, vals);
      VelLoopGains(s, env, vels[..|vels| - 1], cls, vals);
      if t.raised.None? {
        var u := t.(vel := vels[|vels| - 1]);
        ClLoopGains(u, env, cls, vals);
        GainsTrans(s, t, ClLoop(u, env, cls, vals), VelKept(s, env, vels[..|vels| - 1], cls, vals), ClKept(u, env, cls, vals));
      }
    }
  }

  // ---------------------------------------------------------------- the sweep values

  const BOTH_MSG := "Cannot give both \"advs\" and \"rpms\" into create_prop_grid()"
  const CONST_MSG := "Optimizations only currently implemented for \"const\" cl"

  /** The five default sweep values around a base value,
      `[v * base for v in [0.7, 0.85, 1.0, 1.15, 1.3]]`. */
  function Factored(base: real): (r: seq<real>)
    ensures |r| == 5 && r[2] == base
  {
    [0.7 * base, 0.85 * base, 1.0 * base, 1.15 * base, 1.3 * base]
  }

  /** The default sweep is strictly increasing around a positive base. */
  lemma FactoredIncreasing(base: real)
    requires base > 0.0
    ensures Sweeps.Increasing(Factored(base))
  {
  }

  lemma FactoredNonNeg(base: real)
    requires base >= 0.0
    ensures NonNeg(Factored(base))
  {
  }

  /** The attributes of the base propeller the defaults are taken from;
      None where the attribute is None. */
  datatype BaseDesign = BaseDesign(speed: Option<real>, cl: Option<Dict<string, real>>, adv: Option<real>, rpm: Option<real>)

  /** The arguments of `create_prop_grid`. */
  datatype GridArgs = GridArgs(vels: Option<seq<real>>, clConsts: Option<seq<real>>, advs: Option<seq<real>>, rpms: Option<seq<real>>, append: bool)

  datatype Sweep = Sweep(vels: seq<real>, cls: seq<real>, vals: seq<real>)

  /** The second variable assigned before the sweep values were found (None
      when the method raised before assigning it), and the sweep values. */
  datatype SetupOut = SetupOut(var2: Option<string>, sweep: Result<Sweep>)

  /** The CL sweep: the given values, or the defaults around
      `design_cl['const']`; TypeError when the base has no design CL. */
  function ClValues(base: BaseDesign, clConsts: Option<seq<real>>): Result<seq<real>>
  {
    if clConsts.Some? then Ok(clConsts.value)
    else if base.cl.None? then Fail(TypeError)
    else
      match Get(base.cl.value, "const")
      case None => Fail(PdtError(CONST_MSG))
      case Some(c) => Ok(Factored(c))
  }

  /** Lines 85-117 of `create_prop_grid`: the checks and the three lists of
      sweep values, in the order the method makes them. */
  function Setup(base: BaseDesign, args: GridArgs): (r: SetupOut)
    ensures r.sweep.Ok? ==> r.var2.Some?
  {
    if args.advs.Some? && args.rpms.Some? then SetupOut(None, Fail(PdtError(BOTH_MSG)))
    else if args.vels.None? && base.speed.None? then SetupOut(None, Fail(TypeError))
    else
      var vels := if args.vels.Some? then args.vels.value else Factored(base.speed.value);
      match ClValues(base, args.clConsts)
      case Fail(e) => SetupOut(None, Fail(e))
      case Ok(cls) =>
        if args.advs.Some? then SetupOut(Some(ADV), Ok(Sweep(vels, cls, args.advs.value)))
        else if args.rpms.Some? then SetupOut(Some(RPM), Ok(Sweep(vels, cls, args.rpms.value)))
        else if base.adv.Some? then SetupOut(Some(ADV), Ok(Sweep(vels, cls, Factored(base.adv.value))))
        else if base.rpm.Some? then SetupOut(Some(RPM), Ok(Sweep(vels, cls, Factored(base.rpm.value))))
        else SetupOut(Some(RPM), Fail(TypeError))
  }

  /** Giving both `advs` and `rpms` is an `Error`, raised before anything is
      assigned. */
  lemma SetupBoth(base: BaseDesign, args: GridArgs)
    requires args.advs.Some? && args.rpms.Some?
    ensures Setup(base, args) == SetupOut(None, Fail(PdtError(BOTH_MSG)))
  {
  }

  /** The second variable is the advance ratio when advs are given, or when
      no rpms are given and the base design has an advance ratio, and the
      rpm otherwise. */
  lemma SetupVar2(base: BaseDesign, args: GridArgs)
    requires Setup(base, args).sweep.Ok?
    ensures Setup(base, args).var2 == Some(if args.advs.Some? || (args.rpms.None? && base.adv.Some?) then ADV else RPM)
  {
  }

  /** Each sweep is the given list, or the five factors times the base
      design's value. */
  lemma SetupSweeps(base: BaseDesign, args: GridArgs)
    requires Setup(base, args).sweep.Ok?
    ensures var sw := Setup(base, args).sweep.value;
      && sw.vels == (if args.vels.Some? then args.vels.value else Factored(base.speed.value))
      && sw.cls == (if args.clConsts.Some? then args.clConsts.value else Factored(Get(base.cl.value, "const").value))
      && sw.vals == (if args.advs.Some? then args.advs.value
                     else if args.rpms.Some? then args.rpms.value
                     else if base.adv.Some? then Factored(base.adv.value)
                     else Factored(base.rpm.value))
  {
  }

  /** The checks, each an exception exactly when its condition holds: both
      lists, a missing base speed or CL, a CL without `const`, or a missing
      base rpm when no list and no base advance ratio is given. */
  lemma SetupFails(base: BaseDesign, args: GridArgs)
    ensures Setup(base, args).sweep.Fail? <==>
      || (args.advs.Some? && args.rpms.Some?)
      || (args.vels.None? && base.speed.None?)
      || ClValues(base, args.clConsts).Fail?
      || (args.advs.None? && args.rpms.None? && base.adv.None? && base.rpm.None?)
  {
  }

  /** The values the method is given or derives are never negative when
      those of the base design are not. */
  predicate NonNegArgs(base: BaseDesign, args: GridArgs)
  {
    && (args.advs.Some? ==> NonNeg(args.advs.value))
    && (args.rpms.Some? ==> NonNeg(args.rpms.value))
    && (base.adv.Some? ==> base.adv.value >= 0.0)
    && (base.rpm.Some? ==> base.rpm.value >= 0.0)
  }

  lemma SetupGood(base: BaseDesign, args: GridArgs)
    requires NonNegArgs(base, args) && Setup(base, args).sweep.Ok?
    ensures GoodVar(Setup(base, args).var2.value) && NonNeg(Setup(base, args).sweep.value.vals)
  {
    AdvRpmGood();
    if args.advs.None? && args.rpms.None? {
      if base.adv.Some? {
        FactoredNonNeg(base.adv.value);
      } else {
        FactoredNonNeg(base.rpm.value);
      }
    }
  }

  // ---------------------------------------------------------------- create_prop_grid

  /** The attributes of the optimisation that `create_prop_grid` changes,
      the folders in the optimisation folder, and an exception it raised. */
  datatype OptState = OptState(props: Dict<GridKey, string>, var2: Option<string>, dirExists: bool, saved: seq<string>, raised: Option<Exc>)

  /** Lines 77-83: without `append` the optimisation folder is deleted;
      then it is made when missing. */
  function Reset(o: OptState, append: bool): (r: OptState)
    ensures r.dirExists && r.props == o.props && r.var2 == o.var2 && r.raised == o.raised
    ensures !append ==> r.saved == []
    ensures append && o.dirExists ==> r.saved == o.saved
  {
    o.(dirExists := true, saved := if !append || !o.dirExists then [] else o.saved)
  }

  /** `create_prop_grid`. */
  function CreateGrid(o: OptState, base: BaseDesign, args: GridArgs, create: CreateFn): (r: OptState)
    ensures r.dirExists
    ensures r.raised.None? ==> Setup(base, args).sweep.Ok?
    ensures Setup(base, args).sweep.Fail? ==>
              && r.raised == Some(Setup(base, args).sweep.exc)
              && r.props == o.props && r.saved == Reset(o, args.append).saved
  {
    var o1 := Reset(o, args.append);
    var out := Setup(base, args);
    var o2 := if out.var2.Some? then o1.(var2 := out.var2) else o1;
    match out.sweep
    case Fail(e) => o2.(raised := Some(e))
    case Ok(sw) =>
      var g := VelLoop(GridState(o2.props, o2.saved, None, 0.0, 0.0), GridEnv(out.var2.value, create), sw.vels, sw.cls, sw.vals);
      o2.(props := g.props, saved := g.saved, raised := g.raised)
  }

  /** Giving both advs and rpms raises `Error` only after the folder was
      deleted (without `append`) and made again, and changes nothing else. */
  lemma CreateGridBoth(o: OptState, base: BaseDesign, args: GridArgs, create: CreateFn)
    requires args.advs.Some? && args.rpms.Some?
    ensures CreateGrid(o, base, args, create) == Reset(o, args.append).(raised := Some(PdtError(BOTH_MSG)))
  {
  }

  /** The designs of `r` grew from those of `o`, as `Extends` says, with the
      second variable `r` ends with. */
  ghost predicate Grew(o: OptState, r: OptState)
  {
    && r.var2.Some?
    && Extends(GridState(o.props, o.saved, None, 0.0, 0.0), GridState(r.props, r.saved, r.raised, 0.0, 0.0), ParseOptName, r.var2.value)
  }

  /** Whatever `create_propeller` does, a grid whose values are not negative
      loses no design it had, and keeps each new design in a moved-in folder
      whose name reads back as the design's key and second variable. */
  lemma CreateGridGrows(o: OptState, base: BaseDesign, args: GridArgs, create: CreateFn)
    requires NonNegArgs(base, args) && Setup(base, args).sweep.Ok?
    ensures Grew(Reset(o, args.append), CreateGrid(o, base, args, create))
  {
    var out := Setup(base, args);
    var sw := out.sweep.value;
    var o1 := Reset(o, args.append);
    var s := GridState(o1.props, o1.saved, None, 0.0, 0.0);
    var env := GridEnv(out.var2.value, create);
    var g := VelLoop(s, env, sw.vels, sw.cls, sw.vals);
    var r := CreateGrid(o, base, args, create);
    assert r.props == g.props && r.saved == g.saved && r.var2 == out.var2;
    SetupGood(base, args);
    VelLoopExtends(s, env, sw.vels, sw.cls, sw.vals);
    GrewOf(o1, r, g, env.var2);
  }

  /** The designs `create_prop_grid` ends with are exactly those it had
      and the keys of the grid points whose design converged into a new
      folder: each such point is kept, and nothing else is. */
  lemma CreateGridGains(o: OptState, base: BaseDesign, args: GridArgs, create: CreateFn)
    requires Setup(base, args).sweep.Ok?
    ensures var out := Setup(base, args);
      var sw := out.sweep.value;
      var o1 := Reset(o, args.append);
      var kept := VelKept(GridState(o1.props, o1.saved, None, 0.0, 0.0), GridEnv(out.var2.value, create), sw.vels, sw.cls, sw.vals);
      forall k :: HasKey(CreateGrid(o, base, args, create).props, k) <==> HasKey(o.props, k) || k in kept
  {
    var out := Setup(base, args);
    var sw := out.sweep.value;
    var o1 := Reset(o, args.append);
    var s := GridState(o1.props, o1.saved, None, 0.0, 0.0);
    VelLoopGains(s, GridEnv(out.var2.value, create), sw.vels, sw.cls, sw.vals);
  }

  lemma GrewOf(o: OptState, r: OptState, g: GridState, var2: string)
    requires Extends(GridState(o.props, o.saved, None, 0.0, 0.0), g, ParseOptName, var2)
    requires r.props == g.props && r.saved == g.saved && r.var2 == Some(var2)
    ensures Grew(o, r)
  {
    assert GridState(r.props, r.saved, r.raised, 0.0, 0.0).props == g.props;
  }

  // ---------------------------------------------------------------- loading existing results

  /** `Propeller(fpath)` for a folder of the optimisation folder: None when
      the design loads, else the exception it raises. */
  type LoadFn = string -> Option<Exc>

  datatype LoadState = LoadState(props: Dict<GridKey, string>, var2: Option<string>, raised: Option<Exc>)

  /** One pass of the loading loop: load the design, then read its folder
      name; keep the design under the key read and remember the second
      variable. */
  function LoadOne(st: LoadState, name: string, load: LoadFn, parse: Parser): LoadState
  {
    if st.raised.Some? then st
    else if load(name).Some? then st.(raised := load(name))
    else
      match parse(name)
      case Fail(e) => st.(raised := Some(e))
      case Ok((k, v)) => LoadState(Put(st.props, k, name), Some(v), None)
  }

  /** The loading loop over the folders found. */
  function LoadAll(st: LoadState, names: seq<string>, load: LoadFn, parse: Parser): (r: LoadState)
    ensures st.raised.Some? ==> r == st
    ensures |st.props| <= |r.props| <= |st.props| + |names|
  {
    if |names| == 0 then st
    else LoadOne(LoadAll(st, names[..|names| - 1], load, parse), names[|names| - 1], load, parse)
  }

  lemma LoadAllNext(st: LoadState, names: seq<string>, load: LoadFn, parse: Parser, i: nat)
    requires i < |names|
    ensures LoadAll(st, names[..i + 1], load, parse) == LoadOne(LoadAll(st, names[..i], load, parse), names[i], load, parse)
  {
    assert names[..i + 1][..i] == names[..i];
  }

  lemma {:induction false} LoadAllStops(st: LoadState, names: seq<string>, load: LoadFn, parse: Parser, i: nat)
    requires i <= |names| && LoadAll(st, names[..i], load, parse).raised.Some?
    ensures LoadAll(st, names, load, parse) == LoadAll(st, names[..i], load, parse)
    decreases |names| - i
  {
    if i < |names| {
      LoadAllNext(st, names, load, parse, i);
      LoadAllStops(st, names, load, parse, i + 1);
    } else {
      assert names[..i] == names;
    }
  }

  /** Every folder loads and every name reads. */
  predicate AllLoad(names: seq<string>, load: LoadFn, parse: Parser)
  {
    forall i :: 0 <= i < |names| ==> load(names[i]).None? && parse(names[i]).Ok?
  }

  /** `name` reads as a key whose components are `k`. */
  predicate ReadsKey(parse: Parser, name: string, k: GridKey)
  {
    parse(name).Ok? && parse(name).value.0 == k
  }

  lemma AllLoadSnoc(names: seq<string>, load: LoadFn, parse: Parser)
    requires |names| > 0
    ensures var n := names[|names| - 1];
      AllLoad(names, load, parse) <==> AllLoad(names[..|names| - 1], load, parse) && load(n).None? && parse(n).Ok?
  {
    var init := names[..|names| - 1];
    assert forall i :: 0 <= i < |init| ==> init[i] == names[i];
  }

  /** Loading succeeds exactly when every design loads and every folder
      name reads. */
  lemma {:induction false} LoadAllOk(st: LoadState, names: seq<string>, load: LoadFn, parse: Parser)
    requires st.raised.None?
    ensures LoadAll(st, names, load, parse).raised.None? <==> AllLoad(names, load, parse)
  {
    if |names| > 0 {
      LoadAllOk(st, names[..|names| - 1], load, parse);
      AllLoadSnoc(names, load, parse);
    }
  }

  /** After a successful load, every key read is kept and every key kept
      was there before or was read. */
  lemma {:induction false} LoadAllKeys(st: LoadState, names: seq<string>, load: LoadFn, parse: Parser)
    requires st.raised.None? && AllLoad(names, load, parse)
    ensures var r := LoadAll(st, names, load, parse);
      && (forall i :: 0 <= i < |names| ==> HasKey(r.props, parse(names[i]).value.0))
      && (forall k :: HasKey(r.props, k) ==> HasKey(st.props, k) || exists i :: 0 <= i < |names| && ReadsKey(parse, names[i], k))
  {
    if |names| > 0 {
      var init := names[..|names| - 1];
      AllLoadSnoc(names, load, parse);
      LoadAllKeys(st, init, load, parse);
      LoadAllKeysStep(st, init, names, load, parse);
    }
  }

  /** The inductive step of LoadAllKeys: one more successful folder. */
  lemma LoadAllKeysStep(st: LoadState, init: seq<string>, names: seq<string>, load: LoadFn, parse: Parser)
    requires st.raised.None? && |names| > 0 && init == names[..|names| - 1] && AllLoad(names, load, parse)
    requires var t := LoadAll(st, init, load, parse);
      && (forall i :: 0 <= i < |init| ==> HasKey(t.props, parse(init[i]).value.0))
      && (forall k :: HasKey(t.props, k) ==> HasKey(st.props, k) || exists i :: 0 <= i < |init| && ReadsKey(parse, init[i], k))
    ensures var r := LoadAll(st, names, load, parse);
      && (forall i :: 0 <= i < |names| ==> HasKey(r.props, parse(names[i]).value.0))
      && (forall k :: HasKey(r.props, k) ==> HasKey(st.props, k) || exists i :: 0 <= i < |names| && ReadsKey(parse, names[i], k))
  {
    var n := names[|names| - 1];
    assert names == init + [n];
    var p := parse(n).value;
    var t := LoadAllLast(st, names, load, parse);
    LoadKept(t, init, names, n, p, parse);
    LoadAdded(t, st, init, names, n, p, parse);
  }

  /** The last pass of a successful load keeps the last design under its key. */
  lemma LoadAllLast(st: LoadState, names: seq<string>, load: LoadFn, parse: Parser) returns (t: LoadState)
    requires st.raised.None? && |names| > 0 && AllLoad(names, load, parse)
    ensures t == LoadAll(st, names[..|names| - 1], load, parse) && t.raised.None?
    ensures var n := names[|names| - 1];
      LoadAll(st, names, load, parse) == LoadState(Put(t.props, parse(n).value.0, n), Some(parse(n).value.1), None)
  {
    AllLoadSnoc(names, load, parse);
    LoadAllOk(st, names[..|names| - 1], load, parse);
    t := LoadAll(st, names[..|names| - 1], load, parse);
  }

  /** After a successful load the second variable is the last one read. */
  lemma LoadAllVar2(st: LoadState, names: seq<string>, load: LoadFn, parse: Parser)
    requires st.raised.None? && |names| > 0 && AllLoad(names, load, parse)
    ensures LoadAll(st, names, load, parse).var2 == Some(parse(names[|names| - 1]).value.1)
  {
    var t := LoadAllLast(st, names, load, parse);
  }

  lemma LoadAdded(t: LoadState, st: LoadState, init: seq<string>, names: seq<string>, n: string, p: (GridKey, string), parse: Parser)
    requires names == init + [n] && parse(n) == Ok(p)
    requires forall k :: HasKey(t.props, k) ==> HasKey(st.props, k) || exists i :: 0 <= i < |init| && ReadsKey(parse, init[i], k)
    ensures forall k :: HasKey(Put(t.props, p.0, n), k) ==> HasKey(st.props, k) || exists i :: 0 <= i < |names| && ReadsKey(parse, names[i], k)
  {
    forall k | HasKey(Put(t.props, p.0, n), k)
      ensures HasKey(st.props, k) || exists i :: 0 <= i < |names| && ReadsKey(parse, names[i], k)
    {
      if k == p.0 {
        assert names[|init|] == n;
      } else {
        GetPutOther(t.props, p.0, n, k);
        if !HasKey(st.props, k) {
          var i :| 0 <= i < |init| && ReadsKey(parse, init[i], k);
          assert names[i] == init[i];
        }
      }
    }
  }

  lemma LoadKept(t: LoadState, init: seq<string>, names: seq<string>, n: string, p: (GridKey, string), parse: Parser)
    requires names == init + [n] && parse(n) == Ok(p)
    requires forall i :: 0 <= i < |init| ==> parse(init[i]).Ok? && HasKey(t.props, parse(init[i]).value.0)
    ensures forall i :: 0 <= i < |names| ==> parse(names[i]).Ok? && HasKey(Put(t.props, p.0, n), parse(names[i]).value.0)
  {
    PutHasKeys(t.props, p.0, n);
    forall i | 0 <= i < |names|
      ensures parse(names[i]).Ok? && HasKey(Put(t.props, p.0, n), parse(names[i]).value.0)
    {
      if i < |init| {
        assert names[i] == init[i];
        assert HasKey(t.props, parse(init[i]).value.0);
      } else {
        assert names[i] == n;
      }
    }
  }

  // ---------------------------------------------------------------- distinct sorted values

  /** The values of `xs` without repeats, in order of first occurrence. */
  function Dedup(xs: seq<real>): seq<real>
  {
    if |xs| == 0 then []
    else
      var d := Dedup(xs[..|xs| - 1]);
      if xs[|xs| - 1] in d then d else d + [xs[|xs| - 1]]
  }

  lemma {:induction false} DedupSpec(xs: seq<real>)
    ensures Distinct(Dedup(xs))
    ensures forall x :: x in Dedup(xs) <==> x in xs
  {
    if |xs| > 0 {
      var init := xs[..|xs| - 1];
      var x := xs[|xs| - 1];
      DedupSpec(init);
      var d := Dedup(init);
      assert xs == init + [x];
      if x !in d {
        assert Distinct(d + [x]) by {
          forall i, j | 0 <= i < j < |d + [x]|
            ensures (d + [x])[i] != (d + [x])[j]
          {
            if j == |d| {
              assert (d + [x])[i] == d[i];
            }
          }
        }
      }
    }
  }

  /** `sorted(set(xs))` */
  function UniqueValues(xs: seq<real>): seq<real>
  {
    Sort(Dedup(xs))
  }

  /** Each value of `xs` once, in strictly increasing order. */
  lemma UniqueValuesSpec(xs: seq<real>)
    ensures Sweeps.Increasing(UniqueValues(xs))
    ensures forall x :: x in UniqueValues(xs) <==> x in xs
  {
    var d := Dedup(xs);
    var r := Sort(d);
    DedupSpec(xs);
    SortSpec(d);
    forall x
      ensures multiset(r)[x] <= 1
    {
      Sweeps.DistinctCount(d, x);
    }
    Sweeps.SortedDistinct(r);
    assert forall x :: x in r <==> x in multiset(d);
  }

  /** Component `j` of a grid key. */
  function Pick(k: GridKey, j: nat): real
  {
    if j == 0 then k.0 else if j == 1 then k.1 else k.2
  }

  /** `[key[j] for key in d]` */
  function Column(d: Dict<GridKey, string>, j: nat): (r: seq<real>)
    ensures |r| == |d| && forall i :: 0 <= i < |d| ==> r[i] == Pick(d[i].0, j)
  {
    seq(|d|, i requires 0 <= i < |d| => Pick(d[i].0, j))
  }

  /** The distinct values of one key component, sorted: each value some key
      has there, once, in strictly increasing order. */
  lemma UniqueColumn(d: Dict<GridKey, string>, j: nat)
    ensures var r := UniqueValues(Column(d, j));
      && Sweeps.Increasing(r)
      && forall x :: x in r <==> exists i :: 0 <= i < |d| && Pick(d[i].0, j) == x
  {
    var c := Column(d, j);
    UniqueValuesSpec(c);
    forall x
      ensures x in c <==> exists i :: 0 <= i < |d| && Pick(d[i].0, j) == x
    {
      if x in c {
        var i :| 0 <= i < |c| && c[i] == x;
        assert Pick(d[i].0, j) == x;
      }
    }
  }

  // ---------------------------------------------------------------- the optimisation object

  /** `DutyCycleDesignOptimization`: the designs kept by key (each design
      named by its folder), the second design variable, and the
      optimisation folder with the folders in it. */
  class DutyCycleOptimization {
    var propellers: Dict<GridKey, string>
    var var2: Option<string>
    var dirExists: bool
    var saved: seq<string>

    /** `__init__` before its loading loop: `listing` is the folders of the
        optimisation folder, or None when there is no such folder. */
    constructor (listing: Option<seq<string>>)
      ensures propellers == [] && var2 == None
      ensures dirExists == listing.Some? && saved == (if listing.Some? then listing.value else [])
    {
      propellers := [];
      var2 := None;
      dirExists := listing.Some?;
      saved := if listing.Some? then listing.value else [];
    }

    /** The loading loop of `__init__` (lines 35-50): every folder is
        loaded and its name read into a key; the first failure ends the
        loop. */
    method LoadExisting(load: LoadFn) returns (raised: Option<Exc>)
      modifies this`propellers, this`var2
      ensures var st := LoadState(old(propellers), old(var2), None);
        LoadState(propellers, var2, raised) == if dirExists then LoadAll(st, saved, load, ParseOptName) else st
    {
      raised := None;
      if !dirExists {
        return;
      }
      ghost var st := LoadState(propellers, var2, None);
      for i := 0 to |saved|
        invariant raised.None?
        invariant LoadState(propellers, var2, None) == LoadAll(st, saved[..i], load, ParseOptName)
      {
        LoadAllNext(st, saved, load, ParseOptName, i);
        raised := LoadFolder(saved[i], load);
        if raised.Some? {
          LoadAllStops(st, saved, load, ParseOptName, i + 1);
          return;
        }
      }
      assert saved[..|saved|] == saved;
    }

    /** One pass of the loading loop. */
    method LoadFolder(name: string, load: LoadFn) returns (raised: Option<Exc>)
      modifies this`propellers, this`var2
      ensures LoadState(propellers, var2, raised) == LoadOne(LoadState(old(propellers), old(var2), None), name, load, ParseOptName)
    {
      raised := load(name);
      if raised.Some? {
        return;
      }
      var read := ParseOptName(name);
      if read.Fail? {
        raised := Some(read.exc);
        return;
      }
      propellers := Put(propellers, read.value.0, name);
      var2 := Some(read.value.1);
    }

    /** `var2base`; AttributeError while no second variable is set. */
    function Var2Base(): (r: Result<string>)
      reads this
      ensures r.Fail? <==> var2.None?
      ensures r.Fail? ==> r.exc == AttributeError
      ensures var2 == Some(ADV) ==> r == Ok("adv")
      ensures var2 == Some(RPM) ==> r == Ok("rpm")
    {
      AdvGood();
      RpmGood();
      if var2.None? then Fail(AttributeError) else Ok(VarBase(var2.value))
    }

    /** `unique_vels`: every design speed of a kept design, once, increasing. */
    function UniqueVels(): (r: seq<real>)
      reads this
      ensures Sweeps.Increasing(r)
      ensures forall x :: x in r <==> exists i :: 0 <= i < |propellers| && propellers[i].0.0 == x
    {
      UniqueColumn(propellers, 0);
      UniqueValues(Column(propellers, 0))
    }

    /** `unique_cls`: every design CL of a kept design, once, increasing. */
    function UniqueCls(): (r: seq<real>)
      reads this
      ensures Sweeps.Increasing(r)
      ensures forall x :: x in r <==> exists i :: 0 <= i < |propellers| && propellers[i].0.1 == x
    {
      UniqueColumn(propellers, 1);
      UniqueValues(Column(propellers, 1))
    }

    /** `unique_var2s`: every second-variable value of a kept design, once,
        increasing. */
    function UniqueVar2s(): (r: seq<real>)
      reads this
      ensures Sweeps.Increasing(r)
      ensures forall x :: x in r <==> exists i :: 0 <= i < |propellers| && propellers[i].0.2 == x
    {
      UniqueColumn(propellers, 2);
      UniqueValues(Column(propellers, 2))
    }

    /** The innermost loop, over the second variable's values. */
    method ValRow(env: GridEnv, vel0: real, cl0: real, vals: seq<real>) returns (vel: real, cl: real, raised: Option<Exc>)
      modifies this`propellers, this`saved
      ensures GridState(propellers, saved, raised, vel, cl) == ValLoop(GridState(old(propellers), old(saved), None, vel0, cl0), env, vals)
    {
      vel, cl, raised := vel0, cl0, None;
      ghost var s0 := GridState(propellers, saved, None, vel0, cl0);
      for k := 0 to |vals|
        invariant raised.None?
        invariant GridState(propellers, saved, None, vel, cl) == ValLoop(s0, env, vals[..k])
      {
        ValLoopNext(s0, env, vals, k);
        vel, cl, raised := Visit(env, vel, cl, vals[k]);
        if raised.Some? {
          ValLoopStops(s0, env, vals, k + 1);
          return;
        }
      }
      assert vals[..|vals|] == vals;
    }

    /** The body of the innermost loop for one grid design. */
    method Visit(env: GridEnv, vel0: real, cl0: real, val2: real) returns (vel: real, cl: real, raised: Option<Exc>)
      modifies this`propellers, this`saved
      ensures GridState(propellers, saved, raised, vel, cl) == Step(GridState(old(propellers), old(saved), None, vel0, cl0), env, val2)
    {
      vel, cl, raised := vel0, cl0, None;
      var name := OptName(vel, cl, VarBase(env.var2), val2);
      var made := env.create(name, vel, cl, env.var2, val2);
      if made.Ok? {
        if name in saved {
          raised := Some(ShutilError);
          return;
        }
        saved := saved + [name];
        vel := RoundTo(vel, 2);
        cl := RoundTo(cl, 2);
        var v2 := RoundTo(val2, 3);
        propellers := Put(propellers, (vel, cl, v2), name);
      } else if made.exc.PdtError? {
        vel := RoundTo(vel, 2);
        cl := RoundTo(cl, 2);
      } else {
        raised := Some(made.exc);
      }
    }

    /** The middle loop, over the CLs. */
    method ClRow(env: GridEnv, vel0: real, cl0: real, cls: seq<real>, vals: seq<real>) returns (vel: real, cl: real, raised: Option<Exc>)
      modifies this`propellers, this`saved
      ensures GridState(propellers, saved, raised, vel, cl) == ClLoop(GridState(old(propellers), old(saved), None, vel0, cl0), env, cls, vals)
    {
      vel, cl, raised := vel0, cl0, None;
      ghost var s0 := GridState(propellers, saved, None, vel0, cl0);
      for i := 0 to |cls|
        invariant raised.None?
        invariant GridState(propellers, saved, None, vel, cl) == ClLoop(s0, env, cls[..i], vals)
      {
        ClLoopNext(s0, env, cls, vals, i);
        vel, cl, raised := ValRow(env, vel, cls[i], vals);
        if raised.Some? {
          ClLoopStops(s0, env, cls, vals, i + 1);
          return;
        }
      }
      assert cls[..|cls|] == cls;
    }

    /** The outer loop, over the design speeds. */
    method VelGrid(env: GridEnv, vels: seq<real>, cls: seq<real>, vals: seq<real>) returns (raised: Option<Exc>)
      modifies this`propellers, this`saved
      ensures var g := VelLoop(GridState(old(propellers), old(saved), None, 0.0, 0.0), env, vels, cls, vals);
        propellers == g.props && saved == g.saved && raised == g.raised
    {
      var vel, cl := 0.0, 0.0;
      raised := None;
      ghost var s0 := GridState(propellers, saved, None, 0.0, 0.0);
      for v := 0 to |vels|
        invariant raised.None?
        invariant GridState(propellers, saved, None, vel, cl) == VelLoop(s0, env, vels[..v], cls, vals)
      {
        VelLoopNext(s0, env, vels, cls, vals, v);
        vel, cl, raised := ClRow(env, vels[v], cl, cls, vals);
        if raised.Some? {
          VelLoopStops(s0, env, vels, cls, vals, v + 1);
          return;
        }
      }
      assert vels[..|vels|] == vels;
    }

    /** `create_prop_grid`, with `create_propeller` given as `create`. */
    method CreatePropGrid(base: BaseDesign, args: GridArgs, create: CreateFn) returns (raised: Option<Exc>)
      modifies this`propellers, this`saved, this`var2, this`dirExists
      ensures OptState(propellers, var2, dirExists, saved, raised)
        == CreateGrid(OptState(old(propellers), old(var2), old(dirExists), old(saved), None), base, args, create)
    {
      if !args.append && dirExists {
        saved := [];
        dirExists := false;
      }
      if !dirExists {
        saved := [];
        dirExists := true;
      }
      var out := Setup(base, args);
      if out.var2.Some? {
        var2 := out.var2;
      }
      if out.sweep.Fail? {
        raised := Some(out.sweep.exc);
        return;
      }
      var sw := out.sweep.value;
      raised := VelGrid(GridEnv(out.var2.value, create), sw.vels, sw.cls, sw.vals);
    }
  }
}
