// The `Propeller` class of propeller.py: its save/load attributes and the
// loops that fill them. `__init__` checks the keyword arguments it is given,
// `read_pdt_metafile` sets attributes line by line from the meta-file,
// `save_meta_file` writes them back, `interp_foil_profiles` places the blade
// profiles along the span, and `analyze_sweep` runs XROTOR over a grid of
// operating points and reloads the two result datasets.

module Propellers {
  import opened Wrappers
  import opened Dicts
  import opened Text
  import opened XRotorReports
  import opened XRotorCommands
  import opened Sweeps
  import opened Analysis
  import MetaFile
  import Interp
  import ProfileMesh

  // ---------------------------------------------------------------- keyword arguments

  const NO_PROP_DB := "No Propeller Database is set!  First set one with \"pdt.set_propeller_database(str)\"."

  function UnknownKwarg(key: string): string
  {
    "Unknown KWARG input \"" + key + "\""
  }

  /** The keyword arguments set in order onto `attrs`: an argument whose
      name is not one of the `allowed` creation attributes raises Error,
      naming it. */
  function SetKwargs(allowed: Dict<string, MetaFile.Tipe>, attrs: Dict<string, MetaFile.Value>, kwargs: Dict<string, MetaFile.Value>): Result<Dict<string, MetaFile.Value>>
  {
    if |kwargs| == 0 then Ok(attrs)
    else
      match SetKwargs(allowed, attrs, kwargs[..|kwargs| - 1])
      case Fail(e) => Fail(e)
      case Ok(a) =>
        var (k, v) := kwargs[|kwargs| - 1];
        if HasKey(allowed, k) then Ok(Put(a, k, v)) else Fail(PdtError(UnknownKwarg(k)))
  }

  /** The attributes `__init__` starts a propeller with: Error when no
      propeller database is set; with no keyword arguments, none (they are
      then read from the meta-file, and FileNotFoundError is raised when
      there is none); otherwise the keyword arguments. */
  function InitAttrs(propDb: Option<string>, kwargs: Dict<string, MetaFile.Value>, metaExists: bool): Result<Dict<string, MetaFile.Value>>
  {
    if propDb.None? then Fail(PdtError(NO_PROP_DB))
    else if |kwargs| == 0 then (if metaExists then Ok([]) else Fail(FileNotFoundError))
    else SetKwargs(MetaFile.CREATION_ATTRS, [], kwargs)
  }

  /** A new key is put at the end. */
  lemma PutAbsent<K, V>(d: Dict<K, V>, k: K, v: V)
    requires !HasKey(d, k)
    ensures Put(d, k, v) == d + [(k, v)]
  {
    assert IndexOf(d, k).None?;
  }

  /** Keyword arguments that are all creation attributes are set one by one,
      so with distinct names the attributes are exactly the arguments. */
  lemma {:induction false} KwargsAccepted(allowed: Dict<string, MetaFile.Tipe>, kwargs: Dict<string, MetaFile.Value>)
    requires forall i :: 0 <= i < |kwargs| ==> HasKey(allowed, kwargs[i].0)
    requires NoDupKeys(kwargs)
    ensures SetKwargs(allowed, [], kwargs) == Ok(kwargs)
  {
    if |kwargs| > 0 {
      var front := kwargs[..|kwargs| - 1];
      assert forall i :: 0 <= i < |front| ==> front[i] == kwargs[i];
      KwargsAccepted(allowed, front);
      var (k, v) := kwargs[|kwargs| - 1];
      assert !HasKey(front, k) by {
        forall j | 0 <= j < |front|
          ensures front[j].0 != k
        {
          assert kwargs[j].0 != kwargs[|kwargs| - 1].0;
        }
      }
      PutAbsent(front, k, v);
      assert front + [(k, v)] == kwargs;
    }
  }

  /** The keyword arguments are all set exactly when every one of them is
      a creation attribute. */
  lemma {:induction false} KwargsOk(allowed: Dict<string, MetaFile.Tipe>, attrs: Dict<string, MetaFile.Value>, kwargs: Dict<string, MetaFile.Value>)
    ensures SetKwargs(allowed, attrs, kwargs).Ok? <==> forall i :: 0 <= i < |kwargs| ==> HasKey(allowed, kwargs[i].0)
  {
    if |kwargs| > 0 {
      var front := kwargs[..|kwargs| - 1];
      KwargsOk(allowed, attrs, front);
      if SetKwargs(allowed, attrs, front).Fail? {
        var i :| 0 <= i < |front| && !HasKey(allowed, front[i].0);
        assert front[i] == kwargs[i];
      } else if HasKey(allowed, kwargs[|kwargs| - 1].0) {
        forall i | 0 <= i < |kwargs|
          ensures HasKey(allowed, kwargs[i].0)
        {
          if i < |front| {
            assert front[i] == kwargs[i];
          }
        }
      }
    }
  }

  /** Argument `i` is the first that is not a creation attribute. */
  predicate FirstUnknown(allowed: Dict<string, MetaFile.Tipe>, kwargs: Dict<string, MetaFile.Value>, i: int)
  {
    && 0 <= i < |kwargs| && !HasKey(allowed, kwargs[i].0)
    && forall j :: 0 <= j < i ==> HasKey(allowed, kwargs[j].0)
  }

  /** The Error names the first argument that is not a creation attribute. */
  lemma KwargsRejected(allowed: Dict<string, MetaFile.Tipe>, attrs: Dict<string, MetaFile.Value>, kwargs: Dict<string, MetaFile.Value>, i: int)
    requires FirstUnknown(allowed, kwargs, i)
    ensures SetKwargs(allowed, attrs, kwargs) == Fail(PdtError(UnknownKwarg(kwargs[i].0)))
  {
    var pre := kwargs[..i];
    assert forall j :: 0 <= j < |pre| ==> pre[j] == kwargs[j];
    KwargsOk(allowed, attrs, pre);
    assert kwargs[..i + 1][..i] == pre;
    SetKwargsStops(allowed, attrs, kwargs, i + 1);
  }

  /** Once an argument is rejected, the later ones change nothing. */
  lemma {:induction false} SetKwargsStops(allowed: Dict<string, MetaFile.Tipe>, attrs: Dict<string, MetaFile.Value>, kwargs: Dict<string, MetaFile.Value>, i: nat)
    requires i <= |kwargs| && SetKwargs(allowed, attrs, kwargs[..i]).Fail?
    ensures SetKwargs(allowed, attrs, kwargs) == SetKwargs(allowed, attrs, kwargs[..i])
    decreases |kwargs|
  {
    if i < |kwargs| {
      var front := kwargs[..|kwargs| - 1];
      assert front[..i] == kwargs[..i];
      SetKwargsStops(allowed, attrs, front, i);
    } else {
      assert kwargs[..i] == kwargs;
    }
  }

  // ---------------------------------------------------------------- attribute views

  /** A number attribute as a float; anything else (None included) cannot
      be multiplied by a float and raises TypeError. */
  function Number(v: MetaFile.Value): Option<real>
  {
    match v
    case FloatV(f) => Some(f)
    case IntV(i) => Some(i as real)
    case _ => None
  }

  /** A string attribute; anything else has no `.lower()`. */
  function AsText(v: MetaFile.Value): Option<string>
  {
    match v
    case StrV(s) => Some(s)
    case _ => None
  }

  const MULTI_STATION := "> 1 profile interpolation not yet implemented"

  /** `interp_foil_profiles` once its station check has passed: the
      profiles, or what the first one raises. A `blade_data` of None raises
      TypeError. */
  function Profiles(bd: Option<Dict<string, seq<real>>>, radius: Option<real>, nProfs: int, totSkew: real,
                    tr: ProfileMesh.Trig): Result<seq<Interp.Placement>>
    requires tr.pi != 0.0
  {
    match bd
    case None => Fail(TypeError)
    case Some(d) =>
      match Interp.ProfileStations(d, nProfs)
      case Fail(e) => Fail(e)
      case Ok(st) => Interp.Placements(d, radius, st, totSkew, tr)
  }

  /** A profile that fails is the first one, and then the whole placement
      fails with its exception. */
  lemma FirstFails(bd: Dict<string, seq<real>>, radius: Option<real>, stations: seq<real>, totSkew: real,
                   tr: ProfileMesh.Trig, i: nat, ps: seq<Interp.Placement>)
    requires tr.pi != 0.0 && i < |stations|
    requires Interp.Placements(bd, radius, stations[..i], totSkew, tr) == Ok(ps)
    requires Interp.PlacementAt(bd, radius, stations[i], totSkew, tr).Fail?
    ensures i == 0 && ps == []
    ensures Interp.Placements(bd, radius, stations, totSkew, tr) == Fail(Interp.PlacementAt(bd, radius, stations[i], totSkew, tr).exc)
  {
    Interp.PlacementFailsAlike(bd, radius, stations[0], stations[i], totSkew, tr);
    Interp.PlacementsFail(bd, radius, stations, totSkew, tr);
    if i > 0 {
      assert stations[..i][0] == stations[0];
      Interp.PlacementsFail(bd, radius, stations[..i], totSkew, tr);
    }
  }

  /** The `blade_data` lines of `save_meta_file`, one per key. */
  method BladeText(bd: Dict<string, seq<real>>, repr: real -> string) returns (text: string)
    ensures text == FileText(MetaFile.BladeLines(bd, repr))
  {
    text := "";
    for j := 0 to |bd|
      invariant text == FileText(MetaFile.BladeLines(bd, repr)[..j])
    {
      var line := MetaFile.BladeLine(bd[j].0, bd[j].1, repr);
      MetaFile.BladeLinesNext(bd, repr, j);
      FileTextAppend(MetaFile.BladeLines(bd, repr)[..j], line);
      text := text + line + "\n";
    }
    assert MetaFile.BladeLines(bd, repr)[..|bd|] == MetaFile.BladeLines(bd, repr);
  }

  /** The writing loop of `save_meta_file` over the attribute names
      `names`. */
  method WriteMeta(names: seq<string>, attrs: Dict<string, MetaFile.Value>, bladeData: Option<Dict<string, seq<real>>>,
                   repr: real -> string) returns (text: string, raised: Option<Exc>)
    ensures bladeData.Some? ==>
              raised == None && text == FileText(MetaFile.WrittenLines(names, MetaFile.Meta(attrs, bladeData.value), repr))
    ensures bladeData.None? ==>
              && text == FileText(MetaFile.WrittenLines(MetaFile.Before(names, MetaFile.BLADE_DATA), MetaFile.Meta(attrs, []), repr))
              && raised == (if MetaFile.BLADE_DATA in names then Some(AttributeError) else None)
  {
    var bd := if bladeData.Some? then bladeData.value else [];
    var m := MetaFile.Meta(attrs, bd);
    ghost var lines: seq<string> := [];
    text := "";
    for i := 0 to |names|
      invariant lines == MetaFile.WrittenLines(names[..i], m, repr) && text == FileText(lines)
      invariant bladeData.None? ==> MetaFile.BLADE_DATA !in names[..i]
    {
      MetaFile.WrittenLinesNext(names, m, repr, i);
      var a := names[i];
      if a == MetaFile.BLADE_DATA {
        if bladeData.None? {
          MetaFile.BeforeAt(names, a, i);
          return text, Some(AttributeError);
        }
        var blade := BladeText(bd, repr);
        FileTextConcat(lines, MetaFile.BladeLines(bd, repr));
        lines := lines + MetaFile.BladeLines(bd, repr);
        text := text + blade;
      } else {
        var line := MetaFile.AttrLine(a, MetaFile.Attr(attrs, a), repr);
        FileTextAppend(lines, line);
        lines := lines + [line];
        text := text + line + "\n";
      }
    }
    assert names[..|names|] == names;
    if bladeData.None? {
      MetaFile.BeforeAt(names, MetaFile.BLADE_DATA, |names|);
    }
    raised := None;
  }

  // ---------------------------------------------------------------- the propeller

  /** A propeller: its name, its save/load attributes (a missing one is
      None), its `blade_data`, its interpolated blade profiles (profile `i`
      at index `i`), the result folders of its save folder and the two
      datasets loaded from them. */
  class Propeller {
    const name: string
    const xrrName: string
    var attrs: Dict<string, MetaFile.Value>
    var bladeData: Option<Dict<string, seq<real>>>
    var profiles: Option<seq<Interp.Placement>>
    var operFolder: Dict<string, string>
    var wvelFolder: Dict<string, string>
    const operData: SweepData
    const wvelData: SweepData

    /** The two datasets are the `.oper` and the `.wvel` one. */
    ghost predicate Valid()
      reads this, operData, wvelData
    {
      operData.kind == Oper && wvelData.kind == WVel && operData != wvelData
    }

    /** `__init__` once its checks have passed (`InitAttrs`), up to building
        the two datasets: the name loses its `.txt`, the attributes are the
        accepted ones plus the name, `blade_data` and the profiles are None,
        and both datasets are empty. The loads `__init__` then runs on them
        are `SweepData.LoadSweepResults`. */
    constructor (name: string, attrs: Dict<string, MetaFile.Value>, operFolder: Dict<string, string>, wvelFolder: Dict<string, string>)
      ensures Valid() && fresh(operData) && fresh(wvelData)
      ensures this.name == Replace(name, ".txt", "") && xrrName == this.name + ".xrr"
      ensures this.attrs == Put(attrs, "name", MetaFile.StrV(this.name))
      ensures bladeData == None && profiles == None
      ensures this.operFolder == operFolder && this.wvelFolder == wvelFolder
      ensures operData.loader == LoaderOf(Oper) && wvelData.loader == LoaderOf(WVel)
      ensures operData.datapoints == [] && wvelData.datapoints == []
    {
      var stem := Replace(name, ".txt", "");
      this.name := stem;
      xrrName := stem + ".xrr";
      this.attrs := Put(attrs, "name", MetaFile.StrV(stem));
      bladeData := None;
      profiles := None;
      this.operFolder := operFolder;
      this.wvelFolder := wvelFolder;
      operData := new SweepData(Oper);
      wvelData := new SweepData(WVel);
    }

    /** The keyword-argument loop of `__init__`, with the checks before it. */
    static method CheckKwargs(propDb: Option<string>, kwargs: Dict<string, MetaFile.Value>, metaExists: bool)
      returns (r: Result<Dict<string, MetaFile.Value>>)
      ensures r == InitAttrs(propDb, kwargs, metaExists)
    {
      if propDb.None? {
        return Fail(PdtError(NO_PROP_DB));
      }
      if |kwargs| == 0 {
        return if metaExists then Ok([]) else Fail(FileNotFoundError);
      }
      var accepted: Dict<string, MetaFile.Value> := [];
      for i := 0 to |kwargs|
        invariant SetKwargs(MetaFile.CREATION_ATTRS, [], kwargs[..i]) == Ok(accepted)
      {
        assert kwargs[..i + 1][..i] == kwargs[..i];
        var (key, val) := kwargs[i];
        if !HasKey(MetaFile.CREATION_ATTRS, key) {
          SetKwargsStops(MetaFile.CREATION_ATTRS, [], kwargs, i + 1);
          return Fail(PdtError(UnknownKwarg(key)));
        }
        accepted := Put(accepted, key, val);
      }
      assert kwargs[..|kwargs|] == kwargs;
      r := Ok(accepted);
    }

    /** `self.design_vorform` as a string, if it is one. */
    function DesignVorform(): Option<string>
      reads this
    {
      AsText(MetaFile.Attr(attrs, "design_vorform"))
    }

    /** `self.radius` as a number, if it is one. */
    function Radius(): Option<real>
      reads this
    {
      Number(MetaFile.Attr(attrs, "radius"))
    }

    /** `read_pdt_metafile` on the text of the meta-file: every line sets the
        attributes it names, in file order; a line that raises leaves the
        attributes set by the lines before it and `blade_data` as it was,
        and a file read to the end sets `blade_data` to the lists gathered
        from its `blade_data_<key>` lines. */
    method ReadPdtMetafile(text: string) returns (raised: Option<Exc>)
      modifies this
      ensures var (m, e) := MetaFile.ReadLines(MetaFile.Meta(old(attrs), []), MetaFile.MetaLines(text));
        && raised == e && attrs == m.attrs
        && bladeData == (if e.None? then Some(m.bladeData) else old(bladeData))
      ensures profiles == old(profiles) && operFolder == old(operFolder) && wvelFolder == old(wvelFolder)
    {
      var lines := MetaFile.MetaLines(text);
      var m := MetaFile.Meta(attrs, []);
      ghost var m0 := m;
      for i := 0 to |lines|
        invariant MetaFile.ReadLines(m0, lines[..i]) == (m, None) && attrs == m.attrs
        invariant profiles == old(profiles) && operFolder == old(operFolder) && wvelFolder == old(wvelFolder)
        invariant bladeData == old(bladeData)
      {
        var r := MetaFile.ReadLine(m, lines[i]);
        if r.Fail? {
          MetaFile.ReadLinesStops(m0, lines, i);
          return Some(r.exc);
        }
        MetaFile.ReadLinesNext(m0, lines, i);
        m := r.value;
        attrs := m.attrs;
      }
      assert lines[..|lines|] == lines;
      bladeData := Some(m.bladeData);
      raised := None;
    }

    /** `save_meta_file` with the float repr `repr`: the text of the file.
        One line per saved attribute in declaration order, `blade_data`
        expanded into one line per key; with a `blade_data` of None the
        file stops before it and AttributeError is raised. */
    method SaveMetaFile(repr: real -> string) returns (text: string, raised: Option<Exc>)
      ensures bladeData.Some? ==>
                raised == None && text == FileText(MetaFile.WrittenLines(MetaFile.SAVED_NAMES, MetaFile.Meta(attrs, bladeData.value), repr))
      ensures bladeData.None? ==>
                && text == FileText(MetaFile.WrittenLines(MetaFile.Before(MetaFile.SAVED_NAMES, MetaFile.BLADE_DATA), MetaFile.Meta(attrs, []), repr))
                && raised == (if MetaFile.BLADE_DATA in MetaFile.SAVED_NAMES then Some(AttributeError) else None)
    {
      text, raised := WriteMeta(MetaFile.SAVED_NAMES, attrs, bladeData, repr);
    }

    /** `interp_foil_profiles(n_profs, tot_skew)` for a propeller with
        `nStations` radial stations: no station fails the assertion, more
        than one raises Error, and both leave the profiles as they were;
        otherwise the profiles are cleared and refilled with `nProfs`
        profiles at evenly spaced `r/R` from the first station of
        `blade_data` to the last, and a failure (which the first profile
        already meets) leaves them empty. */
    method InterpFoilProfiles(nStations: nat, nProfs: int, totSkew: real, tr: ProfileMesh.Trig) returns (raised: Option<Exc>)
      requires tr.pi != 0.0
      modifies this
      ensures nStations == 0 ==> raised == Some(AssertionError) && profiles == old(profiles)
      ensures nStations > 1 ==> raised == Some(PdtError(MULTI_STATION)) && profiles == old(profiles)
      ensures nStations == 1 ==>
                var r := Profiles(bladeData, Radius(), nProfs, totSkew, tr);
                && (r.Ok? ==> raised == None && profiles == Some(r.value))
                && (r.Fail? ==> raised == Some(r.exc) && profiles == Some([]))
      ensures attrs == old(attrs) && bladeData == old(bladeData) && operFolder == old(operFolder) && wvelFolder == old(wvelFolder)
    {
      if nStations == 0 {
        return Some(AssertionError);
      }
      if nStations != 1 {
        return Some(PdtError(MULTI_STATION));
      }
      profiles := Some([]);
      if bladeData.None? {
        return Some(TypeError);
      }
      var bd := bladeData.value;
      var radius := Radius();
      var st := Interp.ProfileStations(bd, nProfs);
      if st.Fail? {
        return Some(st.exc);
      }
      var stations := st.value;
      var ps: seq<Interp.Placement> := [];
      for i := 0 to |stations|
        invariant Interp.Placements(bd, radius, stations[..i], totSkew, tr) == Ok(ps) && profiles == Some(ps)
        invariant attrs == old(attrs) && bladeData == old(bladeData) && operFolder == old(operFolder) && wvelFolder == old(wvelFolder)
      {
        assert stations[..i + 1][..i] == stations[..i];
        var p := Interp.PlacementAt(bd, radius, stations[i], totSkew, tr);
        if p.Fail? {
          FirstFails(bd, radius, stations, totSkew, tr, i, ps);
          return Some(p.exc);
        }
        ps := ps + [p.value];
        profiles := Some(ps);
      }
      assert stations[..|stations|] == stations;
      raised := None;
    }

    /** The shared inputs of a sweep's runs. */
    function EnvOf(vorform: Option<string>, knob: Knob, repr: real -> string,
                   solver: OperInputs -> Result<(string, string)>): Env
      reads this, operData
    {
      Env(name, xrrName, vorform, knob, repr, solver, operData.loader.read)
    }

    /** `run_xrotor_oper` for one point of the sweep. */
    method RunXrotorOper(env: Env, velo: real, val: real) returns (r: Result<Filed>)
      ensures r == RunPoint(env, velo, val)
    {
      if env.vorform.None? {
        return Fail(AttributeError);
      }
      var given := map[env.knob := val];
      assert given.Keys == {env.knob};
      var inputs := PrepareOper(env.propName, env.fname, env.vorform.value, given, Some(velo), None, env.repr);
      if inputs.Fail? {
        return Fail(inputs.exc);
      }
      var out := env.solver(inputs.value);
      if out.Fail? {
        return Fail(out.exc);
      }
      r := FileOutput(env, out.value);
    }

    /** The two loops of `analyze_sweep`: velocity outside, swept value
        inside, the counter running on across rows; the first exception
        other than Error ends both. */
    method SweepGrid(env: Env, veloVals: seq<real>, sweepVals: seq<real>)
      returns (counts: seq<nat>, failed: seq<(real, real)>, raised: Option<Exc>)
      modifies this`operFolder, this`wvelFolder
      ensures var o := Grid(Outcome(old(operFolder), old(wvelFolder), [], None, 0), RunOf(env), veloVals, sweepVals);
              && operFolder == o.oper && wvelFolder == o.wvel
              && failed == o.failed && counts == Upto(o.ran) && raised == o.raised
    {
      ghost var o0 := Outcome(operFolder, wvelFolder, [], None, 0);
      var count := 0;
      counts, failed := [], [];
      for i := 0 to |veloVals|
        invariant Grid(o0, RunOf(env), veloVals[..i], sweepVals) == Outcome(operFolder, wvelFolder, failed, None, count)
        invariant counts == Upto(count)
      {
        assert veloVals[..i + 1][..i] == veloVals[..i];
        count, counts, failed, raised := SweepRow(env, veloVals[i], sweepVals, count, counts, failed);
        if raised.Some? {
          GridStays(o0, RunOf(env), veloVals, sweepVals, i + 1);
          return;
        }
      }
      assert veloVals[..|veloVals|] == veloVals;
      raised := None;
    }

    /** `analyze_sweep(velo_vals, sweep_param, sweep_vals, vorform=...)`: an
        unknown `sweep_param` raises Error before anything runs; otherwise
        every (velocity, value) point is run, velocity in the outer loop,
        with the counter going 1, 2, ... (`counts`); a point that raises
        Error is reported (`failed`) and skipped, any other exception
        propagates; at the end both datasets are reloaded from their
        folders. */
    method AnalyzeSweep(veloVals: seq<real>, sweepParam: string, sweepVals: seq<real>, vorform: Option<string>,
                        repr: real -> string, solver: OperInputs -> Result<(string, string)>)
      returns (raised: Option<Exc>, counts: seq<nat>, failed: seq<(real, real)>)
      requires Valid()
      modifies this`operFolder, this`wvelFolder, operData, wvelData
      ensures Valid() && attrs == old(attrs) && bladeData == old(bladeData) && profiles == old(profiles)
      ensures SweepKnob(sweepParam).None? ==>
                raised == Some(PdtError(BAD_SWEEP_PARAM)) && counts == [] && failed == []
                && operFolder == old(operFolder) && wvelFolder == old(wvelFolder)
                && operData.datapoints == old(operData.datapoints) && wvelData.datapoints == old(wvelData.datapoints)
      ensures SweepKnob(sweepParam).Some? ==>
                var env := EnvOf(if vorform.Some? then vorform else old(DesignVorform()),
                                 SweepKnob(sweepParam).value, repr, solver);
                var o := Grid(Outcome(old(operFolder), old(wvelFolder), [], None, 0), RunOf(env), veloVals, sweepVals);
                && operFolder == o.oper && wvelFolder == o.wvel
                && failed == o.failed && counts == Upto(o.ran)
                && (o.raised.Some? ==>
                      && raised == o.raised
                      && operData.datapoints == old(operData.datapoints)
                      && wvelData.datapoints == old(wvelData.datapoints))
                && (o.raised.None? ==> Reloaded(raised, old(wvelData.datapoints)))
    {
      var knob := SweepKnob(sweepParam);
      if knob.None? {
        return Some(PdtError(BAD_SWEEP_PARAM)), [], [];
      }
      var vf := if vorform.Some? then vorform else DesignVorform();
      var env := EnvOf(vf, knob.value, repr, solver);
      counts, failed, raised := SweepGrid(env, veloVals, sweepVals);
      if raised.Some? {
        return;
      }
      raised := operData.LoadSweepResults(operFolder);
      if raised.None? {
        raised := wvelData.LoadSweepResults(wvelFolder);
      }
    }

    /** The inner loop of `analyze_sweep`, over the swept values at one
        velocity, carrying the counter, its printed values and the failed
        points along. */
    method SweepRow(env: Env, velo: real, vals: seq<real>, count0: nat, counts0: seq<nat>, failed0: seq<(real, real)>)
      returns (count: nat, counts: seq<nat>, failed: seq<(real, real)>, raised: Option<Exc>)
      requires counts0 == Upto(count0)
      modifies this`operFolder, this`wvelFolder
      ensures var o := Row(Outcome(old(operFolder), old(wvelFolder), failed0, None, count0), RunOf(env), velo, vals);
              && o == Outcome(operFolder, wvelFolder, failed, raised, count)
              && counts == Upto(count)
    {
      ghost var start := Outcome(operFolder, wvelFolder, failed0, None, count0);
      count, counts, failed := count0, counts0, failed0;
      for j := 0 to |vals|
        invariant Row(start, RunOf(env), velo, vals[..j]) == Outcome(operFolder, wvelFolder, failed, None, count)
        invariant counts == Upto(count)
      {
        RowNext(start, RunOf(env), velo, vals, j);
        count := count + 1;
        counts := counts + [count];
        var r := RunXrotorOper(env, velo, vals[j]);
        assert r == RunOf(env)(velo, vals[j]);
        if r.Fail? && !r.exc.PdtError? {
          RowStays(start, RunOf(env), velo, vals, j + 1);
          return count, counts, failed, Some(r.exc);
        }
        if r.Ok? {
          operFolder := Put(operFolder, r.value.operName, r.value.operText);
          wvelFolder := Put(wvelFolder, r.value.wvelName, r.value.wvelText);
        } else {
          failed := failed + [(velo, vals[j])];
        }
      }
      assert vals[..|vals|] == vals;
      raised := None;
    }

    /** After a sweep that ran to the end: the `.oper` dataset is reloaded from
        its folder; when that raises, the exception propagates and the `.wvel`
        dataset is left as it was, otherwise the `.wvel` one is reloaded too. */
    ghost predicate Reloaded(raised: Option<Exc>, wvelBefore: Dict<Key, Report>)
      reads this, operData, wvelData
    {
      var (dOper, eOper) := LoadFrom(ResultFiles(operFolder, Ext(Oper)), [], operData.loader);
      var (dWVel, eWVel) := LoadFrom(ResultFiles(wvelFolder, Ext(WVel)), [], wvelData.loader);
      && operData.datapoints == dOper
      && (eOper.Some? ==> raised == eOper && wvelData.datapoints == wvelBefore)
      && (eOper.None? ==> raised == eWVel && wvelData.datapoints == dWVel)
    }
  }
}
