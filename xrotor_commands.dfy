// The command scripts fed to the XFOIL and XROTOR executables on standard
// input (funcs.py: run_xfoil, run_xrotor_oper), and the names under which an
// XROTOR operating point's results are filed.

module XRotorCommands {
  import opened Wrappers
  import opened Text
  import opened Numbers
  import opened Sorting

  /** The separator `os.path.join` writes: the program drives Windows
      executables (it builds Windows startup information for them). */
  const PATH_SEP := "\\"

  // ---------------------------------------------------------------- XROTOR oper

  /** The five operating-point settings of which at most one may be given. */
  datatype Knob = Adva | Rpm | Thrust | Torque | Power

  function Keyword(k: Knob): string
  {
    match k
    case Adva => "adva"
    case Rpm => "rpm"
    case Thrust => "thrust"
    case Torque => "torque"
    case Power => "power"
  }

  /** XROTOR asks to confirm a thrust, torque or power target; the answer is "p". */
  predicate Confirms(k: Knob)
  {
    k == Thrust || k == Torque || k == Power
  }

  /** The commands that set knob `k` to `v` (`repr` is Python's `str` of a float). */
  function KnobCommands(k: Knob, v: real, repr: real -> string): seq<string>
  {
    [Keyword(k), repr(v)] + (if Confirms(k) then ["p"] else [])
  }

  /** The if/elif chain: the first of adva, rpm, thrust, torque, power that was given. */
  function SettingCommands(given: map<Knob, real>, repr: real -> string): seq<string>
  {
    if Adva in given then KnobCommands(Adva, given[Adva], repr)
    else if Rpm in given then KnobCommands(Rpm, given[Rpm], repr)
    else if Thrust in given then KnobCommands(Thrust, given[Thrust], repr)
    else if Torque in given then KnobCommands(Torque, given[Torque], repr)
    else if Power in given then KnobCommands(Power, given[Power], repr)
    else []
  }

  /** The vortex formulations XROTOR offers, in any letter case. */
  predicate ValidVorform(vorform: string)
  {
    Lower(vorform) in {"grad", "pot", "vrtx"}
  }

  /** The timeout for the XROTOR run: the caller's, else 25 s for the slow
      "vrtx" formulation and 10 s otherwise. */
  function OperTimeout(vorform: string, tmout: Option<int>): int
  {
    match tmout
    case Some(t) => t
    case None => if Lower(vorform) == "vrtx" then 25 else 10
  }

  const OPER_OUT := "oper_out.txt"
  const WVEL_OUT := "wvel_out.txt"

  /** The velocity block, sent before the operating-point setting. */
  function VeloCommands(velo: Option<real>, repr: real -> string): seq<string>
  {
    match velo
    case None => []
    case Some(v) => ["velo", repr(v), "rein\n\ny"]
  }

  /** The full command list of one XROTOR operating-point run. */
  function OperCommands(relpath: string, vorform: string, given: map<Knob, real>, velo: Option<real>,
                        repr: real -> string): (r: seq<string>)
    ensures |r| == 7 + |VeloCommands(velo, repr)| + |SettingCommands(given, repr)|
    ensures r[..4] == ["load " + relpath + "\n", "oper", "form", vorform + "\n"]
    ensures velo.Some? ==> r[4] == "velo"
    ensures r[|r| - 3..] == ["writ " + OPER_OUT, "wvel " + WVEL_OUT, "\n\nquit\n"]
  {
    ["load " + relpath + "\n", "oper", "form", vorform + "\n"]
      + VeloCommands(velo, repr)
      + SettingCommands(given, repr)
      + ["writ " + OPER_OUT, "wvel " + WVEL_OUT, "\n\nquit\n"]
  }

  const BAD_VORFORM := "Input \"vorform\" must be one of [\"grad\", \"pot\", \"vrtx\"]"
  const TOO_MANY_SETTINGS := "Can only change 1 of (adva, rpm, thrust, torque, power) at a time"

  /** What `run_xrotor_oper` hands to XROTOR: the command list, the text of
      the command file, and the timeout of the run. */
  datatype OperInputs = OperInputs(commands: seq<string>, script: string, timeout: int)

  /** The part of `run_xrotor_oper` before XROTOR starts: the timeout default,
      the two argument checks and the command file. `propName` and `fname` are
      the last two components of the `.xrr` file's path. */
  method PrepareOper(propName: string, fname: string, vorform: string, given: map<Knob, real>,
                     velo: Option<real>, tmout: Option<int>, repr: real -> string)
    returns (r: Result<OperInputs>)
    ensures r.Fail? <==> !ValidVorform(vorform) || |given| > 1
    ensures r.Fail? ==> r.exc == PdtError(if !ValidVorform(vorform) then BAD_VORFORM else TOO_MANY_SETTINGS)
    ensures r.Ok? ==> r.value.commands == OperCommands(propName + PATH_SEP + fname, vorform, given, velo, repr)
    ensures r.Ok? ==> r.value.script == Join(r.value.commands, "\n")
    ensures r.Ok? ==> r.value.timeout == OperTimeout(vorform, tmout)
  {
    var timeout: int;
    if tmout.None? && Lower(vorform) == "vrtx" {
      timeout := 25;
    } else if tmout.None? {
      timeout := 10;
    } else {
      timeout := tmout.value;
    }
    if !ValidVorform(vorform) {
      return Fail(PdtError(BAD_VORFORM));
    }
    var relpath := propName + PATH_SEP + fname;
    var cmnds := ["load " + relpath + "\n", "oper", "form", vorform + "\n"];
    if velo.Some? {
      cmnds := cmnds + ["velo", repr(velo.value), "rein\n\ny"];
    }
    assert cmnds == ["load " + relpath + "\n", "oper", "form", vorform + "\n"] + VeloCommands(velo, repr);
    if |given| > 1 {
      return Fail(PdtError(TOO_MANY_SETTINGS));
    }
    cmnds := cmnds + SettingCommands(given, repr) + ["writ " + OPER_OUT, "wvel " + WVEL_OUT, "\n\nquit\n"];
    return Ok(OperInputs(cmnds, Join(cmnds, "\n"), timeout));
  }

  /** With exactly one setting given, the chain sends that setting, and asks
      for the "p" confirmation exactly for thrust, torque and power. */
  lemma SingleSetting(k: Knob, v: real, repr: real -> string)
    ensures SettingCommands(map[k := v], repr) == KnobCommands(k, v, repr)
    ensures |KnobCommands(k, v, repr)| == (if Confirms(k) then 3 else 2)
  {
  }

  /** The layout of an operating-point run: the load/oper/form header first,
      then the velocity block (when a velocity is given), then the single
      setting, then the write-out and quit commands. */
  lemma {:induction false} OperLayout(relpath: string, vorform: string, k: Knob, v: real, velo: Option<real>,
                                      repr: real -> string)
    ensures var c := OperCommands(relpath, vorform, map[k := v], velo, repr);
            var h := if velo.Some? then 7 else 4;
            var n := |KnobCommands(k, v, repr)|;
            && |c| == h + n + 3
            && c[0] == "load " + relpath + "\n" && c[3] == vorform + "\n"
            && (velo.Some? ==> c[4..7] == ["velo", repr(velo.value), "rein\n\ny"])
            && c[h..h + n] == KnobCommands(k, v, repr)
            && c[h + n..] == ["writ " + OPER_OUT, "wvel " + WVEL_OUT, "\n\nquit\n"]
  {
    SingleSetting(k, v, repr);
    var head := ["load " + relpath + "\n", "oper", "form", vorform + "\n"];
    var vb := VeloCommands(velo, repr);
    var kb := KnobCommands(k, v, repr);
    var tail := ["writ " + OPER_OUT, "wvel " + WVEL_OUT, "\n\nquit\n"];
    var c := head + vb + kb + tail;
    assert |vb| == (if velo.Some? then 3 else 0);
    assert c[|head + vb|..|head + vb| + |kb|] == kb;
    assert c[|head + vb| + |kb|..] == tail;
    if velo.Some? {
      assert c[4..7] == vb;
    }
  }

  /** With no setting given, the run only (re)initialises at the given velocity. */
  lemma NoSetting(relpath: string, vorform: string, velo: Option<real>, repr: real -> string)
    ensures OperCommands(relpath, vorform, map[], velo, repr)
         == ["load " + relpath + "\n", "oper", "form", vorform + "\n"] + VeloCommands(velo, repr)
            + ["writ " + OPER_OUT, "wvel " + WVEL_OUT, "\n\nquit\n"]
  {
  }

  /** `'velo_{:.0f}_rpm_{:.0f}{ext}'.format(100 * velo, rpm)`: where the results
      of one operating point are filed (`ext` is ".oper" or ".wvel"). */
  function ResultFileName(velo: real, rpm: real, ext: string): string
  {
    "velo_" + FormatFixed(100.0 * velo, 0) + "_rpm_" + FormatFixed(rpm, 0) + ext
  }

  // ---------------------------------------------------------------- XFOIL polar

  /** The swept parameter of a polar: angles of attack or lift coefficients. */
  datatype Sweep = Alpha(vals: seq<real>) | Cl(vals: seq<real>)

  /** The XFOIL command that sets one point of the sweep. */
  function SweepCommand(s: Sweep): string
  {
    if s.Alpha? then "a" else "cl"
  }

  /** The command line for one value of the sweep, `'a{}\n'` or `'cl{}\n'`. */
  function SweepLine(cmd: string, v: real, repr: real -> string): string
  {
    cmd + repr(v) + "\n"
  }

  /** One command line per value, in the given order. */
  function SweepLines(cmd: string, vals: seq<real>, repr: real -> string): string
  {
    if |vals| == 0 then ""
    else SweepLines(cmd, vals[..|vals| - 1], repr) + SweepLine(cmd, vals[|vals| - 1], repr)
  }

  lemma SweepLinesStep(cmd: string, vals: seq<real>, i: nat, repr: real -> string)
    requires i < |vals|
    ensures SweepLines(cmd, vals[..i + 1], repr) == SweepLines(cmd, vals[..i], repr) + SweepLine(cmd, vals[i], repr)
  {
    assert vals[..i + 1][..i] == vals[..i];
  }

  /** Writes the sweep lines after `f0`, one value at a time. */
  method WriteSweepLines(f0: string, cmd: string, vals: seq<real>, repr: real -> string) returns (f: string)
    ensures f == f0 + SweepLines(cmd, vals, repr)
  {
    f := f0;
    var i := 0;
    while i < |vals|
      invariant 0 <= i <= |vals|
      invariant f == f0 + SweepLines(cmd, vals[..i], repr)
    {
      SweepLinesStep(cmd, vals, i, repr);
      f := f + SweepLine(cmd, vals[i], repr);
      i := i + 1;
    }
    assert vals[..i] == vals;
  }

  /** `s * n` for a string. */
  function Repeat(s: string, n: int): string
  {
    if n <= 0 then "" else Repeat(s, n - 1) + s
  }

  /** `' ' * 100` */
  function Spaces(n: nat): string
  {
    if n == 0 then "" else Spaces(n - 1) + " "
  }

  /** The lines before the sweep: load the airfoil, repanel it, go viscous at
      the Reynolds number (no decimals), set Mach, ncrit and the iteration
      limit, and start accumulating the polar. */
  function XfoilHead(foilRelpath: string, re: real, mach: real, ncrit: int, iterLimit: int,
                     repr: real -> string): (r: string)
    ensures StartsWith(r, "load " + foilRelpath + "\n")
  {
    ("load " + foilRelpath + "\n")
      + ("ppar\nN\n200\n\n\n" + "oper\n" + "visc\n"
         + FormatFixed(re, 0) + "\n" + "m " + repr(mach) + "\n" + "vpar\n"
         + "n " + IntToString(ncrit) + "\n\n" + "iter\n" + FormatFixed(iterLimit as real, 0) + "\n"
         + "pacc\n\n\n")
  }

  /** The lines after the sweep: the key presses, then writing the polar to
      `output` and quitting. */
  function XfoilTail(output: string, keypressIternum: int): (r: string)
    ensures EndsWith(r, "pwrt\n" + output + "\n\n\nquit\n")
  {
    Repeat("!\n" + Spaces(100), keypressIternum) + ("pwrt\n" + output + "\n\n\n" + "quit\n")
  }

  /** The whole XFOIL command file for a sweep. */
  function XfoilScript(foilRelpath: string, re: real, sweep: Sweep, iterLimit: int, ncrit: int, mach: real,
                       output: string, keypressIternum: int, repr: real -> string): (r: string)
    ensures StartsWith(r, "load " + foilRelpath + "\n")
    ensures EndsWith(r, "pwrt\n" + output + "\n\n\nquit\n")
  {
    Framed(XfoilHead(foilRelpath, re, mach, ncrit, iterLimit, repr),
           SweepLines(SweepCommand(sweep), Sort(sweep.vals), repr),
           XfoilTail(output, keypressIternum),
           "load " + foilRelpath + "\n", "pwrt\n" + output + "\n\n\nquit\n");
    XfoilHead(foilRelpath, re, mach, ncrit, iterLimit, repr)
      + SweepLines(SweepCommand(sweep), Sort(sweep.vals), repr)
      + XfoilTail(output, keypressIternum)
  }

  /** The output file name `run_xfoil` uses: the caller's, unless it is missing or empty. */
  function XfoilOutput(outputFpath: Option<string>): string
  {
    if outputFpath.None? || outputFpath.value == "" then "polar_output.txt" else outputFpath.value
  }

  const BOTH_SWEEPS := "Cannot give \"run_xfoil\" both \"alpha\" and \"cl\""
  const NO_SWEEP := "Must give \"run_xfoil\" either a list of \"alpha\" to sweep or a list of \"cl\" to sweep"

  /** The part of `run_xfoil` before XFOIL starts: exactly one of `alpha` and
      `cl` must be given, and the command file is written line by line. */
  method WriteXfoilScript(foilRelpath: string, re: real, alpha: Option<seq<real>>, cl: Option<seq<real>>,
                          iterLimit: int, ncrit: int, mach: real, outputFpath: Option<string>,
                          keypressIternum: int, repr: real -> string)
    returns (r: Result<string>)
    ensures r.Fail? <==> alpha.Some? == cl.Some?
    ensures r.Fail? ==> r.IsPdtError()
    ensures r.Ok? ==> var sweep := if alpha.Some? then Alpha(alpha.value) else Cl(cl.value);
                      r.value == XfoilScript(foilRelpath, re, sweep, iterLimit, ncrit, mach,
                                             XfoilOutput(outputFpath), keypressIternum, repr)
  {
    var output := XfoilOutput(outputFpath);
    var sweep: Sweep;
    if alpha.Some? && cl.Some? {
      return Fail(PdtError(BOTH_SWEEPS));
    } else if alpha.Some? {
      sweep := Alpha(alpha.value);
    } else if cl.Some? {
      sweep := Cl(cl.value);
    } else {
      return Fail(PdtError(NO_SWEEP));
    }
    var vals := Sort(sweep.vals);
    var cmd := SweepCommand(sweep);
    var f := XfoilHead(foilRelpath, re, mach, ncrit, iterLimit, repr);
    f := WriteSweepLines(f, cmd, vals, repr);
    f := f + XfoilTail(output, keypressIternum);
    return Ok(f);
  }

  /** The sweep section of the command file lists the requested values once
      each, in increasing order. */
  lemma XfoilSweepOrdered(foilRelpath: string, re: real, sweep: Sweep, iterLimit: int, ncrit: int, mach: real,
                          output: string, keypressIternum: int, repr: real -> string)
    ensures exists vals ::
              && Sorted(vals) && multiset(vals) == multiset(sweep.vals)
              && XfoilScript(foilRelpath, re, sweep, iterLimit, ncrit, mach, output, keypressIternum, repr)
                 == XfoilHead(foilRelpath, re, mach, ncrit, iterLimit, repr)
                    + SweepLines(SweepCommand(sweep), vals, repr) + XfoilTail(output, keypressIternum)
  {
    SortSpec(sweep.vals);
    var vals := Sort(sweep.vals);
    assert Sorted(vals) && multiset(vals) == multiset(sweep.vals);
  }

  /** Sweeping the same values in any order writes the same command file. */
  lemma XfoilScriptOrderFree(foilRelpath: string, re: real, a: Sweep, b: Sweep, iterLimit: int, ncrit: int,
                             mach: real, output: string, keypressIternum: int, repr: real -> string)
    requires a.Alpha? == b.Alpha? && multiset(a.vals) == multiset(b.vals)
    ensures XfoilScript(foilRelpath, re, a, iterLimit, ncrit, mach, output, keypressIternum, repr)
         == XfoilScript(foilRelpath, re, b, iterLimit, ncrit, mach, output, keypressIternum, repr)
  {
    SortSpec(a.vals);
    SortSpec(b.vals);
    SortedUnique(Sort(a.vals), Sort(b.vals));
  }
}
