// Creating a propeller design with XROTOR (funcs.py: create_propeller): the
// argument checks, which happen in two stages around the reset of the
// propeller's folder, and the command file sent to XROTOR.

module CreatePropeller {
  import opened Wrappers
  import opened Text
  import opened Numbers
  import XRotorCommands

  /** A value of the `design_cl` dict: a number, or the path of a CL(r/R) file. */
  datatype ClValue = Num(x: real) | PathText(path: string)

  /** `'{}'.format(v)`; `repr` is Python's `str` of a float. */
  function ClFormat(v: ClValue, repr: real -> string): string
  {
    match v
    case Num(x) => repr(x)
    case PathText(p) => p
  }

  /** The arguments of `create_propeller` that shape the XROTOR run. */
  datatype DesignRequest = DesignRequest(
    name: string,
    nblades: int,
    radius: real,
    hubRadius: real,
    hubWakeDispBr: real,
    designSpeed: real,
    designCl: map<string, ClValue>,
    atmo: map<string, real>,
    vorform: Option<string>,
    adv: Option<real>,
    rpm: Option<real>,
    thrust: Option<real>,
    power: Option<real>,
    nRadial: int,
    tmout: Option<int>)

  /** The timeout of the XROTOR run: the caller's, else 100 s when the
      formulation is exactly "vrtx" (this comparison is case-sensitive) and
      30 s otherwise. */
  function CreateTimeout(vorform: Option<string>, tmout: Option<int>): int
  {
    match tmout
    case Some(t) => t
    case None => if vorform == Some("vrtx") then 100 else 30
  }

  const MAX_NAME_LEN := 38
  /** `'"{}"'.format(s)` */
  function Quoted(s: string): string
  {
    "\"" + s + "\""
  }

  function NoAltitude(): string
  {
    "You must include " + Quoted("altitude_km") + " as an input to create_propeller()"
  }

  function AdvAndRpm(): string
  {
    "Cannot specify both " + Quoted("design_adv") + " and " + Quoted("design_rpm") + ", must pick one or the other"
  }

  function NameTooLong(name: string): string
  {
    Quoted("name") + " must be less than 38 characters when creating a propeller, " + Quoted(name) + " is too long"
  }

  /** The checks made before the propeller's folder is touched. */
  function FirstStageError(req: DesignRequest): (r: Option<string>)
    ensures r.None? <==> |req.name| <= MAX_NAME_LEN && "altitude_km" in req.atmo
    ensures |req.name| > MAX_NAME_LEN ==> r == Some(NameTooLong(req.name))
  {
    if |req.name| > MAX_NAME_LEN then Some(NameTooLong(req.name))
    else if "altitude_km" !in req.atmo then Some(NoAltitude())
    else None
  }

  /** The atmosphere answers: altitude, then the optional overrides of the
      speed of sound, density and viscosity, in that order. */
  function AtmoText(atmo: map<string, real>, repr: real -> string): string
    requires "altitude_km" in atmo
  {
    repr(atmo["altitude_km"]) + "\n\n"
      + (if "vsou" in atmo then "vsou\n" + repr(atmo["vsou"]) + "\n" else "")
      + (if "dens" in atmo then "dens\n" + repr(atmo["dens"]) + "\n" else "")
      + (if "visc" in atmo then "visc\n" + repr(atmo["visc"]) + "\n" else "")
      + "desi"
  }

  /** The vortex formulation answer; None where the source leaves its
      variable unbound (an unknown formulation). */
  function VorformText(vorform: Option<string>): Option<string>
  {
    match vorform
    case None => Some("pot\n")
    case Some(v) => if XRotorCommands.ValidVorform(v) then Some(Lower(v) + "\n") else None
  }

  /** The advance-ratio or rpm answer (an rpm is entered after a 0 advance
      ratio); None where neither was given. */
  function AdvRpmText(adv: Option<real>, rpm: Option<real>, repr: real -> string): Result<Option<string>>
  {
    if adv.Some? && rpm.Some? then Fail(PdtError(AdvAndRpm()))
    else if adv.Some? then Ok(Some(repr(adv.value)))
    else if rpm.Some? then Ok(Some("0\n" + repr(rpm.value)))
    else Ok(None)
  }

  /** The thrust or power answer (a power is entered after a 0 thrust); a
      thrust wins over a power. None where neither was given. */
  function ThrustPowerText(thrust: Option<real>, power: Option<real>, repr: real -> string): Option<string>
  {
    if thrust.Some? then Some(repr(thrust.value))
    else if power.Some? then Some("0\n" + repr(power.value))
    else None
  }

  /** The message for a design_cl dict of the wrong shape. */
  function ClShapeMessage(cl: map<string, ClValue>): string
  {
    if |cl| == 1 then
      "Must give either a " + Quoted("const") + " CL target (constant), a " + Quoted("root") + " and "
        + Quoted("tip") + " CL target (linearly varied), or specify a CL(r/R) .txt file"
    else if |cl| == 2 then
      "If only 2 keywords are given in " + Quoted("design_cl") + ", they must be " + Quoted("root") + " and "
        + Quoted("tip")
    else
      Quoted("design_cl") + " input dictionary error, either too many or not enough keys (if a single key"
        + "is given, it must be either " + Quoted("const") + " or " + Quoted("file") + ", if 2 keys are given "
        + "they must be " + Quoted("root") + " and " + Quoted("tip")
  }

  /** The design lift-coefficient answer: a constant CL, a CL(r/R) file, or a
      root-to-tip linear CL. */
  function ClText(cl: map<string, ClValue>, repr: real -> string): (r: Result<string>)
    ensures r.Ok? <==> (|cl| == 1 && ("const" in cl || "file" in cl)) || (|cl| == 2 && "root" in cl && "tip" in cl)
    ensures r.Fail? ==> r == Fail(PdtError(ClShapeMessage(cl)))
  {
    if |cl| == 1 then
      if "const" in cl then Ok("cc\n" + ClFormat(cl["const"], repr) + "\n\n")
      else if "file" in cl then Ok("cr\n" + ClFormat(cl["file"], repr) + "\n\n")
      else Fail(PdtError(ClShapeMessage(cl)))
    else if |cl| == 2 then
      if "root" in cl && "tip" in cl then
        Ok("cl\n" + ClFormat(cl["root"], repr) + "\n" + ClFormat(cl["tip"], repr) + "\n\n")
      else Fail(PdtError(ClShapeMessage(cl)))
    else Fail(PdtError(ClShapeMessage(cl)))
  }

  /** The radial blade quantities XROTOR is asked to write out, in order. */
  const BLADE_DATA_KEYS: seq<string> :=
    ["CH", "BE", "GAM", "CL", "CD", "RE", "EFP", "Ub", "VA", "VT", "VD", "VA/V", "VT/V", "VD/V",
     "VAslip", "VTslip", "Aslip", "Ti", "Pi", "Tv", "Pv", "Ttot", "Ptot", "Xw", "Vw", "Tw", "Pw"]

  /** The file a blade quantity is written to, with "/" spelled "_over_". */
  function BladeOutName(key: string): string
  {
    Replace(key, "/", "_over_") + "_out.txt"
  }

  /** The plot-and-write commands for one blade quantity. */
  function BladeEntry(key: string): string
  {
    "o\n" + key + "\nw\n" + BladeOutName(key) + "\n"
  }

  /** The plot-and-write commands for the given keys, in order. */
  function BladeEntries(keys: seq<string>): string
  {
    if |keys| == 0 then "" else BladeEntries(keys[..|keys| - 1]) + BladeEntry(keys[|keys| - 1])
  }

  // One more key appends its own entry; the step the loop in BladeCommands keeps its invariant with.
  lemma BladeEntriesStep(keys: seq<string>, i: nat)
    requires i < |keys|
    ensures BladeEntries(keys[..i + 1]) == BladeEntries(keys[..i]) + BladeEntry(keys[i])
  {
    assert keys[..i + 1][..i] == keys[..i];
  }

  const PLOT_HEAD := "plot\n12\n"

  /** The loop over the blade keys: the command text, and the names of the
      quantities XROTOR will have written (the keys of `blade_data`). */
  method BladeCommands(keys: seq<string>) returns (txt: string, data: seq<string>)
    ensures txt == PLOT_HEAD + BladeEntries(keys)
    ensures data == keys
  {
    txt := PLOT_HEAD;
    data := [];
    var i := 0;
    while i < |keys|
      invariant 0 <= i <= |keys|
      invariant txt == PLOT_HEAD + BladeEntries(keys[..i])
      invariant data == keys[..i]
    {
      BladeEntriesStep(keys, i);
      txt := txt + BladeEntry(keys[i]);
      data := data + [keys[i]];
      i := i + 1;
    }
    assert keys[..i] == keys;
  }

  /** The temporary files the run writes in the propeller database folder. */
  function AeroParamsName(name: string): string
  {
    name + "_temp_section_params.txt"
  }

  const CMND_FILE := "xrotor_inputs_temp.txt"

  /** The 25 entries of the XROTOR command list, joined by newlines into the
      command file. */
  function DesignCommands(req: DesignRequest, atmoTxt: string, vorTxt: string, advRpmTxt: string,
                          thrPowTxt: string, clTxt: string, bladeTxt: string, repr: real -> string): (r: seq<string>)
    ensures |r| == 25 && r[19] == clTxt && r[20] == bladeTxt
  {
    ["aero", "read", AeroParamsName(req.name) + "\n",
     "desi", "atmo", atmoTxt, "form", vorTxt, "N", IntToString(req.nRadial),
     "inpu", IntToString(req.nblades),
     repr(req.radius), repr(req.hubRadius), repr(req.hubWakeDispBr), repr(req.designSpeed),
     advRpmTxt, thrPowTxt, "0", clTxt, bladeTxt, "\n",
     "oper\nwrit\n" + req.name + XRotorCommands.PATH_SEP + req.name + ".xrop\n", "\n\n",
     "save " + req.name + XRotorCommands.PATH_SEP + req.name + ".xrr\nquit\n"]
  }

  /** What `create_propeller` hands to XROTOR. */
  datatype DesignInputs = DesignInputs(commands: seq<string>, script: string, timeout: int)

  /** The second stage, after the folder reset: the adv/rpm clash and the
      design_cl shape raise the package's error; an unknown formulation, or a
      missing adv/rpm or thrust/power, leaves a variable unbound that the
      command list then reads. */
  function SecondStage(req: DesignRequest, bladeTxt: string, repr: real -> string): (r: Result<seq<string>>)
    requires FirstStageError(req).None?
    ensures req.adv.Some? && req.rpm.Some? ==> r == Fail(PdtError(AdvAndRpm()))
    ensures r.Fail? ==> r.exc == UnboundLocalError || r.exc.PdtError?
    ensures r.Ok? <==> && !(req.adv.Some? && req.rpm.Some?) && ClText(req.designCl, repr).Ok?
                       && VorformText(req.vorform).Some? && (req.adv.Some? || req.rpm.Some?)
                       && (req.thrust.Some? || req.power.Some?)
    ensures r.Ok? ==> |r.value| == 25 && r.value[0] == "aero" && r.value[20] == bladeTxt
  {
    var advRpm := AdvRpmText(req.adv, req.rpm, repr);
    var thrPow := ThrustPowerText(req.thrust, req.power, repr);
    var cl := ClText(req.designCl, repr);
    var vor := VorformText(req.vorform);
    if advRpm.Fail? then Fail(advRpm.exc)
    else if cl.Fail? then Fail(cl.exc)
    else if vor.None? || advRpm.value.None? || thrPow.None? then Fail(UnboundLocalError)
    else Ok(DesignCommands(req, AtmoText(req.atmo, repr), vor.value, advRpm.value.value, thrPow.value,
                           cl.value, bladeTxt, repr))
  }

  /** The files of the propeller database that `create_propeller` touches:
      the propeller folders (each with its sub-folders) and the files at the
      top of the database. */
  /** What a design run that passed the first-stage checks leaves behind,
      given the outcome `s` of the second-stage checks: on an error, that
      error and the section-parameter file `aeroName` (holding `stationText`)
      still on disk; otherwise the command list, its script and the timeout,
      with both temporary files removed again. */
  ghost predicate Outcome(s: Result<seq<string>>, r: Result<DesignInputs>,
                          files0: map<string, string>, files1: map<string, string>,
                          aeroName: string, stationText: string, tmout: int)
  {
    && (r.Fail? <==> s.Fail?)
    && (r.Fail? ==> r.exc == s.exc && files1 == files0[aeroName := stationText])
    && (r.Ok? ==> r.value.commands == s.value
                  && r.value.script == Join(s.value, "\n")
                  && r.value.timeout == tmout
                  && files1 == files0 - {aeroName, CMND_FILE})
  }

  class PropellerDatabase {
    var folders: map<string, set<string>>
    var files: map<string, string>

    constructor (folders0: map<string, set<string>>, files0: map<string, string>)
      ensures folders == folders0 && files == files0
    {
      folders := folders0;
      files := files0;
    }

    /** `create_propeller` up to and including the XROTOR run (the run
        itself, and what follows it, are not modelled). `stationText` is the
        section-parameter text of the propeller's stations. */
    method CreatePropeller(req: DesignRequest, stationText: string, repr: real -> string)
      returns (r: Result<DesignInputs>)
      modifies this
      ensures FirstStageError(req).Some? ==>
                r == Fail(PdtError(FirstStageError(req).value))
                && folders == old(folders) && files == old(files)
      ensures FirstStageError(req).None? ==>
                folders == old(folders)[req.name := {"blade_profiles"}]
      ensures FirstStageError(req).None? ==>
                Outcome(SecondStage(req, PLOT_HEAD + BladeEntries(BLADE_DATA_KEYS), repr), r,
                        old(files), files, AeroParamsName(req.name), stationText,
                        CreateTimeout(req.vorform, req.tmout))
    {
      var tmout: int;
      if req.tmout.None? && req.vorform == Some("vrtx") {
        tmout := 100;
      } else if req.tmout.None? {
        tmout := 30;
      } else {
        tmout := req.tmout.value;
      }
      if |req.name| > MAX_NAME_LEN {
        return Fail(PdtError(NameTooLong(req.name)));
      }
      if "altitude_km" !in req.atmo {
        return Fail(PdtError(NoAltitude()));
      }
      // delete and recreate the save folder, with its blade-profile folder
      folders := folders[req.name := {"blade_profiles"}];
      r := RunDesign(req, stationText, BLADE_DATA_KEYS, repr, tmout);
    }

    /** The steps after the folder reset: the section-parameter file, the
        second-stage checks, and the command file (removed again, with the
        section-parameter file, once XROTOR has run). */
    method RunDesign(req: DesignRequest, stationText: string, keys: seq<string>,
                     repr: real -> string, tmout: int)
      returns (r: Result<DesignInputs>)
      requires FirstStageError(req).None?
      modifies this
      ensures folders == old(folders)
      ensures Outcome(SecondStage(req, PLOT_HEAD + BladeEntries(keys), repr), r,
                      old(files), files, AeroParamsName(req.name), stationText, tmout)
    {
      var bladeTxt, _ := BladeCommands(keys);
      var s := SecondStage(req, bladeTxt, repr);
      r := WriteAndRun(s, AeroParamsName(req.name), stationText, tmout);
    }

    /** Writes the section-parameter file, stops on a second-stage error `s`,
        and otherwise writes, uses and removes the command file and then
        removes the section-parameter file. */
    method WriteAndRun(s: Result<seq<string>>, aeroName: string, stationText: string, tmout: int)
      returns (r: Result<DesignInputs>)
      modifies this
      ensures folders == old(folders)
      ensures Outcome(s, r, old(files), files, aeroName, stationText, tmout)
    {
      ghost var files0 := files;
      files := files[aeroName := stationText];
      if s.Fail? {
        return Fail(s.exc);
      }
      var script := Join(s.value, "\n");
      files := files[CMND_FILE := script];
      // XROTOR runs here, reading the command file
      files := files - {CMND_FILE};
      files := files - {aeroName};
      WrittenThenRemoved(files0, aeroName, CMND_FILE, stationText, script);
      return Ok(DesignInputs(s.value, script, tmout));
    }
  }

  lemma WrittenThenRemoved(m: map<string, string>, a: string, b: string, va: string, vb: string)
    ensures m[a := va][b := vb] - {b} - {a} == m - {a, b}
  {
  }

  // ---------------------------------------------------------------- properties

  /** The design_cl dict is accepted exactly when its keys are {const},
      {file} or {root, tip}. */
  lemma ClTextAccepts(cl: map<string, ClValue>, repr: real -> string)
    ensures ClText(cl, repr).Ok? <==>
              cl.Keys == {"const"} || cl.Keys == {"file"} || cl.Keys == {"root", "tip"}
    ensures ClText(cl, repr).Fail? ==> ClText(cl, repr).IsPdtError()
  {
    assert |cl| == |cl.Keys|;
    if |cl| == 1 && "const" in cl {
      SingletonKeys(cl.Keys, "const");
    } else if |cl| == 1 && "file" in cl {
      SingletonKeys(cl.Keys, "file");
    } else if |cl| == 2 && "root" in cl && "tip" in cl {
      PairKeys(cl.Keys, "root", "tip");
    } else {
      assert |{"root", "tip"}| == 2;
      assert cl.Keys != {"const"} && cl.Keys != {"file"} && cl.Keys != {"root", "tip"};
    }
  }

  lemma SingletonKeys(keys: set<string>, k: string)
    requires |keys| == 1 && k in keys
    ensures keys == {k}
  {
    assert |keys - {k}| == 0;
  }

  lemma PairKeys(keys: set<string>, a: string, b: string)
    requires |keys| == 2 && a in keys && b in keys && a != b
    ensures keys == {a, b}
  {
    assert |keys - {a, b}| == 0;
  }

  /** A linear CL is entered as root then tip, whatever order the dict has. */
  lemma LinearCl(root: ClValue, tip: ClValue, repr: real -> string)
    ensures ClText(map["root" := root, "tip" := tip], repr)
         == Ok("cl\n" + ClFormat(root, repr) + "\n" + ClFormat(tip, repr) + "\n\n")
  {
    assert map["root" := root, "tip" := tip].Keys == {"root", "tip"};
  }

  /** When both a thrust and a power are given, the thrust is used. */
  lemma ThrustOverPower(thrust: real, power: Option<real>, repr: real -> string)
    ensures ThrustPowerText(Some(thrust), power, repr) == Some(repr(thrust))
  {
  }

  /** The second stage fails with the package's error exactly on an adv/rpm
      clash or a badly shaped design_cl, and otherwise only when a variable is
      left unbound. */
  lemma SecondStageErrors(req: DesignRequest, bladeTxt: string, repr: real -> string)
    requires FirstStageError(req).None?
    ensures var s := SecondStage(req, bladeTxt, repr);
            && (s.IsPdtError() <==>
                  (req.adv.Some? && req.rpm.Some?)
                  || !(req.designCl.Keys == {"const"} || req.designCl.Keys == {"file"}
                       || req.designCl.Keys == {"root", "tip"}))
            && (s.Fail? && !s.IsPdtError() ==> s.exc == UnboundLocalError)
            && (s.Ok? <==> !s.IsPdtError() && VorformText(req.vorform).Some?
                           && (req.adv.Some? || req.rpm.Some?) && (req.thrust.Some? || req.power.Some?))
  {
    ClTextAccepts(req.designCl, repr);
  }

  /** The answers an accepted second stage puts into the command list. */
  lemma SecondStageParts(req: DesignRequest, bladeTxt: string, repr: real -> string)
    returns (atmo: string, vor: string, advRpm: string, thrPow: string, cl: string)
    requires FirstStageError(req).None?
    requires SecondStage(req, bladeTxt, repr).Ok?
    ensures SecondStage(req, bladeTxt, repr).value == DesignCommands(req, atmo, vor, advRpm, thrPow, cl, bladeTxt, repr)
    ensures atmo == AtmoText(req.atmo, repr) && Some(vor) == VorformText(req.vorform)
    ensures Ok(Some(advRpm)) == AdvRpmText(req.adv, req.rpm, repr)
    ensures Some(thrPow) == ThrustPowerText(req.thrust, req.power, repr)
    ensures Ok(cl) == ClText(req.designCl, repr)
  {
    atmo := AtmoText(req.atmo, repr);
    vor := VorformText(req.vorform).value;
    advRpm := AdvRpmText(req.adv, req.rpm, repr).value.value;
    thrPow := ThrustPowerText(req.thrust, req.power, repr).value;
    cl := ClText(req.designCl, repr).value;
  }
}
