// `Propeller.analyze_sweep` (propeller.py) and the `run_xrotor_oper` call it
// makes at every operating point (funcs.py): the nested sweep loops, which
// report and skip a point whose run raises the package's Error, the filing of
// each converged point's two reports under its velocity and rpm, and the
// reload of both datasets at the end.

module Analysis {
  import opened Wrappers
  import opened Numbers
  import opened Dicts
  import opened Text
  import opened XRotorReports
  import opened XRotorCommands
  import opened Sweeps

  const SWEEP_PARAMS: seq<string> := ["adva", "rpm", "thrust", "power", "torque"]
  const BAD_SWEEP_PARAM := "\"sweep_param\" must be one of (\"adva\", \"rpm\", \"thrust\", \"power\", \"torque\")"

  /** The setting a `sweep_param` name stands for, if it is one of the five. */
  function SweepKnob(p: string): Option<Knob>
  {
    if p == "adva" then Some(Adva)
    else if p == "rpm" then Some(Rpm)
    else if p == "thrust" then Some(Thrust)
    else if p == "power" then Some(Power)
    else if p == "torque" then Some(Torque)
    else None
  }

  /** Exactly the five names are accepted, and each selects the setting that
      XROTOR knows by that name. */
  lemma SweepKnobSpec(p: string)
    ensures SweepKnob(p).Some? <==> p in SWEEP_PARAMS
    ensures SweepKnob(p).Some? ==> XRotorCommands.Keyword(SweepKnob(p).value) == p
  {
  }

  // ---------------------------------------------------------------- one point

  /** Everything a sweep's runs share: the last two components of the `.xrr`
      path, the vortex formulation (None when the propeller has none), the
      swept setting, Python's `str` of a
      float, the XROTOR executable (given the inputs it is run with, the texts
      it leaves in oper_out.txt and wvel_out.txt, or what its run raises),
      and the reader of operating-point reports. */
  datatype Env = Env(propName: string, fname: string, vorform: Option<string>, knob: Knob,
                     repr: real -> string,
                     solver: OperInputs -> Result<(string, string)>,
                     read: string -> Result<Report>)

  /** The two files a converged run copies into the propeller's folders. */
  datatype Filed = Filed(operName: string, operText: string, wvelName: string, wvelText: string)

  /** `'{:.0f}'` of a number; NaN prints as "nan". */
  function CellFixed(c: Cell): string
  {
    match c
    case Num(v) => FormatFixed(v, 0)
    case NaN => "nan"
  }

  function Times100(c: Cell): Cell
  {
    match c
    case Num(v) => Num(100.0 * v)
    case NaN => NaN
  }

  /** The `'{:.0f}'` of a value that is not a float raises: ValueError for a
      str, TypeError for an array. */
  function FormatFailure(v: Value): Exc
  {
    if v.Word? then ValueError else TypeError
  }

  /** `'velo_{:.0f}_rpm_{:.0f}'.format(100 * speed, rpm)`, the stem both
      result files are named by. */
  function FiledStem(speed: Value, rpm: Value): Result<string>
  {
    if !speed.Scalar? then Fail(FormatFailure(speed))
    else if !rpm.Scalar? then Fail(FormatFailure(rpm))
    else Ok("velo_" + CellFixed(Times100(speed.c)) + "_rpm_" + CellFixed(rpm.c))
  }

  /** For numbers, the stem and extension are the name `ResultFileName` gives,
      which the dataset reads back under the rounded velocity and rpm
      (`Sweeps.ResultKeyRoundTrip`). */
  lemma FiledStemName(v: real, n: real, ext: string)
    ensures FiledStem(Scalar(Num(v)), Scalar(Num(n))).Ok?
    ensures FiledStem(Scalar(Num(v)), Scalar(Num(n))).value + ext == ResultFileName(v, n, ext)
  {
  }

  /** So a converged point's files are loaded under its rounded velocity and
      rpm. */
  lemma FiledStemParses(v: real, n: real, kind: Kind)
    ensures var name := FiledStem(Scalar(Num(v)), Scalar(Num(n))).value + Ext(kind);
            && ParseResultKey(name, kind).Ok?
            && ParseResultKey(name, kind).value.0 == RoundTo(100.0 * v, 0) / 100.0
            && ParseResultKey(name, kind).value.1 == RoundTo(n, 0)
  {
    FiledStemName(v, n, Ext(kind));
    ResultKeyRoundTrip(v, n, kind);
  }

  /** The inputs of the run for one point: a vortex formulation of None
      raises AttributeError at its `.lower()`, the formulation is checked on
      every call, and the single swept setting never trips the one-setting
      check. */
  function PointInputs(env: Env, velo: real, val: real): Result<OperInputs>
  {
    match env.vorform
    case None => Fail(AttributeError)
    case Some(vf) =>
      if !ValidVorform(vf) then Fail(PdtError(BAD_VORFORM))
      else
        var cmds := OperCommands(env.propName + PATH_SEP + env.fname, vf, map[env.knob := val], Some(velo), env.repr);
        Ok(OperInputs(cmds, Join(cmds, "\n"), OperTimeout(vf, None)))
  }

  /** What happens once XROTOR has run: the operating-point report is read
      (a run that did not converge raises Error there), its speed and rpm are
      looked up and format the names both files are copied under. */
  function FileOutput(env: Env, out: (string, string)): Result<Filed>
  {
    match env.read(out.0)
    case Fail(e) => Fail(e)
    case Ok(rep) =>
      match Get(rep, "speed(m/s)")
      case None => Fail(KeyError)
      case Some(speed) =>
        match Get(rep, "rpm")
        case None => Fail(KeyError)
        case Some(rpm) =>
          match FiledStem(speed, rpm)
          case Fail(e) => Fail(e)
          case Ok(stem) => Ok(Filed(stem + ".oper", out.0, stem + ".wvel", out.1))
  }

  /** `run_xrotor_oper(velo=velo, **{sweep_param: val})`. */
  function RunPoint(env: Env, velo: real, val: real): (r: Result<Filed>)
    ensures env.vorform.None? ==> r == Fail(AttributeError)
    ensures env.vorform.Some? && !ValidVorform(env.vorform.value) ==> r == Fail(PdtError(BAD_VORFORM))
  {
    match PointInputs(env, velo, val)
    case Fail(e) => Fail(e)
    case Ok(inputs) =>
      match env.solver(inputs)
      case Fail(e) => Fail(e)
      case Ok(out) => FileOutput(env, out)
  }

  /** The sweep's runs as a function of the point. */
  function RunOf(env: Env): (real, real) -> Result<Filed>
  {
    (velo, val) => RunPoint(env, velo, val)
  }

  // ---------------------------------------------------------------- the sweep

  /** The result folders (file name to text, in creation order) and what the
      sweep has done so far: the points whose run raised Error, the exception
      that stopped it, if any, and the number of points it started. */
  datatype Outcome = Outcome(oper: Dict<string, string>, wvel: Dict<string, string>,
                             failed: seq<(real, real)>, raised: Option<Exc>, ran: nat)

  /** One point of the sweep: the counter goes up, then the run either files
      its two reports (a file of the same name is overwritten), or raises
      Error and is reported and skipped, or raises anything else, which ends
      the sweep. */
  function Step(o: Outcome, run: (real, real) -> Result<Filed>, velo: real, val: real): (r: Outcome)
    ensures o.raised.Some? ==> r == o
    ensures o.raised.None? ==> r.ran == o.ran + 1
    ensures o.failed <= r.failed && |r.failed| <= |o.failed| + 1
  {
    if o.raised.Some? then o
    else
      var o' := o.(ran := o.ran + 1);
      match run(velo, val)
      case Ok(f) => o'.(oper := Put(o.oper, f.operName, f.operText), wvel := Put(o.wvel, f.wvelName, f.wvelText))
      case Fail(e) => if e.PdtError? then o'.(failed := o.failed + [(velo, val)]) else o'.(raised := Some(e))
  }

  /** The inner loop, over the swept values at one velocity. */
  function Row(o: Outcome, run: (real, real) -> Result<Filed>, velo: real, vals: seq<real>): (r: Outcome)
    ensures o.raised.Some? ==> r == o
    ensures o.ran <= r.ran <= o.ran + |vals| && o.failed <= r.failed
  {
    if |vals| == 0 then o else Step(Row(o, run, velo, vals[..|vals| - 1]), run, velo, vals[|vals| - 1])
  }

  /** One more swept value is one more step. */
  lemma RowNext(o: Outcome, run: (real, real) -> Result<Filed>, velo: real, vals: seq<real>, j: nat)
    requires j < |vals|
    ensures Row(o, run, velo, vals[..j + 1]) == Step(Row(o, run, velo, vals[..j]), run, velo, vals[j])
  {
    assert vals[..j + 1][..j] == vals[..j];
  }

  /** The outer loop, over the velocities. */
  function Grid(o: Outcome, run: (real, real) -> Result<Filed>, velos: seq<real>, vals: seq<real>): (r: Outcome)
    ensures o.raised.Some? ==> r == o
    ensures o.ran <= r.ran && o.failed <= r.failed
  {
    if |velos| == 0 then o else Row(Grid(o, run, velos[..|velos| - 1], vals), run, velos[|velos| - 1], vals)
  }

  /** The points of the sweep in the order the loops visit them: each
      velocity in turn, with every swept value. */
  function Points(velos: seq<real>, vals: seq<real>): seq<(real, real)>
  {
    if |velos| == 0 then [] else Points(velos[..|velos| - 1], vals) + RowPoints(velos[|velos| - 1], vals)
  }

  function RowPoints(velo: real, vals: seq<real>): (r: seq<(real, real)>)
    ensures |r| == |vals| && forall j :: 0 <= j < |vals| ==> r[j] == (velo, vals[j])
  {
    seq(|vals|, j requires 0 <= j < |vals| => (velo, vals[j]))
  }

  /** Velocity is the outer loop: point `i * |vals| + j` is (velos[i], vals[j]). */
  lemma {:induction false} PointsIndex(velos: seq<real>, vals: seq<real>, i: nat, j: nat)
    requires i < |velos| && j < |vals|
    ensures i * |vals| + j < |Points(velos, vals)| && Points(velos, vals)[i * |vals| + j] == (velos[i], vals[j])
  {
    var n := |velos|;
    var init := velos[..n - 1];
    var front, row := Points(init, vals), RowPoints(velos[n - 1], vals);
    assert Points(velos, vals) == front + row;
    PointsLength(init, vals);
    var k := i * |vals| + j;
    if i < n - 1 {
      PointsIndex(init, vals, i, j);
      assert init[i] == velos[i];
      assert (front + row)[k] == front[k];
    } else {
      assert k == |front| + j;
      assert (front + row)[k] == row[j];
    }
  }

  lemma {:induction false} PointsLength(velos: seq<real>, vals: seq<real>)
    ensures |Points(velos, vals)| == |velos| * |vals|
  {
    if |velos| > 0 {
      PointsLength(velos[..|velos| - 1], vals);
      assert (|velos| - 1) * |vals| + |vals| == |velos| * |vals|;
    }
  }

  /** The same steps, one point at a time. */
  function Fold(o: Outcome, run: (real, real) -> Result<Filed>, pts: seq<(real, real)>): (r: Outcome)
    ensures o.raised.Some? ==> r == o
    ensures o.ran <= r.ran <= o.ran + |pts| && o.failed <= r.failed
  {
    if |pts| == 0 then o else Step(Fold(o, run, pts[..|pts| - 1]), run, pts[|pts| - 1].0, pts[|pts| - 1].1)
  }

  lemma {:induction false} FoldConcat(o: Outcome, run: (real, real) -> Result<Filed>, a: seq<(real, real)>, b: seq<(real, real)>)
    ensures Fold(o, run, a + b) == Fold(Fold(o, run, a), run, b)
    decreases |b|
  {
    if |b| > 0 {
      var n := |b|;
      assert (a + b)[..|a + b| - 1] == a + b[..n - 1];
      assert (a + b)[|a + b| - 1] == b[n - 1];
      FoldConcat(o, run, a, b[..n - 1]);
    } else {
      assert a + b == a;
    }
  }

  lemma {:induction false} RowIsFold(o: Outcome, run: (real, real) -> Result<Filed>, velo: real, vals: seq<real>)
    ensures Row(o, run, velo, vals) == Fold(o, run, RowPoints(velo, vals))
  {
    if |vals| > 0 {
      var n := |vals|;
      RowIsFold(o, run, velo, vals[..n - 1]);
      assert RowPoints(velo, vals)[..n - 1] == RowPoints(velo, vals[..n - 1]);
    }
  }

  /** The two nested loops run the points of `Points` in their order. */
  lemma {:induction false} GridIsFold(o: Outcome, run: (real, real) -> Result<Filed>, velos: seq<real>, vals: seq<real>)
    ensures Grid(o, run, velos, vals) == Fold(o, run, Points(velos, vals))
  {
    if |velos| > 0 {
      var init := velos[..|velos| - 1];
      var last := velos[|velos| - 1];
      GridIsFold(o, run, init, vals);
      RowIsFold(Grid(o, run, init, vals), run, last, vals);
      FoldConcat(o, run, Points(init, vals), RowPoints(last, vals));
    }
  }

  /** The points among `pts` whose run raises Error, in order. */
  function Errored(run: (real, real) -> Result<Filed>, pts: seq<(real, real)>): seq<(real, real)>
  {
    if |pts| == 0 then []
    else
      var p := pts[|pts| - 1];
      var r := run(p.0, p.1);
      Errored(run, pts[..|pts| - 1]) + (if r.Fail? && r.exc.PdtError? then [p] else [])
  }

  /** A sweep that is not stopped starts every point once, reports exactly
      the points whose run raised Error, files a report pair under the names
      of every converged point, and keeps every file it started with. */
  lemma {:induction false} FoldSpec(o: Outcome, run: (real, real) -> Result<Filed>, pts: seq<(real, real)>)
    requires o.raised.None? && Fold(o, run, pts).raised.None?
    ensures Fold(o, run, pts).ran == o.ran + |pts|
    ensures Fold(o, run, pts).failed == o.failed + Errored(run, pts)
    ensures forall i :: 0 <= i < |pts| && run(pts[i].0, pts[i].1).Ok? ==>
              var f := run(pts[i].0, pts[i].1).value;
              HasKey(Fold(o, run, pts).oper, f.operName) && HasKey(Fold(o, run, pts).wvel, f.wvelName)
    ensures forall k :: HasKey(o.oper, k) ==> HasKey(Fold(o, run, pts).oper, k)
    ensures forall k :: HasKey(o.wvel, k) ==> HasKey(Fold(o, run, pts).wvel, k)
  {
    if |pts| > 0 {
      var init := pts[..|pts| - 1];
      var p := pts[|pts| - 1];
      var prev := Fold(o, run, init);
      assert prev.raised.None?;
      FoldSpec(o, run, init);
      StepKeeps(prev, run, p.0, p.1);
      forall i | 0 <= i < |pts| - 1
        ensures pts[i] == init[i]
      {
      }
    }
  }

  /** One step keeps every file, and a converged point adds its two names. */
  lemma StepKeeps(o: Outcome, run: (real, real) -> Result<Filed>, velo: real, val: real)
    requires o.raised.None?
    ensures forall k :: HasKey(o.oper, k) ==> HasKey(Step(o, run, velo, val).oper, k)
    ensures forall k :: HasKey(o.wvel, k) ==> HasKey(Step(o, run, velo, val).wvel, k)
    ensures run(velo, val).Ok? ==>
              HasKey(Step(o, run, velo, val).oper, run(velo, val).value.operName)
              && HasKey(Step(o, run, velo, val).wvel, run(velo, val).value.wvelName)
  {
    var r := run(velo, val);
    if r.Ok? {
      PutHasKeys(o.oper, r.value.operName, r.value.operText);
      PutHasKeys(o.wvel, r.value.wvelName, r.value.wvelText);
    }
  }

  /** `1, 2, ..., n`: the values the progress counter takes. */
  function Upto(n: nat): (r: seq<nat>)
    ensures |r| == n && forall k :: 0 <= k < n ==> r[k] == k + 1
  {
    if n == 0 then [] else Upto(n - 1) + [n]
  }

  /** An exception ends the sweep: the remaining points are not run. */
  lemma {:induction false} RowRaised(o: Outcome, run: (real, real) -> Result<Filed>, velo: real, vals: seq<real>)
    requires o.raised.Some?
    ensures Row(o, run, velo, vals) == o
  {
    if |vals| > 0 {
      RowRaised(o, run, velo, vals[..|vals| - 1]);
    }
  }

  lemma {:induction false} RowStays(o: Outcome, run: (real, real) -> Result<Filed>, velo: real, vals: seq<real>, k: nat)
    requires k <= |vals| && Row(o, run, velo, vals[..k]).raised.Some?
    ensures Row(o, run, velo, vals) == Row(o, run, velo, vals[..k])
    decreases |vals|
  {
    if k < |vals| {
      var init := vals[..|vals| - 1];
      assert init[..k] == vals[..k];
      RowStays(o, run, velo, init, k);
    } else {
      assert vals[..k] == vals;
    }
  }

  lemma {:induction false} GridStays(o: Outcome, run: (real, real) -> Result<Filed>, velos: seq<real>, vals: seq<real>, k: nat)
    requires k <= |velos| && Grid(o, run, velos[..k], vals).raised.Some?
    ensures Grid(o, run, velos, vals) == Grid(o, run, velos[..k], vals)
    decreases |velos|
  {
    if k < |velos| {
      var init := velos[..|velos| - 1];
      assert init[..k] == velos[..k];
      GridStays(o, run, init, vals, k);
      RowRaised(Grid(o, run, init, vals), run, velos[|velos| - 1], vals);
    } else {
      assert velos[..k] == velos;
    }
  }

  /** A sweep that is not stopped makes |velos| * |vals| runs, in the order of
      `Points`; it reports exactly the points whose run raised Error, in that
      order, files a report pair under the names of every converged point and
      keeps every file the folders held before. */
  lemma SweepSpec(o: Outcome, run: (real, real) -> Result<Filed>, velos: seq<real>, vals: seq<real>)
    requires o.raised.None? && Grid(o, run, velos, vals).raised.None?
    ensures Grid(o, run, velos, vals).ran == o.ran + |velos| * |vals|
    ensures Grid(o, run, velos, vals).failed == o.failed + Errored(run, Points(velos, vals))
    ensures forall i :: 0 <= i < |Points(velos, vals)| && run(Points(velos, vals)[i].0, Points(velos, vals)[i].1).Ok? ==>
              var f := run(Points(velos, vals)[i].0, Points(velos, vals)[i].1).value;
              HasKey(Grid(o, run, velos, vals).oper, f.operName) && HasKey(Grid(o, run, velos, vals).wvel, f.wvelName)
    ensures forall k :: HasKey(o.oper, k) ==> HasKey(Grid(o, run, velos, vals).oper, k)
    ensures forall k :: HasKey(o.wvel, k) ==> HasKey(Grid(o, run, velos, vals).wvel, k)
  {
    GridIsFold(o, run, velos, vals);
    PointsLength(velos, vals);
    FoldSpec(o, run, Points(velos, vals));
  }
}
