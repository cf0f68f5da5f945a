// The numeric helpers `Propeller.interp_foil_profiles` (propeller.py) relies
// on: `np.linspace`, `np.interp` and `np.rad2deg`, over exact reals, and the
// placement of one interpolated blade profile.

module Interp {
  import opened Wrappers
  import opened Dicts
  import opened ProfileMesh

  // ---------------------------------------------------------------- np.linspace

  /** `np.linspace(a, b, n)`: `n` evenly spaced values from `a` to `b`, both
      ends included; a negative count raises ValueError. */
  function Linspace(a: real, b: real, n: int): (r: Result<seq<real>>)
    ensures r.Fail? <==> n < 0
    ensures r.Ok? ==> |r.value| == n
  {
    if n < 0 then Fail(ValueError)
    else if n == 1 then Ok([a])
    else Ok(seq(n, i requires 0 <= i < n => Sample(a, Step(a, b, n), i)))
  }

  /** The spacing of `n >= 2` samples from `a` to `b`. */
  function Step(a: real, b: real, n: int): real
    requires n >= 2
  {
    (b - a) / (n - 1) as real
  }

  /** Sample `i`: `i` steps on from `a`. */
  function Sample(a: real, step: real, i: int): real
  {
    i as real * step + a
  }

  /** `n - 1` steps span the whole interval. */
  lemma LastSample(a: real, b: real, n: int)
    requires n >= 2
    ensures Sample(a, Step(a, b, n), n - 1) == b
  {
    var m := (n - 1) as real;
    assert m * ((b - a) / m) == b - a;
  }

  /** Neighbouring samples are one step apart. */
  lemma NextSample(a: real, step: real, i: int)
    ensures Sample(a, step, i + 1) - Sample(a, step, i) == step
  {
    assert (i + 1) as real * step == i as real * step + step;
  }

  /** The samples start at `a`, end at `b`, and are `(b - a) / (n - 1)` apart. */
  lemma LinspaceSpacing(a: real, b: real, n: int)
    requires n >= 1
    ensures var xs := Linspace(a, b, n).value;
      && xs[0] == a
      && (n >= 2 ==> xs[n - 1] == b)
      && (n >= 2 ==> forall i :: 0 <= i < n - 1 ==> xs[i + 1] - xs[i] == Step(a, b, n))
  {
    if n >= 2 {
      var xs := Linspace(a, b, n).value;
      LastSample(a, b, n);
      forall i | 0 <= i < n - 1
        ensures xs[i + 1] - xs[i] == Step(a, b, n)
      {
        NextSample(a, Step(a, b, n), i);
      }
    }
  }

  /** A sample between the first and the last stays between the ends. */
  lemma SampleWithin(a: real, b: real, n: int, i: int)
    requires a <= b && n >= 2 && 0 <= i < n
    ensures a <= Sample(a, Step(a, b, n), i) <= b
  {
    var d := Step(a, b, n);
    assert 0.0 <= d;
    assert 0.0 <= i as real * d;
    assert i as real * d <= (n - 1) as real * d;
    LastSample(a, b, n);
  }

  /** With `a <= b` the samples never leave `[a, b]`. */
  lemma LinspaceWithin(a: real, b: real, n: int, i: nat)
    requires a <= b && i < n
    ensures a <= Linspace(a, b, n).value[i] <= b
  {
    if n >= 2 {
      SampleWithin(a, b, n, i);
    }
  }

  // ---------------------------------------------------------------- np.interp

  predicate Increasing(xp: seq<real>)
  {
    forall i, j :: 0 <= i < j < |xp| ==> xp[i] <= xp[j]
  }

  predicate StrictlyIncreasing(xp: seq<real>)
  {
    forall i, j :: 0 <= i < j < |xp| ==> xp[i] < xp[j]
  }

  /** The straight line through `(x0, y0)` and `(x1, y1)` at `x`; a vertical
      segment (which increasing sample points never hand it) gives `y0`. */
  function Lerp(x: real, x0: real, y0: real, x1: real, y1: real): real
  {
    if x1 == x0 then y0 else (y1 - y0) / (x1 - x0) * (x - x0) + y0
  }

  /** The interpolation from segment `j` on: the first segment whose right
      end lies beyond `x`, or the last sample value past the last point. */
  function InterpFrom(x: real, xp: seq<real>, fp: seq<real>, j: nat): real
    requires |xp| == |fp| && j < |xp|
    decreases |xp| - j
  {
    if j == |xp| - 1 then fp[j]
    else if x < xp[j + 1] then Lerp(x, xp[j], fp[j], xp[j + 1], fp[j + 1])
    else InterpFrom(x, xp, fp, j + 1)
  }

  /** `np.interp(x, xp, fp)`: ValueError for sample lists of different
      lengths or for no samples; left of the first point the first value,
      right of the last point the last value, and in between the straight
      line through the two neighbouring samples. */
  function NpInterp(x: real, xp: seq<real>, fp: seq<real>): (r: Result<real>)
    ensures r.Fail? <==> |xp| != |fp| || |xp| == 0
  {
    if |xp| != |fp| || |xp| == 0 then Fail(ValueError)
    else if x < xp[0] then Ok(fp[0])
    else Ok(InterpFrom(x, xp, fp, 0))
  }

  /** Past the last sample point the scan returns the last value. */
  lemma {:induction false} InterpFromRight(x: real, xp: seq<real>, fp: seq<real>, j: nat)
    requires |xp| == |fp| && j < |xp| && Increasing(xp) && xp[|xp| - 1] <= x
    ensures InterpFrom(x, xp, fp, j) == fp[|xp| - 1]
    decreases |xp| - j
  {
    if j < |xp| - 1 {
      assert xp[j + 1] <= xp[|xp| - 1];
      InterpFromRight(x, xp, fp, j + 1);
    }
  }

  /** From segment `j` on, a sample point `xp[k]` with `k >= j` is mapped to
      its own value. */
  lemma {:induction false} InterpFromNode(xp: seq<real>, fp: seq<real>, j: nat, k: nat)
    requires |xp| == |fp| && j <= k < |xp| && StrictlyIncreasing(xp)
    ensures InterpFrom(xp[k], xp, fp, j) == fp[k]
    decreases |xp| - j
  {
    if j < |xp| - 1 {
      if j == k {
        assert xp[k] < xp[j + 1];
      } else {
        assert xp[j + 1] <= xp[k];
        InterpFromNode(xp, fp, j + 1, k);
      }
    }
  }

  /** At every sample point of strictly increasing samples the
      interpolation is exact, and outside the samples' span it holds the
      end values. */
  lemma InterpNodes(xp: seq<real>, fp: seq<real>, x: real)
    requires |xp| == |fp| > 0 && StrictlyIncreasing(xp)
    ensures forall k :: 0 <= k < |xp| ==> NpInterp(xp[k], xp, fp) == Ok(fp[k])
    ensures x <= xp[0] ==> NpInterp(x, xp, fp) == Ok(fp[0])
    ensures xp[|xp| - 1] <= x ==> NpInterp(x, xp, fp) == Ok(fp[|xp| - 1])
  {
    forall k | 0 <= k < |xp|
      ensures NpInterp(xp[k], xp, fp) == Ok(fp[k])
    {
      InterpFromNode(xp, fp, 0, k);
    }
    if x == xp[0] {
      InterpFromNode(xp, fp, 0, 0);
    }
    assert xp[0] <= xp[|xp| - 1];
    if xp[|xp| - 1] <= x {
      InterpFromRight(x, xp, fp, 0);
    }
  }

  /** `v` lies between `lo` and `hi`, in whichever order they come. */
  predicate Between(v: real, lo: real, hi: real)
  {
    (lo <= v <= hi) || (hi <= v <= lo)
  }

  /** On a segment, the line stays between the two sample values. */
  lemma LerpBetween(x: real, x0: real, y0: real, x1: real, y1: real)
    requires x0 <= x < x1
    ensures Between(Lerp(x, x0, y0, x1, y1), y0, y1)
  {
    var w, t := x1 - x0, (x - x0) / (x1 - x0);
    FractionBelowOne(x - x0, w);
    SlopeTimes(y1 - y0, w, x - x0);
    PartOf(t, y1 - y0);
  }

  /** `0 <= u < w` gives `0 <= u / w < 1`. */
  lemma FractionBelowOne(u: real, w: real)
    requires 0.0 <= u < w
    ensures 0.0 <= u / w < 1.0
  {
  }

  /** `d / w * u == u / w * d` */
  lemma SlopeTimes(d: real, w: real, u: real)
    requires w != 0.0
    ensures d / w * u == u / w * d
  {
  }

  /** A fraction `t` of `d`, added to `y0`, lands between `y0` and `y0 + d`. */
  lemma PartOf(t: real, d: real)
    requires 0.0 <= t < 1.0
    ensures if d >= 0.0 then 0.0 <= t * d <= d else d <= t * d <= 0.0
  {
  }

  /** For increasing samples and `x` at or after `xp[j]`, the interpolated
      value lies between two neighbouring sample values. */
  lemma {:induction false} InterpFromBetween(x: real, xp: seq<real>, fp: seq<real>, j: nat)
    requires |xp| == |fp| && j < |xp| && Increasing(xp) && xp[j] <= x
    ensures exists k :: j <= k < |xp| && Between(InterpFrom(x, xp, fp, j), fp[k], fp[if k + 1 < |xp| then k + 1 else k])
    decreases |xp| - j
  {
    if j == |xp| - 1 {
      assert Between(fp[j], fp[j], fp[j]);
    } else if x < xp[j + 1] {
      LerpBetween(x, xp[j], fp[j], xp[j + 1], fp[j + 1]);
      assert Between(InterpFrom(x, xp, fp, j), fp[j], fp[j + 1]);
    } else {
      InterpFromBetween(x, xp, fp, j + 1);
    }
  }

  /** `np.interp` never leaves the range of two neighbouring sample values
      of increasing samples: it interpolates, it does not extrapolate. */
  lemma InterpBetween(x: real, xp: seq<real>, fp: seq<real>)
    requires |xp| == |fp| > 0 && Increasing(xp)
    ensures exists k :: 0 <= k < |xp| && Between(NpInterp(x, xp, fp).value, fp[k], fp[if k + 1 < |xp| then k + 1 else k])
  {
    if x < xp[0] {
      assert Between(fp[0], fp[0], fp[if 1 < |xp| then 1 else 0]);
    } else {
      InterpFromBetween(x, xp, fp, 0);
    }
  }

  // ---------------------------------------------------------------- np.rad2deg

  /** `np.rad2deg` */
  function Rad2Deg(tr: Trig, rad: real): real
    requires tr.pi != 0.0
  {
    rad * 180.0 / tr.pi
  }

  /** `np.rad2deg` and `np.deg2rad` undo each other. */
  lemma DegreesRoundTrip(tr: Trig, rad: real)
    requires tr.pi != 0.0
    ensures Deg2Rad(tr, Rad2Deg(tr, rad)) == rad
  {
    assert Rad2Deg(tr, rad) * tr.pi == rad * 180.0;
  }

  // ---------------------------------------------------------------- one interpolated profile

  /** What `interp_foil_profiles` hands `generate_3D_profile_points` for one
      profile: its `r/R`, radius, chord, pitch angle and skew angle in
      degrees (the axis shift is always 0.25). */
  datatype Placement = Placement(roR: real, radius: real, chord: real, betaDeg: real, skewDeg: real)

  const AXIS_SHIFT: real := 0.25

  const RR_KEY := "r/R"
  const CH_KEY := "CH"
  const BE_KEY := "BE"

  /** `blade_data[key]`: KeyError when the column is missing. */
  function Column(bd: Dict<string, seq<real>>, key: string): Result<seq<real>>
  {
    match Get(bd, key)
    case None => Fail(KeyError)
    case Some(c) => Ok(c)
  }

  /** The profile at `roR`: chord from the interpolated `CH` column times the
      tip radius (a radius of None raises TypeError), pitch from the
      interpolated `BE` column in degrees, skew `totSkew * roR` and radius
      `roR * radius`. */
  function PlacementAt(bd: Dict<string, seq<real>>, radius: Option<real>, roR: real, totSkew: real, tr: Trig): (r: Result<Placement>)
    requires tr.pi != 0.0
    ensures !HasKey(bd, RR_KEY) ==> r == Fail(KeyError)
    ensures radius.None? ==> r.Fail?
    ensures r.Ok? ==> r.value.roR == roR && r.value.radius == roR * radius.value && r.value.skewDeg == totSkew * roR
  {
    match Column(bd, RR_KEY)
    case Fail(e) => Fail(e)
    case Ok(rr) =>
      match Column(bd, CH_KEY)
      case Fail(e) => Fail(e)
      case Ok(ch) =>
        match NpInterp(roR, rr, ch)
        case Fail(e) => Fail(e)
        case Ok(c) =>
          if radius.None? then Fail(TypeError)
          else
            match Column(bd, BE_KEY)
            case Fail(e) => Fail(e)
            case Ok(be) =>
              match NpInterp(roR, rr, be)
              case Fail(e) => Fail(e)
              case Ok(b) => Ok(Placement(roR, roR * radius.value, c * radius.value, Rad2Deg(tr, b), totSkew * roR))
  }

  /** Whether a profile's placement fails does not depend on where along the
      blade it sits: the missing column, the mismatched lengths or the
      missing radius fail every profile alike. */
  lemma PlacementFailsAlike(bd: Dict<string, seq<real>>, radius: Option<real>, x: real, y: real, totSkew: real, tr: Trig)
    requires tr.pi != 0.0
    ensures PlacementAt(bd, radius, x, totSkew, tr).Fail? <==> PlacementAt(bd, radius, y, totSkew, tr).Fail?
    ensures PlacementAt(bd, radius, x, totSkew, tr).Fail? ==>
              PlacementAt(bd, radius, x, totSkew, tr).exc == PlacementAt(bd, radius, y, totSkew, tr).exc
  {
  }

  /** The `r/R` values of the profiles: `n` of them, from the first to the
      last station of `blade_data` (KeyError without an `r/R` column,
      IndexError when it is empty). */
  function ProfileStations(bd: Dict<string, seq<real>>, n: int): (r: Result<seq<real>>)
    ensures !HasKey(bd, RR_KEY) ==> r == Fail(KeyError)
    ensures r.Fail? ==> r.exc in {KeyError, IndexError, ValueError}
    ensures r.Ok? ==> |r.value| == n
  {
    match Column(bd, RR_KEY)
    case Fail(e) => Fail(e)
    case Ok(rr) =>
      if |rr| == 0 then Fail(IndexError)
      else Linspace(rr[0], rr[|rr| - 1], n)
  }

  /** All the profiles, or the failure of the first; a failing profile
      fails the first one already, so no profile is stored then. */
  function Placements(bd: Dict<string, seq<real>>, radius: Option<real>, stations: seq<real>, totSkew: real, tr: Trig): (r: Result<seq<Placement>>)
    requires tr.pi != 0.0
    ensures r.Ok? ==> |r.value| == |stations|
    ensures r.Fail? ==> |stations| > 0
  {
    if |stations| == 0 then Ok([])
    else
      match Placements(bd, radius, stations[..|stations| - 1], totSkew, tr)
      case Fail(e) => Fail(e)
      case Ok(ps) =>
        match PlacementAt(bd, radius, stations[|stations| - 1], totSkew, tr)
        case Fail(e) => Fail(e)
        case Ok(p) => Ok(ps + [p])
  }

  /** Profile `i` sits at station `i`, with the interpolated chord and pitch
      angle and the proportional skew. */
  lemma {:induction false} PlacementsSpec(bd: Dict<string, seq<real>>, radius: Option<real>, stations: seq<real>, totSkew: real, tr: Trig)
    requires tr.pi != 0.0 && Placements(bd, radius, stations, totSkew, tr).Ok?
    ensures var ps := Placements(bd, radius, stations, totSkew, tr).value;
      |ps| == |stations| && forall i :: 0 <= i < |ps| ==> Ok(ps[i]) == PlacementAt(bd, radius, stations[i], totSkew, tr)
  {
    if |stations| > 0 {
      PlacementsSpec(bd, radius, stations[..|stations| - 1], totSkew, tr);
    }
  }

  /** With at least one station, the placements fail exactly when the
      first station's does, with its exception. */
  lemma {:induction false} PlacementsFail(bd: Dict<string, seq<real>>, radius: Option<real>, stations: seq<real>, totSkew: real, tr: Trig)
    requires tr.pi != 0.0 && |stations| > 0
    ensures Placements(bd, radius, stations, totSkew, tr).Fail? <==> PlacementAt(bd, radius, stations[0], totSkew, tr).Fail?
    ensures Placements(bd, radius, stations, totSkew, tr).Fail? ==>
              Placements(bd, radius, stations, totSkew, tr).exc == PlacementAt(bd, radius, stations[0], totSkew, tr).exc
  {
    var last := stations[|stations| - 1];
    PlacementFailsAlike(bd, radius, stations[0], last, totSkew, tr);
    if |stations| > 1 {
      var front := stations[..|stations| - 1];
      assert front[0] == stations[0];
      PlacementsFail(bd, radius, front, totSkew, tr);
    }
  }
}
