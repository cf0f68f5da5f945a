// The two closed-form aerodynamic formulas of funcs.py: the blade-section
// Reynolds number from the rotation (calc_rotational_re) and XROTOR's
// quadratic drag polar (xrotor_drag_model).

module Physics {
  import opened Wrappers

  const MISSING_INPUTS := "Must input all of either [rho, vel, chord, mu] or [rho, rpm, radius, chord, mu]"

  /** Reynolds number `rho * omega * radius * chord / mu` of a section at
      `radius` turning at `rpm` (omega = rpm / 60 * 2 pi), where `pi` stands
      for numpy's value of pi. */
  function RpmRe(rho: real, rpm: real, radius: real, chord: real, mu: real, pi: real): real
    requires mu != 0.0
  {
    rho * (rpm / 60.0 * 2.0 * pi) * radius * chord / mu
  }

  /** The rpm at which a propeller of `radius` runs at advance ratio `adv`
      and speed `vel`: `vel / pi / 2 / radius / adv * 60`. */
  function AdvanceRpm(vel: real, radius: real, adv: real, pi: real): real
    requires pi != 0.0 && radius != 0.0 && adv != 0.0
  {
    vel / pi / 2.0 / radius / adv * 60.0
  }

  /** `calc_rotational_re`: from rpm when rho, rpm, radius, chord and mu are
      all given; else from the advance ratio when rho, vel, adv, radius,
      chord and mu are; else an Error. Python float division by zero raises
      ZeroDivisionError. */
  function RotationalRe(rho: Option<real>, vel: Option<real>, chord: Option<real>, mu: Option<real>,
                        rpm: Option<real>, radius: Option<real>, adv: Option<real>, pi: real)
    : (r: Result<real>)
    requires pi > 0.0
    ensures r.Ok? ==> rho.Some? && radius.Some? && chord.Some? && mu.Some? && mu.value != 0.0
    ensures r.Ok? ==> rpm.Some? || (vel.Some? && adv.Some? && adv.value != 0.0 && radius.value != 0.0)
    ensures r.Fail? ==> r.exc == ZeroDivisionError || r.exc == PdtError(MISSING_INPUTS)
  {
    if rho.Some? && rpm.Some? && radius.Some? && chord.Some? && mu.Some? then
      if mu.value == 0.0 then Fail(ZeroDivisionError)
      else Ok(RpmRe(rho.value, rpm.value, radius.value, chord.value, mu.value, pi))
    else if rho.Some? && vel.Some? && adv.Some? && radius.Some? && chord.Some? && mu.Some? then
      if radius.value == 0.0 || adv.value == 0.0 || mu.value == 0.0 then Fail(ZeroDivisionError)
      else
        var n := AdvanceRpm(vel.value, radius.value, adv.value, pi);
        Ok(RpmRe(rho.value, n, radius.value, chord.value, mu.value, pi))
    else Fail(PdtError(MISSING_INPUTS))
  }

  /** The function fails exactly when neither input set is complete (an
      Error) or a divisor of the chosen formula is zero. */
  lemma RotationalReFails(rho: Option<real>, vel: Option<real>, chord: Option<real>, mu: Option<real>,
                          rpm: Option<real>, radius: Option<real>, adv: Option<real>, pi: real)
    requires pi > 0.0
    ensures var r := RotationalRe(rho, vel, chord, mu, rpm, radius, adv, pi);
            var byRpm := rho.Some? && rpm.Some? && radius.Some? && chord.Some? && mu.Some?;
            var byAdv := rho.Some? && vel.Some? && adv.Some? && radius.Some? && chord.Some? && mu.Some?;
            && (r.IsPdtError() <==> !byRpm && !byAdv)
            && (r.Fail? && !r.IsPdtError() ==> r.exc == ZeroDivisionError)
            && (byRpm ==> (r.Fail? <==> mu.value == 0.0))
            && (!byRpm && byAdv ==> (r.Fail? <==> radius.value * adv.value * mu.value == 0.0))
  {
  }

  /** With rpm given, the rotation is its angular speed: the result is
      rho * (2 pi rpm / 60) * radius * chord / mu, whatever vel and adv are. */
  lemma RotationalReFromRpm(rho: real, vel: Option<real>, chord: real, mu: real,
                            rpm: real, radius: real, adv: Option<real>, pi: real)
    requires pi > 0.0 && mu != 0.0
    ensures RotationalRe(Some(rho), vel, Some(chord), Some(mu), Some(rpm), Some(radius), adv, pi)
            == Ok(rho * (2.0 * pi * rpm / 60.0) * radius * chord / mu)
  {
  }

  /** From the advance ratio J = V / (n D), pi and the radius cancel:
      Re = rho * V * chord / (J * mu). */
  lemma RotationalReFromAdvance(rho: real, vel: real, chord: real, mu: real, radius: real, adv: real, pi: real)
    requires pi > 0.0 && mu != 0.0 && radius != 0.0 && adv != 0.0
    ensures RotationalRe(Some(rho), Some(vel), Some(chord), Some(mu), None, Some(radius), Some(adv), pi)
            == Ok(rho * vel * chord / (adv * mu))
  {
    var n := AdvanceRpm(vel, radius, adv, pi);
    AdvanceOmega(vel, radius, adv, pi);
    calc {
      RpmRe(rho, n, radius, chord, mu, pi);
      rho * (n / 60.0 * 2.0 * pi) * radius * chord / mu;
      { assert n / 60.0 * 2.0 * pi == vel / (radius * adv); }
      rho * (vel / (radius * adv)) * radius * chord / mu;
      { CancelRadius(rho, vel, radius, adv, chord, mu); }
      rho * vel * chord / (adv * mu);
    }
  }

  /** The angular speed of the derived rpm is V / (R J). */
  lemma AdvanceOmega(vel: real, radius: real, adv: real, pi: real)
    requires pi > 0.0 && radius != 0.0 && adv != 0.0
    ensures AdvanceRpm(vel, radius, adv, pi) / 60.0 * 2.0 * pi == vel / (radius * adv)
  {
    var q := vel / pi / 2.0 / radius / adv;
    assert q * (2.0 * pi) * (radius * adv) == vel;
  }

  lemma CancelRadius(rho: real, vel: real, radius: real, adv: real, chord: real, mu: real)
    requires radius != 0.0 && adv != 0.0 && mu != 0.0
    ensures rho * (vel / (radius * adv)) * radius * chord / mu == rho * vel * chord / (adv * mu)
  {
    var w := vel / (radius * adv);
    assert w * radius == vel / adv;
  }

  /** XROTOR's drag polar `CD = CDmin + dCDdCL2 * (CLCDmin - CL)^2` at one
      lift coefficient. */
  function Drag(cl: real, cdMin: real, clCdMin: real, dCDdCL2: real): (r: real)
    ensures cl == clCdMin ==> r == cdMin
    ensures dCDdCL2 >= 0.0 ==> r >= cdMin
  {
    cdMin + dCDdCL2 * ((clCdMin - cl) * (clCdMin - cl))
  }

  /** `xrotor_drag_model`: the polar applied to every lift coefficient of the array. */
  function DragModel(cl: seq<real>, cdMin: real, clCdMin: real, dCDdCL2: real): (cd: seq<real>)
    ensures |cd| == |cl|
    ensures forall i :: 0 <= i < |cl| ==> cd[i] == Drag(cl[i], cdMin, clCdMin, dCDdCL2)
  {
    seq(|cl|, i requires 0 <= i < |cl| => Drag(cl[i], cdMin, clCdMin, dCDdCL2))
  }

  /** With a non-negative curvature, CDmin is the least drag. */
  lemma DragAtLeastMin(cl: real, cdMin: real, clCdMin: real, dCDdCL2: real)
    requires dCDdCL2 >= 0.0
    ensures Drag(cl, cdMin, clCdMin, dCDdCL2) >= cdMin
  {
    var d := clCdMin - cl;
    assert d * d >= 0.0;
  }

  /** With a positive curvature, CDmin is reached exactly at CL = CLCDmin. */
  lemma DragMinimum(cl: real, cdMin: real, clCdMin: real, dCDdCL2: real)
    requires dCDdCL2 > 0.0
    ensures Drag(cl, cdMin, clCdMin, dCDdCL2) == cdMin <==> cl == clCdMin
  {
    var d := clCdMin - cl;
    if d != 0.0 {
      assert (d * d) / d == d;
      assert (dCDdCL2 * (d * d)) / dCDdCL2 == d * d;
    }
  }

  /** The polar is symmetric about CLCDmin. */
  lemma DragSymmetric(a: real, b: real, cdMin: real, clCdMin: real, dCDdCL2: real)
    requires a - clCdMin == clCdMin - b
    ensures Drag(a, cdMin, clCdMin, dCDdCL2) == Drag(b, cdMin, clCdMin, dCDdCL2)
  {
  }
}
