// Blade-section geometry of funcs.py: wrapping a non-dimensional airfoil
// profile onto the cylinder of its radius (generate_3D_profile_points), the
// corner angles of a closed polygon (compute_polygon_angles) and the
// ear-clipping triangulation of a profile (compute_profile_trimesh).

module ProfileMesh {
  import opened Wrappers
  import opened Numbers
  import opened Dicts

  datatype Vec3 = Vec3(x: real, y: real, z: real)

  function Sub(a: Vec3, b: Vec3): Vec3
  {
    Vec3(a.x - b.x, a.y - b.y, a.z - b.z)
  }

  // ---------------------------------------------------------------- wrapping

  /** numpy's sine, cosine and value of pi, which the model leaves uninterpreted. */
  datatype Trig = Trig(sin: real -> real, cos: real -> real, pi: real)

  /** `np.deg2rad` */
  function Deg2Rad(tr: Trig, deg: real): real
  {
    deg * tr.pi / 180.0
  }

  /** The profile point `(x, y)` mirrored and shifted onto the blade axis and
      scaled by the chord: `((-x + axisShift) * chord, y * chord)`. */
  function Placed(x: real, y: real, axisShift: real, chord: real): (real, real)
  {
    ((-x + axisShift) * chord, y * chord)
  }

  /** The placed point turned by the blade angle `betaDeg`. */
  function Pitched(p: (real, real), tr: Trig, betaDeg: real): (real, real)
  {
    var b := Deg2Rad(tr, betaDeg);
    (p.0 * tr.cos(-b) + p.1 * tr.sin(-b), p.1 * tr.cos(-b) - p.0 * tr.sin(-b))
  }

  /** The angle at which a pitched abscissa `xp` lands on the cylinder:
      arc length over circumference, times a full turn, then skewed. */
  function Theta(xp: real, radius: real, tr: Trig, skewDeg: real): real
    requires radius != 0.0 && tr.pi != 0.0
  {
    xp / (2.0 * tr.pi * radius) * 2.0 * tr.pi + Deg2Rad(tr, -skewDeg)
  }

  /** One point of `generate_3D_profile_points`. Every caller wraps a
      profile at a station radius, and stations start at the hub ratio,
      which is positive, so `radius != 0.0` holds wherever this is used. */
  function ProfilePoint(x: real, y: real, radius: real, axisShift: real, chord: real,
                        betaDeg: real, skewDeg: real, tr: Trig): (r: Vec3)
    requires radius != 0.0 && tr.pi != 0.0
    ensures var p := Pitched(Placed(x, y, axisShift, chord), tr, betaDeg);
            var angle := p.0 / radius - skewDeg * tr.pi / 180.0;
            r == Vec3(radius * tr.cos(angle), radius * tr.sin(angle), p.1)
  {
    var p := Pitched(Placed(x, y, axisShift, chord), tr, betaDeg);
    var t := Theta(p.0, radius, tr, skewDeg);
    ThetaIsArcOverRadius(p.0, radius, tr, skewDeg);
    Vec3(radius * tr.cos(t), radius * tr.sin(t), p.1)
  }

  /** `generate_3D_profile_points`: the profile rows `xs`, `ys` wrapped point
      by point (the model returns the columns of the 3 x n result). */
  function ProfilePoints(xs: seq<real>, ys: seq<real>, radius: real, axisShift: real, chord: real,
                         betaDeg: real, skewDeg: real, tr: Trig): (pts: seq<Vec3>)
    requires |xs| == |ys| && radius != 0.0 && tr.pi != 0.0
    ensures |pts| == |xs|
  {
    seq(|xs|, i requires 0 <= i < |xs| => ProfilePoint(xs[i], ys[i], radius, axisShift, chord, betaDeg, skewDeg, tr))
  }

  /** The wrapping maps the arc length `xp` to the angle `xp / radius`
      (the two factors of pi cancel), offset by the skew. */
  lemma ThetaIsArcOverRadius(xp: real, radius: real, tr: Trig, skewDeg: real)
    requires radius != 0.0 && tr.pi != 0.0
    ensures Theta(xp, radius, tr, skewDeg) == xp / radius - skewDeg * tr.pi / 180.0
  {
    var c := 2.0 * tr.pi;
    assert xp / (c * radius) * c == xp / radius;
  }

  /** Every wrapped point lies on the cylinder of the section's radius, given
      that sine and cosine satisfy sin^2 + cos^2 = 1. */
  lemma ProfileOnCylinder(xs: seq<real>, ys: seq<real>, radius: real, axisShift: real, chord: real,
                          betaDeg: real, skewDeg: real, tr: Trig, i: nat)
    requires |xs| == |ys| && radius != 0.0 && tr.pi != 0.0 && i < |xs|
    requires forall t :: tr.sin(t) * tr.sin(t) + tr.cos(t) * tr.cos(t) == 1.0
    ensures var p := ProfilePoints(xs, ys, radius, axisShift, chord, betaDeg, skewDeg, tr)[i];
            p.x * p.x + p.y * p.y == radius * radius
  {
    PointOnCylinder(xs[i], ys[i], radius, axisShift, chord, betaDeg, skewDeg, tr);
  }

  lemma PointOnCylinder(x: real, y: real, radius: real, axisShift: real, chord: real,
                        betaDeg: real, skewDeg: real, tr: Trig)
    requires radius != 0.0 && tr.pi != 0.0
    requires forall t :: tr.sin(t) * tr.sin(t) + tr.cos(t) * tr.cos(t) == 1.0
    ensures var p := ProfilePoint(x, y, radius, axisShift, chord, betaDeg, skewDeg, tr);
            p.x * p.x + p.y * p.y == radius * radius
  {
    var q := Pitched(Placed(x, y, axisShift, chord), tr, betaDeg);
    var t := Theta(q.0, radius, tr, skewDeg);
    var s, c := tr.sin(t), tr.cos(t);
    assert s * s + c * c == 1.0;
    Pythagoras(radius, s, c);
  }

  lemma Pythagoras(r: real, s: real, c: real)
    requires s * s + c * c == 1.0
    ensures (r * c) * (r * c) + (r * s) * (r * s) == r * r
  {
    assert (r * c) * (r * c) + (r * s) * (r * s) == r * r * (s * s + c * c);
  }

  /** The blade-angle turn keeps the distance from the axis point: the
      pitched point is as far from it as the chord-scaled profile point. */
  lemma PitchKeepsDistance(x: real, y: real, axisShift: real, chord: real, tr: Trig, betaDeg: real)
    requires forall t :: tr.sin(t) * tr.sin(t) + tr.cos(t) * tr.cos(t) == 1.0
    ensures var p := Placed(x, y, axisShift, chord);
            var q := Pitched(p, tr, betaDeg);
            q.0 * q.0 + q.1 * q.1 == p.0 * p.0 + p.1 * p.1
  {
    var p := Placed(x, y, axisShift, chord);
    var b := Deg2Rad(tr, betaDeg);
    var s, c := tr.sin(-b), tr.cos(-b);
    assert s * s + c * c == 1.0;
    Rotation(p.0, p.1, s, c);
  }

  lemma Rotation(u: real, v: real, s: real, c: real)
    requires s * s + c * c == 1.0
    ensures (u * c + v * s) * (u * c + v * s) + (v * c - u * s) * (v * c - u * s) == u * u + v * v
  {
    assert (u * c + v * s) * (u * c + v * s) + (v * c - u * s) * (v * c - u * s)
        == (u * u + v * v) * (s * s + c * c);
  }

  /** The section height (z) is the pitched profile ordinate; with no pitch
      (cos 0 = 1, sin 0 = 0) it is the chord-scaled ordinate `y * chord`. */
  lemma UnpitchedHeight(x: real, y: real, radius: real, axisShift: real, chord: real,
                        skewDeg: real, tr: Trig)
    requires radius != 0.0 && tr.pi != 0.0 && tr.cos(0.0) == 1.0 && tr.sin(0.0) == 0.0
    ensures ProfilePoint(x, y, radius, axisShift, chord, 0.0, skewDeg, tr).z == y * chord
  {
    assert Deg2Rad(tr, 0.0) == 0.0 && -Deg2Rad(tr, 0.0) == 0.0;
  }

  // ---------------------------------------------------------------- polygon angles

  /** The angle (radians) between two edge vectors, `arccos` of the clipped
      cosine: uninterpreted, NaN for a zero-length edge. */
  type AngleFn = (Vec3, Vec3) -> Cell

  /** `compute_polygon_angles` first drops a closing point equal to the first. */
  function Open(pts: seq<Vec3>): (r: seq<Vec3>)
    requires |pts| > 0
    ensures |r| == |pts| || |r| == |pts| - 1
    ensures r == pts[..|r|]
  {
    if pts[0] == pts[|pts| - 1] then pts[..|pts| - 1] else pts
  }

  /** The neighbour before `i`, wrapping to the last point (Python's index -1). */
  function Prev(n: nat, i: nat): nat
    requires i < n
  {
    if i == 0 then n - 1 else i - 1
  }

  /** The neighbour after `i`, wrapping to the first point. */
  function Next(n: nat, i: nat): nat
    requires i < n
  {
    if i == n - 1 then 0 else i + 1
  }

  /** The corner angle at point `i`, between the edges to its two neighbours. */
  function CornerAngle(pts: seq<Vec3>, i: nat, angle: AngleFn): Cell
    requires i < |pts|
  {
    var n := |pts|;
    angle(Sub(pts[Next(n, i)], pts[i]), Sub(pts[Prev(n, i)], pts[i]))
  }

  /** `compute_polygon_angles`, which pops the closing point of its argument
      (returned here as the new list) and lists the corner angles; an empty
      list raises IndexError. */
  method ComputePolygonAngles(coords: seq<Vec3>, angle: AngleFn)
    returns (r: Result<(seq<Vec3>, seq<Cell>)>)
    ensures r.Fail? <==> |coords| == 0
    ensures r.Fail? ==> r.exc == IndexError
    ensures r.Ok? ==> var (pts, angles) := r.value;
                      && pts == Open(coords)
                      && |angles| == |pts|
                      && forall i :: 0 <= i < |pts| ==> angles[i] == CornerAngle(pts, i, angle)
  {
    if |coords| == 0 {
      return Fail(IndexError);
    }
    var pts := coords;
    if pts[0] == pts[|pts| - 1] {
      pts := pts[..|pts| - 1];
    }
    var angles: seq<Cell> := [];
    var i := 0;
    while i < |pts|
      invariant 0 <= i <= |pts|
      invariant |angles| == i
      invariant forall k :: 0 <= k < i ==> angles[k] == CornerAngle(pts, k, angle)
    {
      var n := |pts|;
      var pt := pts[i];
      var lastPt := if i == 0 then pts[n - 1] else pts[i - 1];
      var nextPt := if i == n - 1 then pts[0] else pts[i + 1];
      angles := angles + [angle(Sub(nextPt, pt), Sub(lastPt, pt))];
      i := i + 1;
    }
    return Ok((pts, angles));
  }

  // ---------------------------------------------------------------- argmin

  /** `np.argmin`: the first NaN if there is one, else the first least value. */
  function ArgMin(cs: seq<Cell>): (k: nat)
    requires |cs| > 0
    ensures k < |cs|
  {
    if |cs| == 1 then 0
    else
      var k := ArgMin(cs[..|cs| - 1]);
      var last := |cs| - 1;
      if cs[k].NaN? then k
      else if cs[last].NaN? then last
      else if cs[last].v < cs[k].v then last
      else k
  }

  predicate HasNaN(cs: seq<Cell>)
  {
    exists i :: 0 <= i < |cs| && cs[i].NaN?
  }

  /** The index `np.argmin` returns: with a NaN present, the first NaN; else
      a least value, and no earlier value is as small. */
  lemma {:induction false} ArgMinSpec(cs: seq<Cell>)
    requires |cs| > 0
    ensures var k := ArgMin(cs);
            && (HasNaN(cs) ==> cs[k].NaN? && forall j :: 0 <= j < k ==> cs[j].Num?)
            && (!HasNaN(cs) ==> cs[k].Num?
                                && (forall j :: 0 <= j < |cs| ==> cs[k].v <= cs[j].v)
                                && (forall j :: 0 <= j < k ==> cs[k].v < cs[j].v))
  {
    if |cs| > 1 {
      var pre := cs[..|cs| - 1];
      ArgMinSpec(pre);
      var k := ArgMin(pre);
      var last := |cs| - 1;
      assert forall j :: 0 <= j < last ==> cs[j] == pre[j];
      if HasNaN(pre) {
        assert HasNaN(cs);
      } else if cs[last].NaN? {
        assert HasNaN(cs);
      } else {
        assert !HasNaN(cs) by {
          forall j | 0 <= j < |cs|
            ensures cs[j].Num?
          {
            if j < last {
              assert pre[j] == cs[j];
            }
          }
        }
      }
    }
  }

  // ---------------------------------------------------------------- ear clipping

  /** A triangle of the mesh, its vertices in output order. */
  datatype Tri = Tri(a: Vec3, b: Vec3, c: Vec3)

  /** One pass of the loop on a list of at least three points: drop a closing
      duplicate, pick the first vertex of least corner angle, emit it with
      its neighbours (previous, vertex, next; reversed when asked) and remove
      it. */
  function Clip(points: seq<Vec3>, angle: AngleFn, reverse: bool): (r: (Tri, seq<Vec3>))
    requires |points| >= 3
    ensures |r.1| == |points| - 2 || |r.1| == |points| - 1
  {
    var pts := Open(points);
    var n := |pts|;
    var k := ArgMin(seq(n, i requires 0 <= i < n => CornerAngle(pts, i, angle)));
    var p1, p2, p3 := pts[Prev(n, k)], pts[k], pts[Next(n, k)];
    (if reverse then Tri(p3, p2, p1) else Tri(p1, p2, p3), pts[..k] + pts[k + 1..])
  }

  /** The triangles `compute_profile_trimesh` emits for a list of points. */
  function Trimesh(points: seq<Vec3>, angle: AngleFn, reverse: bool): seq<Tri>
    decreases |points|
  {
    if |points| < 3 then []
    else
      var (t, rest) := Clip(points, angle, reverse);
      [t] + Trimesh(rest, angle, reverse)
  }

  /** The profile's rows zipped into points (zip stops at the shortest row);
      a 2-row profile lies in the plane z = 0. */
  function Zip3(xs: seq<real>, ys: seq<real>, zs: seq<real>): (r: seq<Vec3>)
    ensures |r| <= |xs| && |r| <= |ys| && |r| <= |zs|
  {
    if |xs| == 0 || |ys| == 0 || |zs| == 0 then []
    else [Vec3(xs[0], ys[0], zs[0])] + Zip3(xs[1..], ys[1..], zs[1..])
  }

  function Zeros(n: nat): (r: seq<real>)
    ensures |r| == n
  {
    seq(n, _ => 0.0)
  }

  /** `compute_profile_trimesh`: a 2- or 3-row profile (else ValueError)
      clipped ear by ear until fewer than three points are left. */
  method ComputeProfileTrimesh(rows: seq<seq<real>>, reverse: bool, angle: AngleFn)
    returns (r: Result<seq<Tri>>)
    ensures r.Fail? <==> |rows| != 2 && |rows| != 3
    ensures r.Fail? ==> r.exc == ValueError
    ensures r.Ok? ==> r.value == Trimesh(Zip3(rows[0], rows[1], if |rows| == 3 then rows[2] else Zeros(|rows[0]|)),
                                         angle, reverse)
  {
    var zc: seq<real>;
    if |rows| == 3 {
      zc := rows[2];
    } else if |rows| == 2 {
      zc := Zeros(|rows[0]|);
    } else {
      return Fail(ValueError);
    }
    var points := Zip3(rows[0], rows[1], zc);
    var vectors := ClipAll(points, reverse, angle);
    return Ok(vectors);
  }

  /** The while loop of `compute_profile_trimesh`. */
  method ClipAll(points0: seq<Vec3>, reverse: bool, angle: AngleFn) returns (vectors: seq<Tri>)
    ensures vectors == Trimesh(points0, angle, reverse)
  {
    var points := points0;
    vectors := [];
    while |points| >= 3
      invariant vectors + Trimesh(points, angle, reverse) == Trimesh(points0, angle, reverse)
      decreases |points|
    {
      var vector, rest := ClipOnce(points, reverse, angle);
      ghost var tail := Trimesh(rest, angle, reverse);
      Assoc(vectors, [vector], tail);
      vectors := vectors + [vector];
      points := rest;
    }
    TrimeshShort(points, angle, reverse);
    assert vectors + [] == vectors;
  }

  lemma TrimeshShort(points: seq<Vec3>, angle: AngleFn, reverse: bool)
    requires |points| < 3
    ensures Trimesh(points, angle, reverse) == []
  {
  }

  lemma Assoc<T>(a: seq<T>, b: seq<T>, c: seq<T>)
    ensures a + (b + c) == (a + b) + c
  {
  }

  lemma TrimeshStep(points: seq<Vec3>, angle: AngleFn, reverse: bool)
    requires |points| >= 3
    ensures var (t, rest) := Clip(points, angle, reverse);
            Trimesh(points, angle, reverse) == [t] + Trimesh(rest, angle, reverse)
  {
  }

  /** One pass of the loop body: the corner angles, the first least one,
      the triangle around it, and the list without that vertex. */
  method ClipOnce(points: seq<Vec3>, reverse: bool, angle: AngleFn) returns (vector: Tri, rest: seq<Vec3>)
    requires |points| >= 3
    ensures (vector, rest) == Clip(points, angle, reverse)
    ensures Trimesh(points, angle, reverse) == [vector] + Trimesh(rest, angle, reverse)
    ensures |rest| < |points|
  {
    var res := ComputePolygonAngles(points, angle);
    var (pts, angles) := res.value;
    var n := |pts|;
    assert angles == seq(n, i requires 0 <= i < n => CornerAngle(pts, i, angle));
    var minIdx := ArgMin(angles);
    var prevIdx := if minIdx == 0 then n - 1 else minIdx - 1;
    var nextIdx := if minIdx == n - 1 then 0 else minIdx + 1;
    var pt1, pt2, pt3 := pts[prevIdx], pts[minIdx], pts[nextIdx];
    vector := if !reverse then Tri(pt1, pt2, pt3) else Tri(pt3, pt2, pt1);
    rest := pts[..minIdx] + pts[minIdx + 1..];
    TrimeshStep(points, angle, reverse);
  }

  // ---------------------------------------------------------------- properties


  /** Removing one point keeps the others distinct. */
  lemma RemoveDistinct(pts: seq<Vec3>, k: nat)
    requires Distinct(pts) && k < |pts|
    ensures Distinct(pts[..k] + pts[k + 1..])
  {
    var r := pts[..k] + pts[k + 1..];
    forall i, j | 0 <= i < j < |r|
      ensures r[i] != r[j]
    {
      var i', j' := if i < k then i else i + 1, if j < k then j else j + 1;
      assert r[i] == pts[i'] && r[j] == pts[j'] && i' < j';
    }
  }

  /** A clipped list of distinct points is one point shorter and still distinct. */
  lemma ClipDistinct(points: seq<Vec3>, angle: AngleFn, reverse: bool)
    requires |points| >= 3 && Distinct(points)
    ensures var rest := Clip(points, angle, reverse).1;
            |rest| == |points| - 1 && Distinct(rest)
  {
    assert points[0] != points[|points| - 1];
    assert Open(points) == points;
    var n := |points|;
    var k := ArgMin(seq(n, i requires 0 <= i < n => CornerAngle(points, i, angle)));
    RemoveDistinct(points, k);
  }

  /** n distinct points give n - 2 triangles. */
  lemma {:induction false} TrimeshCountDistinct(points: seq<Vec3>, angle: AngleFn, reverse: bool)
    requires |points| >= 2 && Distinct(points)
    ensures |Trimesh(points, angle, reverse)| == |points| - 2
    decreases |points|
  {
    if |points| >= 3 {
      ClipDistinct(points, angle, reverse);
      TrimeshCountDistinct(Clip(points, angle, reverse).1, angle, reverse);
    }
  }

  /** A closed profile (last point repeating the first, the others distinct)
      of n >= 4 points gives n - 3 triangles; the closed triangle of 3 points
      still gives one (degenerate) triangle, since the duplicate is dropped
      only once two points remain. */
  lemma TrimeshCountClosed(points: seq<Vec3>, angle: AngleFn, reverse: bool)
    requires |points| >= 3 && points[0] == points[|points| - 1]
    requires Distinct(points[..|points| - 1])
    ensures |Trimesh(points, angle, reverse)| == if |points| == 3 then 1 else |points| - 3
  {
    var pts := Open(points);
    assert pts == points[..|points| - 1];
    var n := |pts|;
    var k := ArgMin(seq(n, i requires 0 <= i < n => CornerAngle(pts, i, angle)));
    var rest := Clip(points, angle, reverse).1;
    assert rest == pts[..k] + pts[k + 1..];
    RemoveDistinct(pts, k);
    if |rest| >= 2 {
      TrimeshCountDistinct(rest, angle, reverse);
    }
  }

  function Flip(t: Tri): Tri
  {
    Tri(t.c, t.b, t.a)
  }

  /** `reverse_order` writes every triangle with the opposite winding and
      changes nothing else. */
  lemma {:induction false} TrimeshReverse(points: seq<Vec3>, angle: AngleFn)
    ensures var fwd := Trimesh(points, angle, false);
            var rev := Trimesh(points, angle, true);
            |rev| == |fwd| && forall i :: 0 <= i < |fwd| ==> rev[i] == Flip(fwd[i])
    decreases |points|
  {
    if |points| >= 3 {
      var fwd := Clip(points, angle, false);
      ClipFlip(points, angle);
      TrimeshStep(points, angle, false);
      TrimeshStep(points, angle, true);
      TrimeshReverse(fwd.1, angle);
    }
  }

  lemma ClipFlip(points: seq<Vec3>, angle: AngleFn)
    requires |points| >= 3
    ensures var fwd := Clip(points, angle, false);
            Clip(points, angle, true) == (Flip(fwd.0), fwd.1)
  {
  }

  /** Each triangle's middle vertex is a point of the profile, and so are
      the other two. */
  lemma {:induction false} TrimeshVertices(points: seq<Vec3>, angle: AngleFn, reverse: bool)
    ensures forall t :: t in Trimesh(points, angle, reverse) ==> t.a in points && t.b in points && t.c in points
    decreases |points|
  {
    if |points| >= 3 {
      var (t, rest) := Clip(points, angle, reverse);
      var pts := Open(points);
      assert forall v :: v in pts ==> v in points;
      assert forall v :: v in rest ==> v in pts;
      TrimeshVertices(rest, angle, reverse);
    }
  }
}
