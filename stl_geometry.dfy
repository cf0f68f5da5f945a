// `Propeller.generate_stl_geometry` (propeller.py): the triangle array of the
// blade's STL mesh, allocated from the profile and point counts and filled
// through a running index -- the root cap, the tip cap with the opposite
// winding, then two triangles for every pair of neighbouring points of every
// pair of neighbouring profiles.

module StlGeometry {
  import opened Wrappers
  import opened ProfileMesh
  import opened Dicts

  /** A blade profile as the (3, n) array it is stored as: its x, y and z rows. */
  function Rows(p: seq<Vec3>): (r: seq<seq<real>>)
    ensures |r| == 3 && |r[0]| == |p| && |r[1]| == |p| && |r[2]| == |p|
    ensures forall i :: 0 <= i < |p| ==> p[i] == Vec3(r[0][i], r[1][i], r[2][i])
  {
    [seq(|p|, i requires 0 <= i < |p| => p[i].x),
     seq(|p|, i requires 0 <= i < |p| => p[i].y),
     seq(|p|, i requires 0 <= i < |p| => p[i].z)]
  }

  /** Zipping the rows back gives the points. */
  lemma {:induction false} ZipRows(xs: seq<real>, ys: seq<real>, zs: seq<real>, p: seq<Vec3>)
    requires |xs| == |p| && |ys| == |p| && |zs| == |p|
    requires forall i :: 0 <= i < |p| ==> p[i] == Vec3(xs[i], ys[i], zs[i])
    ensures Zip3(xs, ys, zs) == p
    decreases |p|
  {
    if |p| > 0 {
      ZipRows(xs[1..], ys[1..], zs[1..], p[1..]);
    }
  }

  /** `np.max(np.shape(profile))` of a (3, n) array: n, or 3 when n is smaller. */
  function PointCount(p: seq<Vec3>): (n: nat)
    ensures n >= 3 && n >= |p|
  {
    if |p| < 3 then 3 else |p|
  }

  /** `n_tri`: 2 (n_pts - 1) triangles between each pair of neighbouring
      profiles, and n_pts - 3 for each of the two caps. */
  function TriangleCount(nProf: nat, nPts: nat): int
  {
    (nProf - 1) * Width(nPts) + 2 * (nPts - 3)
  }

  /** At least the caps' 2 (n_pts - 3) slots are allocated. */
  lemma CapSlots(nProf: nat, nPts: nat)
    requires 1 <= nProf && 1 <= nPts
    ensures TriangleCount(nProf, nPts) >= 2 * (nPts - 3)
  {
    MulLe(0, nProf - 1, Width(nPts));
  }

  /** The triangles between two neighbouring profiles: two per point pair. */
  function Width(nPts: nat): int
  {
    2 * (nPts - 1)
  }

  /** The two triangles between points i and i + 1 of profile `p` and of its
      neighbour `q`: (a, b, c) and (a, c, f) with a = p[i], b = q[i],
      c = q[i + 1], f = p[i + 1]. */
  function Quad(p: seq<Vec3>, q: seq<Vec3>, i: nat): seq<Tri>
    requires i + 1 < |p| && i + 1 < |q|
  {
    [Tri(p[i], q[i], q[i + 1]), Tri(p[i], q[i + 1], p[i + 1])]
  }

  /** The first `m` quads between `p` and `q`. */
  function Band(p: seq<Vec3>, q: seq<Vec3>, m: nat): (r: seq<Tri>)
    requires m < |p| && m < |q|
    ensures |r| == 2 * m
  {
    if m == 0 then [] else Band(p, q, m - 1) + Quad(p, q, m - 1)
  }

  /** Profiles 0 to k all hold at least `n` points. */
  predicate LongUpTo(ps: seq<seq<Vec3>>, n: nat, k: nat)
  {
    forall j :: 0 <= j <= k && j < |ps| ==> |ps[j]| >= n
  }

  /** The surfaces between profiles j and j + 1 for every j < k. */
  function Bands(ps: seq<seq<Vec3>>, nPts: nat, k: nat): seq<Tri>
    requires 1 <= nPts && k < |ps| && (k == 0 || LongUpTo(ps, nPts, k))
  {
    if k == 0 then [] else Bands(ps, nPts, k - 1) + Band(ps[k - 1], ps[k], nPts - 1)
  }

  lemma {:induction false} BandsLength(ps: seq<seq<Vec3>>, nPts: nat, k: nat)
    requires 1 <= nPts && k < |ps| && (k == 0 || LongUpTo(ps, nPts, k))
    ensures |Bands(ps, nPts, k)| == k * Width(nPts)
  {
    if k > 0 {
      BandsLength(ps, nPts, k - 1);
      MulSucc(k - 1, Width(nPts));
    }
  }

  const ORIGIN := Vec3(0.0, 0.0, 0.0)
  /** The slot `np.zeros` leaves in the array. */
  const EMPTY := Tri(ORIGIN, ORIGIN, ORIGIN)

  function Blank(n: nat): (r: seq<Tri>)
    ensures |r| == n && forall i :: 0 <= i < n ==> r[i] == EMPTY
  {
    seq(n, _ => EMPTY)
  }

  /** The two caps: the root profile's triangles, then the tip profile's with
      `reverse_order`. */
  function Caps(ps: seq<seq<Vec3>>, angle: AngleFn): seq<Tri>
    requires |ps| > 0
  {
    Trimesh(ps[0], angle, false) + Trimesh(ps[|ps| - 1], angle, true)
  }

  /** The contents of the mesh data `generate_stl_geometry` builds from the
      profiles 0, 1, ..., or what it raises: TypeError while the propeller
      has no profiles yet (`len(None)`), KeyError without profile 0, and
      IndexError when the caps overrun the two slots per point they are given
      or a profile has fewer points than profile 0's array is wide. Slots the
      triangles do not reach stay zero. */
  function StlTriangles(profiles: Option<seq<seq<Vec3>>>, angle: AngleFn): (r: Result<seq<Tri>>)
    ensures r == Fail(TypeError) <==> profiles.None?
    ensures r == Fail(KeyError) <==> profiles == Some([])
    ensures r.Fail? ==> r.exc in {TypeError, KeyError, IndexError}
    ensures r.Ok? ==> |r.value| == TriangleCount(|profiles.value|, PointCount(profiles.value[0]))
    ensures r.Ok? ==> Caps(profiles.value, angle) <= r.value
  {
    if profiles.None? then Fail(TypeError)
    else
      var ps := profiles.value;
      if |ps| == 0 then Fail(KeyError)
      else
        var n := PointCount(ps[0]);
        var caps := Caps(ps, angle);
        if |caps| > 2 * (n - 3) || !AllLong(ps, n) then Fail(IndexError)
        else
          var w := caps + Bands(ps, n, |ps| - 1);
          Room(ps, n, |caps|);
          Ok(w + Blank(TriangleCount(|ps|, n) - |w|))
  }

  /** Every profile after the root is long enough for the surface loops. */
  predicate AllLong(ps: seq<seq<Vec3>>, n: nat)
  {
    |ps| < 2 || LongUpTo(ps, n, |ps| - 1)
  }

  /** Caps that fit their slots leave room for every surface. */
  lemma Room(ps: seq<seq<Vec3>>, n: nat, caps: nat)
    requires |ps| > 0 && 1 <= n && AllLong(ps, n) && caps <= 2 * (n - 3)
    ensures caps + |Bands(ps, n, |ps| - 1)| <= TriangleCount(|ps|, n)
  {
    BandsLength(ps, n, |ps| - 1);
  }

  /** `generate_stl_geometry`, up to the mesh it saves: the array of
      `n_tri` zero triangles filled through `tri_idx`. */
  method GenerateStlGeometry(profiles: Option<seq<seq<Vec3>>>, angle: AngleFn) returns (r: Result<seq<Tri>>)
    ensures r == StlTriangles(profiles, angle)
  {
    if profiles.None? {
      return Fail(TypeError);
    }
    var ps := profiles.value;
    if |ps| == 0 {
      return Fail(KeyError);
    }
    var nProf := |ps|;
    var nPts := PointCount(ps[0]);
    CapSlots(nProf, nPts);
    var nTri := TriangleCount(nProf, nPts);
    var mdata := new Tri[nTri](_ => EMPTY);
    assert mdata[..] == [] + Blank(nTri);
    var ok, triIdx := FillCaps(mdata, ps, angle);
    if !ok {
      StlFails(ps, angle);
      return Fail(IndexError);
    }
    ok, triIdx := FillBands(mdata, ps, nPts, triIdx, Caps(ps, angle));
    if !ok {
      StlFails(ps, angle);
      return Fail(IndexError);
    }
    StlFills(ps, angle);
    return Ok(mdata[..]);
  }

  /** The cases that raise IndexError. */
  lemma StlFails(ps: seq<seq<Vec3>>, angle: AngleFn)
    requires |ps| > 0
    requires var n := PointCount(ps[0]);
             !AllLong(ps, n) || |Caps(ps, angle)| + (|ps| - 1) * Width(n) > TriangleCount(|ps|, n)
    ensures StlTriangles(Some(ps), angle) == Fail(IndexError)
  {
  }

  /** The case that fills the array: caps and surfaces, then zeros. */
  lemma StlFills(ps: seq<seq<Vec3>>, angle: AngleFn)
    requires |ps| > 0
    requires var n := PointCount(ps[0]);
             AllLong(ps, n) && |Caps(ps, angle)| + |Bands(ps, n, |ps| - 1)| <= TriangleCount(|ps|, n)
    ensures var n := PointCount(ps[0]);
            var w := Caps(ps, angle) + Bands(ps, n, |ps| - 1);
            StlTriangles(Some(ps), angle) == Ok(w + Blank(TriangleCount(|ps|, n) - |w|))
  {
    BandsLength(ps, PointCount(ps[0]), |ps| - 1);
  }

  /** The surface loops over the pairs of neighbouring profiles, after the
      caps: IndexError on a short profile or a write past the end. */
  method FillBands(mdata: array<Tri>, ps: seq<seq<Vec3>>, nPts: nat, start: nat, ghost caps: seq<Tri>)
    returns (ok: bool, triIdx: nat)
    requires 3 <= nPts && |ps| >= 1
    requires |caps| == start <= mdata.Length && mdata[..] == caps + Blank(mdata.Length - start)
    modifies mdata
    ensures ok ==> AllLong(ps, nPts) && triIdx == start + |Bands(ps, nPts, |ps| - 1)| <= mdata.Length
                   && mdata[..] == caps + Bands(ps, nPts, |ps| - 1) + Blank(mdata.Length - triIdx)
    ensures !ok ==> !AllLong(ps, nPts) || start + (|ps| - 1) * Width(nPts) > mdata.Length
  {
    triIdx := start;
    for k := 0 to |ps| - 1
      invariant k == 0 || LongUpTo(ps, nPts, k)
      invariant triIdx == start + |Bands(ps, nPts, k)| <= mdata.Length
      invariant mdata[..] == caps + Bands(ps, nPts, k) + Blank(mdata.Length - triIdx)
    {
      ghost var done := caps + Bands(ps, nPts, k);
      ok, triIdx := FillBand(mdata, triIdx, ps[k], ps[k + 1], nPts, done);
      if !ok {
        if |ps[k]| >= nPts && |ps[k + 1]| >= nPts {
          BandsLength(ps, nPts, k);
          OverrunGrows(start, k, |ps| - 1, Width(nPts), mdata.Length);
        } else {
          assert !LongUpTo(ps, nPts, |ps| - 1) by {
            assert |ps[k]| < nPts || |ps[k + 1]| < nPts;
          }
        }
        return;
      }
      assert LongUpTo(ps, nPts, k + 1);
      ConcatAssoc(caps, Bands(ps, nPts, k), Band(ps[k], ps[k + 1], nPts - 1));
    }
    ok := true;
  }

  lemma ConcatAssoc<T>(a: seq<T>, b: seq<T>, c: seq<T>)
    ensures a + b + c == a + (b + c)
  {
  }

  /** The root and tip loops, on the freshly zeroed array. */
  method FillCaps(mdata: array<Tri>, ps: seq<seq<Vec3>>, angle: AngleFn) returns (ok: bool, triIdx: nat)
    requires |ps| > 0 && mdata[..] == [] + Blank(mdata.Length)
    modifies mdata
    ensures ok <==> |Caps(ps, angle)| <= mdata.Length
    ensures ok ==> triIdx == |Caps(ps, angle)| && mdata[..] == Caps(ps, angle) + Blank(mdata.Length - triIdx)
  {
    var nProf := |ps|;
    var root := ComputeProfileTrimesh(Rows(ps[0]), false, angle);
    ZipRows(Rows(ps[0])[0], Rows(ps[0])[1], Rows(ps[0])[2], ps[0]);
    ok, triIdx := FillCap(mdata, 0, root.value, []);
    if !ok {
      return;
    }
    var tip := ComputeProfileTrimesh(Rows(ps[nProf - 1]), true, angle);
    ZipRows(Rows(ps[nProf - 1])[0], Rows(ps[nProf - 1])[1], Rows(ps[nProf - 1])[2], ps[nProf - 1]);
    ok, triIdx := FillCap(mdata, triIdx, tip.value, root.value);
  }

  /** A write past the end at surface k means the whole run of surfaces
      would not have fitted either. */
  lemma OverrunGrows(start: nat, k: nat, m: nat, width: nat, len: nat)
    requires k + 1 <= m && start + k * width + width > len
    ensures start + m * width > len
  {
    MulSucc(k, width);
    MulLe(k + 1, m, width);
  }

  lemma MulSucc(k: nat, w: nat)
    ensures (k + 1) * w == k * w + w
  {
  }

  lemma MulLe(a: nat, b: nat, c: nat)
    requires a <= b
    ensures a * c <= b * c
  {
  }

  /** Writing one slot of an array whose contents are `front + back`. */
  lemma {:induction false} UpdateAt<T>(s: seq<T>, front: seq<T>, back: seq<T>, x: T)
    requires s == front + back && |back| > 0
    ensures s[|front| := x] == front + [x] + back[1..]
  {
  }

  lemma BlankDrop(n: nat, k: nat)
    requires k <= n
    ensures Blank(n)[k..] == Blank(n - k)
  {
  }

  /** One cap loop: every triangle is written at the running index, which
      raises IndexError when it passes the end of the array. The slots from
      `start` on hold zeros. */
  method FillCap(mdata: array<Tri>, start: nat, vectors: seq<Tri>, ghost done: seq<Tri>)
    returns (ok: bool, triIdx: nat)
    requires |done| == start <= mdata.Length && mdata[..] == done + Blank(mdata.Length - start)
    modifies mdata
    ensures ok <==> start + |vectors| <= mdata.Length
    ensures ok ==> triIdx == start + |vectors| && mdata[..] == done + vectors + Blank(mdata.Length - triIdx)
  {
    triIdx := start;
    for t := 0 to |vectors|
      invariant triIdx == start + t <= mdata.Length
      invariant mdata[..] == done + vectors[..t] + Blank(mdata.Length - triIdx)
    {
      if triIdx >= mdata.Length {
        return false, triIdx;
      }
      ghost var front := done + vectors[..t];
      UpdateAt(mdata[..], front, Blank(mdata.Length - triIdx), vectors[t]);
      mdata[triIdx] := vectors[t];
      BlankDrop(mdata.Length - triIdx, 1);
      assert vectors[..t + 1] == vectors[..t] + [vectors[t]];
      ConcatAssoc(done, vectors[..t], [vectors[t]]);
      triIdx := triIdx + 1;
    }
    assert vectors[..|vectors|] == vectors;
    ok := true;
  }

  /** The inner loop over the points of profile `p` and its neighbour `q`:
      two triangles per point pair. A profile with fewer than `nPts` points,
      or a write past the end of the array, raises IndexError. The slots from
      `start` on hold zeros. */
  method FillBand(mdata: array<Tri>, start: nat, p: seq<Vec3>, q: seq<Vec3>, nPts: nat, ghost done: seq<Tri>)
    returns (ok: bool, triIdx: nat)
    requires 2 <= nPts && |done| == start <= mdata.Length && mdata[..] == done + Blank(mdata.Length - start)
    modifies mdata
    ensures ok <==> |p| >= nPts && |q| >= nPts && start + 2 * (nPts - 1) <= mdata.Length
    ensures ok ==> triIdx == start + 2 * (nPts - 1)
                   && mdata[..] == done + Band(p, q, nPts - 1) + Blank(mdata.Length - triIdx)
  {
    triIdx := start;
    for i := 0 to nPts - 1
      invariant triIdx == start + 2 * i <= mdata.Length
      invariant i == 0 || (i < |p| && i < |q|)
      invariant mdata[..] == done + (if i == 0 then [] else Band(p, q, i)) + Blank(mdata.Length - triIdx)
    {
      if i + 1 >= |p| || i + 1 >= |q| || triIdx + 1 >= mdata.Length {
        return false, triIdx;
      }
      WriteQuad(mdata, triIdx, p, q, i, done + Band(p, q, i));
      ConcatAssoc(done, Band(p, q, i), Quad(p, q, i));
      triIdx := triIdx + 2;
    }
    ok := true;
  }

  /** The two writes of one quad at the running index. */
  method WriteQuad(mdata: array<Tri>, at: nat, p: seq<Vec3>, q: seq<Vec3>, i: nat, ghost front: seq<Tri>)
    requires i + 1 < |p| && i + 1 < |q| && |front| == at && at + 2 <= mdata.Length
    requires mdata[..] == front + Blank(mdata.Length - at)
    modifies mdata
    ensures mdata[..] == front + Quad(p, q, i) + Blank(mdata.Length - at - 2)
  {
    UpdateAt(mdata[..], front, Blank(mdata.Length - at), Tri(p[i], q[i], q[i + 1]));
    mdata[at] := Tri(p[i], q[i], q[i + 1]);
    BlankDrop(mdata.Length - at, 1);
    UpdateAt(mdata[..], front + [Tri(p[i], q[i], q[i + 1])], Blank(mdata.Length - at - 1), Tri(p[i], q[i + 1], p[i + 1]));
    mdata[at + 1] := Tri(p[i], q[i + 1], p[i + 1]);
    BlankDrop(mdata.Length - at - 1, 1);
  }

  // ---------------------------------------------------------------- properties

  /** With closed root and tip profiles of n >= 4 points each (the last point
      repeating the first, the others distinct) and every profile holding n
      points, the caps fill exactly their 2 (n - 3) slots and the write index
      ends at the allocated count: no slot is left empty. */
  lemma ClosedProfilesFillExactly(ps: seq<seq<Vec3>>, angle: AngleFn)
    requires |ps| > 0 && |ps[0]| >= 4 && |ps[|ps| - 1]| == |ps[0]|
    requires ps[0][0] == ps[0][|ps[0]| - 1] && Distinct(ps[0][..|ps[0]| - 1])
    requires var t := ps[|ps| - 1]; t[0] == t[|t| - 1] && Distinct(t[..|t| - 1])
    requires LongUpTo(ps, |ps[0]|, |ps| - 1)
    ensures StlTriangles(Some(ps), angle).Ok?
    ensures StlTriangles(Some(ps), angle).value == Caps(ps, angle) + Bands(ps, |ps[0]|, |ps| - 1)
    ensures |StlTriangles(Some(ps), angle).value| == TriangleCount(|ps|, |ps[0]|)
  {
    TrimeshCountClosed(ps[0], angle, false);
    TrimeshCountClosed(ps[|ps| - 1], angle, true);
    var n := |ps[0]|;
    var w := Caps(ps, angle) + Bands(ps, n, |ps| - 1);
    BandsLength(ps, n, |ps| - 1);
    assert |w| == TriangleCount(|ps|, n);
    assert w + Blank(0) == w;
  }

  /** The two triangles of a quad cross their shared diagonal a-c in opposite
      directions, so they have the same winding, and each uses only the four
      corner points. */
  lemma QuadWinding(p: seq<Vec3>, q: seq<Vec3>, i: nat)
    requires i + 1 < |p| && i + 1 < |q|
    ensures var t := Quad(p, q, i);
            && |t| == 2
            && t[0].c == t[1].b && t[0].a == t[1].a
            && t[0].a == p[i] && t[0].b == q[i] && t[0].c == q[i + 1] && t[1].c == p[i + 1]
  {
  }

  /** The tip cap is the root-order triangulation of the tip profile with
      every triangle's winding reversed, so both caps face outwards. */
  lemma TipCapFlipped(ps: seq<seq<Vec3>>, angle: AngleFn)
    requires |ps| > 0
    ensures var fwd := Trimesh(ps[|ps| - 1], angle, false);
            var caps := Caps(ps, angle);
            var root := |Trimesh(ps[0], angle, false)|;
            && |caps| == root + |fwd|
            && forall i :: 0 <= i < |fwd| ==> caps[root + i] == Flip(fwd[i])
  {
    TrimeshReverse(ps[|ps| - 1], angle);
  }
}
