/** Reading an airfoil coordinate file (Selig format: the name on the first
    line, then one `x y` pair per line): the points are split at the leading
    edge into an upper run, ordered towards the leading edge, and a lower run,
    ordered away from it; the trailing-edge gap is then blended to the
    requested value and the two runs are joined again. */
module CoordinateFile {
  import opened Wrappers
  import opened Text
  import opened Numbers

  datatype Point = Point(x: real, y: real)

  // ---------------------------------------------------------------- tokenised lines

  /** One coordinate line: `None` for a blank line, else the first and the
      last space-separated field as numbers. */
  function ParseRow(line: string): (r: Result<Option<(real, real)>>)
    ensures r.Fail? ==> r.exc == ValueError
  {
    var t := StripChars(line, {' '});
    if t == "" then Ok(None)
    else
      var vals := Split(t, " ");
      var x := ParseFloat(vals[0]);
      var y := ParseFloat(vals[|vals| - 1]);
      if x.None? || y.None? then Fail(ValueError) else Ok(Some((x.value, y.value)))
  }

  /** The values not above 1, in order: the test each coordinate passes
      separately before it is stored. */
  function AtMostOne(vs: seq<real>): (r: seq<real>)
    ensures |r| <= |vs|
    ensures forall i :: 0 <= i < |r| ==> r[i] <= 1.0
    ensures (forall i :: 0 <= i < |vs| ==> vs[i] <= 1.0) ==> r == vs
  {
    if |vs| == 0 then []
    else AtMostOne(vs[..|vs| - 1]) + (if vs[|vs| - 1] <= 1.0 then [vs[|vs| - 1]] else [])
  }

  /** The parsed data rows of the lines from `i` on, after the rows `acc`
      already read; blank lines add nothing. */
  function RowsFrom(acc: seq<(real, real)>, lines: seq<string>, i: nat): Result<seq<(real, real)>>
    requires i <= |lines|
    decreases |lines| - i
  {
    if i == |lines| then Ok(acc)
    else
      match ParseRow(lines[i])
      case Fail(e) => Fail(e)
      case Ok(None) => RowsFrom(acc, lines, i + 1)
      case Ok(Some(p)) => RowsFrom(acc + [p], lines, i + 1)
  }

  /** The parsed data rows of the lines after the name line. */
  function Rows(lines: seq<string>): Result<seq<(real, real)>>
    requires |lines| > 0
  {
    RowsFrom([], lines, 1)
  }

  function Firsts(rows: seq<(real, real)>): (r: seq<real>)
    ensures |r| == |rows| && forall i :: 0 <= i < |rows| ==> r[i] == rows[i].0
  {
    if |rows| == 0 then [] else Firsts(rows[..|rows| - 1]) + [rows[|rows| - 1].0]
  }

  function Seconds(rows: seq<(real, real)>): (r: seq<real>)
    ensures |r| == |rows| && forall i :: 0 <= i < |rows| ==> r[i] == rows[i].1
  {
    if |rows| == 0 then [] else Seconds(rows[..|rows| - 1]) + [rows[|rows| - 1].1]
  }

  /** The line loop of the reader over the lines after the name: each
      non-blank line adds its x if x <= 1 and, separately, its y if y <= 1. A
      field that is not a number raises ValueError. */
  method ReadRows(lines: seq<string>) returns (r: Result<(seq<real>, seq<real>)>)
    requires |lines| > 0
    ensures r.Fail? <==> Rows(lines).Fail?
    ensures r.Fail? ==> r.exc == ValueError
    ensures r.Ok? ==> var rows := Rows(lines).value;
      r.value.0 == AtMostOne(Firsts(rows)) && r.value.1 == AtMostOne(Seconds(rows))
  {
    var xs: seq<real> := [];
    var ys: seq<real> := [];
    ghost var rows: seq<(real, real)> := [];
    for i := 1 to |lines|
      invariant Rows(lines) == RowsFrom(rows, lines, i)
      invariant xs == AtMostOne(Firsts(rows)) && ys == AtMostOne(Seconds(rows))
    {
      var row := ParseRow(lines[i]);
      if row.Fail? {
        return Fail(ValueError);
      }
      if row.value.Some? {
        var (x, y) := row.value.value;
        ColumnsStep(rows, x, y);
        if x <= 1.0 {
          xs := xs + [x];
        }
        if y <= 1.0 {
          ys := ys + [y];
        }
        rows := rows + [(x, y)];
      }
    }
    return Ok((xs, ys));
  }

  /** The name is line 0 stripped of spaces; the coordinates are those of
      the later lines. */
  method ReadLines(lines: seq<string>) returns (r: Result<(string, seq<real>, seq<real>)>)
    requires |lines| > 0
    ensures r.Fail? <==> Rows(lines).Fail?
    ensures r.Fail? ==> r.exc == ValueError
    ensures r.Ok? ==> r.value.0 == StripChars(lines[0], {' '})
    ensures r.Ok? ==> var rows := Rows(lines).value;
      r.value.1 == AtMostOne(Firsts(rows)) && r.value.2 == AtMostOne(Seconds(rows))
  {
    var name := StripChars(lines[0], {' '});
    var cols := ReadRows(lines);
    if cols.Fail? {
      return Fail(cols.exc);
    }
    return Ok((name, cols.value.0, cols.value.1));
  }

  lemma ColumnsStep(rows: seq<(real, real)>, x: real, y: real)
    ensures AtMostOne(Firsts(rows + [(x, y)])) == AtMostOne(Firsts(rows)) + (if x <= 1.0 then [x] else [])
    ensures AtMostOne(Seconds(rows + [(x, y)])) == AtMostOne(Seconds(rows)) + (if y <= 1.0 then [y] else [])
  {
    assert (rows + [(x, y)])[..|rows|] == rows;
    assert Firsts(rows + [(x, y)]) == Firsts(rows) + [x];
    assert Seconds(rows + [(x, y)]) == Seconds(rows) + [y];
    assert (Firsts(rows) + [x])[..|rows|] == Firsts(rows);
    assert (Seconds(rows) + [y])[..|rows|] == Seconds(rows);
  }

  // ---------------------------------------------------------------- upper / lower split

  function Sign(d: real): int
  {
    if d > 0.0 then 1 else if d < 0.0 then -1 else 0
  }

  /** The direction of the step from `xs[i - 1]` to `xs[i]`. */
  function Step(xs: seq<real>, i: nat): int
    requires 1 <= i < |xs|
  {
    Sign(xs[i] - xs[i - 1])
  }

  /** `np.sign(np.diff(xs))` with its first element repeated in front: the
      direction of travel in x arriving at each point. */
  function Directions(xs: seq<real>): (r: seq<int>)
    requires |xs| >= 2
    ensures |r| == |xs| && r[0] == r[1]
    ensures forall i :: 1 <= i < |xs| ==> r[i] == Step(xs, i)
  {
    var steps := seq(|xs| - 1, i requires 0 <= i < |xs| - 1 => Step(xs, i + 1));
    [steps[0]] + steps
  }

  function IntAbs(n: int): int { if n < 0 then -n else n }

  /** Whether the direction flips outright (from +1 to -1 or back) between
      positions `i` and `i + 1`. */
  predicate FlipAt(dirs: seq<int>, i: nat)
    requires i + 1 < |dirs|
  {
    IntAbs(dirs[i + 1] - dirs[i]) == 2
  }

  /** The first index after which the direction flips outright, which is
      where the upper run ends. */
  function UpperEnd(dirs: seq<int>, from: nat): (r: Option<nat>)
    requires from <= |dirs|
    ensures r.Some? ==> from <= r.value && r.value + 1 < |dirs| && FlipAt(dirs, r.value)
    ensures r.Some? ==> forall i :: from <= i < r.value ==> !FlipAt(dirs, i)
    ensures r.None? ==> forall i :: from <= i && i + 1 < |dirs| ==> !FlipAt(dirs, i)
    decreases |dirs| - from
  {
    if from + 1 >= |dirs| then None
    else if FlipAt(dirs, from) then Some(from)
    else UpperEnd(dirs, from + 1)
  }

  function Reverse<T>(s: seq<T>): (r: seq<T>)
    ensures |r| == |s| && forall i :: 0 <= i < |s| ==> r[i] == s[|s| - 1 - i]
  {
    if |s| == 0 then [] else Reverse(s[1..]) + [s[0]]
  }

  function Zip(xs: seq<real>, ys: seq<real>): (r: seq<Point>)
    ensures |r| == if |xs| < |ys| then |xs| else |ys|
    ensures forall i :: 0 <= i < |r| ==> r[i] == Point(xs[i], ys[i])
  {
    seq(if |xs| < |ys| then |xs| else |ys|, i requires 0 <= i < |xs| && 0 <= i < |ys| => Point(xs[i], ys[i]))
  }

  function Min(a: nat, b: nat): nat { if a < b then a else b }

  /** The run as it is, or reversed. */
  function Orient(run: seq<Point>, flip: bool): (r: seq<Point>)
    ensures |r| == |run|
  {
    if flip then Reverse(run) else run
  }

  /** The upper and the lower run before the trailing-edge blend. Fewer than
      two x values, no outright flip, or an empty run raises IndexError. */
  function Runs(xs: seq<real>, ys: seq<real>): (r: Result<(seq<Point>, seq<Point>)>)
    ensures r.Ok? ==> |r.value.0| > 0 && |r.value.1| > 0
    ensures r.Fail? ==> r.exc == IndexError
  {
    if |xs| < 2 then Fail(IndexError)
    else
      var dirs := Directions(xs);
      match UpperEnd(dirs, 0)
      case None => Fail(IndexError)
      case Some(k) =>
        var coords := Zip(xs, ys);
        var cut := Min(k + 1, |coords|);
        var upper := Orient(coords[..cut], dirs[0] != -1);
        var lower := Orient(coords[cut..], dirs[|dirs| - 1] != 1);
        if |upper| == 0 || |lower| == 0 then Fail(IndexError) else Ok((upper, lower))
  }

  /** The direction of the step in x from `run[i - 1]` to `run[i]`. */
  function XStep(run: seq<Point>, i: nat): int
    requires 1 <= i < |run|
  {
    Sign(run[i].x - run[i - 1].x)
  }

  predicate Decreasing(run: seq<Point>)
  {
    forall i :: 1 <= i < |run| ==> XStep(run, i) == -1
  }

  predicate Increasing(run: seq<Point>)
  {
    forall i :: 1 <= i < |run| ==> XStep(run, i) == 1
  }

  predicate NoZeroStep(xs: seq<real>)
  {
    forall i :: 1 <= i < |xs| ==> Step(xs, i) != 0
  }

  /** When both coordinate lists have the same length, the runs are the
      points up to the flip and the points after it, each reversed or not
      according to the first and the last direction. */
  lemma RunsShape(xs: seq<real>, ys: seq<real>)
    requires |xs| == |ys| && Runs(xs, ys).Ok?
    ensures |xs| >= 2 && UpperEnd(Directions(xs), 0).Some?
    ensures var dirs := Directions(xs);
      var k := UpperEnd(dirs, 0).value;
      var pts := Zip(xs, ys);
      k + 1 < |pts| &&
      Runs(xs, ys).value.0 == Orient(pts[..k + 1], dirs[0] != -1) &&
      Runs(xs, ys).value.1 == Orient(pts[k + 1..], dirs[|dirs| - 1] != 1)
  {
  }

  lemma NonZeroDirections(xs: seq<real>)
    requires |xs| >= 2 && NoZeroStep(xs)
    ensures forall i :: 0 <= i < |xs| ==> Directions(xs)[i] == 1 || Directions(xs)[i] == -1
  {
    var dirs := Directions(xs);
    forall i | 0 <= i < |xs|
      ensures dirs[i] == 1 || dirs[i] == -1
    {
      assert dirs[if i == 0 then 1 else i] == Step(xs, if i == 0 then 1 else i);
    }
  }

  /** A run whose every step goes in direction `d` comes out with x
      decreasing once it is reversed when `d` is not -1. */
  lemma OrientedDecreasing(run: seq<Point>, d: int)
    requires d == 1 || d == -1
    requires forall i :: 1 <= i < |run| ==> XStep(run, i) == d
    ensures Decreasing(Orient(run, d != -1))
  {
    if d == 1 {
      var rev := Reverse(run);
      forall i | 1 <= i < |rev|
        ensures XStep(rev, i) == -1
      {
        var j := |run| - i;
        assert XStep(run, j) == 1;
        assert rev[i] == run[j - 1] && rev[i - 1] == run[j];
      }
    }
  }

  /** A run whose every step goes in direction `d` comes out with x
      increasing once it is reversed when `d` is not 1. */
  lemma OrientedIncreasing(run: seq<Point>, d: int)
    requires d == 1 || d == -1
    requires forall i :: 1 <= i < |run| ==> XStep(run, i) == d
    ensures Increasing(Orient(run, d != 1))
  {
    if d == -1 {
      var rev := Reverse(run);
      forall i | 1 <= i < |rev|
        ensures XStep(rev, i) == 1
      {
        var j := |run| - i;
        assert XStep(run, j) == -1;
        assert rev[i] == run[j - 1] && rev[i - 1] == run[j];
      }
    }
  }

  /** Up to the first outright flip, with no zero step, the direction stays
      at its first value. */
  lemma SameDirection(dirs: seq<int>, k: nat)
    requires k + 1 < |dirs| && dirs[0] == dirs[1]
    requires forall i :: 0 <= i < |dirs| ==> dirs[i] == 1 || dirs[i] == -1
    requires forall i :: 0 <= i < k ==> !FlipAt(dirs, i)
    ensures forall i :: 0 <= i <= k ==> dirs[i] == dirs[0]
  {
    var i := 0;
    while i < k
      invariant i <= k && forall j :: 0 <= j <= i ==> dirs[j] == dirs[0]
    {
      assert !FlipAt(dirs, i);
      i := i + 1;
    }
  }

  /** After the first flip, with no further flip and no zero step, the
      direction stays at its last value. */
  lemma SameDirectionAfter(dirs: seq<int>, k: nat)
    requires k + 1 < |dirs|
    requires forall i :: 0 <= i < |dirs| ==> dirs[i] == 1 || dirs[i] == -1
    requires UpperEnd(dirs, k + 1).None?
    ensures forall i :: k + 1 <= i < |dirs| ==> dirs[i] == dirs[|dirs| - 1]
  {
    var i := |dirs| - 1;
    while i > k + 1
      invariant k + 1 <= i <= |dirs| - 1 && forall j :: i <= j < |dirs| ==> dirs[j] == dirs[|dirs| - 1]
    {
      assert !FlipAt(dirs, i - 1);
      i := i - 1;
    }
  }

  /** With no two successive x values equal, the points before the first flip
      all move the same way, so the upper run comes out ordered from the
      trailing edge towards the leading edge (x decreasing). */
  lemma UpperRunDecreasing(xs: seq<real>, ys: seq<real>)
    requires |xs| == |ys| && Runs(xs, ys).Ok? && NoZeroStep(xs)
    ensures Decreasing(Runs(xs, ys).value.0)
  {
    RunsShape(xs, ys);
    NonZeroDirections(xs);
    var dirs := Directions(xs);
    var k := UpperEnd(dirs, 0).value;
    SameDirection(dirs, k);
    var upper := Zip(xs, ys)[..k + 1];
    forall i | 1 <= i < |upper|
      ensures XStep(upper, i) == dirs[0]
    {
      assert dirs[i] == Step(xs, i);
    }
    OrientedDecreasing(upper, dirs[0]);
  }

  /** The points from `k + 1` on step in x the way the directions say. */
  lemma TailSteps(xs: seq<real>, ys: seq<real>, k: nat, d: int, lower: seq<Point>)
    requires |xs| == |ys| && |xs| >= 2 && k + 1 < |xs| && lower == Zip(xs, ys)[k + 1..]
    requires forall i :: k + 1 <= i < |xs| ==> Directions(xs)[i] == d
    ensures forall i :: 1 <= i < |lower| ==> XStep(lower, i) == d
  {
    forall i | 1 <= i < |lower|
      ensures XStep(lower, i) == d
    {
      assert Directions(xs)[k + 1 + i] == Step(xs, k + 1 + i);
    }
  }

  /** A lower run with no further flip, and no zero step, comes out ordered
      from the leading edge towards the trailing edge (x increasing). */
  lemma LowerRunIncreasing(xs: seq<real>, ys: seq<real>)
    requires |xs| == |ys| && Runs(xs, ys).Ok? && NoZeroStep(xs)
    requires UpperEnd(Directions(xs), UpperEnd(Directions(xs), 0).value + 1).None?
    ensures Increasing(Runs(xs, ys).value.1)
  {
    RunsShape(xs, ys);
    NonZeroDirections(xs);
    var dirs := Directions(xs);
    var k := UpperEnd(dirs, 0).value;
    SameDirectionAfter(dirs, k);
    TailSteps(xs, ys, k, dirs[|dirs| - 1], Zip(xs, ys)[k + 1..]);
    OrientedIncreasing(Zip(xs, ys)[k + 1..], dirs[|dirs| - 1]);
  }

  // ---------------------------------------------------------------- trailing-edge blend

  const BLEND_START: real := 0.7
  const LOWER_BLEND_START: real := 0.8

  /** The share of the gap correction a point at `x` receives: 0 at the blend
      start, all of it at x = 1. */
  function Ramp(totalDy: real, x: real): real
  {
    totalDy * (x - BLEND_START) / (1.0 - BLEND_START)
  }

  function Raised(p: Point, totalDy: real): Point
  {
    if p.x > BLEND_START then Point(p.x, p.y + Ramp(totalDy, p.x)) else p
  }

  function Lowered(p: Point, totalDy: real): Point
  {
    if p.x > LOWER_BLEND_START then Point(p.x, p.y - Ramp(totalDy, p.x)) else p
  }

  /** Upper points aft of x = 0.7 rise by their share of the correction. */
  function RaiseRun(run: seq<Point>, totalDy: real): (r: seq<Point>)
    ensures |r| == |run|
    ensures forall i :: 0 <= i < |run| ==> r[i].x == run[i].x
    ensures forall i :: 0 <= i < |run| && run[i].x <= BLEND_START ==> r[i] == run[i]
  {
    seq(|run|, i requires 0 <= i < |run| => Raised(run[i], totalDy))
  }

  /** Lower points aft of x = 0.8 drop by their share of the correction. */
  function LowerRun(run: seq<Point>, totalDy: real): (r: seq<Point>)
    ensures |r| == |run|
    ensures forall i :: 0 <= i < |run| ==> r[i].x == run[i].x
    ensures forall i :: 0 <= i < |run| && run[i].x <= LOWER_BLEND_START ==> r[i] == run[i]
  {
    seq(|run|, i requires 0 <= i < |run| => Lowered(run[i], totalDy))
  }

  /** The trailing-edge gap: first upper y minus last lower y. */
  function Gap(upper: seq<Point>, lower: seq<Point>): real
    requires |upper| > 0 && |lower| > 0
  {
    upper[0].y - lower[|lower| - 1].y
  }

  /** The blend moves the points of `upper` and `lower` in place. */
  method BlendTrailingEdge(upper: array<Point>, lower: array<Point>, teGapSet: real)
    requires upper.Length > 0 && lower.Length > 0 && upper != lower
    modifies upper, lower
    ensures (upper[..], lower[..]) == Blended(old(upper[..]), old(lower[..]), teGapSet)
  {
    var gap := upper[0].y - lower[lower.Length - 1].y;
    if gap != teGapSet {
      var totalDy := (teGapSet - gap) / 2.0;
      RaiseUpper(upper, totalDy);
      LowerLower(lower, totalDy);
    }
  }

  /** The loop over the upper surface: each point past the blend start is
      raised by its share of the correction. */
  method RaiseUpper(upper: array<Point>, totalDy: real)
    modifies upper
    ensures upper[..] == RaiseRun(old(upper[..]), totalDy)
  {
    ghost var up0 := upper[..];
    for i := 0 to upper.Length
      invariant upper[..i] == RaiseRun(up0[..i], totalDy)
      invariant upper[i..] == up0[i..]
    {
      assert upper[i] == up0[i];
      var p := upper[i];
      if p.x > BLEND_START {
        upper[i] := Point(p.x, p.y + Ramp(totalDy, p.x));
      }
      assert upper[..i + 1] == upper[..i] + [upper[i]];
      assert upper[i + 1..] == up0[i + 1..];
    }
    assert upper[..] == upper[..upper.Length];
    assert up0 == up0[..upper.Length];
  }

  /** The loop over the lower surface: each point past its blend start is
      lowered by its share of the correction. */
  method LowerLower(lower: array<Point>, totalDy: real)
    modifies lower
    ensures lower[..] == LowerRun(old(lower[..]), totalDy)
  {
    ghost var lo0 := lower[..];
    for i := 0 to lower.Length
      invariant lower[..i] == LowerRun(lo0[..i], totalDy)
      invariant lower[i..] == lo0[i..]
    {
      assert lower[i] == lo0[i];
      var p := lower[i];
      if p.x > LOWER_BLEND_START {
        lower[i] := Point(p.x, p.y - Ramp(totalDy, p.x));
      }
      assert lower[..i + 1] == lower[..i] + [lower[i]];
      assert lower[i + 1..] == lo0[i + 1..];
    }
    assert lower[..] == lower[..lower.Length];
    assert lo0 == lo0[..lower.Length];
  }

  /** When both trailing-edge points sit at x = 1 the blended gap is exactly
      the requested one, whatever the gap was before. */
  lemma BlendSetsGap(upper: seq<Point>, lower: seq<Point>, teGapSet: real)
    requires |upper| > 0 && |lower| > 0
    requires upper[0].x == 1.0 && lower[|lower| - 1].x == 1.0
    ensures var totalDy := (teGapSet - Gap(upper, lower)) / 2.0;
      Gap(RaiseRun(upper, totalDy), LowerRun(lower, totalDy)) == teGapSet
  {
    var totalDy := (teGapSet - Gap(upper, lower)) / 2.0;
    assert Ramp(totalDy, 1.0) == totalDy;
  }

  // ---------------------------------------------------------------- rejoin

  /** The contour from the upper trailing edge round to the lower one; a
      leading-edge point that ends the upper run and starts the lower run is
      kept once. */
  function Rejoin(upper: seq<Point>, lower: seq<Point>): (r: seq<Point>)
    requires |upper| > 0 && |lower| > 0
    ensures |upper| <= |r| && r[..|upper|] == upper
    ensures upper[|upper| - 1] == lower[0] ==> r == upper + lower[1..]
    ensures upper[|upper| - 1] != lower[0] ==> r == upper + lower
  {
    if upper[|upper| - 1] == lower[0] then upper + lower[1..] else upper + lower
  }

  function Xs(pts: seq<Point>): (r: seq<real>)
    ensures |r| == |pts| && forall i :: 0 <= i < |pts| ==> r[i] == pts[i].x
  {
    seq(|pts|, i requires 0 <= i < |pts| => pts[i].x)
  }

  function Ys(pts: seq<Point>): (r: seq<real>)
    ensures |r| == |pts| && forall i :: 0 <= i < |pts| ==> r[i] == pts[i].y
  {
    seq(|pts|, i requires 0 <= i < |pts| => pts[i].y)
  }

  /** The blended runs, as the reader leaves them before joining. */
  function Blended(upper: seq<Point>, lower: seq<Point>, teGapSet: real): (r: (seq<Point>, seq<Point>))
    requires |upper| > 0 && |lower| > 0
    ensures |r.0| == |upper| && |r.1| == |lower|
    ensures forall i :: 0 <= i < |upper| ==> r.0[i].x == upper[i].x
    ensures forall i :: 0 <= i < |lower| ==> r.1[i].x == lower[i].x
  {
    var gap := Gap(upper, lower);
    if gap == teGapSet then (upper, lower)
    else (RaiseRun(upper, (teGapSet - gap) / 2.0), LowerRun(lower, (teGapSet - gap) / 2.0))
  }

  /** The joined contour of the parsed rows. */
  function Contour(rows: seq<(real, real)>, teGapSet: real): (r: Result<seq<Point>>)
    ensures r.Fail? <==> Runs(AtMostOne(Firsts(rows)), AtMostOne(Seconds(rows))).Fail?
    ensures r.Fail? ==> r.exc == IndexError
    ensures r.Ok? ==> var upper := Runs(AtMostOne(Firsts(rows)), AtMostOne(Seconds(rows))).value.0;
      |upper| <= |r.value| && forall i :: 0 <= i < |upper| ==> r.value[i].x == upper[i].x
  {
    var runs := Runs(AtMostOne(Firsts(rows)), AtMostOne(Seconds(rows)));
    if runs.Fail? then Fail(IndexError)
    else
      var (u, l) := Blended(runs.value.0, runs.value.1, teGapSet);
      Ok(Rejoin(u, l))
  }

  /** The text split into lines as the reader does it. */
  function Lines(txt: string): (r: seq<string>)
    ensures |r| > 0
  {
    Split(StripChars(txt, {' '}), "\n")
  }

  /** `read_airfoil_coordinate_file` from the file text: the name, and the x
      and y arrays of the joined, blended contour. */
  method ReadAirfoilCoordinateFile(txt: string, teGapSet: real)
    returns (r: Result<(string, seq<real>, seq<real>)>)
    ensures Rows(Lines(txt)).Fail? ==> r == Fail(ValueError)
    ensures Rows(Lines(txt)).Ok? ==>
      r == match Contour(Rows(Lines(txt)).value, teGapSet)
        case Fail(e) => Fail(e)
        case Ok(c) => Ok((StripChars(Lines(txt)[0], {' '}), Xs(c), Ys(c)))
  {
    var lines := Lines(txt);
    var read := ReadLines(lines);
    if read.Fail? {
      return Fail(ValueError);
    }
    var (name, xs, ys) := read.value;
    var runs := Runs(xs, ys);
    if runs.Fail? {
      return Fail(IndexError);
    }
    var joined := BlendAndJoin(runs.value.0, runs.value.1, teGapSet);
    return Ok((name, Xs(joined), Ys(joined)));
  }

  /** The runs copied into arrays, blended in place and joined. */
  method BlendAndJoin(u0: seq<Point>, l0: seq<Point>, teGapSet: real) returns (joined: seq<Point>)
    requires |u0| > 0 && |l0| > 0
    ensures var (u, l) := Blended(u0, l0, teGapSet); joined == Rejoin(u, l)
  {
    var upper := new Point[|u0|](i requires 0 <= i < |u0| => u0[i]);
    var lower := new Point[|l0|](i requires 0 <= i < |l0| => l0[i]);
    assert upper[..] == u0 && lower[..] == l0;
    BlendTrailingEdge(upper, lower, teGapSet);
    joined := Rejoin(upper[..], lower[..]);
  }
}
