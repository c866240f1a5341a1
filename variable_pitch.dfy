/**
 * The discrete parts of the variable-pitch mapping script: the linear pitch
 * profile along x, the generation of the point grid (constant pitch in y,
 * position-dependent pitch in x, optional forced edges), the evaluator of the
 * polynomial at the generated points and the layout of the mapping file it
 * writes. The script imports the fitting script, and so does this module.
 */
module VariablePitch {
  import opened Polynomial
  import SurfaceFit

  /** Slack of the loop guards: a value up to Eps past the maximum is still emitted, clamped. */
  const Eps: real := 0.000000000001

  /** Distance under which the last emitted value already counts as the domain edge. */
  const EdgeTol: real := 0.000000001

  function Min(a: real, b: real): real
  {
    if a <= b then a else b
  }

  function Max(a: real, b: real): real
  {
    if a >= b then a else b
  }

  function Abs(a: real): real
  {
    if a < 0.0 then -a else a
  }

  /** numpy's clip to [0, 1]. */
  function Clip01(t: real): real
  {
    if t < 0.0 then 0.0 else if t > 1.0 then 1.0 else t
  }

  /** The errors the script raises (both are ValueError in the script). */
  datatype Error = NonPositivePitch | WrongConstantCount

  datatype Result<T> = Ok(value: T) | Err(error: Error)

  // ---------------------------------------------------------------------------
  // Pitch profile
  // ---------------------------------------------------------------------------

  lemma MulNonNeg(u: real, v: real)
    requires 0.0 <= u && 0.0 <= v
    ensures 0.0 <= u * v
  {
  }

  /** A convex combination of a and b lies between them. */
  lemma Lerp(a: real, b: real, t: real)
    requires 0.0 <= t <= 1.0
    ensures Min(a, b) <= a * (1.0 - t) + b * t <= Max(a, b)
  {
    var d := b - a;
    assert a * (1.0 - t) + b * t == a + t * d;
    assert (1.0 - t) * d == d - t * d;
    if 0.0 <= d {
      MulNonNeg(t, d);
      MulNonNeg(1.0 - t, d);
    } else {
      MulNonNeg(t, -d);
      MulNonNeg(1.0 - t, -d);
      assert t * (-d) == -(t * d);
      assert (1.0 - t) * (-d) == -((1.0 - t) * d);
    }
  }

  /** The sign facts of the position parameter (x - x_min) / (x_max - x_min). */
  lemma QuotientBounds(n: real, d: real)
    requires d != 0.0
    ensures 0.0 < d && n <= 0.0 ==> n / d <= 0.0
    ensures 0.0 < d && d <= n ==> 1.0 <= n / d
  {
    if 0.0 < d {
      var r := 1.0 / d;
      assert n / d == n * r;
      if n <= 0.0 {
        MulNonNeg(-n, r);
      }
      if d <= n {
        MulNonNeg(n - d, r);
        assert d * r == 1.0;
        assert (n - d) * r == n * r - d * r;
      }
    }
  }

  /**
   * The pitch at x: p_start at x_min, p_end at x_max, linear in between and
   * constant outside, since the position parameter is clipped to [0, 1]. A
   * degenerate interval gives p_start. The pitch always lies between p_start
   * and p_end, so it is at least min(p_start, p_end).
   */
  function LinearPitchX(x: real, xMin: real, xMax: real, pStart: real, pEnd: real): (p: real)
    ensures xMax == xMin ==> p == pStart
    ensures Min(pStart, pEnd) <= p <= Max(pStart, pEnd)
    ensures xMin < xMax && x <= xMin ==> p == pStart
    ensures xMin < xMax && xMax <= x ==> p == pEnd
  {
    if xMax == xMin then pStart
    else
      var u := (x - xMin) / (xMax - xMin);
      var t := Clip01(u);
      Lerp(pStart, pEnd, t);
      QuotientBounds(x - xMin, xMax - xMin);
      pStart * (1.0 - t) + pEnd * t
  }

  // ---------------------------------------------------------------------------
  // The two walks
  // ---------------------------------------------------------------------------

  /** With a step of at least unit, the room left shrinks by at least one unit. */
  lemma StepDown(room: real, step: real, unit: real)
    requires 0.0 < unit <= step
    ensures room >= 0.0 ==> room / unit >= 0.0
    ensures (room - step) / unit <= room / unit - 1.0
  {
    assert (room - step) / unit == room / unit - step / unit;
    assert step / unit >= 1.0;
  }

  /**
   * The values the y loop appends, from y on: min(y, y_max), then y + p_y,
   * and so on, as long as the unclamped value is at most y_max + Eps.
   */
  function YWalk(y: real, yMax: real, pY: real): seq<real>
    requires pY > 0.0
    decreases (yMax + Eps - y) / pY
  {
    if y <= yMax + Eps then
      StepDown(yMax + Eps - y, pY, pY);
      [Min(y, yMax)] + YWalk(y + pY, yMax, pY)
    else []
  }

  /**
   * The values the x loop of one row appends, from x on: each step is the
   * pitch at the current, unclamped x (forward Euler on the pitch profile).
   */
  function XWalk(x: real, xMin: real, xMax: real, pStart: real, pEnd: real): seq<real>
    requires pStart > 0.0 && pEnd > 0.0
    decreases (xMax + Eps - x) / Min(pStart, pEnd)
  {
    if x <= xMax + Eps then
      var step := LinearPitchX(x, xMin, xMax, pStart, pEnd);
      StepDown(xMax + Eps - x, step, Min(pStart, pEnd));
      [Min(x, xMax)] + XWalk(x + step, xMin, xMax, pStart, pEnd)
    else []
  }

  /** include_edges: the edge is appended unless the last value is within EdgeTol of it. */
  function WithEdge(s: seq<real>, edge: real, includeEdges: bool): seq<real>
    requires includeEdges ==> |s| > 0
  {
    if includeEdges && Abs(s[|s| - 1] - edge) > EdgeTol then s + [edge] else s
  }

  /** The y value of every row. */
  function Ys(yMin: real, yMax: real, pY: real, includeEdges: bool): seq<real>
    requires pY > 0.0
    requires includeEdges ==> yMin <= yMax + Eps
  {
    WithEdge(YWalk(yMin, yMax, pY), yMax, includeEdges)
  }

  /** The x values of a row; every row has the same ones. */
  function Row(xMin: real, xMax: real, pStart: real, pEnd: real, includeEdges: bool): seq<real>
    requires pStart > 0.0 && pEnd > 0.0
    requires includeEdges ==> xMin <= xMax + Eps
  {
    WithEdge(XWalk(xMin, xMin, xMax, pStart, pEnd), xMax, includeEdges)
  }

  predicate NonDecreasing(s: seq<real>)
  {
    forall k, l :: 0 <= k < l < |s| ==> s[k] <= s[l]
  }

  predicate Within(s: seq<real>, lo: real, hi: real)
  {
    forall k :: 0 <= k < |s| ==> lo <= s[k] <= hi
  }

  lemma {:induction false} YWalkShape(y: real, yMax: real, pY: real)
    requires pY > 0.0
    ensures |YWalk(y, yMax, pY)| > 0 <==> y <= yMax + Eps
    ensures |YWalk(y, yMax, pY)| > 0 ==> YWalk(y, yMax, pY)[0] == Min(y, yMax)
    ensures Within(YWalk(y, yMax, pY), Min(y, yMax), yMax)
    ensures NonDecreasing(YWalk(y, yMax, pY))
    decreases (yMax + Eps - y) / pY
  {
    if y <= yMax + Eps {
      StepDown(yMax + Eps - y, pY, pY);
      YWalkShape(y + pY, yMax, pY);
    }
  }

  lemma {:induction false} XWalkShape(x: real, xMin: real, xMax: real, pStart: real, pEnd: real)
    requires pStart > 0.0 && pEnd > 0.0
    ensures |XWalk(x, xMin, xMax, pStart, pEnd)| > 0 <==> x <= xMax + Eps
    ensures |XWalk(x, xMin, xMax, pStart, pEnd)| > 0 ==> XWalk(x, xMin, xMax, pStart, pEnd)[0] == Min(x, xMax)
    ensures Within(XWalk(x, xMin, xMax, pStart, pEnd), Min(x, xMax), xMax)
    ensures NonDecreasing(XWalk(x, xMin, xMax, pStart, pEnd))
    decreases (xMax + Eps - x) / Min(pStart, pEnd)
  {
    if x <= xMax + Eps {
      var step := LinearPitchX(x, xMin, xMax, pStart, pEnd);
      StepDown(xMax + Eps - x, step, Min(pStart, pEnd));
      XWalkShape(x + step, xMin, xMax, pStart, pEnd);
    }
  }

  /** Below y_max the rows are exactly p_y apart. */
  lemma {:induction false} YWalkSpacing(y: real, yMax: real, pY: real, k: nat)
    requires pY > 0.0
    requires k + 1 < |YWalk(y, yMax, pY)| && YWalk(y, yMax, pY)[k + 1] < yMax
    ensures YWalk(y, yMax, pY)[k + 1] == YWalk(y, yMax, pY)[k] + pY
    decreases (yMax + Eps - y) / pY
  {
    StepDown(yMax + Eps - y, pY, pY);
    if k > 0 {
      YWalkSpacing(y + pY, yMax, pY, k - 1);
    } else {
      YWalkShape(y + pY, yMax, pY);
    }
  }

  /**
   * Below x_max each x is the previous one plus the pitch at the previous one:
   * the spacing follows the pitch profile by forward Euler steps, each at
   * least min(p_start, p_end).
   */
  lemma {:induction false} XWalkSpacing(x: real, xMin: real, xMax: real, pStart: real, pEnd: real, k: nat)
    requires pStart > 0.0 && pEnd > 0.0
    requires k + 1 < |XWalk(x, xMin, xMax, pStart, pEnd)| && XWalk(x, xMin, xMax, pStart, pEnd)[k + 1] < xMax
    ensures XWalk(x, xMin, xMax, pStart, pEnd)[k + 1]
      == XWalk(x, xMin, xMax, pStart, pEnd)[k] + LinearPitchX(XWalk(x, xMin, xMax, pStart, pEnd)[k], xMin, xMax, pStart, pEnd)
    decreases (xMax + Eps - x) / Min(pStart, pEnd)
  {
    var step := LinearPitchX(x, xMin, xMax, pStart, pEnd);
    StepDown(xMax + Eps - x, step, Min(pStart, pEnd));
    if k > 0 {
      XWalkSpacing(x + step, xMin, xMax, pStart, pEnd, k - 1);
    } else {
      XWalkShape(x + step, xMin, xMax, pStart, pEnd);
    }
  }

  /**
   * The rows: for y_min <= y_max the first is y_min, all lie in
   * [y_min, y_max], in non-decreasing order; with include_edges the last is
   * within EdgeTol of y_max. The edge is appended to what the loop produced
   * only with include_edges, and only when the loop's last value is more than
   * EdgeTol away from it.
   */
  lemma YsShape(yMin: real, yMax: real, pY: real, includeEdges: bool)
    requires pY > 0.0 && yMin <= yMax
    ensures |Ys(yMin, yMax, pY, includeEdges)| > 0
    ensures Ys(yMin, yMax, pY, includeEdges)[0] == yMin
    ensures Within(Ys(yMin, yMax, pY, includeEdges), yMin, yMax)
    ensures NonDecreasing(Ys(yMin, yMax, pY, includeEdges))
    ensures includeEdges ==> Abs(Ys(yMin, yMax, pY, includeEdges)[|Ys(yMin, yMax, pY, includeEdges)| - 1] - yMax) <= EdgeTol
    ensures !includeEdges ==> Ys(yMin, yMax, pY, includeEdges) == YWalk(yMin, yMax, pY)
    ensures includeEdges && Abs(YWalk(yMin, yMax, pY)[|YWalk(yMin, yMax, pY)| - 1] - yMax) <= EdgeTol
      ==> Ys(yMin, yMax, pY, includeEdges) == YWalk(yMin, yMax, pY)
    ensures includeEdges && Abs(YWalk(yMin, yMax, pY)[|YWalk(yMin, yMax, pY)| - 1] - yMax) > EdgeTol
      ==> Ys(yMin, yMax, pY, includeEdges) == YWalk(yMin, yMax, pY) + [yMax]
  {
    YWalkShape(yMin, yMax, pY);
  }

  /**
   * One row: for x_min <= x_max it starts at x_min, lies in [x_min, x_max],
   * is non-decreasing, and with include_edges ends within EdgeTol of x_max.
   * The edge is appended only with include_edges, and only when the loop's
   * last value is more than EdgeTol away from it.
   */
  lemma RowShape(xMin: real, xMax: real, pStart: real, pEnd: real, includeEdges: bool)
    requires pStart > 0.0 && pEnd > 0.0 && xMin <= xMax
    ensures |Row(xMin, xMax, pStart, pEnd, includeEdges)| > 0
    ensures Row(xMin, xMax, pStart, pEnd, includeEdges)[0] == xMin
    ensures Within(Row(xMin, xMax, pStart, pEnd, includeEdges), xMin, xMax)
    ensures NonDecreasing(Row(xMin, xMax, pStart, pEnd, includeEdges))
    ensures includeEdges ==> Abs(Row(xMin, xMax, pStart, pEnd, includeEdges)[|Row(xMin, xMax, pStart, pEnd, includeEdges)| - 1] - xMax) <= EdgeTol
    ensures !includeEdges ==> Row(xMin, xMax, pStart, pEnd, includeEdges) == XWalk(xMin, xMin, xMax, pStart, pEnd)
    ensures includeEdges && Abs(XWalk(xMin, xMin, xMax, pStart, pEnd)[|XWalk(xMin, xMin, xMax, pStart, pEnd)| - 1] - xMax) <= EdgeTol
      ==> Row(xMin, xMax, pStart, pEnd, includeEdges) == XWalk(xMin, xMin, xMax, pStart, pEnd)
    ensures includeEdges && Abs(XWalk(xMin, xMin, xMax, pStart, pEnd)[|XWalk(xMin, xMin, xMax, pStart, pEnd)| - 1] - xMax) > EdgeTol
      ==> Row(xMin, xMax, pStart, pEnd, includeEdges) == XWalk(xMin, xMin, xMax, pStart, pEnd) + [xMax]
  {
    XWalkShape(xMin, xMin, xMax, pStart, pEnd);
  }

  // ---------------------------------------------------------------------------
  // The flattened grid
  // ---------------------------------------------------------------------------

  /** The flattened coordinate arrays the generator returns. */
  datatype Points = Points(xs: seq<real>, ys: seq<real>)

  function Repeat(v: real, n: nat): seq<real>
  {
    seq(n, _ => v)
  }

  /** X of the first n rows: the row's x values, once per row. */
  function RepeatRows(row: seq<real>, n: nat): seq<real>
  {
    if n == 0 then [] else RepeatRows(row, n - 1) + row
  }

  /** Y of the rows ys: each row's y, once per x value of the row. */
  function RowYs(ys: seq<real>, width: nat): seq<real>
  {
    if |ys| == 0 then [] else RowYs(ys[..|ys| - 1], width) + Repeat(ys[|ys| - 1], width)
  }

  /** The grid of the rows ys, each holding the x values of row. */
  function Grid(ys: seq<real>, row: seq<real>): Points
  {
    Points(RepeatRows(row, |ys|), RowYs(ys, |row|))
  }

  lemma {:induction false} GridLength(ys: seq<real>, row: seq<real>)
    ensures |Grid(ys, row).xs| == |ys| * |row|
    ensures |Grid(ys, row).ys| == |ys| * |row|
  {
    if |ys| > 0 {
      GridLength(ys[..|ys| - 1], row);
      SurfaceFit.MulSucc(|ys| - 1, |row|);
    }
  }

  /**
   * Row i of the grid occupies positions i·|row| .. (i+1)·|row| - 1 of both
   * arrays: there X holds the row's x values and Y holds ys[i] throughout.
   * So X and Y have equal length, every point pairs an x of the row with its
   * row's y, and the rows appear in the order of ys.
   */
  lemma {:induction false} GridLayout(ys: seq<real>, row: seq<real>, i: nat, start: nat)
    requires i < |ys| && start == i * |row|
    ensures |Grid(ys, row).xs| == |Grid(ys, row).ys| == |ys| * |row|
    ensures start + |row| <= |ys| * |row|
    ensures Grid(ys, row).xs[start .. start + |row|] == row
    ensures Grid(ys, row).ys[start .. start + |row|] == Repeat(ys[i], |row|)
  {
    var n := |ys|;
    var init := ys[..n - 1];
    GridLength(ys, row);
    GridLength(init, row);
    SurfaceFit.MulSucc(i, |row|);
    SurfaceFit.MulLe(i + 1, n, |row|);
    var xs, ys' := RepeatRows(row, n - 1), RowYs(init, |row|);
    assert RepeatRows(row, n) == xs + row;
    assert RowYs(ys, |row|) == ys' + Repeat(ys[n - 1], |row|);
    if i < n - 1 {
      GridLayout(init, row, i, start);
      SurfaceFit.MulLe(i + 1, n - 1, |row|);
      assert (xs + row)[start .. start + |row|] == xs[start .. start + |row|];
      assert (ys' + Repeat(ys[n - 1], |row|))[start .. start + |row|] == ys'[start .. start + |row|];
    } else {
      assert |xs| == start;
      assert (xs + row)[start .. start + |row|] == row;
      assert (ys' + Repeat(ys[n - 1], |row|))[start .. start + |row|] == Repeat(ys[n - 1], |row|);
    }
  }

  // ---------------------------------------------------------------------------
  // The generator
  // ---------------------------------------------------------------------------

  predicate PositivePitches(pStart: real, pEnd: real, pY: real)
  {
    pStart > 0.0 && pEnd > 0.0 && pY > 0.0
  }

  /** The y loop of generate_points, then the forced top edge. */
  method YValues(yMin: real, yMax: real, pY: real, includeEdges: bool) returns (ys: seq<real>)
    requires pY > 0.0
    requires includeEdges ==> yMin <= yMax + Eps
    ensures ys == Ys(yMin, yMax, pY, includeEdges)
  {
    ys := [];
    var y := yMin;
    while y <= yMax + Eps
      invariant YWalk(yMin, yMax, pY) == ys + YWalk(y, yMax, pY)
      decreases (yMax + Eps - y) / pY
    {
      StepDown(yMax + Eps - y, pY, pY);
      ghost var rest := YWalk(y + pY, yMax, pY);
      assert YWalk(y, yMax, pY) == [Min(y, yMax)] + rest;
      assert ys + ([Min(y, yMax)] + rest) == (ys + [Min(y, yMax)]) + rest;
      ys := ys + [Min(y, yMax)];
      y := y + pY;
    }
    assert YWalk(y, yMax, pY) == [];
    assert ys + [] == ys;
    assert ys == YWalk(yMin, yMax, pY);
    assert includeEdges ==> |ys| > 0;
    if includeEdges && Abs(ys[|ys| - 1] - yMax) > EdgeTol {
      ys := ys + [yMax];
    }
  }

  /** The x loop of one row of generate_points, then the forced right edge. */
  method XValues(xMin: real, xMax: real, pStart: real, pEnd: real, includeEdges: bool) returns (row: seq<real>)
    requires pStart > 0.0 && pEnd > 0.0
    requires includeEdges ==> xMin <= xMax + Eps
    ensures row == Row(xMin, xMax, pStart, pEnd, includeEdges)
  {
    row := [];
    var x := xMin;
    while x <= xMax + Eps
      invariant XWalk(xMin, xMin, xMax, pStart, pEnd) == row + XWalk(x, xMin, xMax, pStart, pEnd)
      decreases (xMax + Eps - x) / Min(pStart, pEnd)
    {
      var step := LinearPitchX(x, xMin, xMax, pStart, pEnd);
      StepDown(xMax + Eps - x, step, Min(pStart, pEnd));
      ghost var rest := XWalk(x + step, xMin, xMax, pStart, pEnd);
      assert XWalk(x, xMin, xMax, pStart, pEnd) == [Min(x, xMax)] + rest;
      assert row + ([Min(x, xMax)] + rest) == (row + [Min(x, xMax)]) + rest;
      row := row + [Min(x, xMax)];
      x := x + step;
    }
    assert XWalk(x, xMin, xMax, pStart, pEnd) == [];
    assert row + [] == row;
    assert row == XWalk(xMin, xMin, xMax, pStart, pEnd);
    assert includeEdges ==> |row| > 0;
    if includeEdges && Abs(row[|row| - 1] - xMax) > EdgeTol {
      row := row + [xMax];
    }
  }

  /**
   * generate_points on the domain (x_min, x_max, y_min, y_max). A
   * non-positive pitch is rejected before anything is generated; otherwise
   * the result is the grid of the rows Ys, each holding the x values Row,
   * recomputed for every row as the script does. The requires is the
   * script's own demand: with include_edges it indexes the last y and the
   * last x of a row, which exist only when the domain is not inverted by
   * more than Eps.
   */
  method GeneratePoints(xMin: real, xMax: real, yMin: real, yMax: real,
                        pStart: real, pEnd: real, pY: real, includeEdges: bool)
    returns (r: Result<Points>)
    requires PositivePitches(pStart, pEnd, pY) && includeEdges ==> yMin <= yMax + Eps && xMin <= xMax + Eps
    ensures r.Err? <==> !PositivePitches(pStart, pEnd, pY)
    ensures r.Err? ==> r.error == NonPositivePitch
    ensures r.Ok? ==> r.value == Grid(Ys(yMin, yMax, pY, includeEdges), Row(xMin, xMax, pStart, pEnd, includeEdges))
  {
    if pStart <= 0.0 || pEnd <= 0.0 || pY <= 0.0 {
      return Err(NonPositivePitch);
    }
    var ys := YValues(yMin, yMax, pY, includeEdges);
    ghost var wanted := Row(xMin, xMax, pStart, pEnd, includeEdges);
    var xList: seq<real> := [];
    var yList: seq<real> := [];
    for i := 0 to |ys|
      invariant xList == RepeatRows(wanted, i)
      invariant yList == RowYs(ys[..i], |wanted|)
    {
      var row := XValues(xMin, xMax, pStart, pEnd, includeEdges);
      xList := xList + row;
      assert ys[..i + 1][..i] == ys[..i];
      yList := yList + Repeat(ys[i], |row|);
    }
    assert ys[..|ys|] == ys;
    r := Ok(Points(xList, yList));
  }

  // ---------------------------------------------------------------------------
  // Evaluation at the generated points
  // ---------------------------------------------------------------------------

  /**
   * eval_poly2d: the same running-index loop as the fitting script's
   * evaluator, so it computes the same polynomial value.
   */
  method EvalPoly2D(coeffs: seq<real>, xNorm: real, yNorm: real, order: nat) returns (z: real)
    requires NumTerms(order) <= |coeffs|
    ensures z == PolyValue(coeffs, xNorm, yNorm, order)
  {
    z := 0.0;
    var idx := 0;
    for i := 0 to order + 1
      invariant idx == RowStart(order, i)
      invariant z == RowsSum(coeffs, xNorm, yNorm, order, i)
    {
      RowStartMonotone(order, i + 1, order + 1);
      for j := 0 to order + 1 - i
        invariant idx == RowStart(order, i) + j
        invariant z == RowsSum(coeffs, xNorm, yNorm, order, i) + RowSum(coeffs, RowStart(order, i), xNorm, yNorm, i, j)
      {
        assert coeffs[idx] * Pow(xNorm, i) * Pow(yNorm, j) == coeffs[idx] * Monomial(xNorm, yNorm, (i, j));
        z := z + coeffs[idx] * Pow(xNorm, i) * Pow(yNorm, j);
        idx := idx + 1;
      }
    }
  }

  /** The evaluators of the two scripts agree on every input. */
  method EvaluatorsAgree(coeffs: seq<real>, x: real, y: real, order: nat) returns (zFit: real, zPitch: real)
    requires NumTerms(order) <= |coeffs|
    ensures zFit == zPitch
  {
    zFit := SurfaceFit.EvaluateFittedSurface(coeffs, x, y, order);
    zPitch := EvalPoly2D(coeffs, x, y, order);
  }

  // ---------------------------------------------------------------------------
  // The mapping file
  // ---------------------------------------------------------------------------

  /**
   * A whitespace-separated field of a mapping-file line: the point count of
   * the first line, a formatted coordinate, or one of the constant strings.
   */
  datatype Token = Count(n: nat) | Num(value: real) | Word(text: string)

  function Words(extra: seq<string>): seq<Token>
  {
    seq(|extra|, k requires 0 <= k < |extra| => Word(extra[k]))
  }

  /** zip(X, Y, Z) stops at the shortest of the three. */
  function ZipLength(xs: seq<real>, ys: seq<real>, zs: seq<real>): nat
  {
    if |xs| <= |ys| && |xs| <= |zs| then |xs| else if |ys| <= |zs| then |ys| else |zs|
  }

  /** One data line: x y z followed by the constants. */
  function MappingRow(x: real, y: real, z: real, extra: seq<string>): seq<Token>
  {
    [Num(x), Num(y), Num(z)] + Words(extra)
  }

  /** The lines written: the count len(X), then one line per zipped point. */
  function MappingLines(xs: seq<real>, ys: seq<real>, zs: seq<real>, extra: seq<string>): seq<seq<Token>>
  {
    [[Count(|xs|)]] + seq(ZipLength(xs, ys, zs), k requires 0 <= k < ZipLength(xs, ys, zs) =>
      MappingRow(xs[k], ys[k], zs[k], extra))
  }

  /**
   * write_opt3d_mapping: anything but exactly 9 constants is rejected before
   * anything is written; otherwise the header holds n = len(X) and every
   * zipped point gives one line of 3 + 9 fields, x y z and then the constants.
   */
  method WriteOpt3dMapping(xs: seq<real>, ys: seq<real>, zs: seq<real>, extra: seq<string>)
    returns (r: Result<seq<seq<Token>>>)
    ensures r.Err? <==> |extra| != 9
    ensures r.Err? ==> r.error == WrongConstantCount
    ensures r.Ok? ==> r.value == MappingLines(xs, ys, zs, extra)
    ensures r.Ok? ==> |r.value| == 1 + ZipLength(xs, ys, zs) && r.value[0] == [Count(|xs|)]
    ensures r.Ok? ==> forall k :: 1 <= k < |r.value| ==>
      |r.value[k]| == 12 && r.value[k][..3] == [Num(xs[k - 1]), Num(ys[k - 1]), Num(zs[k - 1])] && r.value[k][3..] == Words(extra)
  {
    if |extra| != 9 {
      return Err(WrongConstantCount);
    }
    var n := |xs|;
    var lines: seq<seq<Token>> := [[Count(n)]];
    var k := 0;
    while k < ZipLength(xs, ys, zs)
      invariant k <= ZipLength(xs, ys, zs)
      invariant |lines| == 1 + k && lines[0] == [Count(n)]
      invariant forall m :: 0 <= m < k ==> lines[m + 1] == MappingRow(xs[m], ys[m], zs[m], extra)
    {
      lines := lines + [MappingRow(xs[k], ys[k], zs[k], extra)];
      k := k + 1;
    }
    assert lines == MappingLines(xs, ys, zs, extra);
    r := Ok(lines);
  }

  /**
   * Whether the count line matches the data lines: it does exactly when X is
   * not longer than Y and Z (zip stops at the shortest array, the count is
   * len(X)).
   */
  lemma HeaderCountsRows(xs: seq<real>, ys: seq<real>, zs: seq<real>, extra: seq<string>)
    ensures MappingLines(xs, ys, zs, extra)[0] == [Count(|xs|)]
    ensures |xs| == |MappingLines(xs, ys, zs, extra)| - 1 <==> |xs| <= |ys| && |xs| <= |zs|
  {
  }

  /**
   * Reading a written mapping file back with the fitting script's reader
   * gives every written point, in order: the count line is skipped and every
   * data line has at least three fields, of which x y z are kept.
   */
  lemma ReadBack(xs: seq<real>, ys: seq<real>, zs: seq<real>, extra: seq<string>)
    ensures |SurfaceFit.ReadPoints(MappingLines(xs, ys, zs, extra))| == ZipLength(xs, ys, zs)
    ensures forall k :: 0 <= k < ZipLength(xs, ys, zs) ==>
      SurfaceFit.ReadPoints(MappingLines(xs, ys, zs, extra))[k] == [Num(xs[k]), Num(ys[k]), Num(zs[k])]
  {
    var lines := MappingLines(xs, ys, zs, extra);
    var body := lines[1..];
    assert forall k :: 0 <= k < |body| ==> body[k] == MappingRow(xs[k], ys[k], zs[k], extra);
    SurfaceFit.KeepPointsAllWide(body);
    forall k | 0 <= k < ZipLength(xs, ys, zs)
      ensures SurfaceFit.ReadPoints(lines)[k] == [Num(xs[k]), Num(ys[k]), Num(zs[k])]
    {
      assert body[k][..3] == [Num(xs[k]), Num(ys[k]), Num(zs[k])];
    }
  }
}
