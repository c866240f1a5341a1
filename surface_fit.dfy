/**
 * The discrete parts of the surface-fitting script: the design matrix of the
 * least-squares fit, the evaluator of the fitted surface, the triangulation
 * of the regular evaluation grid, the filter that turns the lines of a
 * mapping file into points, and the domain bounds of the exported model.
 */
module SurfaceFit {
  import opened Polynomial

  // ---------------------------------------------------------------------------
  // Design matrix and evaluation
  // ---------------------------------------------------------------------------

  /** The design-matrix column of the exponent pair e: x^i·y^j at every point. */
  function Column(xs: seq<real>, ys: seq<real>, e: (nat, nat)): seq<real>
    requires |xs| == |ys|
  {
    seq(|xs|, p requires 0 <= p < |xs| => Monomial(xs[p], ys[p], e))
  }

  /**
   * The matrix has one row per point and (order+1)(order+2)/2 columns; column
   * k of the row of point p is the monomial of the k-th exponent pair of the
   * i-outer / j-inner enumeration, evaluated at that point.
   */
  method BuildDesignMatrix(xs: seq<real>, ys: seq<real>, order: nat) returns (rows: seq<seq<real>>)
    requires |xs| == |ys|
    ensures |rows| == |xs|
    ensures forall p :: 0 <= p < |rows| ==> |rows[p]| == (order + 1) * (order + 2) / 2
    ensures forall p :: 0 <= p < |rows| ==> rows[p] == Monomials(xs[p], ys[p], Exponents(order))
  {
    var terms: seq<seq<real>> := [];
    for i := 0 to order + 1
      invariant |terms| == |ExponentsUpTo(order, i)|
      invariant forall k :: 0 <= k < |terms| ==> terms[k] == Column(xs, ys, ExponentsUpTo(order, i)[k])
    {
      ghost var done := ExponentsUpTo(order, i);
      for j := 0 to order + 1 - i
        invariant |terms| == |done + RowExponents(i, j)|
        invariant forall k :: 0 <= k < |terms| ==> terms[k] == Column(xs, ys, (done + RowExponents(i, j))[k])
      {
        terms := terms + [Column(xs, ys, (i, j))];
        assert done + RowExponents(i, j + 1) == (done + RowExponents(i, j)) + [(i, j)];
      }
      assert ExponentsUpTo(order, i + 1) == done + RowExponents(i, order + 1 - i);
    }
    rows := seq(|xs|, p requires 0 <= p < |xs| => seq(|terms|, k requires 0 <= k < |terms| => terms[k][p]));
    ExponentsCount(order);
  }

  /**
   * The running-index loop of the fitting script computes the polynomial's
   * value at one point; each coefficient is read at the index its exponent
   * pair has in the enumeration.
   */
  method EvaluateFittedSurface(coeffs: seq<real>, x: real, y: real, order: nat) returns (z: real)
    requires NumTerms(order) <= |coeffs|
    ensures z == PolyValue(coeffs, x, y, order)
  {
    z := 0.0;
    var idx := 0;
    for i := 0 to order + 1
      invariant idx == RowStart(order, i)
      invariant z == RowsSum(coeffs, x, y, order, i)
    {
      RowStartMonotone(order, i + 1, order + 1);
      for j := 0 to order + 1 - i
        invariant idx == RowStart(order, i) + j
        invariant z == RowsSum(coeffs, x, y, order, i) + RowSum(coeffs, RowStart(order, i), x, y, i, j)
      {
        assert coeffs[idx] * Pow(x, i) * Pow(y, j) == coeffs[idx] * Monomial(x, y, (i, j));
        z := z + coeffs[idx] * Pow(x, i) * Pow(y, j);
        idx := idx + 1;
      }
    }
  }

  // ---------------------------------------------------------------------------
  // Triangulation of the res_x × res_y vertex grid
  // ---------------------------------------------------------------------------

  /** A triangle given by three vertex indices into the flattened grid. */
  datatype Face = Face(a: nat, b: nat, c: nat)

  /** The cells along an axis of n vertices: Python's range(n - 1) is empty when n is 0. */
  function Cells(n: nat): nat
  {
    if n == 0 then 0 else n - 1
  }

  /** The two triangles of cell (i, j), split along the diagonal idx + 1 / idx + resY. */
  function CellFaces(i: nat, j: nat, resY: nat): seq<Face>
  {
    var idx := i * resY + j;
    [Face(idx, idx + 1, idx + resY), Face(idx + 1, idx + resY + 1, idx + resY)]
  }

  /** The faces of cells 0 .. n - 1 of grid row i. */
  function RowFaces(i: nat, resY: nat, n: nat): seq<Face>
  {
    if n == 0 then [] else RowFaces(i, resY, n - 1) + CellFaces(i, n - 1, resY)
  }

  /** The faces of grid rows 0 .. m - 1, in the order the nested loops append them. */
  function GridFaces(resY: nat, m: nat): seq<Face>
  {
    if m == 0 then [] else GridFaces(resY, m - 1) + RowFaces(m - 1, resY, Cells(resY))
  }

  /** A face whose three indices are distinct vertices of a grid of n vertices. */
  predicate ProperFace(f: Face, n: nat)
  {
    f.a < n && f.b < n && f.c < n && f.a != f.b && f.b != f.c && f.a != f.c
  }

  method Triangulate(resX: nat, resY: nat) returns (faces: seq<Face>)
    ensures faces == GridFaces(resY, Cells(resX))
  {
    faces := [];
    for i := 0 to Cells(resX)
      invariant faces == GridFaces(resY, i)
    {
      for j := 0 to Cells(resY)
        invariant faces == GridFaces(resY, i) + RowFaces(i, resY, j)
      {
        var idx := i * resY + j;
        faces := faces + [Face(idx, idx + 1, idx + resY)];
        faces := faces + [Face(idx + 1, idx + resY + 1, idx + resY)];
      }
    }
  }

  lemma {:induction false} RowFacesCount(i: nat, resY: nat, n: nat)
    ensures |RowFaces(i, resY, n)| == 2 * n
  {
    if n > 0 {
      RowFacesCount(i, resY, n - 1);
    }
  }

  lemma {:induction false} GridFacesCount(resY: nat, m: nat)
    ensures |GridFaces(resY, m)| == 2 * (m * Cells(resY))
  {
    if m > 0 {
      GridFacesCount(resY, m - 1);
      RowFacesCount(m - 1, resY, Cells(resY));
      MulSucc(m - 1, Cells(resY));
    }
  }

  /** The grid has exactly 2·(res_x−1)·(res_y−1) triangles (none when an axis has no cells). */
  lemma FaceCount(resX: nat, resY: nat)
    ensures |GridFaces(resY, Cells(resX))| == 2 * Cells(resX) * Cells(resY)
    ensures 1 <= resX && 1 <= resY ==> |GridFaces(resY, Cells(resX))| == 2 * (resX - 1) * (resY - 1)
  {
    GridFacesCount(resY, Cells(resX));
  }

  lemma MulSucc(a: nat, b: nat)
    ensures (a + 1) * b == a * b + b
  {
  }

  lemma MulLe(a: nat, b: nat, c: nat)
    requires a <= b
    ensures a * c <= b * c
  {
  }

  /** Both triangles of an interior cell are proper faces of the grid. */
  lemma CellFacesProper(resX: nat, resY: nat, i: nat, j: nat)
    requires i < Cells(resX) && j < Cells(resY)
    ensures forall k :: 0 <= k < 2 ==> ProperFace(CellFaces(i, j, resY)[k], resX * resY)
  {
    MulLe(i + 1, resX - 1, resY);
    assert (i + 1) * resY == i * resY + resY;
    assert (resX - 1) * resY == resX * resY - resY;
  }

  lemma {:induction false} RowFacesProper(resX: nat, resY: nat, i: nat, n: nat)
    requires i < Cells(resX) && n <= Cells(resY)
    ensures forall k :: 0 <= k < |RowFaces(i, resY, n)| ==> ProperFace(RowFaces(i, resY, n)[k], resX * resY)
  {
    if n > 0 {
      RowFacesProper(resX, resY, i, n - 1);
      CellFacesProper(resX, resY, i, n - 1);
      var prefix, cell := RowFaces(i, resY, n - 1), CellFaces(i, n - 1, resY);
      forall k | 0 <= k < |prefix + cell|
        ensures ProperFace((prefix + cell)[k], resX * resY)
      {
        if k >= |prefix| {
          assert (prefix + cell)[k] == cell[k - |prefix|];
        }
      }
    }
  }

  lemma {:induction false} GridFacesProper(resX: nat, resY: nat, m: nat)
    requires m <= Cells(resX)
    ensures forall k :: 0 <= k < |GridFaces(resY, m)| ==> ProperFace(GridFaces(resY, m)[k], resX * resY)
  {
    if m > 0 {
      GridFacesProper(resX, resY, m - 1);
      RowFacesProper(resX, resY, m - 1, Cells(resY));
      var prefix, row := GridFaces(resY, m - 1), RowFaces(m - 1, resY, Cells(resY));
      forall k | 0 <= k < |prefix + row|
        ensures ProperFace((prefix + row)[k], resX * resY)
      {
        if k >= |prefix| {
          assert (prefix + row)[k] == row[k - |prefix|];
        }
      }
    }
  }

  /**
   * Every face index lies in [0, res_x·res_y) and every face has three
   * distinct indices.
   */
  lemma FacesProper(resX: nat, resY: nat)
    ensures forall k :: 0 <= k < |GridFaces(resY, Cells(resX))| ==>
      ProperFace(GridFaces(resY, Cells(resX))[k], resX * resY)
  {
    GridFacesProper(resX, resY, Cells(resX));
  }

  lemma {:induction false} RowFacesAt(i: nat, resY: nat, n: nat, j: nat)
    requires j < n
    ensures 2 * j + 1 < |RowFaces(i, resY, n)|
    ensures RowFaces(i, resY, n)[2 * j] == CellFaces(i, j, resY)[0]
    ensures RowFaces(i, resY, n)[2 * j + 1] == CellFaces(i, j, resY)[1]
  {
    RowFacesCount(i, resY, n - 1);
    if j < n - 1 {
      RowFacesAt(i, resY, n - 1, j);
    }
  }

  lemma ConcatAt<T>(p: seq<T>, q: seq<T>, k: nat)
    requires k < |p| + |q|
    ensures (p + q)[k] == if k < |p| then p[k] else q[k - |p|]
  {
  }

  lemma {:induction false} GridFacesAt(resY: nat, m: nat, i: nat, j: nat, k: nat)
    requires i < m && j < Cells(resY) && k == 2 * (i * Cells(resY) + j)
    ensures k + 1 < |GridFaces(resY, m)|
    ensures GridFaces(resY, m)[k] == CellFaces(i, j, resY)[0]
    ensures GridFaces(resY, m)[k + 1] == CellFaces(i, j, resY)[1]
  {
    var c := Cells(resY);
    var prefix, row := GridFaces(resY, m - 1), RowFaces(m - 1, resY, c);
    assert GridFaces(resY, m) == prefix + row;
    RowFacesCount(m - 1, resY, c);
    if i < m - 1 {
      GridFacesAt(resY, m - 1, i, j, k);
      ConcatAt(prefix, row, k);
      ConcatAt(prefix, row, k + 1);
    } else {
      GridFacesCount(resY, m - 1);
      assert |prefix| == 2 * (i * c);
      RowFacesAt(i, resY, c, j);
      ConcatAt(prefix, row, k);
      ConcatAt(prefix, row, k + 1);
    }
  }

  /**
   * Cell (i, j), with idx = i·res_y + j, contributes the faces
   * (idx, idx+1, idx+res_y) and (idx+1, idx+res_y+1, idx+res_y), at
   * positions 2·(i·(res_y−1) + j) and the one after it (row-major cell order).
   */
  lemma FacesOfCell(resX: nat, resY: nat, i: nat, j: nat)
    requires i < Cells(resX) && j < Cells(resY)
    ensures 2 * (i * Cells(resY) + j) + 1 < |GridFaces(resY, Cells(resX))|
    ensures GridFaces(resY, Cells(resX))[2 * (i * Cells(resY) + j)]
      == Face(i * resY + j, i * resY + j + 1, i * resY + j + resY)
    ensures GridFaces(resY, Cells(resX))[2 * (i * Cells(resY) + j) + 1]
      == Face(i * resY + j + 1, i * resY + j + resY + 1, i * resY + j + resY)
  {
    GridFacesAt(resY, Cells(resX), i, j, 2 * (i * Cells(resY) + j));
  }

  // ---------------------------------------------------------------------------
  // Reading the input mapping file
  // ---------------------------------------------------------------------------

  /**
   * The list comprehension over the data lines (each given as its
   * whitespace-separated fields): lines with fewer than three fields are
   * dropped and the others cut to their first three fields, in line order.
   */
  function KeepPoints<T>(lines: seq<seq<T>>): (points: seq<seq<T>>)
    ensures |points| <= |lines|
    ensures forall k :: 0 <= k < |points| ==> |points[k]| == 3
  {
    if |lines| == 0 then []
    else (if |lines[0]| >= 3 then [lines[0][..3]] else []) + KeepPoints(lines[1..])
  }

  /** The points of a mapping file: the first line (the count) is skipped. */
  function ReadPoints<T>(fileLines: seq<seq<T>>): seq<seq<T>>
  {
    if |fileLines| == 0 then [] else KeepPoints(fileLines[1..])
  }

  /**
   * Filtering commutes with concatenation: together with the one-line case
   * (KeepOneLine) this says the result is, in line order, the first three
   * fields of every line that has at least three.
   */
  lemma {:induction false} KeepPointsAppend<T>(a: seq<seq<T>>, b: seq<seq<T>>)
    ensures KeepPoints(a + b) == KeepPoints(a) + KeepPoints(b)
  {
    if |a| > 0 {
      assert (a + b)[1..] == a[1..] + b;
      KeepPointsAppend(a[1..], b);
    } else {
      assert a + b == b;
    }
  }

  lemma KeepOneLine<T>(line: seq<T>)
    ensures KeepPoints([line]) == if |line| >= 3 then [line[..3]] else []
  {
    assert [line][1..] == [];
  }

  /** When every data line has at least three fields, each yields exactly one point. */
  lemma {:induction false} KeepPointsAllWide<T>(lines: seq<seq<T>>)
    requires forall k :: 0 <= k < |lines| ==> |lines[k]| >= 3
    ensures |KeepPoints(lines)| == |lines|
    ensures forall k :: 0 <= k < |lines| ==> KeepPoints(lines)[k] == lines[k][..3]
  {
    if |lines| > 0 {
      KeepPointsAllWide(lines[1..]);
      assert KeepPoints(lines) == [lines[0][..3]] + KeepPoints(lines[1..]);
    }
  }

  /** The header line never contributes a point, whatever it holds. */
  lemma ReadPointsSkipsHeader<T>(header: seq<T>, body: seq<seq<T>>)
    ensures ReadPoints([header] + body) == KeepPoints(body)
  {
    assert ([header] + body)[1..] == body;
  }

  // ---------------------------------------------------------------------------
  // The exported model record
  // ---------------------------------------------------------------------------

  /** The fields of the model JSON written by the fitting script. */
  datatype FitModel = FitModel(
    order: nat, coeffs: seq<real>,
    xMean: real, xStd: real, yMean: real, yStd: real,
    xMin: real, xMax: real, yMin: real, yMax: real)

  function SeqMin(s: seq<real>): (m: real)
    requires |s| > 0
    ensures m in s && forall v :: v in s ==> m <= v
  {
    if |s| == 1 then s[0]
    else
      var rest := SeqMin(s[1..]);
      assert forall v :: v in s ==> v == s[0] || v in s[1..];
      if s[0] <= rest then s[0] else rest
  }

  function SeqMax(s: seq<real>): (m: real)
    requires |s| > 0
    ensures m in s && forall v :: v in s ==> v <= m
  {
    if |s| == 1 then s[0]
    else
      var rest := SeqMax(s[1..]);
      assert forall v :: v in s ==> v == s[0] || v in s[1..];
      if s[0] >= rest then s[0] else rest
  }

  /**
   * The record's bounds are the minimum and maximum of the raw coordinates,
   * so x_min <= x_max and y_min <= y_max and every point lies inside them.
   * The coefficients and the normalisation constants come from the
   * least-squares solve and the mean/std computation, which are parameters.
   */
  function ModelRecord(order: nat, coeffs: seq<real>, xMean: real, xStd: real, yMean: real, yStd: real,
                       xRaw: seq<real>, yRaw: seq<real>): (m: FitModel)
    requires |xRaw| > 0 && |yRaw| > 0
    ensures m.xMin <= m.xMax && m.yMin <= m.yMax
    ensures m.xMin in xRaw && m.xMax in xRaw && m.yMin in yRaw && m.yMax in yRaw
    ensures forall v :: v in xRaw ==> m.xMin <= v <= m.xMax
    ensures forall v :: v in yRaw ==> m.yMin <= v <= m.yMax
  {
    FitModel(order, coeffs, xMean, xStd, yMean, yStd, SeqMin(xRaw), SeqMax(xRaw), SeqMin(yRaw), SeqMax(yRaw))
  }
}
