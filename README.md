# Polynomial surface and variable-pitch mapping, modelled in Dafny

This project models the discrete core of two scripts. Both work on Speos
`.OPT3DMapping` files, which hold a count line followed by lines of
`x y z` and nine orientation constants.

- **The fitting script** (`A_1_Create_stl_polynomial_surface.py`):
  - reads the points of an input mapping file;
  - builds the design matrix of a bivariate polynomial of total order `order`;
  - evaluates the fitted polynomial;
  - triangulates a `res_x × res_y` grid of surface vertices into an STL mesh;
  - records the fitted model, including its coordinate bounds.
- **The variable-pitch script** (`A_2_Create_a_variable_pitch_from_the_polynomial_surface.py`):
  - generates a point grid whose pitch is constant in y and varies linearly with position in x;
  - evaluates the polynomial at those points;
  - writes them as a new mapping file.

Floats are modelled as Dafny `real`. The tolerances `1e-12` (loop slack) and
`1e-9` (edge tolerance) are exact real constants. numpy's elementwise
operations are modelled pointwise.

Modules:

- **`Polynomial`** (`polynomial.dfy`). Holds the coefficient layout both
  scripts share:
  - the exponent pairs `(i, j)`, with `i` outer over `0..order` and `j`
    inner over `0..order-i`;
  - the running coefficient index `RowStart(order, i) + j`;
  - the term count `(order+1)(order+2)/2`;
  - the value `PolyValue`, a double sum that reads coefficients in the
    order the evaluators' nested loops do.

  It proves that this value is the dot product of the coefficients with the
  design-matrix row of the point. It also proves which coefficients are read
  and what the constant term contributes.
- **`SurfaceFit`** (`surface_fit.dfy`). Models the fitting script:
  - the nested loops of `build_design_matrix` and `evaluate_fitted_surface`;
  - the face loop of `create_polynomial_surface`;
  - the input-line filter;
  - the bounds of the model record.
- **`VariablePitch`** (`variable_pitch.dfy`). Models the variable-pitch
  script and imports `SurfaceFit` as that script imports the fitting script:
  - `linear_pitch_x`;
  - the y loop, x loop and row assembly of `generate_points`;
  - `eval_poly2d`;
  - the validation and line layout of `write_opt3d_mapping`.

The loops of the scripts are Dafny methods with loops over the same
variables: the design-matrix and evaluator loops, the face loop, the y and x
loops of `generate_points` and the writing loop of `write_opt3d_mapping`.
Each is proved equal to a recursive function, and the lemmas state the
scripts' promises about that function:

- the walks `YWalk`/`XWalk` and the edge rule `WithEdge`;
- the grid `Grid`;
- the face list `GridFaces`;
- the file lines `MappingLines`.

The input list comprehension is the recursive function `KeepPoints`, and
`ReadPoints` applies it to the file's lines after the first, as
`readlines()[1:]` does; their properties are the `KeepPoints…` and
`ReadPointsSkipsHeader` lemmas. The minimum and maximum calls of the model
record are the functions `SeqMin` and `SeqMax`.

## Model

| member | source | states |
|---|---|---|
| Polynomial.NumTermsFormula | ansys_optical_automation/application/A_1_Create_stl_polynomial_surface.py:35-36 | the nested ranges enumerate exactly (order+1)(order+2)/2 exponent pairs |
| Polynomial.RowStartClosedForm | ansys_optical_automation/application/A_1_Create_stl_polynomial_surface.py:60-64 | the running index at the start of row i is i(2·order+3−i)/2, the number of pairs in rows 0..i−1 |
| Polynomial.ExponentsCount | ansys_optical_automation/application/A_1_Create_stl_polynomial_surface.py:34-38 | the enumerated exponent list has (order+1)(order+2)/2 entries, the term count |
| Polynomial.ExponentsAt | ansys_optical_automation/application/A_1_Create_stl_polynomial_surface.py:34-38 | for every i+j ≤ order, the pair at position RowStart(order,i)+j of the enumeration is (i, j): column/coefficient k belongs to the k-th pair, i outer, j inner |
| Polynomial.ExponentsSorted | ansys_optical_automation/application/A_1_Create_stl_polynomial_surface.py:35-36 | every enumerated pair has i+j ≤ order and the enumeration is strictly increasing in lexicographic (i, j) order, so no pair repeats |
| Polynomial.DotRow | ansys_optical_automation/application/A_1_Create_stl_polynomial_surface.py:62-64 | appending a row's monomials to a design row adds that row's coefficient-weighted sum, with coefficients read from the running index |
| Polynomial.RowsSumIsDot | ansys_optical_automation/application/A_1_Create_stl_polynomial_surface.py:59-65 | after any number of complete i-rows the accumulated z equals the dot product of the coefficients with the design-row prefix of those rows |
| Polynomial.PolyValueIsDot | ansys_optical_automation/application/A_1_Create_stl_polynomial_surface.py:59-65 | evaluating the polynomial equals the dot product of the coefficients with the design-matrix row of the same (x, y) |
| Polynomial.PolyValueReadsPrefix | ansys_optical_automation/application/A_2_Create_a_variable_pitch_from_the_polynomial_surface.py:124-128 | evaluation reads only the first (order+1)(order+2)/2 coefficients: two coefficient lists agreeing there give the same value everywhere |
| Polynomial.ConstantTerm | ansys_optical_automation/application/A_1_Create_stl_polynomial_surface.py:59-65 | coeffs[0] is the constant term: when every other coefficient read is 0 the value is coeffs[0] at every point (so all-zero coefficients give 0) |
| SurfaceFit.BuildDesignMatrix | ansys_optical_automation/application/A_1_Create_stl_polynomial_surface.py:34-38 | one row per point, each of width (order+1)(order+2)/2, holding x^i·y^j for the enumerated pairs in order (the transpose of the stacked columns) |
| SurfaceFit.EvaluateFittedSurface | ansys_optical_automation/application/A_1_Create_stl_polynomial_surface.py:59-65 | the nested loop with the running index computes the polynomial value, hence (PolyValueIsDot) the dot product with the design row |
| SurfaceFit.Triangulate | ansys_optical_automation/application/A_1_Create_stl_polynomial_surface.py:106-112 | the face loop appends exactly the faces of the grid's cells, row by row, cell by cell, two per cell |
| SurfaceFit.RowFacesCount | ansys_optical_automation/application/A_1_Create_stl_polynomial_surface.py:109-112 | the inner loop over n cells appends 2n faces |
| SurfaceFit.GridFacesCount | ansys_optical_automation/application/A_1_Create_stl_polynomial_surface.py:108-112 | m grid rows give 2·m·(res_y−1) faces |
| SurfaceFit.FaceCount | ansys_optical_automation/application/A_1_Create_stl_polynomial_surface.py:107-112 | the mesh has exactly 2·(res_x−1)·(res_y−1) faces when both resolutions are at least 1, and none when either range is empty |
| SurfaceFit.CellFacesProper | ansys_optical_automation/application/A_1_Create_stl_polynomial_surface.py:110-112 | both triangles of an interior cell have three distinct indices below res_x·res_y |
| SurfaceFit.FacesProper | ansys_optical_automation/application/A_1_Create_stl_polynomial_surface.py:107-112 | every face of the mesh has three distinct vertex indices in [0, res_x·res_y) |
| SurfaceFit.RowFacesAt | ansys_optical_automation/application/A_1_Create_stl_polynomial_surface.py:109-112 | within grid row i, faces 2j and 2j+1 are the two triangles of cell (i, j) |
| SurfaceFit.GridFacesAt | ansys_optical_automation/application/A_1_Create_stl_polynomial_surface.py:108-112 | faces 2(i·(res_y−1)+j) and 2(i·(res_y−1)+j)+1 of the first m rows are the two triangles of cell (i, j) |
| SurfaceFit.FacesOfCell | ansys_optical_automation/application/A_1_Create_stl_polynomial_surface.py:108-112 | for cell (i, j), with idx = i·res_y + j, the mesh holds (idx, idx+1, idx+res_y) and (idx+1, idx+res_y+1, idx+res_y) at positions 2(i·(res_y−1)+j) and the next |
| SurfaceFit.KeepPoints | ansys_optical_automation/application/A_1_Create_stl_polynomial_surface.py:86 | the line filter keeps at most one point per line and every kept point has exactly three fields |
| SurfaceFit.KeepPointsAppend | ansys_optical_automation/application/A_1_Create_stl_polynomial_surface.py:86 | the filter works line by line and preserves line order: filtering a concatenation is the concatenation of the filtered parts |
| SurfaceFit.KeepOneLine | ansys_optical_automation/application/A_1_Create_stl_polynomial_surface.py:86 | a single line is dropped when it has fewer than 3 fields, otherwise cut to its first 3 fields |
| SurfaceFit.KeepPointsAllWide | ansys_optical_automation/application/A_1_Create_stl_polynomial_surface.py:86 | when every line has at least 3 fields, the k-th point is the first three fields of the k-th line |
| SurfaceFit.ReadPointsSkipsHeader | ansys_optical_automation/application/A_1_Create_stl_polynomial_surface.py:83-86 | the first line of the file is ignored whatever it holds; the points come from the remaining lines only |
| SurfaceFit.SeqMin | ansys_optical_automation/application/A_1_Create_stl_polynomial_surface.py:124 | the minimum of a non-empty coordinate list is one of its values and at most every value |
| SurfaceFit.SeqMax | ansys_optical_automation/application/A_1_Create_stl_polynomial_surface.py:125 | the maximum of a non-empty coordinate list is one of its values and at least every value |
| SurfaceFit.ModelRecord | ansys_optical_automation/application/A_1_Create_stl_polynomial_surface.py:117-128 | the record's bounds satisfy x_min ≤ x_max and y_min ≤ y_max, are observed coordinates, and enclose every input point |
| VariablePitch.Lerp | ansys_optical_automation/application/A_2_Create_a_variable_pitch_from_the_polynomial_surface.py:71 | p_start·(1−t) + p_end·t lies between p_start and p_end for t in [0, 1] |
| VariablePitch.LinearPitchX | ansys_optical_automation/application/A_2_Create_a_variable_pitch_from_the_polynomial_surface.py:66-71 | p_start when x_max == x_min; always between p_start and p_end (so at least min(p_start, p_end)); exactly p_start for x ≤ x_min and p_end for x ≥ x_max |
| VariablePitch.YWalkShape | ansys_optical_automation/application/A_2_Create_a_variable_pitch_from_the_polynomial_surface.py:99-103 | the y loop emits something iff it starts at most eps past y_max; it starts with min(y_min, y_max), stays within [min(y_min, y_max), y_max] and never decreases |
| VariablePitch.XWalkShape | ansys_optical_automation/application/A_2_Create_a_variable_pitch_from_the_polynomial_surface.py:109-113 | the x loop of a row emits something iff x_min ≤ x_max + eps; it starts with min(x_min, x_max), stays within [min(x_min, x_max), x_max] and never decreases |
| VariablePitch.YWalkSpacing | ansys_optical_automation/application/A_2_Create_a_variable_pitch_from_the_polynomial_surface.py:101-103 | consecutive rows below y_max are exactly p_y apart |
| VariablePitch.XWalkSpacing | ansys_optical_automation/application/A_2_Create_a_variable_pitch_from_the_polynomial_surface.py:111-113 | below x_max each x is the previous x plus the pitch at the previous x (a forward-Euler step along the pitch profile) |
| VariablePitch.YsShape | ansys_optical_automation/application/A_2_Create_a_variable_pitch_from_the_polynomial_surface.py:99-105 | for y_min ≤ y_max the ys are non-empty, start at y_min, lie in [y_min, y_max], never decrease, and with include_edges end within 1e-9 of y_max; y_max is appended after the loop exactly when include_edges holds and the loop's last y is more than 1e-9 from it, otherwise the ys are the loop's values |
| VariablePitch.RowShape | ansys_optical_automation/application/A_2_Create_a_variable_pitch_from_the_polynomial_surface.py:109-115 | for x_min ≤ x_max a row is non-empty, starts at x_min, lies in [x_min, x_max], never decreases, and with include_edges ends within 1e-9 of x_max; x_max is appended after the loop exactly when include_edges holds and the loop's last x is more than 1e-9 from it, otherwise the row is the loop's values |
| VariablePitch.GridLength | ansys_optical_automation/application/A_2_Create_a_variable_pitch_from_the_polynomial_surface.py:116-118 | X and Y both have |ys|·|row| entries |
| VariablePitch.GridLayout | ansys_optical_automation/application/A_2_Create_a_variable_pitch_from_the_polynomial_surface.py:107-118 | X and Y have equal length; block i of X is the row's x values and block i of Y is ys[i] repeated, so rows appear in ys order, each pairing its x values with its single y |
| VariablePitch.YValues | ansys_optical_automation/application/A_2_Create_a_variable_pitch_from_the_polynomial_surface.py:99-105 | the y loop and the forced top edge compute the ys of the walk specification (terminating: each step shrinks the room left by p_y) |
| VariablePitch.XValues | ansys_optical_automation/application/A_2_Create_a_variable_pitch_from_the_polynomial_surface.py:109-115 | the x loop and the forced right edge compute the row of the walk specification (terminating: each step is at least min(p_start, p_end) > 0) |
| VariablePitch.GeneratePoints | ansys_optical_automation/application/A_2_Create_a_variable_pitch_from_the_polynomial_surface.py:94-118 | fails with the pitch error iff a pitch is ≤ 0, before generating anything; otherwise returns the grid of the ys and the row, recomputed per row |
| VariablePitch.EvalPoly2D | ansys_optical_automation/application/A_2_Create_a_variable_pitch_from_the_polynomial_surface.py:121-129 | the nested loop with the running index computes the polynomial value over the shared coefficient layout |
| VariablePitch.EvaluatorsAgree | ansys_optical_automation/application/A_2_Create_a_variable_pitch_from_the_polynomial_surface.py:121-129 | eval_poly2d and the fitting script's evaluate_fitted_surface return the same value for every input |
| VariablePitch.WriteOpt3dMapping | ansys_optical_automation/application/A_2_Create_a_variable_pitch_from_the_polynomial_surface.py:141-150 | rejects iff the constant list does not have 9 entries, before writing; otherwise writes the count line len(X) and one line per zipped point of 3 + 9 fields, x y z then the constants |
| VariablePitch.HeaderCountsRows | ansys_optical_automation/application/A_2_Create_a_variable_pitch_from_the_polynomial_surface.py:143-148 | the count line holds len(X), and it equals the number of data lines iff X is not longer than Y and Z |
| VariablePitch.ReadBack | ansys_optical_automation/application/A_2_Create_a_variable_pitch_from_the_polynomial_surface.py:147-150 | reading a written mapping file with the fitting script's line filter yields every written (x, y, z), in order |

## Left out

- `np.linalg.lstsq` (the least-squares solve) is not modelled. The coefficients are a parameter of the evaluators and of `ModelRecord`.
- The mean/std normalisation in both scripts, and `np.linspace`/`np.meshgrid`, are float numerics and are not modelled. The evaluators take already-normalised reals, and the face loop takes the grid resolutions as parameters.
- There is no zero-variance error: the script divides by `x_std` and `y_std` and lets numpy produce inf/nan. Normalisation is outside the model.
- There is no check that the coefficient count matches the order: `eval_poly2d` and `evaluate_fitted_surface` index `coeffs` directly. So `EvalPoly2D` and `EvaluateFittedSurface` require at least (order+1)(order+2)/2 coefficients, which is what that indexing needs.
- trimesh construction and STL export are a foreign library and are not modelled. The face list handed to it is modelled.
- JSON dump/load, `os.makedirs`, and opening, reading and writing files are I/O. This includes `ensure_model_json` and the import fallback of the variable-pitch script. The mapping file is modelled as a sequence of lines, each a sequence of tokens.
- The `.6f` decimal rendering of coordinates and `float()` parsing of fields are not modelled. A written coordinate is a `Num` token carrying the real value, so `ReadBack` does not cover formatting precision.
- Both `main()` functions, the hard-coded path constants, and the `X_MIN or …` overrides are configuration plumbing and are not modelled. The same goes for the console messages.
- IEEE rounding is not modelled. Every comparison against `1e-12` and `1e-9` uses exact reals, and so does the accumulation of the walks.
- `EvaluateFittedSurface`, `EvalPoly2D`: the polynomial order is a `nat`. With a negative order the two evaluators run no iterations and return zeros; that case is not modelled.
- `BuildDesignMatrix`: the polynomial order is a `nat`. With a negative order `terms` stays empty and `np.vstack` raises ValueError; that error is not modelled.
- `GeneratePoints`: it requires that, with valid pitches and `include_edges`, `y_min ≤ y_max + 1e-12` and `x_min ≤ x_max + 1e-12`. Otherwise the walk is empty and the script's `ys[-1]` / `row[-1]` fail with IndexError, so this is exactly the condition under which the script completes.
- `SurfaceFit.ModelRecord`: it requires non-empty coordinate lists, as numpy's `min`/`max` raise on empty arrays.
- `WriteOpt3dMapping`: the constants are kept as opaque `Word` tokens. Their contents are not checked, as in the script.
