/**
 * The coefficient layout shared by the fitting script and the mapping script.
 *
 * A total-degree polynomial of order D is stored as a flat coefficient
 * sequence. Both scripts enumerate the exponent pairs (i, j) with the same
 * nested loops: i outer over 0..D, j inner over 0..D-i, with a running index
 * that advances by one per pair. This module states that enumeration, the
 * index at which each row of it starts, and the value of the polynomial as a
 * double sum over the rows; the loops in SurfaceFit and VariablePitch are
 * proved against these definitions.
 */
module Polynomial {

  /** x^n over the reals; like Python's x**0, Pow(x, 0) is 1 for every x. */
  function Pow(x: real, n: nat): real
  {
    if n == 0 then 1.0 else x * Pow(x, n - 1)
  }

  /** Index of the first coefficient of exponent row i, the row of the terms x^i·y^j. */
  function RowStart(order: nat, i: nat): nat
    requires i <= order + 1
  {
    // row i - 1 holds the order + 1 - (i - 1) terms j = 0 .. order - (i - 1)
    if i == 0 then 0 else RowStart(order, i - 1) + (order + 2 - i)
  }

  /** Number of coefficients a polynomial of the given order has. */
  function NumTerms(order: nat): nat
  {
    RowStart(order, order + 1)
  }

  lemma {:induction false} RowStartClosedForm(order: nat, i: nat)
    requires i <= order + 1
    ensures 2 * RowStart(order, i) == i * (2 * order + 3 - i)
  {
    if i > 0 {
      RowStartClosedForm(order, i - 1);
    }
  }

  /** The term count is (order+1)(order+2)/2. */
  lemma NumTermsFormula(order: nat)
    ensures NumTerms(order) == (order + 1) * (order + 2) / 2
  {
    RowStartClosedForm(order, order + 1);
    assert 2 * NumTerms(order) == (order + 1) * (order + 2);
  }

  /** Rows further down the enumeration start at larger indices. */
  lemma {:induction false} RowStartMonotone(order: nat, i: nat, k: nat)
    requires i <= k <= order + 1
    ensures RowStart(order, i) <= RowStart(order, k)
  {
    if i < k {
      RowStartMonotone(order, i, k - 1);
    }
  }

  /** The pairs (i, 0), ..., (i, n - 1): the inner loop over one row. */
  function RowExponents(i: nat, n: nat): seq<(nat, nat)>
  {
    if n == 0 then [] else RowExponents(i, n - 1) + [(i, n - 1)]
  }

  /** The pairs of rows 0 .. m - 1, in the order the nested loops visit them. */
  function ExponentsUpTo(order: nat, m: nat): seq<(nat, nat)>
    requires m <= order + 1
  {
    if m == 0 then [] else ExponentsUpTo(order, m - 1) + RowExponents(m - 1, order + 2 - m)
  }

  /** Every exponent pair of a polynomial of the given order, in coefficient order. */
  function Exponents(order: nat): seq<(nat, nat)>
  {
    ExponentsUpTo(order, order + 1)
  }

  /** Strict lexicographic order on exponent pairs: i first, then j. */
  predicate LexLess(e: (nat, nat), f: (nat, nat))
  {
    e.0 < f.0 || (e.0 == f.0 && e.1 < f.1)
  }

  lemma {:induction false} RowExponentsShape(i: nat, n: nat)
    ensures |RowExponents(i, n)| == n
    ensures forall j :: 0 <= j < n ==> RowExponents(i, n)[j] == (i, j)
  {
    if n > 0 {
      RowExponentsShape(i, n - 1);
    }
  }

  lemma {:induction false} ExponentsUpToLength(order: nat, m: nat)
    requires m <= order + 1
    ensures |ExponentsUpTo(order, m)| == RowStart(order, m)
  {
    if m > 0 {
      ExponentsUpToLength(order, m - 1);
      RowExponentsShape(m - 1, order + 2 - m);
    }
  }

  /** The enumeration has exactly (order+1)(order+2)/2 pairs. */
  lemma ExponentsCount(order: nat)
    ensures |Exponents(order)| == NumTerms(order) == (order + 1) * (order + 2) / 2
  {
    ExponentsUpToLength(order, order + 1);
    NumTermsFormula(order);
  }

  lemma {:induction false} ExponentsUpToAt(order: nat, m: nat, i: nat, j: nat)
    requires i < m <= order + 1 && j <= order - i
    ensures RowStart(order, i) + j < |ExponentsUpTo(order, m)|
    ensures ExponentsUpTo(order, m)[RowStart(order, i) + j] == (i, j)
  {
    ExponentsUpToLength(order, m);
    ExponentsUpToLength(order, m - 1);
    RowExponentsShape(m - 1, order + 2 - m);
    if i < m - 1 {
      ExponentsUpToAt(order, m - 1, i, j);
    }
  }

  /**
   * The pair (i, j) with i + j <= order is the coefficient at the running
   * index RowStart(order, i) + j: every admissible pair is enumerated there.
   */
  lemma ExponentsAt(order: nat, i: nat, j: nat)
    requires i + j <= order
    ensures RowStart(order, i) + j < |Exponents(order)|
    ensures Exponents(order)[RowStart(order, i) + j] == (i, j)
  {
    ExponentsUpToAt(order, order + 1, i, j);
  }

  lemma {:induction false} ExponentsUpToShape(order: nat, m: nat)
    requires m <= order + 1
    ensures forall k :: 0 <= k < |ExponentsUpTo(order, m)| ==>
      ExponentsUpTo(order, m)[k].0 < m && ExponentsUpTo(order, m)[k].0 + ExponentsUpTo(order, m)[k].1 <= order
    ensures forall k, l :: 0 <= k < l < |ExponentsUpTo(order, m)| ==>
      LexLess(ExponentsUpTo(order, m)[k], ExponentsUpTo(order, m)[l])
  {
    if m > 0 {
      ExponentsUpToShape(order, m - 1);
      RowExponentsShape(m - 1, order + 2 - m);
      var prefix, row := ExponentsUpTo(order, m - 1), RowExponents(m - 1, order + 2 - m);
      assert ExponentsUpTo(order, m) == prefix + row;
      forall k, l | 0 <= k < l < |prefix + row|
        ensures LexLess((prefix + row)[k], (prefix + row)[l])
      {
        if l < |prefix| {
          assert (prefix + row)[k] == prefix[k] && (prefix + row)[l] == prefix[l];
        } else if k < |prefix| {
          assert (prefix + row)[k] == prefix[k] && (prefix + row)[l] == row[l - |prefix|];
        } else {
          assert (prefix + row)[k] == row[k - |prefix|] && (prefix + row)[l] == row[l - |prefix|];
        }
      }
    }
  }

  /**
   * Every enumerated pair satisfies i + j <= order, and the pairs come in
   * strictly increasing lexicographic order (i outer, j inner), so none repeats.
   */
  lemma ExponentsSorted(order: nat)
    ensures forall k :: 0 <= k < |Exponents(order)| ==> Exponents(order)[k].0 + Exponents(order)[k].1 <= order
    ensures forall k, l :: 0 <= k < l < |Exponents(order)| ==> LexLess(Exponents(order)[k], Exponents(order)[l])
  {
    ExponentsUpToShape(order, order + 1);
  }

  /** The monomial x^i·y^j of the exponent pair e = (i, j). */
  function Monomial(x: real, y: real, e: (nat, nat)): real
  {
    Pow(x, e.0) * Pow(y, e.1)
  }

  /** The monomials of a list of exponent pairs: one design-matrix row when es is Exponents(order). */
  function Monomials(x: real, y: real, es: seq<(nat, nat)>): seq<real>
  {
    seq(|es|, k requires 0 <= k < |es| => Monomial(x, y, es[k]))
  }

  /** Σ c[k]·v[k] over the indices of v. */
  function Dot(c: seq<real>, v: seq<real>): real
    requires |v| <= |c|
  {
    if |v| == 0 then 0.0 else Dot(c, v[..|v| - 1]) + c[|v| - 1] * v[|v| - 1]
  }

  /** Σ_{j < n} c[base + j]·x^i·y^j: the first n terms of exponent row i. */
  function RowSum(c: seq<real>, base: nat, x: real, y: real, i: nat, n: nat): real
    requires base + n <= |c|
  {
    if n == 0 then 0.0 else RowSum(c, base, x, y, i, n - 1) + c[base + n - 1] * Monomial(x, y, (i, n - 1))
  }

  /** The sum of the complete exponent rows 0 .. m - 1. */
  function RowsSum(c: seq<real>, x: real, y: real, order: nat, m: nat): real
    requires m <= order + 1 && NumTerms(order) <= |c|
  {
    if m == 0 then 0.0
    else
      RowStartMonotone(order, m, order + 1);
      RowsSum(c, x, y, order, m - 1) + RowSum(c, RowStart(order, m - 1), x, y, m - 1, order + 2 - m)
  }

  /**
   * The value of the polynomial with coefficients c at (x, y): the double sum
   * Σ_{i <= order} Σ_{j <= order - i} c[RowStart(order, i) + j]·x^i·y^j.
   */
  function PolyValue(c: seq<real>, x: real, y: real, order: nat): real
    requires NumTerms(order) <= |c|
  {
    RowsSum(c, x, y, order, order + 1)
  }

  lemma {:induction false} DotSnoc(c: seq<real>, u: seq<real>, a: real)
    requires |u| < |c|
    ensures Dot(c, u + [a]) == Dot(c, u) + c[|u|] * a
  {
    assert (u + [a])[..|u|] == u;
  }

  /** DotSnoc in the form the row induction uses: one more term adds c[|u|]·a to a running sum. */
  lemma DotSnocSum(c: seq<real>, v: seq<real>, u: seq<real>, a: real, sum: real)
    requires |u| < |c| && |v| <= |c|
    requires Dot(c, u) == Dot(c, v) + sum
    ensures Dot(c, u + [a]) == Dot(c, v) + (sum + c[|u|] * a)
  {
    DotSnoc(c, u, a);
  }

  lemma MonomialsRowSnoc(x: real, y: real, i: nat, n: nat)
    requires n > 0
    ensures Monomials(x, y, RowExponents(i, n)) == Monomials(x, y, RowExponents(i, n - 1)) + [Monomial(x, y, (i, n - 1))]
  {
    MonomialsAppend(x, y, RowExponents(i, n - 1), [(i, n - 1)]);
  }

  lemma AppendRowSnoc(v: seq<real>, x: real, y: real, i: nat, n: nat)
    requires n > 0
    ensures v + Monomials(x, y, RowExponents(i, n))
         == (v + Monomials(x, y, RowExponents(i, n - 1))) + [Monomial(x, y, (i, n - 1))]
  {
    MonomialsRowSnoc(x, y, i, n);
  }

  /** Appending the monomials of a row to v adds that row's sum, with its coefficients read from index |v|. */
  lemma {:induction false} DotRow(c: seq<real>, v: seq<real>, x: real, y: real, i: nat, n: nat)
    requires |v| + n <= |c|
    ensures |Monomials(x, y, RowExponents(i, n))| == n
    ensures Dot(c, v + Monomials(x, y, RowExponents(i, n))) == Dot(c, v) + RowSum(c, |v|, x, y, i, n)
  {
    RowExponentsShape(i, n);
    if n > 0 {
      DotRow(c, v, x, y, i, n - 1);
      var u := v + Monomials(x, y, RowExponents(i, n - 1));
      var m := Monomial(x, y, (i, n - 1));
      AppendRowSnoc(v, x, y, i, n);
      DotSnocSum(c, v, u, m, RowSum(c, |v|, x, y, i, n - 1));
    } else {
      assert v + Monomials(x, y, RowExponents(i, n)) == v;
    }
  }

  lemma MonomialsAppend(x: real, y: real, a: seq<(nat, nat)>, b: seq<(nat, nat)>)
    ensures Monomials(x, y, a + b) == Monomials(x, y, a) + Monomials(x, y, b)
  {
  }

  /** One more exponent row adds its row sum to both sides. */
  lemma RowsSumStep(c: seq<real>, x: real, y: real, order: nat, m: nat)
    requires 0 < m <= order + 1 && NumTerms(order) <= |c|
    requires |ExponentsUpTo(order, m - 1)| <= |c|
    requires RowsSum(c, x, y, order, m - 1) == Dot(c, Monomials(x, y, ExponentsUpTo(order, m - 1)))
    ensures |ExponentsUpTo(order, m)| <= |c|
    ensures RowsSum(c, x, y, order, m) == Dot(c, Monomials(x, y, ExponentsUpTo(order, m)))
  {
    ExponentsUpToLength(order, m);
    ExponentsUpToLength(order, m - 1);
    RowStartMonotone(order, m, order + 1);
    var prefix := ExponentsUpTo(order, m - 1);
    var row := RowExponents(m - 1, order + 2 - m);
    var v := Monomials(x, y, prefix);
    assert |v| == RowStart(order, m - 1);
    MonomialsAppend(x, y, prefix, row);
    assert Monomials(x, y, ExponentsUpTo(order, m)) == v + Monomials(x, y, row);
    DotRow(c, v, x, y, m - 1, order + 2 - m);
    var r := RowSum(c, RowStart(order, m - 1), x, y, m - 1, order + 2 - m);
    calc {
      RowsSum(c, x, y, order, m);
      RowsSum(c, x, y, order, m - 1) + r;
      Dot(c, v) + r;
      Dot(c, v + Monomials(x, y, row));
      Dot(c, Monomials(x, y, ExponentsUpTo(order, m)));
    }
  }

  lemma {:induction false} RowsSumIsDot(c: seq<real>, x: real, y: real, order: nat, m: nat)
    requires m <= order + 1 && NumTerms(order) <= |c|
    ensures |ExponentsUpTo(order, m)| <= |c|
    ensures RowsSum(c, x, y, order, m) == Dot(c, Monomials(x, y, ExponentsUpTo(order, m)))
  {
    if m > 0 {
      RowsSumIsDot(c, x, y, order, m - 1);
      RowsSumStep(c, x, y, order, m);
    } else {
      assert |Monomials(x, y, ExponentsUpTo(order, m))| == 0;
    }
  }

  /**
   * Evaluation is the dot product of the coefficients with the design-matrix
   * row of the same point.
   */
  lemma PolyValueIsDot(c: seq<real>, x: real, y: real, order: nat)
    requires NumTerms(order) <= |c|
    ensures |Exponents(order)| == NumTerms(order)
    ensures PolyValue(c, x, y, order) == Dot(c, Monomials(x, y, Exponents(order)))
  {
    ExponentsUpToLength(order, order + 1);
    RowsSumIsDot(c, x, y, order, order + 1);
  }

  lemma {:induction false} DotPrefix(c1: seq<real>, c2: seq<real>, v: seq<real>)
    requires |v| <= |c1| && |v| <= |c2| && c1[..|v|] == c2[..|v|]
    ensures Dot(c1, v) == Dot(c2, v)
  {
    if |v| > 0 {
      var n := |v| - 1;
      assert c1[n] == c1[..|v|][n] == c2[..|v|][n] == c2[n];
      assert c1[..n] == c1[..|v|][..n] && c2[..n] == c2[..|v|][..n];
      DotPrefix(c1, c2, v[..n]);
    }
  }

  /**
   * Evaluation reads exactly the first NumTerms(order) coefficients: two
   * coefficient sequences that agree there give the same value everywhere.
   */
  lemma PolyValueReadsPrefix(c1: seq<real>, c2: seq<real>, x: real, y: real, order: nat)
    requires NumTerms(order) <= |c1| && NumTerms(order) <= |c2|
    requires c1[..NumTerms(order)] == c2[..NumTerms(order)]
    ensures PolyValue(c1, x, y, order) == PolyValue(c2, x, y, order)
  {
    ExponentsCount(order);
    PolyValueIsDot(c1, x, y, order);
    PolyValueIsDot(c2, x, y, order);
    DotPrefix(c1, c2, Monomials(x, y, Exponents(order)));
  }

  lemma {:induction false} DotFirstOnly(c: seq<real>, v: seq<real>)
    requires 0 < |v| <= |c|
    requires forall m :: 0 < m < |v| ==> c[m] == 0.0
    ensures Dot(c, v) == c[0] * v[0]
  {
    if |v| > 1 {
      DotFirstOnly(c, v[..|v| - 1]);
    }
  }

  /**
   * The first coefficient is the constant term: when it is the only nonzero
   * one among the coefficients read, the polynomial is that constant
   * everywhere (and all-zero coefficients give 0).
   */
  lemma ConstantTerm(c: seq<real>, x: real, y: real, order: nat)
    requires NumTerms(order) <= |c|
    requires forall m :: 0 < m < NumTerms(order) ==> c[m] == 0.0
    ensures PolyValue(c, x, y, order) == c[0]
  {
    ExponentsCount(order);
    ExponentsAt(order, 0, 0);
    PolyValueIsDot(c, x, y, order);
    DotFirstOnly(c, Monomials(x, y, Exponents(order)));
  }
}
