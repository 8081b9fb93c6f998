/** The two mixing models of the estimator (ls_hymix/script.js), their objectives and the
    closed-form least-squares fraction. Numbers are idealised as reals. */
module Mixing {
  import opened Wrappers

  /** v lies between u and w, in either order. */
  predicate Between(v: real, u: real, w: real) {
    (u <= v <= w) || (w <= v <= u)
  }

  /** A weighted average with non-negative weights, not both zero, lies between the two values. */
  lemma WeightedAverageBetween(w1: real, w2: real, u: real, v: real)
    requires w1 >= 0.0 && w2 >= 0.0 && w1 + w2 > 0.0
    ensures Between((w1 * u + w2 * v) / (w1 + w2), u, v)
  {
    var r := (w1 * u + w2 * v) / (w1 + w2);
    assert r * (w1 + w2) == w1 * u + w2 * v;
    if u <= v {
      assert w1 * u + w2 * u <= w1 * u + w2 * v;
      assert w1 * u + w2 * v <= w1 * v + w2 * v;
      assert (w1 + w2) * u <= r * (w1 + w2) <= (w1 + w2) * v;
    } else {
      assert w1 * v + w2 * v <= w1 * u + w2 * v;
      assert w1 * u + w2 * v <= w1 * u + w2 * u;
      assert (w1 + w2) * v <= r * (w1 + w2) <= (w1 + w2) * u;
    }
  }

  function SumSquares(s: seq<real>): (r: real)
    ensures r >= 0.0
  {
    if s == [] then 0.0 else s[0] * s[0] + SumSquares(s[1..])
  }

  /** The arithmetic mean of the squares; an empty vector counts as 0 (see README: the source
      divides 0 by 0 there). */
  function MeanSquare(s: seq<real>): (r: real)
    ensures r >= 0.0
  {
    if |s| == 0 then 0.0 else SumSquares(s) / (|s| as real)
  }

  // ---------------------------------------------------------------- the oil (linear) model

  /** `a.map((ai, i) => ai * x + b[i] * (1 - x))`: the share x of end-member A mixed with the
      share 1 − x of end-member B. */
  function LinearPrediction(a: seq<real>, b: seq<real>, x: real): (p: seq<real>)
    requires |b| >= |a|
    ensures |p| == |a|
    ensures forall i :: 0 <= i < |a| ==> p[i] - b[i] == (a[i] - b[i]) * x
    ensures x == 1.0 ==> p == a
    ensures x == 0.0 ==> p == b[..|a|]
    ensures 0.0 <= x <= 1.0 ==> forall i :: 0 <= i < |a| ==> Between(p[i], a[i], b[i])
  {
    MixturesBetween(a, b, x);
    seq(|a|, i requires 0 <= i < |a| => a[i] * x + b[i] * (1.0 - x))
  }

  /** For x in [0, 1], a[i]·x + b[i]·(1 − x) lies between a[i] and b[i]. */
  lemma MixturesBetween(a: seq<real>, b: seq<real>, x: real)
    requires |b| >= |a|
    ensures 0.0 <= x <= 1.0 ==> forall i :: 0 <= i < |a| ==> Between(a[i] * x + b[i] * (1.0 - x), a[i], b[i])
  {
    if 0.0 <= x <= 1.0 {
      forall i | 0 <= i < |a| ensures Between(a[i] * x + b[i] * (1.0 - x), a[i], b[i]) {
        WeightedAverageBetween(x, 1.0 - x, a[i], b[i]);
        assert (x * a[i] + (1.0 - x) * b[i]) / (x + (1.0 - x)) == a[i] * x + b[i] * (1.0 - x);
      }
    }
  }

  /** pred − observed at every position of the oil model. */
  function OilResiduals(a: seq<real>, b: seq<real>, row: seq<real>, x: real): (r: seq<real>)
    requires |b| >= |a| && |row| >= |a|
    ensures |r| == |a|
    ensures forall i :: 0 <= i < |a| ==> r[i] == LinearPrediction(a, b, x)[i] - row[i]
  {
    var p := LinearPrediction(a, b, x);
    seq(|a|, i requires 0 <= i < |a| => p[i] - row[i])
  }

  /** The objective of the nonlinear oil fit: the mean squared residual. */
  function OilMse(a: seq<real>, b: seq<real>, row: seq<real>, x: real): real
    requires |b| >= |a| && |row| >= |a|
  {
    MeanSquare(OilResiduals(a, b, row, x))
  }

  /** u − v elementwise over the first |u| positions (`A` and `Y` of the closed form). */
  function Diff(u: seq<real>, v: seq<real>, n: nat): (r: seq<real>)
    requires |u| >= n && |v| >= n
    ensures |r| == n && forall i :: 0 <= i < n ==> r[i] == u[i] - v[i]
  {
    seq(n, i requires 0 <= i < n => u[i] - v[i])
  }

  /** `u.reduce((sum, ui, i) => sum + ui * v[i], 0)`. */
  function Dot(u: seq<real>, v: seq<real>): real
    requires |u| == |v|
  {
    if u == [] then 0.0 else u[0] * v[0] + Dot(u[1..], v[1..])
  }

  /** x·y + q > 0 for positive x, y and non-negative q. */
  lemma ProductPlusPositive(x: real, y: real, q: real)
    requires x > 0.0 && y > 0.0 && q >= 0.0
    ensures x * y + q > 0.0
  {
  }

  /** v² + q > 0 for non-zero v and non-negative q. */
  lemma SquarePlusPositive(v: real, q: real)
    requires q >= 0.0
    ensures v != 0.0 ==> v * v + q > 0.0
  {
    assert (-v) * (-v) == v * v;
    if v > 0.0 {
      ProductPlusPositive(v, v, q);
    } else if v < 0.0 {
      ProductPlusPositive(-v, -v, q);
    }
  }

  /** A sum of squares with a non-zero term is positive. */
  lemma {:induction false} DotSelfPositive(u: seq<real>, i: nat)
    requires i < |u|
    ensures Dot(u, u) >= 0.0
    ensures u[i] != 0.0 ==> Dot(u, u) > 0.0
  {
    if |u| > 1 {
      DotSelfPositive(u[1..], if i > 0 then i - 1 else 0);
    }
    SquarePlusPositive(u[0], Dot(u[1..], u[1..]));
  }

  /** A sum of squares is zero exactly when every term is zero. */
  lemma {:induction false} DotSelfZeroIff(u: seq<real>)
    ensures Dot(u, u) >= 0.0
    ensures Dot(u, u) == 0.0 <==> forall i :: 0 <= i < |u| ==> u[i] == 0.0
  {
    if u != [] {
      DotSelfPositive(u, 0);
      forall i | 0 <= i < |u| ensures u[i] != 0.0 ==> Dot(u, u) > 0.0 {
        DotSelfPositive(u, i);
      }
      if forall i :: 0 <= i < |u| ==> u[i] == 0.0 {
        DotZeroLeft(u, u);
      }
    }
  }

  /** Dot(u, t·u) == t · Dot(u, u). */
  lemma {:induction false} DotScaled(u: seq<real>, v: seq<real>, t: real)
    requires |u| == |v|
    requires forall i :: 0 <= i < |u| ==> v[i] == t * u[i]
    ensures Dot(u, v) == t * Dot(u, u)
  {
    if u != [] {
      var rest := Dot(u[1..], u[1..]);
      DotScaled(u[1..], v[1..], t);
      assert Dot(u, v) == u[0] * v[0] + t * rest;
      assert u[0] * v[0] == t * (u[0] * u[0]);
      assert t * (u[0] * u[0]) + t * rest == t * (u[0] * u[0] + rest);
    }
  }

  /** Dot with the zero vector. */
  lemma {:induction false} DotZeroLeft(u: seq<real>, v: seq<real>)
    requires |u| == |v|
    requires forall i :: 0 <= i < |u| ==> u[i] == 0.0
    ensures Dot(u, v) == 0.0
  {
    if u != [] {
      DotZeroLeft(u[1..], v[1..]);
    }
  }

  /** The closed form of calcOilLinear: with A = a − b and Y = row − b, x = ΣA·Y / ΣA², and 0
      when ΣA² = 0, which happens exactly when a and b agree everywhere. Not clamped to [0, 1]. */
  function ClosedFormFraction(a: seq<real>, b: seq<real>, row: seq<real>): (x: real)
    requires |b| >= |a| && |row| >= |a|
    ensures (forall i :: 0 <= i < |a| ==> a[i] == b[i]) ==> x == 0.0
  {
    var A := Diff(a, b, |a|);
    var Y := Diff(row, b, |a|);
    var ata := Dot(A, A);
    DotSelfZeroIff(A);
    if ata == 0.0 then 0.0 else Dot(A, Y) / ata
  }

  /** From noiseless data the closed form recovers the fraction that produced it, whenever the
      two end-members differ somewhere — whether or not x0 lies in [0, 1]. */
  lemma ClosedFormRecoversFraction(a: seq<real>, b: seq<real>, row: seq<real>, x0: real)
    requires |b| >= |a| && |row| >= |a|
    requires forall i :: 0 <= i < |a| ==> row[i] == a[i] * x0 + b[i] * (1.0 - x0)
    requires exists i :: 0 <= i < |a| && a[i] != b[i]
    ensures ClosedFormFraction(a, b, row) == x0
  {
    var A := Diff(a, b, |a|);
    var Y := Diff(row, b, |a|);
    forall i | 0 <= i < |a| ensures Y[i] == x0 * A[i] {
      calc {
        Y[i];
        row[i] - b[i];
        a[i] * x0 + b[i] * (1.0 - x0) - b[i];
        x0 * (a[i] - b[i]);
      }
    }
    DotScaled(A, Y, x0);
    DotSelfZeroIff(A);
    var i :| 0 <= i < |a| && a[i] != b[i];
    assert A[i] != 0.0;
  }

  /** p·t² − 2s·t + c. */
  function Quadratic(p: real, s: real, c: real, t: real): real {
    t * t * p - 2.0 * t * s + c
  }

  /** With no quadratic and no linear part the quadratic is constant. */
  lemma QuadraticFlat(c: real, t: real)
    ensures Quadratic(0.0, 0.0, c, t) == c
  {
  }

  /** s / p (0 when p is 0) minimises the quadratic t²·p − 2t·s + c when p ≥ 0 and s is 0
      whenever p is. */
  lemma ClosedFormOnQuadratic(p: real, s: real, c: real, x: real, z: real)
    requires p >= 0.0 && (p == 0.0 ==> s == 0.0 && x == 0.0) && (p > 0.0 ==> x == s / p)
    ensures Quadratic(p, s, c, x) <= Quadratic(p, s, c, z)
  {
    if p == 0.0 {
      QuadraticFlat(c, x);
      QuadraticFlat(c, z);
    } else {
      assert x * p == s;
      QuadraticMinimum(p, s, c, x, z);
    }
  }

  /** Σ (A·z − Y)² = z²·ΣA² − 2z·ΣA·Y + ΣY². */
  lemma {:induction false} SquaredErrorExpansion(A: seq<real>, Y: seq<real>, r: seq<real>, z: real)
    requires |A| == |Y| == |r|
    requires forall i :: 0 <= i < |r| ==> r[i] == A[i] * z - Y[i]
    ensures SumSquares(r) == Quadratic(Dot(A, A), Dot(A, Y), Dot(Y, Y), z)
  {
    if r != [] {
      SquaredErrorExpansion(A[1..], Y[1..], r[1..], z);
      assert r[0] * r[0] == z * z * (A[0] * A[0]) - 2.0 * z * (A[0] * Y[0]) + Y[0] * Y[0];
    }
  }

  /** A quadratic with p > 0 is smallest at the x with x·p = s. */
  lemma QuadraticMinimum(p: real, s: real, c: real, x: real, z: real)
    requires p > 0.0 && x * p == s
    ensures Quadratic(p, s, c, x) <= Quadratic(p, s, c, z)
  {
    calc {
      Quadratic(p, s, c, z) - Quadratic(p, s, c, x);
      z * z * p - 2.0 * z * (x * p) - x * x * p + 2.0 * x * (x * p);
      p * ((z - x) * (z - x));
    }
    assert (z - x) * (z - x) >= 0.0;
  }

  /** The oil model's sum of squared residuals is a quadratic in the fraction t, with the
      coefficients of the closed form. */
  lemma OilSquaredErrorQuadratic(a: seq<real>, b: seq<real>, row: seq<real>, t: real)
    requires |b| >= |a| && |row| >= |a|
    ensures var A := Diff(a, b, |a|); var Y := Diff(row, b, |a|);
      SumSquares(OilResiduals(a, b, row, t)) == Quadratic(Dot(A, A), Dot(A, Y), Dot(Y, Y), t)
  {
    var A := Diff(a, b, |a|);
    var Y := Diff(row, b, |a|);
    var r := OilResiduals(a, b, row, t);
    var p := LinearPrediction(a, b, t);
    forall i | 0 <= i < |a| ensures r[i] == A[i] * t - Y[i] {
      assert r[i] == p[i] - row[i];
      assert p[i] - b[i] == A[i] * t;
    }
    SquaredErrorExpansion(A, Y, r, t);
  }

  /** The closed-form fraction is a least-squares solution: no fraction z, inside [0, 1] or
      not, gives a smaller sum of squared residuals of the oil model. */
  lemma ClosedFormMinimisesSquaredError(a: seq<real>, b: seq<real>, row: seq<real>, z: real)
    requires |b| >= |a| && |row| >= |a|
    ensures SumSquares(OilResiduals(a, b, row, ClosedFormFraction(a, b, row)))
         <= SumSquares(OilResiduals(a, b, row, z))
  {
    var A := Diff(a, b, |a|);
    var Y := Diff(row, b, |a|);
    var x := ClosedFormFraction(a, b, row);
    OilSquaredErrorQuadratic(a, b, row, x);
    OilSquaredErrorQuadratic(a, b, row, z);
    var p, s, c := Dot(A, A), Dot(A, Y), Dot(Y, Y);
    DotSelfZeroIff(A);
    if p == 0.0 {
      DotZeroLeft(A, Y);
    }
    ClosedFormOnQuadratic(p, s, c, x, z);
  }

  /** Dividing by a positive count keeps the order. */
  lemma DivideKeepsOrder(e1: real, e2: real, n: real)
    requires n > 0.0 && e1 <= e2
    ensures e1 / n <= e2 / n
  {
    assert e2 / n - e1 / n == (e2 - e1) / n;
  }

  /** The same holds for the mean squared residual that the nonlinear oil fit minimises
      numerically: the linear and nonlinear oil modes share their optimum. */
  lemma ClosedFormMinimisesOilMse(a: seq<real>, b: seq<real>, row: seq<real>, z: real)
    requires |b| >= |a| && |row| >= |a|
    ensures OilMse(a, b, row, ClosedFormFraction(a, b, row)) <= OilMse(a, b, row, z)
  {
    ClosedFormMinimisesSquaredError(a, b, row, z);
    if |a| > 0 {
      DivideKeepsOrder(SumSquares(OilResiduals(a, b, row, ClosedFormFraction(a, b, row))),
                       SumSquares(OilResiduals(a, b, row, z)), |a| as real);
    }
  }

  // ---------------------------------------------------------------- the gas (isotope) model

  /** The isotope value predicted at one position: the end-members' isotope values averaged
      with the weights x·a_c and (1 − x)·b_c; 0 when the weights add up to 0. */
  function IsotopeRatio(ac: real, ai: real, bc: real, bi: real, x: real): (r: real)
    ensures x * ac + (1.0 - x) * bc == 0.0 ==> r == 0.0
    ensures x == 1.0 && ac != 0.0 ==> r == ai
    ensures x == 0.0 && bc != 0.0 ==> r == bi
    ensures 0.0 <= x <= 1.0 && ac >= 0.0 && bc >= 0.0 && x * ac + (1.0 - x) * bc != 0.0 ==> Between(r, ai, bi)
  {
    var num := x * ac * ai + (1.0 - x) * bc * bi;
    var den := x * ac + (1.0 - x) * bc;
    IsotopeAverageBetween(ac, ai, bc, bi, x);
    if den == 0.0 then 0.0 else num / den
  }

  /** With non-negative component weights the isotope ratio is a weighted average. */
  lemma IsotopeAverageBetween(ac: real, ai: real, bc: real, bi: real, x: real)
    ensures var den := x * ac + (1.0 - x) * bc;
      0.0 <= x <= 1.0 && ac >= 0.0 && bc >= 0.0 && den != 0.0 ==>
        Between((x * ac * ai + (1.0 - x) * bc * bi) / den, ai, bi)
  {
    var w1, w2 := x * ac, (1.0 - x) * bc;
    if 0.0 <= x <= 1.0 && ac >= 0.0 && bc >= 0.0 && w1 + w2 != 0.0 {
      assert w1 >= 0.0 && w2 >= 0.0;
      WeightedAverageBetween(w1, w2, ai, bi);
      assert x * ac * ai + (1.0 - x) * bc * bi == w1 * ai + w2 * bi;
    }
  }

  /** The `predicted` vector of calcGasNonlinear: with half = |a| / 2, the first halves of `a`
      and `b` are the component coefficients and the second halves the isotope coefficients. */
  function GasPredictions(a: seq<real>, b: seq<real>, x: real): (p: seq<real>)
    requires |a| % 2 == 0 && |b| >= |a|
    ensures |p| == |a| / 2
    ensures forall j :: 0 <= j < |p| ==> p[j] == IsotopeRatio(a[j], a[|a| / 2 + j], b[j], b[|a| / 2 + j], x)
  {
    var half := |a| / 2;
    seq(half, j requires 0 <= j < half => IsotopeRatio(a[j], a[half + j], b[j], b[half + j], x))
  }

  /** `isotopeObs[j] || 0`: a missing (NaN or absent) observation counts as 0. */
  function ObservedOrZero(obs: seq<Option<real>>, j: nat): real {
    if j < |obs| then obs[j].GetOr(0.0) else 0.0
  }

  /** pred − observed at every isotope position. */
  function GasResiduals(a: seq<real>, b: seq<real>, obs: seq<Option<real>>, x: real): (r: seq<real>)
    requires |a| % 2 == 0 && |b| >= |a|
    ensures |r| == |a| / 2
    ensures forall j :: 0 <= j < |r| ==> r[j] == GasPredictions(a, b, x)[j] - ObservedOrZero(obs, j)
  {
    var p := GasPredictions(a, b, x);
    seq(|p|, j requires 0 <= j < |p| => p[j] - ObservedOrZero(obs, j))
  }

  /** The objective of the gas fit: the mean squared residual over the isotope positions. */
  function GasMse(a: seq<real>, b: seq<real>, obs: seq<Option<real>>, x: real): real
    requires |a| % 2 == 0 && |b| >= |a|
  {
    MeanSquare(GasResiduals(a, b, obs, x))
  }

  /** When every weighted denominator is zero, every prediction falls back to 0 and the
      objective is the mean of the squared observations. */
  lemma GasAllDenominatorsZero(a: seq<real>, b: seq<real>, obs: seq<Option<real>>, x: real)
    requires |a| % 2 == 0 && |b| >= |a|
    requires forall j :: 0 <= j < |a| / 2 ==> x * a[j] + (1.0 - x) * b[j] == 0.0
    ensures forall j :: 0 <= j < |a| / 2 ==> GasPredictions(a, b, x)[j] == 0.0
    ensures GasMse(a, b, obs, x) == MeanSquare(seq(|a| / 2, j requires 0 <= j < |a| / 2 => 0.0 - ObservedOrZero(obs, j)))
  {
    var r := GasResiduals(a, b, obs, x);
    assert r == seq(|a| / 2, j requires 0 <= j < |a| / 2 => 0.0 - ObservedOrZero(obs, j));
  }
}
