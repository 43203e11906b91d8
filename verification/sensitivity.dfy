/** The per-bar loops of `evalObjConGradient` (the compliance gradient) and
    `evalHvecProduct` (the Hessian-vector product). Both evaluate, bar by bar,
    the local form `xe^T Ke ye` of the unit-area element stiffness
    `(E / Le) * [[C^2, C S, ...]]`: the gradient with xe = ye = u and weight
    -1/2, the product with xe = phi and ye = u. The displacements u and the
    adjoint phi come from linear solves and are inputs here. */
module Sensitivity {
  import opened LinAlg
  import opened Element
  import opened Structure
  import opened Assembly

  /** Adding w p to w done gives w (done + p). */
  lemma {:induction false} WeightedStep(w: real, acc: real, done: real, p: real)
    requires acc == w * done
    ensures acc + w * p == w * (done + p)
  {
  }

  /** The inner loop `for j in 0..4: acc += w * xe[i] * ye[j] * Ke[i, j]`. */
  method AccumulateRow(Ke: Local, xe: seq<real>, ye: seq<real>, i: nat, w: real, acc0: real) returns (acc: real)
    requires IsLocal(Ke) && |xe| == 4 && |ye| == 4 && i < 4
    ensures acc == acc0 + w * RowForm(Ke, xe, ye, i, 0)
  {
    hide Prod;
    acc := acc0;
    ghost var done := 0.0;
    for j := 0 to 4
      invariant acc - acc0 == w * done
      invariant done + RowForm(Ke, xe, ye, i, j) == RowForm(Ke, xe, ye, i, 0)
    {
      var p := Prod(xe[i], ye[j], Ke[i][j]);
      WeightedStep(w, acc - acc0, done, p);
      acc := acc + w * p;
      done := done + p;
    }
  }

  /** The double loop `for i in 0..4: for j in 0..4: acc += w * xe[i] * ye[j] * Ke[i, j]`
      started from 0; `gobj[index] -= 0.5 * ...` is the case w = -1/2 and
      `hvec[index] += ...` the case w = 1. */
  method AccumulateForm(Ke: Local, xe: seq<real>, ye: seq<real>, w: real) returns (acc: real)
    requires IsLocal(Ke) && |xe| == 4 && |ye| == 4
    ensures acc == w * LocalForm(Ke, xe, ye, 0)
  {
    hide RowForm;
    acc := 0.0;
    ghost var done := 0.0;
    for i := 0 to 4
      invariant acc == w * done
      invariant done + LocalForm(Ke, xe, ye, i) == LocalForm(Ke, xe, ye, 0)
    {
      ghost var row := RowForm(Ke, xe, ye, i, 0);
      WeightedStep(w, acc, done, row);
      acc := AccumulateRow(Ke, xe, ye, i, w, acc);
      done := done + row;
    }
  }

  /** `xe^T Ke ye` for bar k's unit-area stiffness `(E / Le) * [[C^2, ...]]`,
      with xe and ye the entries of x and y at the bar's `elem_vars`. */
  function UnitBarForm(t: Truss, k: nat, x: Vector, y: Vector): real
    requires WellFormed(t) && k < |t.bars| && |x| == |t.xpos| && |y| == |t.xpos|
  {
    BarDofsValid(t, k);
    LocalForm(UnitStiffness(t.E, BarGeometry(t, k)), Gather(x, Dofs(t.bars[k])), Gather(y, Dofs(t.bars[k])), 0)
  }

  /** The compliance-gradient loop followed by `gobj *= Area_scale / obj_scale`.
      The design variables x only fix how many bars `zip(conn, A)` visits;
      the stored `obj_scale` is the parameter objScale. */
  method ComplianceGradient(t: Truss, x: Vector, u: Vector, objScale: real) returns (gobj: Vector)
    requires WellFormed(t) && |u| == |t.xpos| && objScale != 0.0
    ensures |gobj| == |t.bars|
    ensures forall k :: 0 <= k < ZipLength(t, x) ==> gobj[k] == t.areaScale / objScale * (-0.5 * UnitBarForm(t, k, u, u))
    ensures forall k :: ZipLength(t, x) <= k < |t.bars| ==> gobj[k] == 0.0
  {
    hide LocalForm, UnitStiffness;
    gobj := Zeros(|t.bars|);
    var index := 0;
    while index < ZipLength(t, x)
      invariant index <= ZipLength(t, x) && |gobj| == |t.bars|
      invariant forall k :: 0 <= k < index ==> gobj[k] == -0.5 * UnitBarForm(t, k, u, u)
      invariant forall k :: index <= k < |t.bars| ==> gobj[k] == 0.0
    {
      BarDofsValid(t, index);
      var Ke := UnitStiffness(t.E, BarGeometry(t, index));
      var ue := Gather(u, Dofs(t.bars[index]));
      var v := AccumulateForm(Ke, ue, ue, -0.5);
      gobj := gobj[index := gobj[index] + v];
      index := index + 1;
    }
    gobj := ScaleVec(t.areaScale / objScale, gobj);
  }

  /** The Hessian-vector loop of `evalHvecProduct` before its final scaling:
      entry k of a visited bar is `phi_e^T Ke u_e` with Ke at unit area. */
  method HessianSum(t: Truss, x: Vector, u: Vector, phi: Vector) returns (h: Vector)
    requires WellFormed(t) && |u| == |t.xpos| && |phi| == |t.xpos|
    ensures |h| == |t.bars|
    ensures forall k :: 0 <= k < ZipLength(t, x) ==> h[k] == UnitBarForm(t, k, phi, u)
    ensures forall k :: ZipLength(t, x) <= k < |t.bars| ==> h[k] == 0.0
  {
    hide LocalForm, UnitStiffness;
    h := Zeros(|t.bars|);
    var index := 0;
    while index < ZipLength(t, x)
      invariant index <= ZipLength(t, x) && |h| == |t.bars|
      invariant forall k :: 0 <= k < index ==> h[k] == UnitBarForm(t, k, phi, u)
      invariant forall k :: index <= k < |t.bars| ==> h[k] == 0.0
    {
      BarDofsValid(t, index);
      var Ke := UnitStiffness(t.E, BarGeometry(t, index));
      var pe := Gather(phi, Dofs(t.bars[index]));
      var ue := Gather(u, Dofs(t.bars[index]));
      var v := AccumulateForm(Ke, pe, ue, 1.0);
      h := h[index := h[index] + v];
      index := index + 1;
    }
  }

  /** `evalHvecProduct` as written: the loop followed by
      `hvec *= Area_scale**2 / obj_scale`. */
  method HessianProduct(t: Truss, x: Vector, u: Vector, phi: Vector, objScale: real) returns (hvec: Vector)
    requires WellFormed(t) && |u| == |t.xpos| && |phi| == |t.xpos| && objScale != 0.0
    ensures |hvec| == |t.bars|
    ensures forall k :: 0 <= k < ZipLength(t, x) ==> hvec[k] == t.areaScale * t.areaScale / objScale * UnitBarForm(t, k, phi, u)
    ensures forall k :: ZipLength(t, x) <= k < |t.bars| ==> hvec[k] == 0.0
  {
    hide UnitBarForm;
    var h := HessianSum(t, x, u, phi);
    hvec := ScaleVec(t.areaScale * t.areaScale / objScale, h);
  }

  /** `evalHvecProduct` with the final scaling corrected to
      `hvec *= Area_scale / obj_scale`: phi already carries one factor
      Area_scale from `Kp = assembleMat(Area_scale*px)`. */
  method CorrectedHessianProduct(t: Truss, x: Vector, u: Vector, phi: Vector, objScale: real) returns (hvec: Vector)
    requires WellFormed(t) && |u| == |t.xpos| && |phi| == |t.xpos| && objScale != 0.0
    ensures |hvec| == |t.bars|
    ensures forall k :: 0 <= k < ZipLength(t, x) ==> hvec[k] == t.areaScale / objScale * UnitBarForm(t, k, phi, u)
    ensures forall k :: ZipLength(t, x) <= k < |t.bars| ==> hvec[k] == 0.0
  {
    hide UnitBarForm;
    var h := HessianSum(t, x, u, phi);
    hvec := ScaleVec(t.areaScale / objScale, h);
  }

  /** In closed form the unit-area bar form is `(E / Le) * stretch(x) * stretch(y)`. */
  lemma {:induction false} UnitBarFormClosed(t: Truss, k: nat, x: Vector, y: Vector)
    requires WellFormed(t) && k < |t.bars| && |x| == |t.xpos| && |y| == |t.xpos|
    ensures UnitBarForm(t, k, x, y) == Prod(t.E / t.lengths[k], BarStretch(t, k, x), BarStretch(t, k, y))
  {
    BarDofsValid(t, k);
    UnitStiffnessForm(t.E, BarGeometry(t, k), Gather(x, Dofs(t.bars[k])), Gather(y, Dofs(t.bars[k])));
  }

  /** The compliance-gradient entry `-0.5 * u_e^T Ke u_e` is never positive
      when E >= 0: stiffening a bar can only lower the compliance. */
  lemma {:induction false} ComplianceSensitivityNonpositive(t: Truss, k: nat, u: Vector)
    requires WellFormed(t) && k < |t.bars| && |u| == |t.xpos| && t.E >= 0.0
    ensures -0.5 * UnitBarForm(t, k, u, u) <= 0.0
  {
    UnitBarFormClosed(t, k, u, u);
    assert t.E / t.lengths[k] >= 0.0;
  }

  /** The unit-area vector e_k's coefficient `E * e_k[j] / Le_j`. */
  lemma {:induction false} BasisCoefficient(t: Truss, n: nat, k: nat, j: nat)
    requires WellFormed(t) && j < |t.bars| && j < n
    ensures Coefficient(t, Basis(n, k), j) == if j == k then t.E / t.lengths[j] else 0.0
  {
  }

  /** Bar j's contribution for e_k: bar k's unit-area form if j == k, and 0 otherwise. */
  lemma {:induction false} BasisBarForm(t: Truss, n: nat, k: nat, j: nat, x: Vector, y: Vector)
    requires WellFormed(t) && j < |t.bars| && j < n && k < |t.bars| && |x| == |t.xpos| && |y| == |t.xpos|
    ensures BarForm(t, Basis(n, k), j, x, y) == if j == k then UnitBarForm(t, k, x, y) else 0.0
  {
    hide BarStretch, UnitBarForm;
    BasisCoefficient(t, n, k, j);
    if j == k {
      UnitBarFormClosed(t, k, x, y);
    } else {
      ZeroFactor(Coefficient(t, Basis(n, k), j), BarStretch(t, j, x), BarStretch(t, j, y));
    }
  }

  /** The partner of both loops: bar k's unit-area form is x^T K y for the
      matrix `assembleMat` builds from the unit area vector e_k, that is
      the derivative of `assembleMat(A)` with respect to A_k. */
  lemma {:induction false} UnitBarFormDerivative(t: Truss, n: nat, k: nat, x: Vector, y: Vector)
    requires WellFormed(t) && k < |t.bars| && k < n && |x| == |t.xpos| && |y| == |t.xpos|
    ensures Bilinear(AssembleMat(t, Basis(n, k)), x, y) == UnitBarForm(t, k, x, y)
  {
    hide AssembleUpTo, BarForm, UnitBarForm;
    var e := Basis(n, k);
    var m := ZipLength(t, e);
    var s := BarForms(t, e, x, y, m);
    MatForm(t, e, x, y);
    forall j | 0 <= j < m
      ensures s[j] == if j == k then UnitBarForm(t, k, x, y) else 0.0
    {
      BasisBarForm(t, n, k, j, x, y);
    }
    SumSingle(s, k);
  }

  /** The stiffness is exactly linear in each area: moving A_k by h moves
      x^T K y by h times bar k's unit-area form. */
  lemma {:induction false} StiffnessSensitivity(t: Truss, A: Vector, k: nat, h: real, x: Vector, y: Vector)
    requires WellFormed(t) && k < |t.bars| && k < |A| && |x| == |t.xpos| && |y| == |t.xpos|
    ensures Bilinear(AssembleMat(t, A[k := A[k] + h]), x, y) == Bilinear(AssembleMat(t, A), x, y) + h * UnitBarForm(t, k, x, y)
  {
    hide AssembleMat, UnitBarForm;
    var e := Basis(|A|, k);
    assert A[k := A[k] + h] == Combine(1.0, A, h, e);
    FormLinear(t, 1.0, A, h, e, x, y);
    UnitBarFormDerivative(t, |A|, k, x, y);
  }

  /** Bar k's area times its unit-area form, for the first m bars. */
  function AreaTerms(t: Truss, A: Vector, x: Vector, y: Vector, m: nat): (s: seq<real>)
    requires WellFormed(t) && m <= ZipLength(t, A) && |x| == |t.xpos| && |y| == |t.xpos|
    ensures |s| == m
    ensures forall k :: 0 <= k < m ==> s[k] == A[k] * UnitBarForm(t, k, x, y)
  {
    seq(m, k requires 0 <= k < m => A[k] * UnitBarForm(t, k, x, y))
  }

  /** `E * A_k / Le * s1 * s2 == A_k * ((E / Le) * s1 * s2)`. */
  lemma {:induction false} AreaTerm(e: real, ak: real, len: real, s1: real, s2: real, coef: real, unit: real)
    requires len > 0.0 && coef == e * ak / len && unit == Prod(e / len, s1, s2)
    ensures Prod(coef, s1, s2) == ak * unit
  {
    AreaFactor(e, len, ak);
  }

  /** The assembled stiffness is the area-weighted sum of the unit-area bar
      stiffnesses: `x^T K(A) y == sum_k A_k * x^T K(e_k) y`. */
  lemma {:induction false} StiffnessDecomposition(t: Truss, A: Vector, x: Vector, y: Vector)
    requires WellFormed(t) && |x| == |t.xpos| && |y| == |t.xpos|
    ensures Bilinear(AssembleMat(t, A), x, y) == Sum(AreaTerms(t, A, x, y, ZipLength(t, A)))
  {
    hide ValidGeometry, AssembleUpTo, BarStretch, UnitBarForm;
    var m := ZipLength(t, A);
    MatForm(t, A, x, y);
    forall k | 0 <= k < m
      ensures BarForms(t, A, x, y, m)[k] == AreaTerms(t, A, x, y, m)[k]
    {
      UnitBarFormClosed(t, k, x, y);
      AreaTerm(t.E, A[k], t.lengths[k], BarStretch(t, k, x), BarStretch(t, k, y), Coefficient(t, A, k), UnitBarForm(t, k, x, y));
    }
    assert BarForms(t, A, x, y, m) == AreaTerms(t, A, x, y, m);
  }

  /** `p (c (w u)) == (c w) (p u)`. */
  lemma {:induction false} DirectionalTerm(p: real, c: real, w: real, u: real, g: real, s: real, a: real)
    requires g == c * (w * u) && s == p * g && a == p * u
    ensures s == (c * w) * a
  {
  }

  /** `(c w) S == c (w S)`. */
  lemma {:induction false} Regroup(c: real, w: real, sum: real, total: real)
    requires total == (c * w) * sum
    ensures total == c * (w * sum)
  {
  }

  /** A vector whose entry k is `c * w * x_e^T Ke y_e` (Ke at unit area) has
      inner product with a direction p equal to `c * w * x^T assembleMat(p) y`. */
  lemma {:induction false} DirectionalSum(t: Truss, p: Vector, c: real, w: real, x: Vector, y: Vector, g: Vector)
    requires WellFormed(t) && |p| == |t.bars| && |g| == |t.bars| && |x| == |t.xpos| && |y| == |t.xpos|
    requires forall k :: 0 <= k < |t.bars| ==> g[k] == c * (w * UnitBarForm(t, k, x, y))
    ensures Dot(p, g) == c * (w * Bilinear(AssembleMat(t, p), x, y))
  {
    hide AssembleMat, UnitBarForm, AreaTerms, Dot, Sum;
    var m := |t.bars|;
    var a := AreaTerms(t, p, x, y, m);
    var s := seq(m, k requires 0 <= k < m => p[k] * g[k]);
    forall k | 0 <= k < m
      ensures s[k] == (c * w) * a[k] + 0.0 * a[k]
    {
      DirectionalTerm(p[k], c, w, UnitBarForm(t, k, x, y), g[k], s[k], a[k]);
    }
    DotSum(p, g, s);
    SumLinear(c * w, a, 0.0, a, s);
    StiffnessDecomposition(t, p, x, y);
    Regroup(c, w, Sum(a), Sum(s));
  }

  /** The compliance gradient applied to a direction px is
      `-1/2 * Area_scale / obj_scale * u^T assembleMat(px) u`. */
  lemma {:induction false} GradientDirectional(t: Truss, px: Vector, u: Vector, objScale: real, gobj: Vector)
    requires WellFormed(t) && |px| == |t.bars| && |gobj| == |t.bars| && |u| == |t.xpos| && objScale != 0.0
    requires forall k :: 0 <= k < |t.bars| ==> gobj[k] == t.areaScale / objScale * (-0.5 * UnitBarForm(t, k, u, u))
    ensures Dot(px, gobj) == t.areaScale / objScale * (-0.5 * Bilinear(AssembleMat(t, px), u, u))
  {
    hide AssembleMat, UnitBarForm;
    DirectionalSum(t, px, t.areaScale / objScale, -0.5, u, u, gobj);
  }

  /** The Hessian-vector product applied to the direction px itself is
      `Area_scale**2 / obj_scale * phi^T assembleMat(px) u`: the same matrix,
      up to the factor Area_scale, as the `Kp = assembleMat(Area_scale*px)`
      from which phi is computed. */
  lemma {:induction false} HessianDirectional(t: Truss, px: Vector, u: Vector, phi: Vector, objScale: real, hvec: Vector)
    requires WellFormed(t) && |px| == |t.bars| && |hvec| == |t.bars| && |u| == |t.xpos| && |phi| == |t.xpos| && objScale != 0.0
    requires forall k :: 0 <= k < |t.bars| ==> hvec[k] == t.areaScale * t.areaScale / objScale * UnitBarForm(t, k, phi, u)
    ensures Dot(px, hvec) == t.areaScale * t.areaScale / objScale * Bilinear(AssembleMat(t, px), phi, u)
  {
    hide AssembleMat, UnitBarForm;
    DirectionalSum(t, px, t.areaScale * t.areaScale / objScale, 1.0, phi, u, hvec);
  }

  /** phi as `evalHvecProduct` computes it solves against
      `Kp = assembleMat(Area_scale*px)`, so it is `Area_scale * phi1` for the
      phi1 that solves against `assembleMat(px)`. Written in phi1, the product
      with px carries `Area_scale**3 / obj_scale`: one factor Area_scale more
      than the `Area_scale**2 / obj_scale` that the gradient's scaling
      `Area_scale / obj_scale` gives its derivative along px. */
  lemma {:induction false} HessianScaleFactor(t: Truss, px: Vector, u: Vector, phi1: Vector, objScale: real, hvec: Vector)
    requires WellFormed(t) && |px| == |t.bars| && |hvec| == |t.bars| && |u| == |t.xpos| && |phi1| == |t.xpos| && objScale != 0.0
    requires forall k :: 0 <= k < |t.bars| ==>
      hvec[k] == t.areaScale * t.areaScale / objScale * UnitBarForm(t, k, ScaleVec(t.areaScale, phi1), u)
    ensures Dot(px, hvec) == t.areaScale * t.areaScale * t.areaScale / objScale * Bilinear(AssembleMat(t, px), phi1, u)
  {
    hide AssembleMat, UnitBarForm, Dot, Bilinear;
    var a := t.areaScale;
    var phi := ScaleVec(a, phi1);
    var K := AssembleMat(t, px);
    HessianDirectional(t, px, u, phi, objScale, hvec);
    BilinearScaleLeft(K, a, phi1, phi, u);
    AreaScaling(a, objScale, Bilinear(K, phi1, u));
  }

  /** The corrected product, with phi solved against `assembleMat(Area_scale * px)`
      (`Area_scale * phi1` for phi1 solved against `assembleMat(px)`), applied
      to px is `Area_scale**2 / obj_scale * phi1^T assembleMat(px) u`: the
      derivative along px of `GradientDirectional`'s
      `-1/2 Area_scale / obj_scale * u^T assembleMat(px) u`, whose u moves by
      `-Area_scale * phi1` per unit step along px. */
  lemma {:induction false} CorrectedHessianDirectional(t: Truss, px: Vector, u: Vector, phi1: Vector, objScale: real, hvec: Vector)
    requires WellFormed(t) && |px| == |t.bars| && |hvec| == |t.bars| && |u| == |t.xpos| && |phi1| == |t.xpos| && objScale != 0.0
    requires forall k :: 0 <= k < |t.bars| ==>
      hvec[k] == t.areaScale / objScale * UnitBarForm(t, k, ScaleVec(t.areaScale, phi1), u)
    ensures Dot(px, hvec) == t.areaScale * t.areaScale / objScale * Bilinear(AssembleMat(t, px), phi1, u)
  {
    hide AssembleMat, UnitBarForm, Dot, Bilinear;
    var a := t.areaScale;
    var phi := ScaleVec(a, phi1);
    var K := AssembleMat(t, px);
    DirectionalSum(t, px, a / objScale, 1.0, phi, u, hvec);
    BilinearScaleLeft(K, a, phi1, phi, u);
    AreaScaling(a, objScale, Bilinear(K, phi1, u));
  }

  /** The two scalings differ by exactly one factor Area_scale, entry by
      entry: for the default `Area_scale = 1e-3` the product as written is
      a thousandth of the corrected one. */
  lemma {:induction false} HessianOverscaled(t: Truss, x: Vector, u: Vector, phi: Vector, objScale: real,
                                             written: Vector, corrected: Vector)
    requires WellFormed(t) && |u| == |t.xpos| && |phi| == |t.xpos| && objScale != 0.0
    requires |written| == |t.bars| && |corrected| == |t.bars|
    requires forall k :: 0 <= k < ZipLength(t, x) ==> written[k] == t.areaScale * t.areaScale / objScale * UnitBarForm(t, k, phi, u)
    requires forall k :: ZipLength(t, x) <= k < |t.bars| ==> written[k] == 0.0
    requires forall k :: 0 <= k < ZipLength(t, x) ==> corrected[k] == t.areaScale / objScale * UnitBarForm(t, k, phi, u)
    requires forall k :: ZipLength(t, x) <= k < |t.bars| ==> corrected[k] == 0.0
    ensures forall k :: 0 <= k < |t.bars| ==> written[k] == t.areaScale * corrected[k]
  {
    hide UnitBarForm;
    forall k | 0 <= k < |t.bars|
      ensures written[k] == t.areaScale * corrected[k]
    {
      if k < ZipLength(t, x) {
        AreaScaling(t.areaScale, objScale, UnitBarForm(t, k, phi, u));
      }
    }
  }


  /** The regroupings of the factors `Area_scale` a and `obj_scale` s that
      relate the two scalings of the Hessian-vector product. */
  lemma {:induction false} AreaScaling(a: real, s: real, b: real)
    requires s != 0.0
    ensures a * a / s * b == a * (a / s * b)
    ensures a * a / s * (a * b) == a * a * a / s * b
    ensures a / s * (1.0 * (a * b)) == a * a / s * b
  {
  }
}
