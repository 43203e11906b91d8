/** The compliance objective of `evalObjCon`: `obj = 0.5 * np.dot(u, f) / obj_scale`,
    where f is the load vector after `applyBCs` and u solves the eliminated
    system `K u == f`. The solve is not modelled: u is any vector for which the
    eliminated system holds. */
module Compliance {
  import opened LinAlg
  import opened Structure
  import opened Assembly
  import opened Loads
  import opened Boundary

  /** `0.5 * np.dot(u, f) / obj_scale`: for a positive `obj_scale` it has the
      sign of the work `u . f`, and it is 1 exactly when `obj_scale` is the
      unscaled objective `0.5 * u . f`, which `evalObjCon` caches on its first
      call. */
  function Objective(u: Vector, f: Vector, objScale: real): (r: real)
    requires |u| == |f| && objScale != 0.0
    ensures objScale > 0.0 ==> (r >= 0.0 <==> Dot(u, f) >= 0.0)
    ensures r == 1.0 <==> objScale == 0.5 * Dot(u, f)
  {
    var d := Dot(u, f);
    HalfRatio(d, objScale);
    0.5 * d / objScale
  }

  lemma {:induction false} HalfRatio(d: real, s: real)
    requires s != 0.0
    ensures s > 0.0 ==> (0.5 * d / s >= 0.0 <==> d >= 0.0)
    ensures 0.5 * d / s == 1.0 <==> s == 0.5 * d
  {
    var q := 0.5 * d / s;
    assert q * s == 0.5 * d;
    if q == 1.0 {
      assert s == 0.5 * d;
    }
  }

  /** A position some constrained variable addresses has zero displacement. */
  lemma {:induction false} ConstrainedFixed(K: Matrix, f: Vector, vars: seq<int>, u: Vector, p: nat)
    requires IsSquare(K, |f|) && AllInRange(vars, |f|) && |u| == |f| && p < |f|
    requires MatVec(ApplyBCs(K, f, vars).value.0, u) == ApplyBCs(K, f, vars).value.1
    requires IsConstrained(vars, |f|, p)
    ensures u[p] == 0.0
  {
    var i :| 0 <= i < |vars| && NumpyIndex(vars[i], |f|) == Some(p);
    BCsFixDisplacement(K, f, vars, u, i);
  }

  /** The compliance `u . f` of the eliminated system equals the strain energy
      `u^T K u` of the assembled, uneliminated stiffness: u vanishes where
      elimination changed K. */
  lemma {:induction false} ComplianceEnergy(t: Truss, A: Vector, f: Vector, vars: seq<int>, u: Vector)
    requires WellFormed(t) && |f| == |t.xpos| && |u| == |f| && AllInRange(vars, |f|)
    requires MatVec(ApplyBCs(AssembleMat(t, A), f, vars).value.0, u) == ApplyBCs(AssembleMat(t, A), f, vars).value.1
    ensures Dot(u, ApplyBCs(AssembleMat(t, A), f, vars).value.1) == Bilinear(AssembleMat(t, A), u, u)
  {
    hide AssembleMat, ApplyBCs;
    var n := |f|;
    var K := AssembleMat(t, A);
    var K' := ApplyBCs(K, f, vars).value.0;
    forall p, q | 0 <= p < n && 0 <= q < n && u[p] != 0.0 && u[q] != 0.0
      ensures K'[p][q] == K[p][q]
    {
      if IsConstrained(vars, n, p) {
        ConstrainedFixed(K, f, vars, u, p);
      }
      if IsConstrained(vars, n, q) {
        ConstrainedFixed(K, f, vars, u, q);
      }
    }
    BilinearAgree(K', K, u);
  }

  /** With `E >= 0`, non-negative areas and a positive `obj_scale`, the
      compliance objective is non-negative. */
  lemma {:induction false} ObjectiveNonnegative(t: Truss, A: Vector, f: Vector, vars: seq<int>, u: Vector, objScale: real)
    requires WellFormed(t) && |f| == |t.xpos| && |u| == |f| && AllInRange(vars, |f|)
    requires t.E >= 0.0 && objScale > 0.0
    requires forall k :: 0 <= k < |A| ==> A[k] >= 0.0
    requires MatVec(ApplyBCs(AssembleMat(t, A), f, vars).value.0, u) == ApplyBCs(AssembleMat(t, A), f, vars).value.1
    ensures Objective(u, ApplyBCs(AssembleMat(t, A), f, vars).value.1, objScale) >= 0.0
  {
    hide AssembleMat, ApplyBCs;
    ComplianceEnergy(t, A, f, vars, u);
    AssembleSemiDefinite(t, A, u);
  }

  /** `evalObjCon` end to end, lines up to the scaled objective: with
      `A = Area_scale x`, `K = assembleMat(A)`, `f = assembleLoadVec()` and the
      truss's own `bcs` eliminated, any u solving the eliminated system gives
      `u . f == u^T assembleMat(A) u`, so the objective is non-negative for
      non-negative designs. */
  lemma {:induction false} TrussObjectiveNonnegative(t: Truss, x: Vector, u: Vector, objScale: real)
    requires WellFormed(t) && |u| == |t.xpos|
    requires AssembleLoadVec(t).Some? && AllInRange(ConstrainedVars(t.supports), |t.xpos|)
    requires t.E >= 0.0 && t.areaScale >= 0.0 && objScale > 0.0
    requires forall k :: 0 <= k < |x| ==> x[k] >= 0.0
    requires MatVec(ApplyTrussBCs(t, AssembleMat(t, ScaleVec(t.areaScale, x)), AssembleLoadVec(t).value).value.0, u)
             == ApplyTrussBCs(t, AssembleMat(t, ScaleVec(t.areaScale, x)), AssembleLoadVec(t).value).value.1
    ensures Dot(u, ApplyTrussBCs(t, AssembleMat(t, ScaleVec(t.areaScale, x)), AssembleLoadVec(t).value).value.1)
            == Bilinear(AssembleMat(t, ScaleVec(t.areaScale, x)), u, u)
    ensures Objective(u, ApplyTrussBCs(t, AssembleMat(t, ScaleVec(t.areaScale, x)), AssembleLoadVec(t).value).value.1, objScale) >= 0.0
  {
    hide AssembleMat, ApplyBCs, Objective;
    var A := ScaleVec(t.areaScale, x);
    var f := AssembleLoadVec(t).value;
    var vars := ConstrainedVars(t.supports);
    forall k | 0 <= k < |A|
      ensures A[k] >= 0.0
    {
      NonnegativeProduct(t.areaScale, x[k]);
    }
    ComplianceEnergy(t, A, f, vars, u);
    ObjectiveNonnegative(t, A, f, vars, u, objScale);
  }

  lemma {:induction false} NonnegativeProduct(a: real, b: real)
    requires a >= 0.0 && b >= 0.0
    ensures a * b >= 0.0
  {
  }
}
