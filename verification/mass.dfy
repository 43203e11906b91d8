/** The mass of the truss, the mass constraint of `evalObjCon` and its
    gradient from `evalObjConGradient`. The design variables x are scaled
    areas: `A = Area_scale * x`. */
module Mass {
  import opened LinAlg
  import opened Structure
  import Element

  /** `rho * Le * A[index]`. */
  function BarMass(t: Truss, A: Vector, k: nat): real
    requires WellFormed(t) && k < |t.bars| && k < |A|
  {
    t.rho * t.lengths[k] * A[k]
  }

  /** The mass of the first m bars. */
  function MassUpTo(t: Truss, A: Vector, m: nat): real
    requires WellFormed(t) && m <= |t.bars| && m <= |A|
  {
    if m == 0 then 0.0 else MassUpTo(t, A, m - 1) + BarMass(t, A, m - 1)
  }

  /** The loop `for bar in self.conn: mass += rho * Le * A[index]`, which
      raises IndexError once index reaches len(A). */
  method ComputeMass(t: Truss, A: Vector) returns (r: Option<real>)
    requires WellFormed(t)
    ensures r.Some? <==> |t.bars| <= |A|
    ensures r.Some? ==> r.value == MassUpTo(t, A, |t.bars|)
  {
    var mass := 0.0;
    var index := 0;
    while index < |t.bars|
      invariant index <= |t.bars| && index <= |A|
      invariant mass == MassUpTo(t, A, index)
    {
      if index >= |A| {
        return None;
      }
      var Le := t.lengths[index];
      mass := mass + t.rho * Le * A[index];
      index := index + 1;
    }
    return Some(mass);
  }

  /** `con = (m_fixed - mass) / mass_scale` at `A = Area_scale * x`. */
  function Constraint(t: Truss, x: Vector): (r: Option<real>)
    requires WellFormed(t) && t.massScale != 0.0
    ensures r.Some? <==> |t.bars| <= |x|
  {
    if |x| < |t.bars| then None
    else Some((t.mFixed - MassUpTo(t, ScaleVec(t.areaScale, x), |t.bars|)) / t.massScale)
  }

  /** The constraint-gradient loops: `Acon[0, index] += rho * Le` over the
      bars `zip(conn, A)` visits, then `Acon[0, :] *= -Area_scale / mass_scale`.
      Acon has one entry per bar. */
  method ConstraintGradient(t: Truss, x: Vector) returns (acon: Vector)
    requires WellFormed(t) && t.massScale != 0.0
    ensures |acon| == |t.bars|
    ensures forall k :: 0 <= k < ZipLength(t, x) ==> acon[k] == ConstraintSlope(t, k)
    ensures forall k :: ZipLength(t, x) <= k < |t.bars| ==> acon[k] == 0.0
  {
    hide Element.ValidGeometry;
    acon := Zeros(|t.bars|);
    var A := ScaleVec(t.areaScale, x);
    var index := 0;
    while index < ZipLength(t, A)
      invariant index <= ZipLength(t, A) && |acon| == |t.bars|
      invariant forall k :: 0 <= k < index ==> acon[k] == t.rho * t.lengths[k]
      invariant forall k :: index <= k < |t.bars| ==> acon[k] == 0.0
    {
      acon := acon[index := acon[index] + t.rho * t.lengths[index]];
      index := index + 1;
    }
    acon := ScaleVec(-t.areaScale / t.massScale, acon);
  }

  /** One step of `MassLinear`. */
  lemma {:induction false} MassLinearStep(t: Truss, a: real, A: Vector, b: real, B: Vector, m: nat)
    requires WellFormed(t) && |A| == |B| && 0 < m <= |t.bars| && m <= |A|
    requires MassUpTo(t, Combine(a, A, b, B), m - 1) == a * MassUpTo(t, A, m - 1) + b * MassUpTo(t, B, m - 1)
    ensures MassUpTo(t, Combine(a, A, b, B), m) == a * MassUpTo(t, A, m) + b * MassUpTo(t, B, m)
  {
    hide Element.ValidGeometry;
    var p := t.rho * t.lengths[m - 1];
    assert BarMass(t, Combine(a, A, b, B), m - 1) == p * (a * A[m - 1] + b * B[m - 1]);
    assert p * (a * A[m - 1] + b * B[m - 1]) == a * (p * A[m - 1]) + b * (p * B[m - 1]);
  }

  /** The mass is linear in the areas: `mass(a A + b B) == a mass(A) + b mass(B)`;
      with a = b = 1 it is additive. */
  lemma {:induction false} MassLinear(t: Truss, a: real, A: Vector, b: real, B: Vector, m: nat)
    requires WellFormed(t) && |A| == |B| && m <= |t.bars| && m <= |A|
    ensures MassUpTo(t, Combine(a, A, b, B), m) == a * MassUpTo(t, A, m) + b * MassUpTo(t, B, m)
  {
    hide Element.ValidGeometry;
    if m > 0 {
      MassLinear(t, a, A, b, B, m - 1);
      MassLinearStep(t, a, A, b, B, m);
    }
  }

  /** With non-negative density and areas the mass is non-negative. */
  lemma {:induction false} MassNonnegative(t: Truss, A: Vector, m: nat)
    requires WellFormed(t) && m <= |t.bars| && m <= |A| && t.rho >= 0.0
    requires forall k :: 0 <= k < |A| ==> A[k] >= 0.0
    ensures MassUpTo(t, A, m) >= 0.0
  {
    if m > 0 {
      MassNonnegative(t, A, m - 1);
      assert t.rho * t.lengths[m - 1] >= 0.0;
    }
  }

  /** The mass of the unit area vector e_k is bar k's `rho * Le` if bar k is
      among the first m, and 0 otherwise. */
  lemma {:induction false} MassBasis(t: Truss, n: nat, k: nat, m: nat)
    requires WellFormed(t) && m <= |t.bars| && m <= n && k < n
    ensures MassUpTo(t, Basis(n, k), m) == if k < m then t.rho * t.lengths[k] else 0.0
  {
    if m > 0 {
      MassBasis(t, n, k, m - 1);
    }
  }

  /** Changing one area by d changes the mass by `d * rho * Le`. */
  lemma {:induction false} MassPerturb(t: Truss, A: Vector, k: nat, d: real)
    requires WellFormed(t) && |t.bars| <= |A| && k < |t.bars|
    ensures MassUpTo(t, A[k := A[k] + d], |t.bars|) == MassUpTo(t, A, |t.bars|) + d * (t.rho * t.lengths[k])
  {
    var n := |A|;
    var e := Basis(n, k);
    assert A[k := A[k] + d] == Combine(1.0, A, d, e);
    MassLinear(t, 1.0, A, d, e, |t.bars|);
    MassBasis(t, n, k, |t.bars|);
  }

  /** Scaling after moving entry k by h moves scaled entry k by d == h s. */
  lemma {:induction false} ScalePerturb(s: real, x: Vector, k: nat, h: real, d: real)
    requires k < |x| && d == h * s
    ensures ScaleVec(s, x[k := x[k] + h]) == ScaleVec(s, x)[k := ScaleVec(s, x)[k] + d]
  {
    var y := ScaleVec(s, x[k := x[k] + h]);
    var z := ScaleVec(s, x)[k := ScaleVec(s, x)[k] + d];
    forall i | 0 <= i < |x|
      ensures y[i] == z[i]
    {
      if i == k {
        assert s * (x[k] + h) == s * x[k] + h * s;
      }
    }
    assert y == z;
  }

  /** Entry k of `ConstraintGradient`: `-Area_scale / mass_scale * rho * Le`. */
  function ConstraintSlope(t: Truss, k: nat): real
    requires WellFormed(t) && k < |t.bars| && t.massScale != 0.0
  {
    -t.areaScale / t.massScale * (t.rho * t.lengths[k])
  }

  /** If M' == M + d rho Le with d == h Area_scale then
      `(m_fixed - M') / mass_scale == (m_fixed - M) / mass_scale + h slope`. */
  lemma {:induction false} ConstraintShift(t: Truss, k: nat, h: real, s: real, d: real, mass: real, mass': real)
    requires WellFormed(t) && k < |t.bars| && t.massScale != 0.0
    requires s == t.areaScale && d == h * s && mass' == mass + d * (t.rho * t.lengths[k])
    ensures (t.mFixed - mass') / t.massScale == (t.mFixed - mass) / t.massScale + h * ConstraintSlope(t, k)
  {
  }

  /** The gradient is exact: moving design variable k by h moves the
      constraint by h times entry k of `ConstraintGradient`, whatever x is. */
  lemma {:induction false} ConstraintGradientExact(t: Truss, x: Vector, k: nat, h: real)
    requires WellFormed(t) && t.massScale != 0.0 && |t.bars| <= |x| && k < |t.bars|
    ensures Constraint(t, x[k := x[k] + h]).value == Constraint(t, x).value + h * ConstraintSlope(t, k)
  {
    hide MassUpTo, ConstraintSlope;
    var s := t.areaScale;
    var d := h * s;
    var A := ScaleVec(s, x);
    ScalePerturb(s, x, k, h, d);
    MassPerturb(t, A, k, d);
    ConstraintShift(t, k, h, s, d, MassUpTo(t, A, |t.bars|), MassUpTo(t, A[k := A[k] + d], |t.bars|));
  }
}
