/** Member force recovery (`computeForces`): a zero vector with one entry per
    bar, into which every bar `zip(conn, A)` visits writes
    `E * A_bar * (u2_hat - u1_hat) / Le`. */
module Forces {
  import opened LinAlg
  import opened Element
  import opened Structure
  import opened Assembly

  /** `epsilon = (u2_hat - u1_hat) / Le`. */
  function Strain(t: Truss, k: nat, u: Vector): real
    requires WellFormed(t) && k < |t.bars| && |u| == |t.xpos|
  {
    BarStretch(t, k, u) / t.lengths[k]
  }

  /** `E * A_bar * epsilon`. */
  function BarForce(t: Truss, A: Vector, k: nat, u: Vector): real
    requires WellFormed(t) && k < |t.bars| && k < |A| && |u| == |t.xpos|
  {
    t.E * A[k] * Strain(t, k, u)
  }

  /** The force written out in the global displacements of the two end nodes:
      with `C = xd / Le` and `S = yd / Le`, `ui_hat = C u[2 ni] + S u[2 ni + 1]`
      and `epsilon = (u2_hat - u1_hat) / Le`, the force is `E A epsilon`. */
  lemma {:induction false} ForceClosedForm(t: Truss, A: Vector, k: nat, u: Vector,
                                           C: real, S: real, u1Hat: real, u2Hat: real, epsilon: real)
    requires WellFormed(t) && k < |t.bars| && k < |A| && |u| == |t.xpos|
    requires C == Dx(t, t.bars[k]) / t.lengths[k] && S == Dy(t, t.bars[k]) / t.lengths[k]
    requires u1Hat == C * u[2 * t.bars[k].n1] + S * u[2 * t.bars[k].n1 + 1]
    requires u2Hat == C * u[2 * t.bars[k].n2] + S * u[2 * t.bars[k].n2 + 1]
    requires epsilon == (u2Hat - u1Hat) / t.lengths[k]
    ensures t.E * A[k] * epsilon == BarForce(t, A, k, u)
  {
    hide ValidGeometry;
  }

  /** `computeForces(A, u)`. */
  method ComputeForces(t: Truss, A: Vector, u: Vector) returns (forces: Vector)
    requires WellFormed(t) && |u| == |t.xpos|
    ensures |forces| == |t.bars|
    ensures forall k :: 0 <= k < ZipLength(t, A) ==> forces[k] == BarForce(t, A, k, u)
    ensures forall k :: ZipLength(t, A) <= k < |t.bars| ==> forces[k] == 0.0
  {
    hide ValidGeometry, BarForce;
    forces := Zeros(|t.bars|);
    var index := 0;
    while index < ZipLength(t, A)
      invariant index <= ZipLength(t, A)
      invariant |forces| == |t.bars|
      invariant forall k :: 0 <= k < index ==> forces[k] == BarForce(t, A, k, u)
      invariant forall k :: index <= k < |t.bars| ==> forces[k] == 0.0
    {
      var b := t.bars[index];
      var xd := t.xpos[2 * b.n2] - t.xpos[2 * b.n1];
      var yd := t.xpos[2 * b.n2 + 1] - t.xpos[2 * b.n1 + 1];
      var Le := t.lengths[index];
      var C := xd / Le;
      var S := yd / Le;
      var u1Hat := C * u[2 * b.n1] + S * u[2 * b.n1 + 1];
      var u2Hat := C * u[2 * b.n2] + S * u[2 * b.n2 + 1];
      var epsilon := (u2Hat - u1Hat) / Le;
      ForceClosedForm(t, A, index, u, C, S, u1Hat, u2Hat, epsilon);
      forces := forces[index := t.E * A[index] * epsilon];
      index := index + 1;
    }
  }

  /** A bar whose two end nodes move by the same displacement carries no force. */
  lemma {:induction false} ForceRigidBar(t: Truss, A: Vector, k: nat, u: Vector)
    requires WellFormed(t) && k < |t.bars| && k < |A| && |u| == |t.xpos|
    requires u[2 * t.bars[k].n1] == u[2 * t.bars[k].n2]
    requires u[2 * t.bars[k].n1 + 1] == u[2 * t.bars[k].n2 + 1]
    ensures BarForce(t, A, k, u) == 0.0
  {
    var ue := Gather(u, Dofs(t.bars[k]));
    RigidStretch(BarGeometry(t, k), ue);
  }

  /** A rigid translation of the whole truss leaves every bar force-free. */
  lemma {:induction false} ForceTranslation(t: Truss, A: Vector, k: nat, tx: real, ty: real)
    requires WellFormed(t) && k < |t.bars| && k < |A|
    ensures BarForce(t, A, k, Translation(|t.xpos|, tx, ty)) == 0.0
  {
    TranslationStretch(t, k, tx, ty);
  }

  /** The work term `force * stretch(x)` equals the stiffness term
      `E A / Le * stretch(x) * stretch(u)`. */
  lemma {:induction false} WorkTerm(e: real, a: real, len: real, sx: real, su: real, coef: real, force: real)
    requires len > 0.0 && coef == e * a / len && force == e * a * (su / len)
    ensures Prod(coef, sx, su) == force * sx
  {
  }

  /** The work the bar forces do along the elongations caused by x. */
  function Work(t: Truss, forces: Vector, x: Vector, m: nat): (w: seq<real>)
    requires WellFormed(t) && m <= |t.bars| && m <= |forces| && |x| == |t.xpos|
    ensures |w| == m
    ensures forall k :: 0 <= k < m ==> w[k] == forces[k] * BarStretch(t, k, x)
  {
    seq(m, k requires 0 <= k < m => forces[k] * BarStretch(t, k, x))
  }

  /** Virtual work: for the forces `computeForces` returns, x^T K u equals the
      sum over the visited bars of the bar force times the elongation x causes. */
  lemma {:induction false} VirtualWork(t: Truss, A: Vector, u: Vector, x: Vector, forces: Vector)
    requires WellFormed(t) && |u| == |t.xpos| && |x| == |t.xpos| && |forces| == |t.bars|
    requires forall k :: 0 <= k < ZipLength(t, A) ==> forces[k] == BarForce(t, A, k, u)
    ensures Bilinear(AssembleMat(t, A), x, u) == Sum(Work(t, forces, x, ZipLength(t, A)))
  {
    hide ValidGeometry, AssembleUpTo, BarStretch;
    var m := ZipLength(t, A);
    MatForm(t, A, x, u);
    forall k | 0 <= k < m
      ensures BarForms(t, A, x, u, m)[k] == Work(t, forces, x, m)[k]
    {
      WorkTerm(t.E, A[k], t.lengths[k], BarStretch(t, k, x), BarStretch(t, k, u), Coefficient(t, A, k), forces[k]);
    }
    assert BarForms(t, A, x, u, m) == Work(t, forces, x, m);
  }
}
