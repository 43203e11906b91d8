/** The bar element kernel: geometry, direction cosines, the 4-by-4 local
    stiffness matrix and the local bilinear form it defines. Local degrees of
    freedom are ordered [n1.x, n1.y, n2.x, n2.y]. */
module Element {
  import opened LinAlg

  /** A bar's end-to-end offset (dx, dy) and its length. The length is the
      square root the analysis takes; it is supplied rather than computed. */
  datatype Geometry = Geometry(dx: real, dy: real, len: real)

  /** The supplied length is the Euclidean length of the offset. */
  predicate ValidGeometry(g: Geometry)
  {
    g.len > 0.0 && g.len * g.len == g.dx * g.dx + g.dy * g.dy
  }

  /** `C = xd / Le`. */
  function Cos(g: Geometry): real
    requires g.len > 0.0
  {
    g.dx / g.len
  }

  /** `S = yd / Le`. */
  function Sin(g: Geometry): real
    requires g.len > 0.0
  {
    g.dy / g.len
  }

  type Local = seq<seq<real>>

  predicate IsLocal(M: Local)
  {
    |M| == 4 && forall i :: 0 <= i < 4 ==> |M[i]| == 4
  }

  /** The matrix [[C², CS, −C², −CS], [CS, S², −CS, −S²], [−C², −CS, C², CS], [−CS, −S², CS, S²]]. */
  function DirectionMatrix(c: real, s: real): (M: Local)
    ensures IsLocal(M)
  {
    [[c * c, c * s, -(c * c), -(c * s)],
     [c * s, s * s, -(c * s), -(s * s)],
     [-(c * c), -(c * s), c * c, c * s],
     [-(c * s), -(s * s), c * s, s * s]]
  }

  /** The scalar multiple `k * M` of a local matrix. */
  function Scale(k: real, M: Local): (R: Local)
    requires IsLocal(M)
    ensures IsLocal(R)
  {
    seq(4, i requires 0 <= i < 4 => seq(4, j requires 0 <= j < 4 => k * M[i][j]))
  }

  /** The bar stiffness `E * A_bar / Le * DirectionMatrix(C, S)`. */
  function Stiffness(E: real, g: Geometry, area: real): (Ke: Local)
    requires g.len > 0.0
    ensures IsLocal(Ke)
  {
    Scale(E * area / g.len, DirectionMatrix(Cos(g), Sin(g)))
  }

  /** The stiffness at unit area, `(E / Le) * DirectionMatrix(C, S)`, used by the sensitivities. */
  function UnitStiffness(E: real, g: Geometry): (Ke: Local)
    requires g.len > 0.0
    ensures IsLocal(Ke)
  {
    Scale(E / g.len, DirectionMatrix(Cos(g), Sin(g)))
  }

  /** The local direction vector v = (−C, −S, C, S): the elongation is v . ue. */
  function Direction(c: real, s: real): (v: seq<real>)
    ensures |v| == 4
  {
    [-c, -s, c, s]
  }

  /** The rank-one matrix k v v^T. */
  function Outer(k: real, v: seq<real>): (M: Local)
    requires |v| == 4
    ensures IsLocal(M)
  {
    seq(4, i requires 0 <= i < 4 => seq(4, j requires 0 <= j < 4 => k * (v[i] * v[j])))
  }

  lemma {:induction false} SquareEntry(r: real, q: real, k: real, m: real, a: real, c: real)
    requires r == k * m && q == k * (a * a) && m == c * c && (a == c || a == -c)
    ensures r == q
  {
  }

  lemma {:induction false} CrossEntry(r: real, q: real, k: real, m: real, a: real, b: real, c: real, s: real)
    requires r == k * m && q == k * (a * b) && m == c * s
    requires (a == c && b == s) || (a == -c && b == -s) || (a == s && b == c) || (a == -s && b == -c)
    ensures r == q
  {
  }

  lemma {:induction false} NegSquareEntry(r: real, q: real, k: real, m: real, a: real, b: real, c: real)
    requires r == k * m && q == k * (a * b) && m == -(c * c)
    requires (a == c && b == -c) || (a == -c && b == c)
    ensures r == q
  {
  }

  lemma {:induction false} NegCrossEntry(r: real, q: real, k: real, m: real, a: real, b: real, c: real, s: real)
    requires r == k * m && q == k * (a * b) && m == -(c * s)
    requires (a == c && b == -s) || (a == -c && b == s) || (a == s && b == -c) || (a == -s && b == c)
    ensures r == q
  {
  }

  lemma {:induction false} DirectionRow0(k: real, c: real, s: real)
    ensures Scale(k, DirectionMatrix(c, s))[0] == Outer(k, Direction(c, s))[0]
  {
    var R, Q, D, v := Scale(k, DirectionMatrix(c, s)), Outer(k, Direction(c, s)), DirectionMatrix(c, s), Direction(c, s);
    SquareEntry(R[0][0], Q[0][0], k, D[0][0], v[0], c);
    CrossEntry(R[0][1], Q[0][1], k, D[0][1], v[0], v[1], c, s);
    NegSquareEntry(R[0][2], Q[0][2], k, D[0][2], v[0], v[2], c);
    NegCrossEntry(R[0][3], Q[0][3], k, D[0][3], v[0], v[3], c, s);
  }

  lemma {:induction false} DirectionRow1(k: real, c: real, s: real)
    ensures Scale(k, DirectionMatrix(c, s))[1] == Outer(k, Direction(c, s))[1]
  {
    var R, Q, D, v := Scale(k, DirectionMatrix(c, s)), Outer(k, Direction(c, s)), DirectionMatrix(c, s), Direction(c, s);
    CrossEntry(R[1][0], Q[1][0], k, D[1][0], v[1], v[0], c, s);
    SquareEntry(R[1][1], Q[1][1], k, D[1][1], v[1], s);
    NegCrossEntry(R[1][2], Q[1][2], k, D[1][2], v[1], v[2], c, s);
    NegSquareEntry(R[1][3], Q[1][3], k, D[1][3], v[1], v[3], s);
  }

  lemma {:induction false} DirectionRow2(k: real, c: real, s: real)
    ensures Scale(k, DirectionMatrix(c, s))[2] == Outer(k, Direction(c, s))[2]
  {
    var R, Q, D, v := Scale(k, DirectionMatrix(c, s)), Outer(k, Direction(c, s)), DirectionMatrix(c, s), Direction(c, s);
    NegSquareEntry(R[2][0], Q[2][0], k, D[2][0], v[2], v[0], c);
    NegCrossEntry(R[2][1], Q[2][1], k, D[2][1], v[2], v[1], c, s);
    SquareEntry(R[2][2], Q[2][2], k, D[2][2], v[2], c);
    CrossEntry(R[2][3], Q[2][3], k, D[2][3], v[2], v[3], c, s);
  }

  lemma {:induction false} DirectionRow3(k: real, c: real, s: real)
    ensures Scale(k, DirectionMatrix(c, s))[3] == Outer(k, Direction(c, s))[3]
  {
    var R, Q, D, v := Scale(k, DirectionMatrix(c, s)), Outer(k, Direction(c, s)), DirectionMatrix(c, s), Direction(c, s);
    NegCrossEntry(R[3][0], Q[3][0], k, D[3][0], v[3], v[0], c, s);
    NegSquareEntry(R[3][1], Q[3][1], k, D[3][1], v[3], v[1], s);
    CrossEntry(R[3][2], Q[3][2], k, D[3][2], v[3], v[2], c, s);
    SquareEntry(R[3][3], Q[3][3], k, D[3][3], v[3], s);
  }

  /** The direction matrix is the outer product of the direction vector with
      itself, so every scaled copy of it is k v v^T. */
  lemma {:induction false} DirectionOuter(k: real, c: real, s: real)
    ensures Scale(k, DirectionMatrix(c, s)) == Outer(k, Direction(c, s))
  {
    DirectionRow0(k, c, s);
    DirectionRow1(k, c, s);
    DirectionRow2(k, c, s);
    DirectionRow3(k, c, s);
    var R, Q := Scale(k, DirectionMatrix(c, s)), Outer(k, Direction(c, s));
    assert R == [R[0], R[1], R[2], R[3]];
    assert Q == [Q[0], Q[1], Q[2], Q[3]];
  }

  /** Every k v v^T is symmetric. */
  lemma {:induction false} OuterSymmetric(k: real, v: seq<real>)
    requires |v| == 4
    ensures forall i, j :: 0 <= i < 4 && 0 <= j < 4 ==> Outer(k, v)[i][j] == Outer(k, v)[j][i]
  {
  }

  /** Every bar stiffness is symmetric. */
  lemma {:induction false} StiffnessSymmetric(E: real, g: Geometry, area: real)
    requires g.len > 0.0
    ensures forall i, j :: 0 <= i < 4 && 0 <= j < 4 ==> Stiffness(E, g, area)[i][j] == Stiffness(E, g, area)[j][i]
  {
    DirectionOuter(E * area / g.len, Cos(g), Sin(g));
    OuterSymmetric(E * area / g.len, Direction(Cos(g), Sin(g)));
  }

  lemma {:induction false} FactorEntry(r: real, q: real, k: real, a: real, u: real, p: real)
    requires k == a * u && r == k * p && q == u * p
    ensures r == a * q
  {
  }

  /** Scaling the factor of k v v^T scales every entry. */
  lemma {:induction false} OuterFactor(k: real, a: real, u: real, v: seq<real>)
    requires |v| == 4 && k == a * u
    ensures forall i, j :: 0 <= i < 4 && 0 <= j < 4 ==> Outer(k, v)[i][j] == a * Outer(u, v)[i][j]
  {
    forall i, j | 0 <= i < 4 && 0 <= j < 4
      ensures Outer(k, v)[i][j] == a * Outer(u, v)[i][j]
    {
      FactorEntry(Outer(k, v)[i][j], Outer(u, v)[i][j], k, a, u, v[i] * v[j]);
    }
  }

  lemma {:induction false} AreaFactor(E: real, len: real, area: real)
    requires len > 0.0
    ensures E * area / len == area * (E / len)
  {
  }

  /** The bar stiffness is A_bar times the unit-area stiffness, entry by entry. */
  lemma {:induction false} StiffnessUnitArea(E: real, g: Geometry, area: real)
    requires g.len > 0.0
    ensures forall i, j :: 0 <= i < 4 && 0 <= j < 4 ==> Stiffness(E, g, area)[i][j] == area * UnitStiffness(E, g)[i][j]
  {
    var v := Direction(Cos(g), Sin(g));
    DirectionOuter(E * area / g.len, Cos(g), Sin(g));
    DirectionOuter(E / g.len, Cos(g), Sin(g));
    AreaFactor(E, g.len, area);
    OuterFactor(E * area / g.len, area, E / g.len, v);
  }

  /** The axial elongation `u2_hat - u1_hat` of a bar whose local displacement
      vector is ue, where `ui_hat = C * ue[x of end i] + S * ue[y of end i]`. */
  function Stretch(g: Geometry, ue: seq<real>): real
    requires g.len > 0.0 && |ue| == 4
  {
    (Cos(g) * ue[2] + Sin(g) * ue[3]) - (Cos(g) * ue[0] + Sin(g) * ue[1])
  }

  /** Moving both ends by the same offset does not stretch the bar. */
  lemma {:induction false} RigidStretch(g: Geometry, ue: seq<real>)
    requires g.len > 0.0 && |ue| == 4
    requires ue[0] == ue[2] && ue[1] == ue[3]
    ensures Stretch(g, ue) == 0.0
  {
  }

  /** The inner loop `for j in j0..4: acc += xe[i] * ye[j] * Ke[i][j]`. */
  function RowForm(Ke: Local, xe: seq<real>, ye: seq<real>, i: nat, j: nat): real
    requires IsLocal(Ke) && |xe| == 4 && |ye| == 4 && i < 4 && j <= 4
    decreases 4 - j
  {
    if j == 4 then 0.0 else Prod(xe[i], ye[j], Ke[i][j]) + RowForm(Ke, xe, ye, i, j + 1)
  }

  /** The double loop `for i in i0..4: for j in 0..4: acc += xe[i] * ye[j] * Ke[i][j]`,
      the local bilinear form xe^T Ke ye when i0 = 0. */
  function LocalForm(Ke: Local, xe: seq<real>, ye: seq<real>, i: nat): real
    requires IsLocal(Ke) && |xe| == 4 && |ye| == 4 && i <= 4
    decreases 4 - i
  {
    if i == 4 then 0.0 else RowForm(Ke, xe, ye, i, 0) + LocalForm(Ke, xe, ye, i + 1)
  }

  /** The tail `sum_{j >= j0} v[j] * y[j]` of an inner product of 4-vectors. */
  function PartialDot(v: seq<real>, y: seq<real>, j: nat): real
    requires |v| == 4 && |y| == 4 && j <= 4
    decreases 4 - j
  {
    if j == 4 then 0.0 else v[j] * y[j] + PartialDot(v, y, j + 1)
  }

  /** The same tail with every term scaled by c. */
  function ScaledDot(c: real, v: seq<real>, y: seq<real>, j: nat): real
    requires |v| == 4 && |y| == 4 && j <= 4
    decreases 4 - j
  {
    if j == 4 then 0.0 else c * (v[j] * y[j]) + ScaledDot(c, v, y, j + 1)
  }

  /** One step of `ScaledDotClosed`: distributing c over one more term. */
  lemma {:induction false} ScaledDotStep(c: real, v: seq<real>, y: seq<real>, j: nat)
    requires |v| == 4 && |y| == 4 && j < 4
    requires ScaledDot(c, v, y, j + 1) == c * PartialDot(v, y, j + 1)
    ensures ScaledDot(c, v, y, j) == c * PartialDot(v, y, j)
  {
  }

  /** Scaling every term scales the sum. */
  lemma {:induction false} ScaledDotClosed(c: real, v: seq<real>, y: seq<real>, j: nat)
    requires |v| == 4 && |y| == 4 && j <= 4
    ensures ScaledDot(c, v, y, j) == c * PartialDot(v, y, j)
    decreases 4 - j
  {
    if j < 4 {
      ScaledDotClosed(c, v, y, j + 1);
      ScaledDotStep(c, v, y, j);
    }
  }

  lemma {:induction false} OuterTerm(m: real, xi: real, yj: real, k: real, vi: real, vj: real, c: real)
    requires m == k * (vi * vj) && c == k * (vi * xi)
    ensures Prod(xi, yj, m) == c * (vj * yj)
  {
  }

  /** One step of `OuterRow`. */
  lemma {:induction false} OuterRowStep(k: real, v: seq<real>, xe: seq<real>, ye: seq<real>, i: nat, j: nat, c: real)
    requires |v| == 4 && |xe| == 4 && |ye| == 4 && i < 4 && j < 4 && c == k * (v[i] * xe[i])
    requires RowForm(Outer(k, v), xe, ye, i, j + 1) == ScaledDot(c, v, ye, j + 1)
    ensures RowForm(Outer(k, v), xe, ye, i, j) == ScaledDot(c, v, ye, j)
  {
    OuterTerm(Outer(k, v)[i][j], xe[i], ye[j], k, v[i], v[j], c);
  }

  /** Row i of the double loop over k v v^T, from column j0 on, is the tail of
      the inner product v . y with every term scaled by c = k v_i x_i. */
  lemma {:induction false} OuterRow(k: real, v: seq<real>, xe: seq<real>, ye: seq<real>, i: nat, j: nat, c: real)
    requires |v| == 4 && |xe| == 4 && |ye| == 4 && i < 4 && j <= 4 && c == k * (v[i] * xe[i])
    ensures RowForm(Outer(k, v), xe, ye, i, j) == ScaledDot(c, v, ye, j)
    decreases 4 - j
  {
    if j < 4 {
      OuterRow(k, v, xe, ye, i, j + 1, c);
      OuterRowStep(k, v, xe, ye, i, j, c);
    }
  }

  /** Regrouping (k (v_i x_i)) p as (k p) (v_i x_i). */
  lemma {:induction false} RowRegroup(k: real, vx: real, c: real, d: real, p: real, row: real)
    requires c == k * vx && d == k * p && row == c * p
    ensures row == d * vx
  {
  }

  /** Row i of the double loop over k v v^T is d v_i x_i where d = k (v . y). */
  lemma {:induction false} OuterRowClosed(k: real, v: seq<real>, xe: seq<real>, ye: seq<real>, i: nat, d: real)
    requires |v| == 4 && |xe| == 4 && |ye| == 4 && i < 4 && d == k * PartialDot(v, ye, 0)
    ensures RowForm(Outer(k, v), xe, ye, i, 0) == d * (v[i] * xe[i])
  {
    var c := k * (v[i] * xe[i]);
    OuterRow(k, v, xe, ye, i, 0, c);
    ScaledDotClosed(c, v, ye, 0);
    RowRegroup(k, v[i] * xe[i], c, d, PartialDot(v, ye, 0), RowForm(Outer(k, v), xe, ye, i, 0));
  }

  /** One step of `OuterRows`. */
  lemma {:induction false} OuterRowsStep(k: real, v: seq<real>, xe: seq<real>, ye: seq<real>, i: nat, d: real)
    requires |v| == 4 && |xe| == 4 && |ye| == 4 && i < 4
    requires RowForm(Outer(k, v), xe, ye, i, 0) == d * (v[i] * xe[i])
    requires LocalForm(Outer(k, v), xe, ye, i + 1) == ScaledDot(d, v, xe, i + 1)
    ensures LocalForm(Outer(k, v), xe, ye, i) == ScaledDot(d, v, xe, i)
  {
  }

  /** The double loop over k v v^T from row i0 on is the tail of v . x with
      every term scaled by d = k (v . y). */
  lemma {:induction false} OuterRows(k: real, v: seq<real>, xe: seq<real>, ye: seq<real>, i: nat, d: real)
    requires |v| == 4 && |xe| == 4 && |ye| == 4 && i <= 4 && d == k * PartialDot(v, ye, 0)
    ensures LocalForm(Outer(k, v), xe, ye, i) == ScaledDot(d, v, xe, i)
    decreases 4 - i
  {
    if i < 4 {
      OuterRowClosed(k, v, xe, ye, i, d);
      OuterRows(k, v, xe, ye, i + 1, d);
      OuterRowsStep(k, v, xe, ye, i, d);
    }
  }

  /** Regrouping (k py) px as k px py. */
  lemma {:induction false} FormRegroup(k: real, px: real, py: real, d: real, form: real)
    requires d == k * py && form == d * px
    ensures form == Prod(k, px, py)
  {
  }

  /** The local bilinear form of k v v^T is k (v . x) (v . y). */
  lemma {:induction false} OuterForm(k: real, v: seq<real>, xe: seq<real>, ye: seq<real>)
    requires |v| == 4 && |xe| == 4 && |ye| == 4
    ensures LocalForm(Outer(k, v), xe, ye, 0) == Prod(k, PartialDot(v, xe, 0), PartialDot(v, ye, 0))
  {
    hide LocalForm, ScaledDot;
    var d := k * PartialDot(v, ye, 0);
    OuterRows(k, v, xe, ye, 0, d);
    ScaledDotClosed(d, v, xe, 0);
    FormRegroup(k, PartialDot(v, xe, 0), PartialDot(v, ye, 0), d, LocalForm(Outer(k, v), xe, ye, 0));
  }

  /** Against the direction vector the inner product is the elongation. */
  lemma {:induction false} DirectionStretch(g: Geometry, ue: seq<real>)
    requires g.len > 0.0 && |ue| == 4
    ensures PartialDot(Direction(Cos(g), Sin(g)), ue, 0) == Stretch(g, ue)
  {
    var v := Direction(Cos(g), Sin(g));
    assert PartialDot(v, ue, 2) == v[2] * ue[2] + v[3] * ue[3];
  }

  /** xe^T (k DirectionMatrix(C, S)) ye is k * stretch(xe) * stretch(ye). */
  lemma {:induction false} ScaledForm(k: real, g: Geometry, xe: seq<real>, ye: seq<real>)
    requires g.len > 0.0 && |xe| == 4 && |ye| == 4
    ensures LocalForm(Scale(k, DirectionMatrix(Cos(g), Sin(g))), xe, ye, 0) == Prod(k, Stretch(g, xe), Stretch(g, ye))
  {
    var v := Direction(Cos(g), Sin(g));
    DirectionOuter(k, Cos(g), Sin(g));
    OuterForm(k, v, xe, ye);
    DirectionStretch(g, xe);
    DirectionStretch(g, ye);
  }

  /** xe^T Ke ye for the stiffness of a bar of area `area` is
      `(E * area / Le) * stretch(xe) * stretch(ye)`. */
  lemma {:induction false} StiffnessForm(E: real, g: Geometry, area: real, xe: seq<real>, ye: seq<real>)
    requires g.len > 0.0 && |xe| == 4 && |ye| == 4
    ensures LocalForm(Stiffness(E, g, area), xe, ye, 0) == Prod(E * area / g.len, Stretch(g, xe), Stretch(g, ye))
  {
    ScaledForm(E * area / g.len, g, xe, ye);
  }

  /** At unit area the form is `(E / Le) * stretch(xe) * stretch(ye)`. */
  lemma {:induction false} UnitStiffnessForm(E: real, g: Geometry, xe: seq<real>, ye: seq<real>)
    requires g.len > 0.0 && |xe| == 4 && |ye| == 4
    ensures LocalForm(UnitStiffness(E, g), xe, ye, 0) == Prod(E / g.len, Stretch(g, xe), Stretch(g, ye))
  {
    ScaledForm(E / g.len, g, xe, ye);
  }
}
