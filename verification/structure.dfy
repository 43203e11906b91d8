/** The truss itself: nodes, bars, loads and supports, and the per-bar
    quantities every loop of the analysis recomputes (the offset dx, dy, the
    length, the degree-of-freedom list `elem_vars`). Node k owns the global
    degrees of freedom 2k (x) and 2k+1 (y). */
module Structure {
  import opened LinAlg
  import opened Element

  /** The outcome of an operation that indexes with caller-supplied node
      numbers: `None` stands for the IndexError numpy raises. */
  datatype Option<T> = None | Some(value: T)

  /** A bar joining node n1 to node n2 (one entry of `conn`). */
  datatype Bar = Bar(n1: nat, n2: nat)

  /** The load (fx, fy) applied at one node (one entry of the `loads` dictionary). */
  datatype Load = Load(node: nat, fx: real, fy: real)

  /** The constrained directions of one node (one entry of the `bcs`
      dictionary): index 0 fixes x, index 1 fixes y. */
  datatype Support = Support(node: nat, dofs: seq<int>)

  /** The analysis data: flattened nodal coordinates, connectivity, the bar
      lengths (the square roots, supplied), loads, supports and the material
      and scaling constants. */
  datatype Truss = Truss(
    xpos: seq<real>,
    bars: seq<Bar>,
    lengths: seq<real>,
    loads: seq<Load>,
    supports: seq<Support>,
    E: real,
    rho: real,
    mFixed: real,
    areaScale: real,
    massScale: real)

  /** Both end nodes of the bar have coordinates. */
  predicate BarInRange(t: Truss, b: Bar)
  {
    2 * b.n1 + 1 < |t.xpos| && 2 * b.n2 + 1 < |t.xpos|
  }

  /** `xd = xpos[2*n2] - xpos[2*n1]`. */
  function Dx(t: Truss, b: Bar): real
    requires BarInRange(t, b)
  {
    t.xpos[2 * b.n2] - t.xpos[2 * b.n1]
  }

  /** `yd = xpos[2*n2+1] - xpos[2*n1+1]`. */
  function Dy(t: Truss, b: Bar): real
    requires BarInRange(t, b)
  {
    t.xpos[2 * b.n2 + 1] - t.xpos[2 * b.n1 + 1]
  }

  /** Every bar references existing nodes, and its supplied length is the
      Euclidean length `sqrt(xd**2 + yd**2)` of its offset and is positive:
      bars with coincident end nodes, on which the analysis would divide
      0 by 0, are excluded. */
  predicate WellFormed(t: Truss)
  {
    |t.lengths| == |t.bars| &&
    forall k :: 0 <= k < |t.bars| ==>
      BarInRange(t, t.bars[k]) && t.lengths[k] > 0.0 &&
      ValidGeometry(Geometry(Dx(t, t.bars[k]), Dy(t, t.bars[k]), t.lengths[k]))
  }

  function BarGeometry(t: Truss, k: nat): (g: Geometry)
    requires WellFormed(t) && k < |t.bars|
    ensures g.len > 0.0
  {
    Geometry(Dx(t, t.bars[k]), Dy(t, t.bars[k]), t.lengths[k])
  }

  /** `elem_vars = [2*n1, 2*n1+1, 2*n2, 2*n2+1]`. */
  function Dofs(b: Bar): (d: seq<nat>)
    ensures |d| == 4
  {
    [2 * b.n1, 2 * b.n1 + 1, 2 * b.n2, 2 * b.n2 + 1]
  }

  /** Four global degrees of freedom, all below n. */
  predicate ValidDofs(d: seq<nat>, n: nat)
  {
    |d| == 4 && forall i :: 0 <= i < 4 ==> d[i] < n
  }

  lemma {:induction false} BarDofsValid(t: Truss, k: nat)
    requires WellFormed(t) && k < |t.bars|
    ensures ValidDofs(Dofs(t.bars[k]), |t.xpos|)
  {
  }

  /** The local vector `v[elem_vars]`. */
  function Gather(v: Vector, d: seq<nat>): (ve: seq<real>)
    requires ValidDofs(d, |v|)
    ensures |ve| == 4
    ensures forall i :: 0 <= i < 4 ==> ve[i] == v[d[i]]
  {
    [v[d[0]], v[d[1]], v[d[2]], v[d[3]]]
  }

  /** The elongation `u2_hat - u1_hat` of bar k under the global displacement v. */
  function BarStretch(t: Truss, k: nat, v: Vector): real
    requires WellFormed(t) && k < |t.bars| && |v| == |t.xpos|
  {
    Stretch(BarGeometry(t, k), Gather(v, Dofs(t.bars[k])))
  }

  /** The number of bars `zip(conn, A)` visits: the shorter of the two. */
  function ZipLength(t: Truss, A: Vector): (m: nat)
    ensures m <= |t.bars| && m <= |A|
    ensures m == |t.bars| || m == |A|
  {
    if |t.bars| <= |A| then |t.bars| else |A|
  }

  /** The elongation under the unit displacement e_r vanishes when r is not
      one of the bar's `elem_vars`. */
  lemma {:induction false} StretchOutside(t: Truss, k: nat, r: nat)
    requires WellFormed(t) && k < |t.bars| && r < |t.xpos|
    requires r !in Dofs(t.bars[k])
    ensures BarStretch(t, k, Basis(|t.xpos|, r)) == 0.0
  {
    var d := Dofs(t.bars[k]);
    assert d[0] != r && d[1] != r && d[2] != r && d[3] != r;
    assert Gather(Basis(|t.xpos|, r), d) == [0.0, 0.0, 0.0, 0.0];
  }

  /** The rigid translation (tx, ty) of every node. */
  function Translation(n: nat, tx: real, ty: real): (v: Vector)
    ensures |v| == n
    ensures forall i :: 0 <= i < n ==> v[i] == if i % 2 == 0 then tx else ty
  {
    seq(n, i => if i % 2 == 0 then tx else ty)
  }

  /** A rigid translation does not stretch any bar. */
  lemma {:induction false} TranslationStretch(t: Truss, k: nat, tx: real, ty: real)
    requires WellFormed(t) && k < |t.bars|
    ensures BarStretch(t, k, Translation(|t.xpos|, tx, ty)) == 0.0
  {
    var b := t.bars[k];
    var ve := Gather(Translation(|t.xpos|, tx, ty), Dofs(b));
    assert ve[0] == tx by { assert (2 * b.n1) % 2 == 0; }
    assert ve[2] == tx by { assert (2 * b.n2) % 2 == 0; }
    assert ve[1] == ty by { assert (2 * b.n1 + 1) % 2 == 1; }
    assert ve[3] == ty by { assert (2 * b.n2 + 1) % 2 == 1; }
    RigidStretch(BarGeometry(t, k), ve);
  }
}
