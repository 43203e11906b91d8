/** Global stiffness assembly (`assembleMat`): every bar's 4-by-4 stiffness is
    scattered into the zero matrix of size len(xpos) with `+=`, bar by bar in
    the order `zip(conn, A)` visits them. All properties are derived from one
    fact: x^T K y is the sum over the visited bars of
    `E * A_bar / Le * stretch(x) * stretch(y)`. */
module Assembly {
  import opened LinAlg
  import opened Element
  import opened Structure

  /** The inner loop `for j in j0..4: K[d[i], d[j]] += Ke[i, j]`. */
  function ScatterRow(K: Matrix, d: seq<nat>, Ke: Local, i: nat, j: nat): (K': Matrix)
    requires IsSquare(K, |K|) && ValidDofs(d, |K|) && IsLocal(Ke) && i < 4 && j <= 4
    ensures IsSquare(K', |K|)
    decreases 4 - j
  {
    if j == 4 then K else ScatterRow(AddAt(K, d[i], d[j], Ke[i][j]), d, Ke, i, j + 1)
  }

  /** The double loop `for i in i0..4: for j in 0..4: K[d[i], d[j]] += Ke[i, j]`. */
  function Scatter(K: Matrix, d: seq<nat>, Ke: Local, i: nat): (K': Matrix)
    requires IsSquare(K, |K|) && ValidDofs(d, |K|) && IsLocal(Ke) && i <= 4
    ensures IsSquare(K', |K|)
    decreases 4 - i
  {
    if i == 4 then K else Scatter(ScatterRow(K, d, Ke, i, 0), d, Ke, i + 1)
  }

  /** The stiffness after the first m bars of `zip(conn, A)` are added. */
  function AssembleUpTo(t: Truss, A: Vector, m: nat): (K: Matrix)
    requires WellFormed(t) && m <= ZipLength(t, A)
    ensures IsSquare(K, |t.xpos|)
  {
    if m == 0 then ZeroMatrix(|t.xpos|)
    else
      BarDofsValid(t, m - 1);
      Scatter(AssembleUpTo(t, A, m - 1), Dofs(t.bars[m - 1]), Stiffness(t.E, BarGeometry(t, m - 1), A[m - 1]), 0)
  }

  /** `assembleMat(A)`. */
  function AssembleMat(t: Truss, A: Vector): (K: Matrix)
    requires WellFormed(t)
    ensures IsSquare(K, |t.xpos|)
  {
    AssembleUpTo(t, A, ZipLength(t, A))
  }


  /** Bar k's stiffness factor `E * A_bar / Le`. */
  function Coefficient(t: Truss, A: Vector, k: nat): real
    requires WellFormed(t) && k < |t.bars| && k < |A|
  {
    t.E * A[k] / t.lengths[k]
  }

  /** Bar k's contribution to x^T K y in closed form:
      `E * A_bar / Le * stretch(x) * stretch(y)`. */
  function BarForm(t: Truss, A: Vector, k: nat, x: Vector, y: Vector): real
    requires WellFormed(t) && k < |t.bars| && k < |A| && |x| == |t.xpos| && |y| == |t.xpos|
  {
    Prod(Coefficient(t, A, k), BarStretch(t, k, x), BarStretch(t, k, y))
  }

  /** The contributions of the first m bars, one entry per bar. */
  function BarForms(t: Truss, A: Vector, x: Vector, y: Vector, m: nat): (s: seq<real>)
    requires WellFormed(t) && m <= ZipLength(t, A) && |x| == |t.xpos| && |y| == |t.xpos|
    ensures |s| == m
    ensures forall k :: 0 <= k < m ==> s[k] == BarForm(t, A, k, x, y)
  {
    seq(m, k requires 0 <= k < m => BarForm(t, A, k, x, y))
  }

  /** One step of `ScatterRowForm`: the entry (d[i], d[j]) adds its term. */
  lemma {:induction false} ScatterRowStep(K: Matrix, d: seq<nat>, Ke: Local, i: nat, j: nat, x: Vector, y: Vector)
    requires IsSquare(K, |K|) && ValidDofs(d, |K|) && IsLocal(Ke) && i < 4 && j < 4
    requires |x| == |K| && |y| == |K|
    requires Bilinear(ScatterRow(AddAt(K, d[i], d[j], Ke[i][j]), d, Ke, i, j + 1), x, y)
             == Bilinear(AddAt(K, d[i], d[j], Ke[i][j]), x, y) + RowForm(Ke, Gather(x, d), Gather(y, d), i, j + 1)
    ensures Bilinear(ScatterRow(K, d, Ke, i, j), x, y) == Bilinear(K, x, y) + RowForm(Ke, Gather(x, d), Gather(y, d), i, j)
  {
    BilinearAddAt(K, d[i], d[j], Ke[i][j], x, y, Gather(x, d)[i], Gather(y, d)[j]);
  }

  /** Scattering row i of a local matrix from column j on adds that part of the local form. */
  lemma {:induction false} ScatterRowForm(K: Matrix, d: seq<nat>, Ke: Local, i: nat, j: nat, x: Vector, y: Vector)
    requires IsSquare(K, |K|) && ValidDofs(d, |K|) && IsLocal(Ke) && i < 4 && j <= 4
    requires |x| == |K| && |y| == |K|
    ensures Bilinear(ScatterRow(K, d, Ke, i, j), x, y) == Bilinear(K, x, y) + RowForm(Ke, Gather(x, d), Gather(y, d), i, j)
    decreases 4 - j
  {
    if j < 4 {
      ScatterRowForm(AddAt(K, d[i], d[j], Ke[i][j]), d, Ke, i, j + 1, x, y);
      ScatterRowStep(K, d, Ke, i, j, x, y);
    }
  }

  /** One step of `ScatterForm`: row i is scattered. */
  lemma {:induction false} ScatterStep(K: Matrix, d: seq<nat>, Ke: Local, i: nat, x: Vector, y: Vector)
    requires IsSquare(K, |K|) && ValidDofs(d, |K|) && IsLocal(Ke) && i < 4
    requires |x| == |K| && |y| == |K|
    requires Bilinear(Scatter(ScatterRow(K, d, Ke, i, 0), d, Ke, i + 1), x, y)
             == Bilinear(ScatterRow(K, d, Ke, i, 0), x, y) + LocalForm(Ke, Gather(x, d), Gather(y, d), i + 1)
    ensures Bilinear(Scatter(K, d, Ke, i), x, y) == Bilinear(K, x, y) + LocalForm(Ke, Gather(x, d), Gather(y, d), i)
  {
    ScatterRowForm(K, d, Ke, i, 0, x, y);
  }

  /** Scattering a local matrix adds its local form at the gathered vectors. */
  lemma {:induction false} ScatterForm(K: Matrix, d: seq<nat>, Ke: Local, i: nat, x: Vector, y: Vector)
    requires IsSquare(K, |K|) && ValidDofs(d, |K|) && IsLocal(Ke) && i <= 4
    requires |x| == |K| && |y| == |K|
    ensures Bilinear(Scatter(K, d, Ke, i), x, y) == Bilinear(K, x, y) + LocalForm(Ke, Gather(x, d), Gather(y, d), i)
    decreases 4 - i
  {
    if i < 4 {
      ScatterForm(ScatterRow(K, d, Ke, i, 0), d, Ke, i + 1, x, y);
      ScatterStep(K, d, Ke, i, x, y);
    }
  }

  /** The local form of bar k's stiffness is its closed-form contribution. */
  lemma {:induction false} BarFormLocal(t: Truss, A: Vector, k: nat, x: Vector, y: Vector)
    requires WellFormed(t) && k < |t.bars| && k < |A| && |x| == |t.xpos| && |y| == |t.xpos|
    ensures ValidDofs(Dofs(t.bars[k]), |x|)
    ensures LocalForm(Stiffness(t.E, BarGeometry(t, k), A[k]), Gather(x, Dofs(t.bars[k])), Gather(y, Dofs(t.bars[k])), 0)
            == BarForm(t, A, k, x, y)
  {
    hide ValidGeometry;
    BarDofsValid(t, k);
    var d := Dofs(t.bars[k]);
    StiffnessForm(t.E, BarGeometry(t, k), A[k], Gather(x, d), Gather(y, d));
  }

  /** Scattering bar k's stiffness adds bar k's contribution to x^T K y. */
  lemma {:induction false} ScatterBar(t: Truss, A: Vector, K: Matrix, k: nat, x: Vector, y: Vector)
    requires WellFormed(t) && k < |t.bars| && k < |A| && |x| == |t.xpos| && |y| == |t.xpos|
    requires IsSquare(K, |t.xpos|)
    ensures ValidDofs(Dofs(t.bars[k]), |K|)
    ensures Bilinear(Scatter(K, Dofs(t.bars[k]), Stiffness(t.E, BarGeometry(t, k), A[k]), 0), x, y)
            == Bilinear(K, x, y) + BarForm(t, A, k, x, y)
  {
    BarDofsValid(t, k);
    ScatterForm(K, Dofs(t.bars[k]), Stiffness(t.E, BarGeometry(t, k), A[k]), 0, x, y);
    BarFormLocal(t, A, k, x, y);
  }

  /** Appending bar m - 1 appends its contribution to the sum. */
  lemma {:induction false} SumBarFormsStep(t: Truss, A: Vector, x: Vector, y: Vector, m: nat)
    requires WellFormed(t) && 0 < m <= ZipLength(t, A) && |x| == |t.xpos| && |y| == |t.xpos|
    ensures Sum(BarForms(t, A, x, y, m)) == Sum(BarForms(t, A, x, y, m - 1)) + BarForm(t, A, m - 1, x, y)
  {
    assert BarForms(t, A, x, y, m)[..m - 1] == BarForms(t, A, x, y, m - 1);
  }

  /** One step of `AssembleForm`: bar m - 1 is scattered. */
  lemma {:induction false} AssembleStep(t: Truss, A: Vector, m: nat, x: Vector, y: Vector)
    requires WellFormed(t) && 0 < m <= ZipLength(t, A) && |x| == |t.xpos| && |y| == |t.xpos|
    requires Bilinear(AssembleUpTo(t, A, m - 1), x, y) == Sum(BarForms(t, A, x, y, m - 1))
    ensures Bilinear(AssembleUpTo(t, A, m), x, y) == Sum(BarForms(t, A, x, y, m))
  {
    hide Stiffness, BarForm, Scatter, Sum;
    ScatterBar(t, A, AssembleUpTo(t, A, m - 1), m - 1, x, y);
    SumBarFormsStep(t, A, x, y, m);
  }

  /** x^T K y of the matrix after m bars is the sum of their closed-form contributions. */
  lemma {:induction false} AssembleForm(t: Truss, A: Vector, m: nat, x: Vector, y: Vector)
    requires WellFormed(t) && m <= ZipLength(t, A) && |x| == |t.xpos| && |y| == |t.xpos|
    ensures Bilinear(AssembleUpTo(t, A, m), x, y) == Sum(BarForms(t, A, x, y, m))
  {
    if m == 0 {
      BilinearZero(|t.xpos|, x, y);
    } else {
      AssembleForm(t, A, m - 1, x, y);
      AssembleStep(t, A, m, x, y);
    }
  }

  /** x^T K y of the assembled stiffness is the sum of the contributions of the bars `zip(conn, A)` visits. */
  lemma {:induction false} MatForm(t: Truss, A: Vector, x: Vector, y: Vector)
    requires WellFormed(t) && |x| == |t.xpos| && |y| == |t.xpos|
    ensures Bilinear(AssembleMat(t, A), x, y) == Sum(BarForms(t, A, x, y, ZipLength(t, A)))
  {
    AssembleForm(t, A, ZipLength(t, A), x, y);
  }

  lemma {:induction false} Commute(p: real, a: real, b: real)
    ensures p * a * b == p * b * a
  {
  }

  /** Swapping x and y leaves the summed contributions unchanged. */
  lemma {:induction false} BarFormsSymmetric(t: Truss, A: Vector, x: Vector, y: Vector, m: nat)
    requires WellFormed(t) && m <= ZipLength(t, A) && |x| == |t.xpos| && |y| == |t.xpos|
    ensures BarForms(t, A, x, y, m) == BarForms(t, A, y, x, m)
  {
    forall k | 0 <= k < m
      ensures BarForms(t, A, x, y, m)[k] == BarForms(t, A, y, x, m)[k]
    {
      Commute(Coefficient(t, A, k), BarStretch(t, k, x), BarStretch(t, k, y));
    }
  }

  /** x^T K y == y^T K x for the assembled stiffness. */
  lemma {:induction false} FormSymmetric(t: Truss, A: Vector, x: Vector, y: Vector)
    requires WellFormed(t) && |x| == |t.xpos| && |y| == |t.xpos|
    ensures Bilinear(AssembleMat(t, A), x, y) == Bilinear(AssembleMat(t, A), y, x)
  {
    AssembleForm(t, A, ZipLength(t, A), x, y);
    AssembleForm(t, A, ZipLength(t, A), y, x);
    BarFormsSymmetric(t, A, x, y, ZipLength(t, A));
  }

  /** The assembled stiffness is symmetric. */
  lemma {:induction false} AssembleSymmetric(t: Truss, A: Vector)
    requires WellFormed(t)
    ensures IsSymmetric(AssembleMat(t, A))
  {
    var n := |t.xpos|;
    forall r, c | 0 <= r < n && 0 <= c < n
      ensures AssembleMat(t, A)[r][c] == AssembleMat(t, A)[c][r]
    {
      BilinearBasis(AssembleMat(t, A), n, r, c);
      BilinearBasis(AssembleMat(t, A), n, c, r);
      FormSymmetric(t, A, Basis(n, r), Basis(n, c));
    }
  }

  /** `E * (a A_k + b B_k) / Le == a (E A_k / Le) + b (E B_k / Le)`. */
  lemma {:induction false} CoefficientLinear(e: real, len: real, a: real, ak: real, b: real, bk: real, ck: real)
    requires len > 0.0 && ck == a * ak + b * bk
    ensures e * ck / len == a * (e * ak / len) + b * (e * bk / len)
  {
    calc {
      e * ck / len;
      (a * (e * ak) + b * (e * bk)) / len;
      a * (e * ak) / len + b * (e * bk) / len;
    }
  }

  /** `(a p + b q) s1 s2 == a (p s1 s2) + b (q s1 s2)`. */
  lemma {:induction false} ProductLinear(pc: real, a: real, pa: real, b: real, pb: real, s1: real, s2: real)
    requires pc == a * pa + b * pb
    ensures Prod(pc, s1, s2) == a * Prod(pa, s1, s2) + b * Prod(pb, s1, s2)
  {
  }

  /** Each bar's contribution is linear in the areas. */
  lemma {:induction false} BarFormLinear(t: Truss, a: real, A: Vector, b: real, B: Vector, k: nat, x: Vector, y: Vector)
    requires WellFormed(t) && |A| == |B| && k < |t.bars| && k < |A| && |x| == |t.xpos| && |y| == |t.xpos|
    ensures BarForm(t, Combine(a, A, b, B), k, x, y) == a * BarForm(t, A, k, x, y) + b * BarForm(t, B, k, x, y)
  {
    hide BarStretch;
    var C := Combine(a, A, b, B);
    CoefficientLinear(t.E, t.lengths[k], a, A[k], b, B[k], C[k]);
    ProductLinear(Coefficient(t, C, k), a, Coefficient(t, A, k), b, Coefficient(t, B, k), BarStretch(t, k, x), BarStretch(t, k, y));
  }

  /** The contributions are linear in the areas, bar by bar. */
  lemma {:induction false} BarFormsLinear(t: Truss, a: real, A: Vector, b: real, B: Vector, x: Vector, y: Vector, m: nat)
    requires WellFormed(t) && |A| == |B| && m <= ZipLength(t, A) && |x| == |t.xpos| && |y| == |t.xpos|
    ensures ZipLength(t, Combine(a, A, b, B)) == ZipLength(t, A)
    ensures BarForms(t, Combine(a, A, b, B), x, y, m) == Combine(a, BarForms(t, A, x, y, m), b, BarForms(t, B, x, y, m))
  {
    hide ValidGeometry;
    forall k | 0 <= k < m
      ensures BarForms(t, Combine(a, A, b, B), x, y, m)[k] == Combine(a, BarForms(t, A, x, y, m), b, BarForms(t, B, x, y, m))[k]
    {
      BarFormLinear(t, a, A, b, B, k, x, y);
    }
  }

  /** The scalar combination `a p + b q`. */
  function Mix(a: real, p: real, b: real, q: real): real
  {
    a * p + b * q
  }

  /** `BarFormsLinear` summed over all visited bars by `SumCombine`, with the
      combination kept inside `Mix`. */
  lemma {:induction false} FormsMix(t: Truss, a: real, A: Vector, b: real, B: Vector, x: Vector, y: Vector)
    requires WellFormed(t) && |A| == |B| && |x| == |t.xpos| && |y| == |t.xpos|
    ensures Sum(BarForms(t, Combine(a, A, b, B), x, y, ZipLength(t, Combine(a, A, b, B))))
            == Mix(a, Sum(BarForms(t, A, x, y, ZipLength(t, A))), b, Sum(BarForms(t, B, x, y, ZipLength(t, B))))
  {
    hide BarForm;
    BarFormsLinear(t, a, A, b, B, x, y, ZipLength(t, A));
    SumCombine(a, BarForms(t, A, x, y, ZipLength(t, A)), b, BarForms(t, B, x, y, ZipLength(t, A)));
  }

  /** `FormLinear` with the combination kept inside `Mix`. */
  lemma {:induction false} FormMix(t: Truss, a: real, A: Vector, b: real, B: Vector, x: Vector, y: Vector)
    requires WellFormed(t) && |A| == |B| && |x| == |t.xpos| && |y| == |t.xpos|
    ensures Bilinear(AssembleMat(t, Combine(a, A, b, B)), x, y)
            == Mix(a, Bilinear(AssembleMat(t, A), x, y), b, Bilinear(AssembleMat(t, B), x, y))
  {
    FormsMix(t, a, A, b, B, x, y);
    MatForm(t, A, x, y);
    MatForm(t, B, x, y);
    MatForm(t, Combine(a, A, b, B), x, y);
  }

  /** x^T K y is linear in the areas. */
  lemma {:induction false} FormLinear(t: Truss, a: real, A: Vector, b: real, B: Vector, x: Vector, y: Vector)
    requires WellFormed(t) && |A| == |B| && |x| == |t.xpos| && |y| == |t.xpos|
    ensures Bilinear(AssembleMat(t, Combine(a, A, b, B)), x, y)
            == a * Bilinear(AssembleMat(t, A), x, y) + b * Bilinear(AssembleMat(t, B), x, y)
  {
    FormMix(t, a, A, b, B, x, y);
  }

  /** `assembleMat(a A + b B) == a assembleMat(A) + b assembleMat(B)`. */
  lemma {:induction false} AssembleLinear(t: Truss, a: real, A: Vector, b: real, B: Vector)
    requires WellFormed(t) && |A| == |B|
    ensures AssembleMat(t, Combine(a, A, b, B)) == MatCombine(a, AssembleMat(t, A), b, AssembleMat(t, B), |t.xpos|)
  {
    hide AssembleUpTo;
    var n := |t.xpos|;
    var K := AssembleMat(t, Combine(a, A, b, B));
    forall r, c | 0 <= r < n && 0 <= c < n
      ensures K[r][c] == a * AssembleMat(t, A)[r][c] + b * AssembleMat(t, B)[r][c]
    {
      BilinearBasis(K, n, r, c);
      BilinearBasis(AssembleMat(t, A), n, r, c);
      BilinearBasis(AssembleMat(t, B), n, r, c);
      FormLinear(t, a, A, b, B, Basis(n, r), Basis(n, c));
    }
    MatrixExt(K, MatCombine(a, AssembleMat(t, A), b, AssembleMat(t, B), n), n);
  }

  lemma {:induction false} ZeroFactor(p: real, a: real, b: real)
    requires p == 0.0 || a == 0.0 || b == 0.0
    ensures Prod(p, a, b) == 0.0
  {
  }

  /** x^T K y vanishes when every visited bar is unstretched by x or by y. */
  lemma {:induction false} FormVanishes(t: Truss, A: Vector, x: Vector, y: Vector)
    requires WellFormed(t) && |x| == |t.xpos| && |y| == |t.xpos|
    requires forall k :: 0 <= k < ZipLength(t, A) ==> BarStretch(t, k, x) == 0.0 || BarStretch(t, k, y) == 0.0
    ensures Bilinear(AssembleMat(t, A), x, y) == 0.0
  {
    hide AssembleUpTo, BarStretch, Coefficient;
    var m := ZipLength(t, A);
    AssembleForm(t, A, m, x, y);
    forall k | 0 <= k < m
      ensures BarForms(t, A, x, y, m)[k] == 0.0
    {
      ZeroFactor(Coefficient(t, A, k), BarStretch(t, k, x), BarStretch(t, k, y));
    }
    SumZero(BarForms(t, A, x, y, m));
  }

  /** Degrees of freedom r and c are coupled by a bar when both are among its `elem_vars`. */
  predicate Couples(b: Bar, r: nat, c: nat)
  {
    r in Dofs(b) && c in Dofs(b)
  }

  /** Sparsity: entry (r, c) stays zero unless some visited bar has both r and c among its `elem_vars`. */
  lemma {:induction false} AssembleSparsity(t: Truss, A: Vector, r: nat, c: nat)
    requires WellFormed(t) && r < |t.xpos| && c < |t.xpos|
    requires forall k :: 0 <= k < ZipLength(t, A) ==> !Couples(t.bars[k], r, c)
    ensures AssembleMat(t, A)[r][c] == 0.0
  {
    var n := |t.xpos|;
    forall k | 0 <= k < ZipLength(t, A)
      ensures BarStretch(t, k, Basis(n, r)) == 0.0 || BarStretch(t, k, Basis(n, c)) == 0.0
    {
      if r !in Dofs(t.bars[k]) {
        StretchOutside(t, k, r);
      } else {
        StretchOutside(t, k, c);
      }
    }
    FormVanishes(t, A, Basis(n, r), Basis(n, c));
    BilinearBasis(AssembleMat(t, A), n, r, c);
  }

  /** A rigid translation of the whole truss is in the kernel of the assembled stiffness. */
  lemma {:induction false} AssembleTranslation(t: Truss, A: Vector, tx: real, ty: real)
    requires WellFormed(t)
    ensures MatVec(AssembleMat(t, A), Translation(|t.xpos|, tx, ty)) == Zeros(|t.xpos|)
  {
    var n := |t.xpos|;
    var K := AssembleMat(t, A);
    var v := Translation(n, tx, ty);
    forall k | 0 <= k < ZipLength(t, A)
      ensures BarStretch(t, k, v) == 0.0
    {
      TranslationStretch(t, k, tx, ty);
    }
    forall r | 0 <= r < n
      ensures MatVec(K, v)[r] == 0.0
    {
      BilinearRow(K, r, v);
      FormVanishes(t, A, Basis(n, r), v);
    }
  }

  lemma {:induction false} NonnegativeSquare(e: real, ak: real, len: real, p: real, s: real)
    requires e >= 0.0 && ak >= 0.0 && len > 0.0 && p == e * ak / len
    ensures Prod(p, s, s) >= 0.0
  {
    assert p >= 0.0;
    assert s * s >= 0.0;
  }

  /** With non-negative modulus and areas every contribution at x, x is non-negative. */
  lemma {:induction false} SumBarFormsNonnegative(t: Truss, A: Vector, x: Vector, m: nat)
    requires WellFormed(t) && m <= ZipLength(t, A) && |x| == |t.xpos| && t.E >= 0.0
    requires forall k :: 0 <= k < |A| ==> A[k] >= 0.0
    ensures Sum(BarForms(t, A, x, x, m)) >= 0.0
  {
    forall k | 0 <= k < m
      ensures BarForms(t, A, x, x, m)[k] >= 0.0
    {
      NonnegativeSquare(t.E, A[k], t.lengths[k], Coefficient(t, A, k), BarStretch(t, k, x));
    }
    SumNonnegative(BarForms(t, A, x, x, m));
  }

  /** With non-negative modulus and areas the assembled stiffness is positive semi-definite. */
  lemma {:induction false} AssembleSemiDefinite(t: Truss, A: Vector, x: Vector)
    requires WellFormed(t) && |x| == |t.xpos| && t.E >= 0.0
    requires forall k :: 0 <= k < |A| ==> A[k] >= 0.0
    ensures Bilinear(AssembleMat(t, A), x, x) >= 0.0
  {
    AssembleForm(t, A, ZipLength(t, A), x, x);
    SumBarFormsNonnegative(t, A, x, ZipLength(t, A));
  }
}
