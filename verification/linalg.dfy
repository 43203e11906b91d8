/** Dense real vectors and matrices: the inner product, the matrix-vector
    product and the bilinear form x^T K y in which the truss model states its
    properties. Matrices are sequences of rows. */
module LinAlg {

  type Vector = seq<real>
  type Matrix = seq<seq<real>>

  function Zeros(n: nat): (v: Vector)
    ensures |v| == n
    ensures forall k :: 0 <= k < n ==> v[k] == 0.0
  {
    seq(n, k => 0.0)
  }

  /** The unit vector e_k of length n. */
  function Basis(n: nat, k: int): (e: Vector)
    ensures |e| == n
    ensures forall i :: 0 <= i < n ==> e[i] == if i == k then 1.0 else 0.0
  {
    seq(n, i => if i == k then 1.0 else 0.0)
  }

  /** `s * x`, as numpy's scalar-times-array. */
  function ScaleVec(s: real, x: Vector): (y: Vector)
    ensures |y| == |x|
    ensures forall i :: 0 <= i < |x| ==> y[i] == s * x[i]
  {
    seq(|x|, i requires 0 <= i < |x| => s * x[i])
  }

  /** The product `a * b * c`, kept as one term so that equal factors give equal products. */
  function Prod(a: real, b: real, c: real): real
  {
    a * b * c
  }

  /** The linear combination `a * x + b * y`. */
  function Combine(a: real, x: Vector, b: real, y: Vector): (z: Vector)
    requires |x| == |y|
    ensures |z| == |x|
    ensures forall i :: 0 <= i < |x| ==> z[i] == a * x[i] + b * y[i]
  {
    seq(|x|, i requires 0 <= i < |x| => a * x[i] + b * y[i])
  }

  predicate IsSquare(K: Matrix, n: nat)
  {
    |K| == n && forall r :: 0 <= r < n ==> |K[r]| == n
  }

  predicate IsSymmetric(K: Matrix)
  {
    IsSquare(K, |K|) && forall r, c :: 0 <= r < |K| && 0 <= c < |K| ==> K[r][c] == K[c][r]
  }

  function ZeroMatrix(n: nat): (K: Matrix)
    ensures IsSquare(K, n)
    ensures forall r, c :: 0 <= r < n && 0 <= c < n ==> K[r][c] == 0.0
  {
    seq(n, r => Zeros(n))
  }

  /** The entrywise linear combination `a * K + b * L` of two n-by-n matrices. */
  function MatCombine(a: real, K: Matrix, b: real, L: Matrix, n: nat): (M: Matrix)
    requires IsSquare(K, n) && IsSquare(L, n)
    ensures IsSquare(M, n)
    ensures forall r, c :: 0 <= r < n && 0 <= c < n ==> M[r][c] == a * K[r][c] + b * L[r][c]
  {
    seq(n, r requires 0 <= r < n => seq(n, c requires 0 <= c < n => a * K[r][c] + b * L[r][c]))
  }

  /** The inner product, accumulated from the first entry to the last. */
  function Dot(a: Vector, b: Vector): real
    requires |a| == |b|
  {
    if |a| == 0 then 0.0 else Dot(a[..|a| - 1], b[..|b| - 1]) + a[|a| - 1] * b[|b| - 1]
  }

  /** The sum of the entries, accumulated from the first to the last. */
  function Sum(s: seq<real>): real
  {
    if |s| == 0 then 0.0 else Sum(s[..|s| - 1]) + s[|s| - 1]
  }

  /** Summation is linear. */
  lemma {:induction false} SumLinear(a: real, u: seq<real>, b: real, v: seq<real>, w: seq<real>)
    requires |u| == |v| == |w|
    requires forall k :: 0 <= k < |w| ==> w[k] == a * u[k] + b * v[k]
    ensures Sum(w) == a * Sum(u) + b * Sum(v)
  {
    if |w| > 0 {
      var m := |w| - 1;
      SumLinear(a, u[..m], b, v[..m], w[..m]);
    }
  }

  /** The sum of a linear combination is the combination of the sums. */
  lemma {:induction false} SumCombine(a: real, u: seq<real>, b: real, v: seq<real>)
    requires |u| == |v|
    ensures Sum(Combine(a, u, b, v)) == a * Sum(u) + b * Sum(v)
  {
    SumLinear(a, u, b, v, Combine(a, u, b, v));
  }

  /** The inner product is the sum of the termwise products. */
  lemma {:induction false} DotSum(a: Vector, b: Vector, s: seq<real>)
    requires |a| == |b| == |s|
    requires forall k :: 0 <= k < |s| ==> s[k] == a[k] * b[k]
    ensures Dot(a, b) == Sum(s)
  {
    if |s| > 0 {
      var m := |s| - 1;
      DotSum(a[..m], b[..m], s[..m]);
    }
  }

  /** A sum of zeros is zero. */
  lemma {:induction false} SumZero(s: seq<real>)
    requires forall k :: 0 <= k < |s| ==> s[k] == 0.0
    ensures Sum(s) == 0.0
  {
    if |s| > 0 {
      SumZero(s[..|s| - 1]);
    }
  }

  /** A sum whose only non-zero term is term k equals term k. */
  lemma {:induction false} SumSingle(s: seq<real>, k: nat)
    requires k < |s|
    requires forall j :: 0 <= j < |s| && j != k ==> s[j] == 0.0
    ensures Sum(s) == s[k]
  {
    var m := |s| - 1;
    if k == m {
      SumZero(s[..m]);
    } else {
      SumSingle(s[..m], k);
    }
  }

  /** A sum of non-negative terms is non-negative. */
  lemma {:induction false} SumNonnegative(s: seq<real>)
    requires forall k :: 0 <= k < |s| ==> s[k] >= 0.0
    ensures Sum(s) >= 0.0
  {
    if |s| > 0 {
      SumNonnegative(s[..|s| - 1]);
    }
  }

  function MatVec(K: Matrix, x: Vector): (y: Vector)
    requires IsSquare(K, |x|)
    ensures |y| == |x|
    ensures forall r :: 0 <= r < |x| ==> y[r] == Dot(K[r], x)
  {
    seq(|x|, r requires 0 <= r < |x| => Dot(K[r], x))
  }

  /** The bilinear form x^T K y. */
  function Bilinear(K: Matrix, x: Vector, y: Vector): real
    requires |x| == |y| && IsSquare(K, |y|)
  {
    Dot(x, MatVec(K, y))
  }

  /** `K[r, c] += v`: the one entry (r, c) grows by v, every other entry is kept. */
  function AddAt(K: Matrix, r: nat, c: nat, v: real): (K': Matrix)
    requires IsSquare(K, |K|) && r < |K| && c < |K|
    ensures IsSquare(K', |K|)
  {
    K[r := K[r][c := K[r][c] + v]]
  }

  /** Two inner products agree when they agree term by term. */
  lemma {:induction false} DotTermwise(a: Vector, b: Vector, x: Vector, y: Vector)
    requires |a| == |b| == |x| == |y|
    requires forall k :: 0 <= k < |a| ==> a[k] * b[k] == x[k] * y[k]
    ensures Dot(a, b) == Dot(x, y)
  {
    if |a| > 0 {
      var m := |a| - 1;
      DotTermwise(a[..m], b[..m], x[..m], y[..m]);
    }
  }

  lemma {:induction false} DotCommutes(a: Vector, b: Vector)
    requires |a| == |b|
    ensures Dot(a, b) == Dot(b, a)
  {
    DotTermwise(a, b, b, a);
  }

  lemma {:induction false} DotZeroRight(a: Vector, b: Vector)
    requires |a| == |b|
    requires forall k :: 0 <= k < |b| ==> b[k] == 0.0
    ensures Dot(a, b) == 0.0
  {
    if |a| > 0 {
      DotZeroRight(a[..|a| - 1], b[..|b| - 1]);
    }
  }

  /** Growing one entry of the left factor by d grows the inner product by d times the matching right entry. */
  lemma {:induction false} DotUpdateLeft(a: Vector, b: Vector, i: nat, d: real)
    requires |a| == |b| && i < |a|
    ensures Dot(a[i := a[i] + d], b) == Dot(a, b) + d * b[i]
  {
    var a' := a[i := a[i] + d];
    var m := |a| - 1;
    if i == m {
      assert a'[..m] == a[..m];
    } else {
      assert a'[..m] == a[..m][i := a[..m][i] + d];
      DotUpdateLeft(a[..m], b[..m], i, d);
    }
  }

  lemma {:induction false} DotUpdateRight(a: Vector, b: Vector, i: nat, d: real)
    requires |a| == |b| && i < |a|
    ensures Dot(a, b[i := b[i] + d]) == Dot(a, b) + a[i] * d
  {
    DotCommutes(a, b[i := b[i] + d]);
    DotUpdateLeft(b, a, i, d);
    DotCommutes(a, b);
  }

  /** A right factor that vanishes off entry k picks out the term at k. */
  lemma {:induction false} DotSingle(a: Vector, b: Vector, k: nat)
    requires |a| == |b| && k < |a|
    requires forall i :: 0 <= i < |b| && i != k ==> b[i] == 0.0
    ensures Dot(a, b) == a[k] * b[k]
  {
    var m := |a| - 1;
    if k == m {
      DotZeroRight(a[..m], b[..m]);
    } else {
      DotSingle(a[..m], b[..m], k);
    }
  }

  /** Taking the inner product with e_k reads off entry k. */
  lemma {:induction false} DotBasis(a: Vector, k: nat)
    requires k < |a|
    ensures Dot(a, Basis(|a|, k)) == a[k]
    ensures Dot(Basis(|a|, k), a) == a[k]
  {
    DotSingle(a, Basis(|a|, k), k);
    DotCommutes(a, Basis(|a|, k));
  }

  /** Scaling the right factor entrywise by s scales the inner product by s. */
  lemma {:induction false} DotScaleRight(a: Vector, s: real, b: Vector, c: Vector)
    requires |a| == |b| == |c|
    requires forall i :: 0 <= i < |c| ==> c[i] == s * b[i]
    ensures Dot(a, c) == s * Dot(a, b)
  {
    if |a| > 0 {
      var m := |a| - 1;
      DotScaleRight(a[..m], s, b[..m], c[..m]);
      assert a[m] * c[m] == s * (a[m] * b[m]);
    }
  }

  /** Scaling the left factor entrywise by s scales the inner product by s. */
  lemma {:induction false} DotScaleLeft(s: real, b: Vector, c: Vector, a: Vector)
    requires |a| == |b| == |c|
    requires forall i :: 0 <= i < |c| ==> c[i] == s * b[i]
    ensures Dot(c, a) == s * Dot(b, a)
  {
    DotCommutes(c, a);
    DotCommutes(b, a);
    DotScaleRight(a, s, b, c);
  }

  /** Scaling the left argument of x^T K y entrywise by s scales the form by s. */
  lemma {:induction false} BilinearScaleLeft(K: Matrix, s: real, x: Vector, x': Vector, y: Vector)
    requires |x| == |y| == |x'| && IsSquare(K, |y|)
    requires forall i :: 0 <= i < |x'| ==> x'[i] == s * x[i]
    ensures Bilinear(K, x', y) == s * Bilinear(K, x, y)
  {
    DotScaleLeft(s, x, x', MatVec(K, y));
  }

  /** `K[r, c] += v` changes entry r of K y by v * y_c and no other entry. */
  lemma {:induction false} MatVecAddAt(K: Matrix, r: nat, c: nat, v: real, y: Vector)
    requires IsSquare(K, |y|) && r < |K| && c < |K|
    ensures MatVec(AddAt(K, r, c, v), y) == MatVec(K, y)[r := MatVec(K, y)[r] + v * y[c]]
  {
    DotUpdateLeft(K[r], y, c, v);
  }

  /** Regrouping x_r (v y_c) as xr yc v. */
  lemma {:induction false} ProductRegroup(p: real, q: real, a: real, b: real, v: real, a': real, b': real)
    requires p == a * q && q == v * b && a == a' && b == b'
    ensures p == Prod(a', b', v)
  {
  }

  /** x^T (K + v e_r e_c^T) y == x^T K y + x_r y_c v, for xr == x_r and yc == y_c. */
  lemma {:induction false} BilinearAddAt(K: Matrix, r: nat, c: nat, v: real, x: Vector, y: Vector, xr: real, yc: real)
    requires |x| == |y| && IsSquare(K, |y|) && r < |K| && c < |K|
    requires xr == x[r] && yc == y[c]
    ensures Bilinear(AddAt(K, r, c, v), x, y) == Bilinear(K, x, y) + Prod(xr, yc, v)
  {
    var w := MatVec(K, y);
    var d := v * y[c];
    MatVecAddAt(K, r, c, v, y);
    DotUpdateRight(x, w, r, d);
    ProductRegroup(x[r] * d, d, x[r], y[c], v, xr, yc);
  }

  lemma {:induction false} BilinearZero(n: nat, x: Vector, y: Vector)
    requires |x| == |y| == n
    ensures Bilinear(ZeroMatrix(n), x, y) == 0.0
  {
    var Z := ZeroMatrix(n);
    forall r | 0 <= r < n
      ensures MatVec(Z, y)[r] == 0.0
    {
      DotCommutes(Z[r], y);
      DotZeroRight(y, Z[r]);
    }
    DotZeroRight(x, MatVec(Z, y));
  }

  /** The bilinear form on two unit vectors reads off one matrix entry. */
  lemma {:induction false} BilinearBasis(K: Matrix, n: nat, r: nat, c: nat)
    requires IsSquare(K, n) && r < n && c < n
    ensures Bilinear(K, Basis(n, r), Basis(n, c)) == K[r][c]
  {
    var w := MatVec(K, Basis(n, c));
    forall i | 0 <= i < n
      ensures w[i] == K[i][c]
    {
      DotBasis(K[i], c);
    }
    DotBasis(w, r);
  }

  /** x^T K y with x == e_r reads off entry r of K y. */
  lemma {:induction false} BilinearRow(K: Matrix, r: nat, y: Vector)
    requires IsSquare(K, |y|) && r < |y|
    ensures Bilinear(K, Basis(|y|, r), y) == MatVec(K, y)[r]
  {
    DotBasis(MatVec(K, y), r);
  }

  /** x^T K x only reads the entries of K whose row and column both carry a
      non-zero entry of x. */
  lemma {:induction false} BilinearAgree(K: Matrix, L: Matrix, x: Vector)
    requires IsSquare(K, |x|) && IsSquare(L, |x|)
    requires forall p, q :: 0 <= p < |x| && 0 <= q < |x| && x[p] != 0.0 && x[q] != 0.0 ==> K[p][q] == L[p][q]
    ensures Bilinear(K, x, x) == Bilinear(L, x, x)
  {
    var a := MatVec(K, x);
    var b := MatVec(L, x);
    forall p | 0 <= p < |x|
      ensures x[p] * a[p] == x[p] * b[p]
    {
      if x[p] != 0.0 {
        forall q | 0 <= q < |x|
          ensures K[p][q] * x[q] == L[p][q] * x[q]
        {
          if x[q] != 0.0 {
            assert K[p][q] == L[p][q];
          }
        }
        DotTermwise(K[p], x, L[p], x);
      }
    }
    DotTermwise(x, a, x, b);
  }

  lemma {:induction false} MatrixExt(K: Matrix, L: Matrix, n: nat)
    requires IsSquare(K, n) && IsSquare(L, n)
    requires forall r, c :: 0 <= r < n && 0 <= c < n ==> K[r][c] == L[r][c]
    ensures K == L
  {
    forall r | 0 <= r < n
      ensures K[r] == L[r]
    {
      assert forall c :: 0 <= c < n ==> K[r][c] == L[r][c];
    }
  }
}
