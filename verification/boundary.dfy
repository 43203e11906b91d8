/** Boundary-condition elimination (`applyBCs`): for every constrained
    degree of freedom `var = 2*node + index` of the `bcs` dictionary, row var
    and column var of K become zero, K[var, var] becomes 1 and f[var] becomes
    0. Indices follow numpy: -n <= var < 0 counts from the end, anything
    else out of range raises IndexError. */
module Boundary {
  import opened LinAlg
  import opened Structure

  /** The position numpy addresses with index v on an axis of length n. */
  function NumpyIndex(v: int, n: nat): (r: Option<nat>)
    ensures r.Some? <==> -(n as int) <= v < n
    ensures r.Some? ==> r.value < n && (r.value == v || r.value == v + n)
  {
    if 0 <= v < n then Some(v) else if -(n as int) <= v < 0 then Some(v + n) else None
  }

  /** `var = 2*node + index` for each index of one `bcs` entry, in order. */
  function SupportVars(s: Support): (vs: seq<int>)
    ensures |vs| == |s.dofs|
    ensures forall i :: 0 <= i < |s.dofs| ==> vs[i] == 2 * s.node + s.dofs[i]
  {
    seq(|s.dofs|, i requires 0 <= i < |s.dofs| => 2 * s.node + s.dofs[i])
  }

  /** The constrained variables in the order the two nested loops visit them. */
  function ConstrainedVars(supports: seq<Support>): seq<int>
  {
    if |supports| == 0 then [] else SupportVars(supports[0]) + ConstrainedVars(supports[1..])
  }

  /** Every constrained variable is a valid numpy index. */
  predicate AllInRange(vars: seq<int>, n: nat)
  {
    forall i :: 0 <= i < |vars| ==> -(n as int) <= vars[i] < n
  }

  /** Position p is addressed by one of the variables. */
  predicate IsConstrained(vars: seq<int>, n: nat, p: nat)
  {
    exists i :: 0 <= i < |vars| && NumpyIndex(vars[i], n) == Some(p)
  }

  /** Entry (r, c) of the identity. */
  function Unit(r: nat, c: nat): real
  {
    if r == c then 1.0 else 0.0
  }

  /** `K[var, :] = 0.0`. */
  function ZeroRow(K: Matrix, v: nat): (K': Matrix)
    requires IsSquare(K, |K|) && v < |K|
    ensures IsSquare(K', |K|)
  {
    K[v := Zeros(|K|)]
  }

  /** `K[:, var] = 0.0`. */
  function ZeroColumn(K: Matrix, v: nat): (K': Matrix)
    requires IsSquare(K, |K|) && v < |K|
    ensures IsSquare(K', |K|)
  {
    seq(|K|, r requires 0 <= r < |K| => K[r][v := 0.0])
  }

  /** `K[var, var] = 1.0`. */
  function SetDiagonal(K: Matrix, v: nat): (K': Matrix)
    requires IsSquare(K, |K|) && v < |K|
    ensures IsSquare(K', |K|)
  {
    K[v := K[v][v := 1.0]]
  }

  /** The three matrix statements of one iteration: row and column v become
      the unit vector e_v, every other entry is kept. */
  function EliminateMat(K: Matrix, v: nat): (K': Matrix)
    requires IsSquare(K, |K|) && v < |K|
    ensures IsSquare(K', |K|)
    ensures forall r, c :: 0 <= r < |K| && 0 <= c < |K| ==>
              K'[r][c] == if r == v || c == v then Unit(r, c) else K[r][c]
  {
    SetDiagonal(ZeroColumn(ZeroRow(K, v), v), v)
  }

  /** `f[var] = 0.0`. */
  function EliminateVec(f: Vector, v: nat): (f': Vector)
    requires v < |f|
    ensures |f'| == |f|
    ensures forall r :: 0 <= r < |f| ==> f'[r] == if r == v then 0.0 else f[r]
  {
    f[v := 0.0]
  }

  /** The closed form of elimination: in K' the rows and columns of
      constrained positions are unit vectors and every other entry is K's;
      in f' constrained loads are zero and the others are f's. */
  predicate Eliminated(K: Matrix, f: Vector, vars: seq<int>, K': Matrix, f': Vector)
    requires IsSquare(K, |f|)
  {
    IsSquare(K', |f|) && |f'| == |f| &&
    (forall p, q :: 0 <= p < |f| && 0 <= q < |f| ==>
       K'[p][q] == if IsConstrained(vars, |f|, p) || IsConstrained(vars, |f|, q) then Unit(p, q) else K[p][q]) &&
    (forall p :: 0 <= p < |f| ==> f'[p] == if IsConstrained(vars, |f|, p) then 0.0 else f[p])
  }

  /** `applyBCs(K, f)` for the variables `vars`, visited in order; `None` when
      one of them is not a valid index. Each iteration overwrites entries
      only, so the result has a closed form. */
  function ApplyBCs(K: Matrix, f: Vector, vars: seq<int>): (r: Option<(Matrix, Vector)>)
    requires IsSquare(K, |f|)
    ensures r.Some? <==> AllInRange(vars, |f|)
    ensures r.Some? ==> Eliminated(K, f, vars, r.value.0, r.value.1)
    decreases |vars|
  {
    if |vars| == 0 then Some((K, f))
    else
      match NumpyIndex(vars[0], |f|)
      case None => None
      case Some(v) =>
        var rest := ApplyBCs(EliminateMat(K, v), EliminateVec(f, v), vars[1..]);
        ConstrainedCons(vars, |f|);
        if rest.Some? then
          EliminateFirst(K, f, vars, v, rest.value.0, rest.value.1);
          rest
        else rest
  }

  /** Eliminating the first variable and then the others by their closed
      form is the closed form for all of them. */
  lemma {:induction false} EliminateFirst(K: Matrix, f: Vector, vars: seq<int>, v: nat, K': Matrix, f': Vector)
    requires IsSquare(K, |f|) && |vars| > 0 && NumpyIndex(vars[0], |f|) == Some(v)
    requires Eliminated(EliminateMat(K, v), EliminateVec(f, v), vars[1..], K', f')
    ensures Eliminated(K, f, vars, K', f')
  {
    ConstrainedCons(vars, |f|);
  }

  /** A position is constrained by vars exactly when the first variable or
      one of the others addresses it. */
  lemma {:induction false} ConstrainedCons(vars: seq<int>, n: nat)
    requires |vars| > 0
    ensures AllInRange(vars, n) <==> -(n as int) <= vars[0] < n && AllInRange(vars[1..], n)
    ensures forall p: nat :: IsConstrained(vars, n, p) <==>
              NumpyIndex(vars[0], n) == Some(p) || IsConstrained(vars[1..], n, p)
  {
    forall p: nat
      ensures IsConstrained(vars, n, p) <==> NumpyIndex(vars[0], n) == Some(p) || IsConstrained(vars[1..], n, p)
    {
      if IsConstrained(vars, n, p) {
        var i :| 0 <= i < |vars| && NumpyIndex(vars[i], n) == Some(p);
        if i > 0 {
          assert vars[1..][i - 1] == vars[i];
        }
      }
      if IsConstrained(vars[1..], n, p) {
        var i :| 0 <= i < |vars[1..]| && NumpyIndex(vars[1..][i], n) == Some(p);
        assert vars[i + 1] == vars[1..][i];
      }
    }
    if -(n as int) <= vars[0] < n && AllInRange(vars[1..], n) {
      forall i | 0 <= i < |vars|
        ensures -(n as int) <= vars[i] < n
      {
        if i > 0 {
          assert vars[i] == vars[1..][i - 1];
        }
      }
    }
  }

  /** `applyBCs` on the truss's own `bcs` dictionary. */
  function ApplyTrussBCs(t: Truss, K: Matrix, f: Vector): (r: Option<(Matrix, Vector)>)
    requires IsSquare(K, |f|)
  {
    ApplyBCs(K, f, ConstrainedVars(t.supports))
  }

  /** Row var and column var of the eliminated matrix are e_var, and f[var] == 0. */
  lemma {:induction false} BCsUnitRowColumn(K: Matrix, f: Vector, vars: seq<int>, i: nat)
    requires IsSquare(K, |f|) && AllInRange(vars, |f|) && i < |vars|
    ensures var v := NumpyIndex(vars[i], |f|).value;
            var (K', f') := ApplyBCs(K, f, vars).value;
            K'[v] == Basis(|f|, v) &&
            (forall r :: 0 <= r < |f| ==> K'[r][v] == Basis(|f|, v)[r]) &&
            f'[v] == 0.0
  {
    hide ApplyBCs;
    var n := |f|;
    var v := NumpyIndex(vars[i], n).value;
    assert IsConstrained(vars, n, v);
    var K' := ApplyBCs(K, f, vars).value.0;
    forall c | 0 <= c < n
      ensures K'[v][c] == Basis(n, v)[c] && K'[c][v] == Basis(n, v)[c]
    {
      assert K'[v][c] == Unit(v, c);
      assert K'[c][v] == Unit(c, v);
    }
  }

  /** Entries whose row and column are both unconstrained keep their values,
      and so do loads on unconstrained positions. */
  lemma {:induction false} BCsUnchanged(K: Matrix, f: Vector, vars: seq<int>, p: nat, q: nat)
    requires IsSquare(K, |f|) && AllInRange(vars, |f|) && p < |f| && q < |f|
    requires forall i :: 0 <= i < |vars| ==> NumpyIndex(vars[i], |f|) != Some(p)
    requires forall i :: 0 <= i < |vars| ==> NumpyIndex(vars[i], |f|) != Some(q)
    ensures ApplyBCs(K, f, vars).value.0[p][q] == K[p][q]
    ensures ApplyBCs(K, f, vars).value.1[p] == f[p]
  {
    hide ApplyBCs;
    assert !IsConstrained(vars, |f|, p) && !IsConstrained(vars, |f|, q);
  }

  /** Elimination keeps a symmetric matrix symmetric. */
  lemma {:induction false} BCsSymmetric(K: Matrix, f: Vector, vars: seq<int>)
    requires IsSquare(K, |f|) && AllInRange(vars, |f|) && IsSymmetric(K)
    ensures IsSymmetric(ApplyBCs(K, f, vars).value.0)
  {
    hide ApplyBCs;
    var n := |f|;
    var K' := ApplyBCs(K, f, vars).value.0;
    forall p, q | 0 <= p < n && 0 <= q < n
      ensures K'[p][q] == K'[q][p]
    {
      assert K[p][q] == K[q][p];
      assert Unit(p, q) == Unit(q, p);
      assert K'[p][q] == if IsConstrained(vars, n, p) || IsConstrained(vars, n, q) then Unit(p, q) else K[p][q];
      assert K'[q][p] == if IsConstrained(vars, n, q) || IsConstrained(vars, n, p) then Unit(q, p) else K[q][p];
    }
  }

  /** Applying the boundary conditions a second time changes nothing. */
  lemma {:induction false} BCsIdempotent(K: Matrix, f: Vector, vars: seq<int>)
    requires IsSquare(K, |f|) && AllInRange(vars, |f|)
    ensures var (K', f') := ApplyBCs(K, f, vars).value;
            ApplyBCs(K', f', vars) == Some((K', f'))
  {
    hide ApplyBCs;
    var (K', f') := ApplyBCs(K, f, vars).value;
    AlreadyEliminated(K', f', vars);
  }

  /** A system whose constrained rows, columns and loads already have their
      eliminated values is left as it is. */
  lemma {:induction false} AlreadyEliminated(K: Matrix, f: Vector, vars: seq<int>)
    requires IsSquare(K, |f|) && AllInRange(vars, |f|)
    requires forall p, q :: 0 <= p < |f| && 0 <= q < |f| && (IsConstrained(vars, |f|, p) || IsConstrained(vars, |f|, q)) ==>
               K[p][q] == Unit(p, q)
    requires forall p :: 0 <= p < |f| && IsConstrained(vars, |f|, p) ==> f[p] == 0.0
    ensures ApplyBCs(K, f, vars) == Some((K, f))
  {
    hide ApplyBCs;
    var n := |f|;
    var (K', f') := ApplyBCs(K, f, vars).value;
    forall p, q | 0 <= p < n && 0 <= q < n
      ensures K'[p][q] == K[p][q]
    {
      assert K'[p][q] == if IsConstrained(vars, n, p) || IsConstrained(vars, n, q) then Unit(p, q) else K[p][q];
    }
    MatrixExt(K', K, n);
    assert f' == f;
  }

  /** A solution of the eliminated system has zero displacement at every
      constrained position: its row there reads `u[var] == f[var] == 0`. */
  lemma {:induction false} BCsFixDisplacement(K: Matrix, f: Vector, vars: seq<int>, u: Vector, i: nat)
    requires IsSquare(K, |f|) && AllInRange(vars, |f|) && i < |vars| && |u| == |f|
    requires MatVec(ApplyBCs(K, f, vars).value.0, u) == ApplyBCs(K, f, vars).value.1
    ensures u[NumpyIndex(vars[i], |f|).value] == 0.0
  {
    var n := |f|;
    var v := NumpyIndex(vars[i], n).value;
    var K' := ApplyBCs(K, f, vars).value.0;
    BCsUnitRowColumn(K, f, vars, i);
    DotBasis(u, v);
    assert MatVec(K', u)[v] == Dot(K'[v], u);
  }
}
