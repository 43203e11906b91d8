/** The load vector (`assembleLoadVec`): a zero vector of length len(xpos)
    into which every entry (node, (fx, fy)) of the `loads` dictionary adds
    fx at 2 node and fy at 2 node + 1. */
module Loads {
  import opened LinAlg
  import opened Structure

  /** Both degrees of freedom of the loaded node exist. */
  predicate LoadInRange(l: Load, n: nat)
  {
    2 * l.node + 1 < n
  }

  /** What load l contributes to degree of freedom i. */
  function Component(l: Load, i: nat): real
  {
    if i == 2 * l.node then l.fx else if i == 2 * l.node + 1 then l.fy else 0.0
  }

  /** The total load on degree of freedom i: the reference the loop is compared with. */
  function NodalLoad(loads: seq<Load>, i: nat): real
  {
    if |loads| == 0 then 0.0 else Component(loads[0], i) + NodalLoad(loads[1..], i)
  }

  /** The two `+=` of one loop iteration. */
  function AddLoad(f: Vector, l: Load): (g: Vector)
    requires LoadInRange(l, |f|)
    ensures |g| == |f|
    ensures forall i :: 0 <= i < |f| ==> g[i] == f[i] + Component(l, i)
  {
    f[2 * l.node := f[2 * l.node] + l.fx][2 * l.node + 1 := f[2 * l.node + 1] + l.fy]
  }

  /** The loop `for node in self.loads`, in dictionary order. */
  function AddLoads(f: Vector, loads: seq<Load>): (g: Vector)
    requires forall j :: 0 <= j < |loads| ==> LoadInRange(loads[j], |f|)
    ensures |g| == |f|
    ensures forall i :: 0 <= i < |f| ==> g[i] == f[i] + NodalLoad(loads, i)
    decreases |loads|
  {
    if |loads| == 0 then f else AddLoads(AddLoad(f, loads[0]), loads[1..])
  }

  /** `assembleLoadVec()`; `None` when a loaded node has no coordinates. */
  function AssembleLoadVec(t: Truss): (r: Option<Vector>)
    ensures r.Some? <==> forall j :: 0 <= j < |t.loads| ==> LoadInRange(t.loads[j], |t.xpos|)
    ensures r.Some? ==> |r.value| == |t.xpos|
    ensures r.Some? ==> forall i :: 0 <= i < |t.xpos| ==> r.value[i] == NodalLoad(t.loads, i)
  {
    if forall j :: 0 <= j < |t.loads| ==> LoadInRange(t.loads[j], |t.xpos|) then
      Some(AddLoads(Zeros(|t.xpos|), t.loads))
    else
      None
  }

  /** The loads are the entries of a dictionary: no node appears twice. */
  predicate DistinctNodes(loads: seq<Load>)
  {
    forall j, k :: 0 <= j < k < |loads| ==> loads[j].node != loads[k].node
  }

  /** Degree of freedom i belongs to none of the loaded nodes. */
  predicate Unloaded(loads: seq<Load>, i: nat)
  {
    forall j :: 0 <= j < |loads| ==> i != 2 * loads[j].node && i != 2 * loads[j].node + 1
  }

  lemma {:induction false} NodalLoadUnloaded(loads: seq<Load>, i: nat)
    requires Unloaded(loads, i)
    ensures NodalLoad(loads, i) == 0.0
  {
    if |loads| > 0 {
      assert Unloaded(loads[1..], i) by {
        forall j | 0 <= j < |loads[1..]|
          ensures i != 2 * loads[1..][j].node && i != 2 * loads[1..][j].node + 1
        {
          assert loads[1..][j] == loads[j + 1];
        }
      }
      NodalLoadUnloaded(loads[1..], i);
    }
  }

  /** With distinct nodes the load on each degree of freedom of node
      loads[j].node is that entry's component alone. */
  lemma {:induction false} NodalLoadAt(loads: seq<Load>, j: nat, i: nat)
    requires DistinctNodes(loads) && j < |loads|
    requires i == 2 * loads[j].node || i == 2 * loads[j].node + 1
    ensures NodalLoad(loads, i) == Component(loads[j], i)
  {
    var rest := loads[1..];
    assert DistinctNodes(rest) by {
      forall p, q | 0 <= p < q < |rest|
        ensures rest[p].node != rest[q].node
      {
        assert rest[p] == loads[p + 1] && rest[q] == loads[q + 1];
      }
    }
    if j == 0 {
      assert Unloaded(rest, i) by {
        forall q | 0 <= q < |rest|
          ensures i != 2 * rest[q].node && i != 2 * rest[q].node + 1
        {
          assert rest[q] == loads[q + 1];
        }
      }
      NodalLoadUnloaded(rest, i);
    } else {
      assert rest[j - 1] == loads[j];
      NodalLoadAt(rest, j - 1, i);
      assert Component(loads[0], i) == 0.0;
    }
  }

  /** For a dictionary of loads, `f[2 n] == fx` and `f[2 n + 1] == fy` for every
      loaded node n, and every other entry is zero. */
  lemma {:induction false} LoadVecEntries(t: Truss)
    requires DistinctNodes(t.loads)
    requires forall j :: 0 <= j < |t.loads| ==> LoadInRange(t.loads[j], |t.xpos|)
    ensures AssembleLoadVec(t).Some?
    ensures forall j :: 0 <= j < |t.loads| ==>
              AssembleLoadVec(t).value[2 * t.loads[j].node] == t.loads[j].fx &&
              AssembleLoadVec(t).value[2 * t.loads[j].node + 1] == t.loads[j].fy
    ensures forall i :: 0 <= i < |t.xpos| && Unloaded(t.loads, i) ==> AssembleLoadVec(t).value[i] == 0.0
  {
    var f := AssembleLoadVec(t).value;
    forall j | 0 <= j < |t.loads|
      ensures f[2 * t.loads[j].node] == t.loads[j].fx && f[2 * t.loads[j].node + 1] == t.loads[j].fy
    {
      NodalLoadAt(t.loads, j, 2 * t.loads[j].node);
      NodalLoadAt(t.loads, j, 2 * t.loads[j].node + 1);
    }
    forall i | 0 <= i < |t.xpos| && Unloaded(t.loads, i)
      ensures f[i] == 0.0
    {
      NodalLoadUnloaded(t.loads, i);
    }
  }
}
