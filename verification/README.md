# Truss finite-element bookkeeping, in Dafny

This project models the finite-element core of the 2-D truss analysis class
`TrussAnalysis` (`examples/truss/truss_analysis.py`) and proves what that core
promises. It covers:

- the element stiffness `Ke = E*A/Le*[[C^2, C S, -C^2, -C S], ...]`;
- global assembly (`assembleMat`);
- the load vector (`assembleLoadVec`);
- boundary-condition elimination (`applyBCs`);
- member force recovery (`computeForces`);
- the mass and mass constraint of `evalObjCon`;
- the gradient loops of `evalObjConGradient`;
- the per-bar loop of `evalHvecProduct`, as written and with its final
  scaling corrected (see "## Findings").

Node `k` owns the global degrees of freedom `2k` (x) and `2k+1` (y). A bar
`(n1, n2)` owns `elem_vars = [2 n1, 2 n1 + 1, 2 n2, 2 n2 + 1]`.

Modules, in dependency order:

- `LinAlg`: vectors and matrices as sequences, the bilinear form `x^T K y`,
  and summation.
- `Element`: bar geometry, direction cosines, the 4-by-4 stiffness and the
  local form `xe^T Ke ye`.
- `Structure`: the truss record (coordinates, connectivity, lengths, load and
  support dictionaries, constants), `elem_vars`, gathering, the bar
  elongation `u2_hat - u1_hat`, and `zip(conn, A)` truncation.
- `Assembly`: `assembleMat` as a fold over the bars of the two scatter loops.
  Every global property comes from one theorem: `x^T K y` is the sum over the
  visited bars of `E A_bar / Le * stretch(x) * stretch(y)`.
- `Loads`: `assembleLoadVec`.
- `Boundary`: `applyBCs`, including numpy's negative indices.
- `Forces`: `computeForces`, plus the virtual-work identity that links it to
  the stiffness.
- `Mass`: the mass loop, the constraint and its gradient.
- `Sensitivity`: the compliance gradient and the Hessian-vector product loops.
- `Compliance`: the compliance objective of `evalObjCon`, for a given solution u.

Scalars are `real`, so rounding is abstracted away. Each bar's length `Le` is
supplied in `Truss.lengths`. `Structure.WellFormed` requires it to be positive
and to be the Euclidean length `sqrt(xd**2 + yd**2)` of the bar's offset, so a
bar whose two end nodes coincide is outside every theorem.

The optimizer's arrays `gobj`, `Acon` and `hvec` have `nvars = len(conn)` entries, one per bar,
and so does the result of `computeForces`.

Operations that can raise numpy's `IndexError` return `Option`, with `None`
for the error. This applies to an out-of-range load node, an out-of-range
constrained variable, and a design vector shorter than the bar list in the
mass loop.

Some of the glue lemmas start with `hide F;` statements. These keep large
function bodies out of a proof that only needs those functions' contracts.

## Model

| member | source | states |
|---|---|---|
| `Element.Stiffness` | examples/truss/truss_analysis.py:274-278 | `Ke = E*A_bar/Le*[[C^2, C S, ...]]`. Its own contract states only the 4-by-4 shape; its content is stated by `Element.StiffnessSymmetric`, `Element.StiffnessUnitArea` and `Element.StiffnessForm`. |
| `Element.UnitStiffness` | examples/truss/truss_analysis.py:156-160 | The unit-area `Ke = (E/Le)*[[C^2, C S, ...]]` of the gradient loop (and of lines 226-230 of the Hessian loop). Its own contract states only the 4-by-4 shape; its content is stated by `Element.StiffnessUnitArea` and `Element.UnitStiffnessForm`. |
| `Element.StiffnessSymmetric` | examples/truss/truss_analysis.py:274-278 | Every element stiffness `Ke` is symmetric: `Ke[i][j] == Ke[j][i]`. |
| `Element.StiffnessUnitArea` | examples/truss/truss_analysis.py:274-278 | `Ke` is `A_bar` times the unit-area stiffness `(E/Le)*[[C^2, ...]]`. |
| `Element.StiffnessForm` | examples/truss/truss_analysis.py:274-278 | The local form `xe^T Ke ye` equals `E A / Le * stretch(xe) * stretch(ye)`, where stretch is `(C xe[2] + S xe[3]) - (C xe[0] + S xe[1])`. |
| `Assembly.BarFormLocal` | examples/truss/truss_analysis.py:267-281 | A bar's closed-form contribution equals the local form of its `Ke` at the entries of x and y gathered at `elem_vars`. |
| `Assembly.ScatterForm` | examples/truss/truss_analysis.py:285-287 | Scattering `Ke` into K with `+=` at every `(elem_vars[i], elem_vars[j])` adds exactly `xe^T Ke ye` to `x^T K y`. |
| `Assembly.MatForm` | examples/truss/truss_analysis.py:256-289 | `x^T assembleMat(A) y` is the sum, over the bars `zip(conn, A)` visits, of each bar's contribution. |
| `Assembly.AssembleMat` | examples/truss/truss_analysis.py:256-258 | The assembled matrix is `len(xpos)` by `len(xpos)`. |
| `Assembly.AssembleSymmetric` | examples/truss/truss_analysis.py:256-287 | The assembled stiffness is symmetric. |
| `Assembly.AssembleSparsity` | examples/truss/truss_analysis.py:257-287 | `K[r][c]` stays 0 unless some visited bar has both r and c among its `elem_vars`. |
| `Assembly.AssembleLinear` | examples/truss/truss_analysis.py:261-287 | `assembleMat(a A + b B) == a assembleMat(A) + b assembleMat(B)`, entry by entry. |
| `Assembly.AssembleTranslation` | examples/truss/truss_analysis.py:261-287 | A rigid translation of all nodes is in the kernel of K. |
| `Assembly.AssembleSemiDefinite` | examples/truss/truss_analysis.py:261-287 | With `E >= 0` and non-negative areas, `x^T K x >= 0` for every x. |
| `Loads.AddLoads` | examples/truss/truss_analysis.py:297-300 | After the loop, each entry i has grown by the sum of what every load entry contributes to i. |
| `Loads.AssembleLoadVec` | examples/truss/truss_analysis.py:291-302 | The result is defined exactly when every loaded node has coordinates. It then has length `len(xpos)`, and entry i is the total load on degree of freedom i. |
| `Loads.LoadVecEntries` | examples/truss/truss_analysis.py:296-300 | For a dictionary of loads (distinct nodes), `f[2n] == fx` and `f[2n+1] == fy` for each loaded node n, and every other entry is 0. |
| `Boundary.NumpyIndex` | examples/truss/truss_analysis.py:317-323 | An index v addresses a position exactly when `-n <= v < n`. That position is v itself or v counted from the end. |
| `Boundary.EliminateMat` | examples/truss/truss_analysis.py:320-322 | After the three matrix statements, row var and column var are the unit vector `e_var`, and every other entry is unchanged. |
| `Boundary.EliminateVec` | examples/truss/truss_analysis.py:323 | `f[var] = 0.0`: entry var becomes 0, every other entry and the length are unchanged. |
| `Boundary.ApplyBCs` | examples/truss/truss_analysis.py:304-325 | The result is defined exactly when every `2*node + index` is a valid index. Rows and columns of constrained positions are then unit vectors, their loads are 0, and every other entry is the input's. |
| `Boundary.BCsUnitRowColumn` | examples/truss/truss_analysis.py:316-323 | For every constrained variable, `K'[var] == e_var`, column var equals `e_var`, and `f'[var] == 0`. |
| `Boundary.BCsUnchanged` | examples/truss/truss_analysis.py:311-323 | Entries whose row and column are both unconstrained keep their value, and so do unconstrained loads. |
| `Boundary.BCsSymmetric` | examples/truss/truss_analysis.py:311-323 | Elimination keeps a symmetric matrix symmetric. |
| `Boundary.AlreadyEliminated` | examples/truss/truss_analysis.py:311-323 | A system whose constrained rows, columns and loads already have their eliminated values is left unchanged. |
| `Boundary.BCsIdempotent` | examples/truss/truss_analysis.py:311-323 | Applying the boundary conditions twice gives the same system as applying them once. |
| `Boundary.BCsFixDisplacement` | examples/truss/truss_analysis.py:320-323 | Any u with `K' u == f'` has `u[var] == 0` at every constrained variable. |
| `Forces.ComputeForces` | examples/truss/truss_analysis.py:333-359 | There is one value per bar. A visited bar's value is `E A_bar (u2_hat - u1_hat) / Le` with `ui_hat = C u[2 ni] + S u[2 ni + 1]`. Bars beyond `zip(conn, A)` stay 0. |
| `Forces.ForceRigidBar` | examples/truss/truss_analysis.py:349-356 | A bar whose two end nodes have identical displacements carries zero force. |
| `Forces.ForceTranslation` | examples/truss/truss_analysis.py:349-356 | A rigid translation of the whole truss gives every bar zero force. |
| `Forces.VirtualWork` | examples/truss/truss_analysis.py:333-356 | For the forces `computeForces` returns, `x^T assembleMat(A) u` is the sum over the visited bars of force times the elongation x causes. |
| `Mass.ComputeMass` | examples/truss/truss_analysis.py:96-110 | The loop succeeds exactly when A has an entry for every bar, and then returns the sum of `rho Le A[k]`. |
| `Mass.Constraint` | examples/truss/truss_analysis.py:77-113 | The constraint `(m_fixed - mass) / mass_scale` at `A = Area_scale x` is defined exactly when x covers every bar. |
| `Mass.MassLinear` | examples/truss/truss_analysis.py:96-110 | The mass is linear in the areas, and in particular additive. |
| `Mass.MassNonnegative` | examples/truss/truss_analysis.py:96-110 | With `rho >= 0` and non-negative areas the mass is non-negative. |
| `Mass.MassBasis` | examples/truss/truss_analysis.py:96-110 | The mass of the unit area vector `e_k` is `rho Le_k` if bar k is counted, and 0 otherwise. |
| `Mass.MassPerturb` | examples/truss/truss_analysis.py:96-110 | Changing `A[k]` by d changes the mass by `d rho Le_k`. |
| `Mass.ConstraintGradient` | examples/truss/truss_analysis.py:139-173 | The gradient has one entry per bar. Entry k of a visited bar is `-Area_scale / mass_scale * rho Le_k`, the same for every x. Entries of unvisited bars are 0. |
| `Mass.ConstraintGradientExact` | examples/truss/truss_analysis.py:96-113 | Moving `x[k]` by h moves the constraint by exactly h times gradient entry k. |
| `Sensitivity.AccumulateRow` | examples/truss/truss_analysis.py:167-168 | The inner loop adds w times row i of the local form `xe^T Ke ye`. |
| `Sensitivity.AccumulateForm` | examples/truss/truss_analysis.py:166-168 | The double loop leaves w times `xe^T Ke ye`. |
| `Sensitivity.ComplianceGradient` | examples/truss/truss_analysis.py:139-176 | There is one entry per bar. A visited bar's entry is `Area_scale / obj_scale * (-1/2 u_e^T Ke u_e)` with Ke at unit area. Unvisited bars give 0. |
| `Sensitivity.UnitBarFormClosed` | examples/truss/truss_analysis.py:155-168 | `u_e^T Ke u_e` at unit area equals `(E/Le) * stretch(u)^2`, and for the Hessian term `(E/Le) * stretch(phi) * stretch(u)`. |
| `Sensitivity.ComplianceSensitivityNonpositive` | examples/truss/truss_analysis.py:155-168 | With `E >= 0`, every unscaled compliance-gradient entry is `<= 0`. |
| `Sensitivity.UnitBarFormDerivative` | examples/truss/truss_analysis.py:155-168 | The per-bar term is `x^T assembleMat(e_k) y`, the derivative of the stiffness with respect to `A_k`. |
| `Sensitivity.StiffnessSensitivity` | examples/truss/truss_analysis.py:261-287 | Moving `A[k]` by h moves `x^T K y` by exactly h times that per-bar term. |
| `Sensitivity.HessianSum` | examples/truss/truss_analysis.py:213-240 | The loop before its final scaling: one entry per bar, `phi_e^T Ke u_e` with Ke at unit area for a visited bar, 0 for the others. |
| `Sensitivity.HessianProduct` | examples/truss/truss_analysis.py:213-242 | As written. There is one entry per bar. A visited bar's entry is `Area_scale**2 / obj_scale * phi_e^T Ke u_e` with Ke at unit area. Unvisited bars give 0. |
| `Sensitivity.StiffnessDecomposition` | examples/truss/truss_analysis.py:261-287 | `x^T assembleMat(A) y` equals the sum, over the visited bars, of `A_k` times the per-bar unit-area term. |
| `Sensitivity.GradientDirectional` | examples/truss/truss_analysis.py:139-176 | The inner product of the compliance gradient with a direction px is `-1/2 * Area_scale / obj_scale * u^T assembleMat(px) u`. |
| `Sensitivity.HessianDirectional` | examples/truss/truss_analysis.py:203-242 | The inner product of the Hessian-vector product with px is `Area_scale**2 / obj_scale * phi^T assembleMat(px) u`, for whatever phi the loop is given. |
| `Sensitivity.HessianScaleFactor` | examples/truss/truss_analysis.py:204-242 | phi is solved against `Kp = assembleMat(Area_scale*px)` (line 204), so it is `Area_scale * phi1` with phi1 solved against `assembleMat(px)`. With line 242's `Area_scale**2 / obj_scale`, the inner product with px is `Area_scale**3 / obj_scale * phi1^T assembleMat(px) u`. That is one factor Area_scale more than the derivative along px of the gradient, which line 176 scales by `Area_scale / obj_scale`. |
| `Sensitivity.CorrectedHessianProduct` | examples/truss/truss_analysis.py:213-242 | The same loop with line 242's scaling corrected to `Area_scale / obj_scale`: a visited bar's entry is `Area_scale / obj_scale * phi_e^T Ke u_e`, unvisited bars give 0. |
| `Sensitivity.CorrectedHessianDirectional` | examples/truss/truss_analysis.py:176-242 | For phi as line 204 produces it, `Area_scale * phi1`, the corrected product applied to px is `Area_scale**2 / obj_scale * phi1^T assembleMat(px) u`, the derivative along px of the gradient of line 176. |
| `Sensitivity.HessianOverscaled` | examples/truss/truss_analysis.py:204-242 | Entry by entry, the product as written is `Area_scale` times the corrected one. |
| `Compliance.Objective` | examples/truss/truss_analysis.py:88-93 | `0.5 * np.dot(u, f) / obj_scale`. For a positive `obj_scale` it is non-negative exactly when `u . f` is, and it is 1 exactly when `obj_scale == 0.5 * u . f`. That is the value line 90 caches on the first call (`1.0*obj`, half of `u . f`), so the first call's objective is 1. Its value for a solved truss is stated by `Compliance.ComplianceEnergy` and `Compliance.ObjectiveNonnegative`. |
| `Compliance.ComplianceEnergy` | examples/truss/truss_analysis.py:80-88 | Let u solve the eliminated system. Then `u . f` after `applyBCs` equals the strain energy `u^T K u` of the uneliminated stiffness. |
| `Compliance.ObjectiveNonnegative` | examples/truss/truss_analysis.py:80-93 | Suppose `E >= 0`, the areas are non-negative, `obj_scale > 0` and u solves the eliminated system. Then `0.5 * np.dot(u, f) / obj_scale >= 0`. |
| `Compliance.TrussObjectiveNonnegative` | examples/truss/truss_analysis.py:77-93 | For the truss's own data: `A = Area_scale x`, `K = assembleMat(A)`, `f = assembleLoadVec()` and `applyBCs` on its `bcs`. If u solves the eliminated system, then `u . f` equals `u^T K u`. For `E >= 0`, `Area_scale >= 0`, `x >= 0` and `obj_scale > 0`, the objective is non-negative. |

## Left out

- The dense solves `np.linalg.solve`. The displacement u and the adjoint phi are inputs. `Boundary.BCsFixDisplacement` takes `K' u == f'` as a hypothesis.
- `np.sqrt` and floating point. Lengths are supplied reals; `WellFormed` ties each to its bar's offset (`Le * Le == xd**2 + yd**2`) and requires it to be positive. The code never checks for `Le == 0`: a bar with coincident end nodes divides 0 by 0 and yields nan there. The model excludes such bars by that precondition and does not model the nan.
- Bars whose node numbers have no coordinates. They are excluded by `WellFormed` rather than modelled as IndexError in the assembly, force and gradient loops. Node numbers are natural numbers, so negative node keys in `conn`, `loads` and `bcs` are not modelled.
- When `applyBCs` or `assembleLoadVec` raises IndexError part-way, the arrays it has already changed are not modelled. The model returns `None`.
- The lazily cached `obj_scale` is a plain parameter `objScale`, and must be non-zero. The first call would divide by a zero compliance when the truss is unloaded; that case is not modelled.
- A `mass_scale` of zero is excluded by the precondition `massScale != 0.0` of `Mass.Constraint` and `Mass.ConstraintGradient`. The source fails differently in the two places: line 113 divides a numpy array, which yields inf or nan, while line 173 first divides the two Python floats `-Area_scale / mass_scale`, which raises `ZeroDivisionError`. The default `mass_scale = m_fixed / nvars` of line 57 is zero when `m_fixed` is 0.
- The right-hand side `rp = Kp u` and its elimination in `evalHvecProduct` are not modelled as a separate operation. phi is an input, and `Sensitivity.HessianDirectional`, `Sensitivity.HessianScaleFactor` and `Sensitivity.CorrectedHessianDirectional` relate the product to `Kp`.
- Printing, plotting and output files (`printResult`, `plotTruss`, `writeOutputFiles`, and the print in `evalObjConGradient`): these are I/O.
- `fullyStressed`: it calls a method that does not exist (`compute_forces`) and prints.
- The ParOpt/MPI base-class initialisation and `src/ParOptProblem.h`: there is no behaviour to verify there.
- `getVarsAndBounds` and the constructor defaults: these are plain assignments.
- Mass.Constraint: its own contract states only when the constraint is defined. Its value is characterised by `Mass.ConstraintGradientExact` and the mass lemmas it is built from.

## Findings

| source | as written | input that shows it | evidently intended | confidence | as-written member | corrected member |
|---|---|---|---|---|---|---|
| examples/truss/truss_analysis.py:204-242 | phi solves against `Kp = assembleMat(Area_scale*px)`, so it already carries one factor Area_scale, and line 242 then scales by `Area_scale**2 / obj_scale`; `px . hvec` is `Area_scale**3 / obj_scale * phi1^T assembleMat(px) u` | the default `Area_scale = 1e-3` with any direction px for which `phi1^T assembleMat(px) u != 0`: every entry of hvec is a thousandth of the Hessian-vector product | `hvec *= Area_scale / obj_scale`, giving `px . hvec == Area_scale**2 / obj_scale * phi1^T assembleMat(px) u`, the derivative along px of the gradient scaled by `Area_scale / obj_scale` at line 176 | high; not executed | `Sensitivity.HessianProduct`, `Sensitivity.HessianScaleFactor`, `Sensitivity.HessianOverscaled` | `Sensitivity.CorrectedHessianProduct`, `Sensitivity.CorrectedHessianDirectional` |
