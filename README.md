# A verified model of the 1D finite element solver in lab1/FEM1.h

`lab1/FEM1.h` defines the class template `FEM<dim>`. It solves a
one-dimensional elastic bar problem with Lagrange elements of any order,
built on deal.II. This project models the sequential core of that class in
Dafny and proves properties of it. All coordinates and values are exact
reals.

- **Outcome** (`outcome.dfy`): the two fatal conditions and the `Result` type that stands for the source's `exit(0)`.
- **Lagrange** (`lagrange.dfy`): the reference element.
  - `xi_at_node` maps a local slot to its coordinate in [-1, 1].
  - `basis_function` is the Lagrange product over the other slots.
  - `basis_gradient` is modelled as written (hard-coded formulas for orders 1 to 3). Beside it sits a corrected `Gradient`: the product-rule derivative of the basis function, valid for every order.
  - A slot outside the element ends the program in the source. Here it is a `Fatal(InvalidNodeIndex)` result.
- **Assembly** (`assembly.dfy`): what `assemble_system` computes, stated as functions of the mesh.
  - The element length `h_e`.
  - The quadrature sums that fill `Flocal` and `Klocal`.
  - The Neumann flux `h` of problem 2.
  - The sums that the scatter adds into the global `F` and `K`.
  - Lemmas: symmetry of `Klocal` and of `K`, accumulation (entries no element touches stay 0), and where the flux goes.
- **Boundary** (`boundary.dfy`): the Dirichlet map that `define_boundary_conds` builds, and its characterisation.
- **ErrorNorm** (`errornorm.dfy`): the sum that `l2norm_of_error` accumulates before its square root. It is never negative, and it is zero exactly when `u_h` equals `u_exact` at every quadrature point.
- **Solver** (`fem.dfy`): the class `Fem`. Its fields are the source's members, with `K` as `array2<real>`, `F` and `D` as `array<real>`, and the boundary map as `map<nat, real>`.
  - The methods follow the source's loops:
    - `SetupSystem`, `DefineBoundaryConds`;
    - `AssembleSystem`, with one helper method per loop level;
    - `L2NormSquaredOfError`.
  - Each method is proved against the specification functions of the modules above.
  - `NewFem` is the constructor's check of the problem number.

deal.II's mesh and degree-of-freedom handler are inputs to the model:

- `SetupSystem` receives the node coordinates (`nodeLocation`, by global number);
- it also receives each element's global node numbers (`local_dof_indices`, as `seq<seq<nat>>`).

## Model

| member | source | states |
|---|---|---|
| Lagrange.XiAtNode | lab1/FEM1.h:111-127 | slot 0 is -1, slot 1 is +1, slot k in 2..order is -1 + 2(k-1)/order; the result is fatal if and only if the slot is above both 1 and the order (so at order 0 slot 1 still gives +1); every coordinate lies in [-1, 1] |
| Lagrange.NodeXiDistinct | lab1/FEM1.h:111-127 | two different slots never share a coordinate, so basis_function never divides by zero |
| Lagrange.BasisFunction | lab1/FEM1.h:131-152 | fatal exactly when the slot is above the order, because the loop calls xi_at_node on it |
| Lagrange.BasisFunctionDelta | lab1/FEM1.h:139-151 | for every order, basis function i at the coordinate of slot j is 1 when i == j and 0 otherwise |
| Lagrange.PartitionOfUnity | lab1/FEM1.h:131-152 | for orders 1 to 3, the basis functions of an element sum to exactly 1 at every xi |
| Lagrange.ShapeOrder1 | lab1/FEM1.h:131-152 | the two order-1 basis functions are (1 - xi)/2 and (1 + xi)/2 |
| Lagrange.ShapeOrder2Node0 | lab1/FEM1.h:131-152 | order 2, slot 0: the basis function is xi(xi - 1)/2 |
| Lagrange.ShapeOrder2Node1 | lab1/FEM1.h:131-152 | order 2, slot 1: xi(xi + 1)/2 |
| Lagrange.ShapeOrder2Node2 | lab1/FEM1.h:131-152 | order 2, slot 2: 1 - xi^2 |
| Lagrange.ShapeOrder3Node0 | lab1/FEM1.h:131-152 | order 3, slot 0: the cubic through the nodes -1, 1, -1/3, 1/3 that is 1 at -1 |
| Lagrange.ShapeOrder3Node1 | lab1/FEM1.h:131-152 | order 3, slot 1: the cubic that is 1 at +1 |
| Lagrange.ShapeOrder3Node2 | lab1/FEM1.h:131-152 | order 3, slot 2: the cubic that is 1 at -1/3 |
| Lagrange.ShapeOrder3Node3 | lab1/FEM1.h:131-152 | order 3, slot 3: the cubic that is 1 at +1/3 |
| Lagrange.BasisGradient | lab1/FEM1.h:155-244 | basis_gradient as written: for orders 1 to 3 it fails exactly when the slot is above the order, always with InvalidNodeIndex; for every order above 3 it returns 0 |
| Lagrange.Gradient | lab1/FEM1.h:155-244 | the corrected gradient is fatal exactly when the slot is above the order |
| Lagrange.GradientIsDerivative | lab1/FEM1.h:155-244 | for every order and slot, the difference of the basis function between x and y is (y - x) times a polynomial divided difference, and that polynomial at y == x is the gradient: the gradient is the xi-derivative of basis_function |
| Lagrange.BasisGradientAgreesOrder1 | lab1/FEM1.h:173-180 | for order 1, basis_gradient is -1/2 for slot 0 and +1/2 for slot 1, which is the derivative; other slots fail |
| Lagrange.GradientOrder2Node0 | lab1/FEM1.h:183-205 | order 2, slot 0: basis_gradient's formula is the derivative of basis_function |
| Lagrange.GradientOrder2Node1 | lab1/FEM1.h:183-205 | order 2, slot 1: the same |
| Lagrange.GradientOrder2Node2 | lab1/FEM1.h:183-205 | order 2, slot 2: the same |
| Lagrange.GradientOrder3Node0 | lab1/FEM1.h:208-241 | order 3, slot 0: basis_gradient's formula is the derivative of basis_function |
| Lagrange.GradientOrder3Node1 | lab1/FEM1.h:208-241 | order 3, slot 1: the same |
| Lagrange.GradientOrder3Node2 | lab1/FEM1.h:208-241 | order 3, slot 2: the same |
| Lagrange.GradientOrder3Node3 | lab1/FEM1.h:208-241 | order 3, slot 3: the same |
| Lagrange.BasisGradientAgrees | lab1/FEM1.h:173-241 | for orders 1 to 3, basis_gradient equals the derivative of basis_function for every slot and xi, with the same fatal cases |
| Lagrange.BasisGradientOrder4IsZero | lab1/FEM1.h:164-243 | for order 4, basis_gradient at slot 0 and xi = -1 is 0. The basis function there goes from 1 at -1 to 0 at +1, and its derivative at -1 is -25/6 |
| Assembly.ElementLengthIsImageLength | lab1/FEM1.h:374 | h_e, taken from slots 0 and 1 only, is the length of the element: the interpolation x(xi) used by the load and error loops maps xi = -1 and xi = +1 to points exactly h_e apart |
| Assembly.InterpolantAtNode | lab1/FEM1.h:384-387 | the interpolation loop evaluated at the coordinate of slot j yields the nodal value of slot j (the node's x, or D there) |
| Assembly.StiffQuadSymmetric | lab1/FEM1.h:404-414 | after any number of quadrature points, Klocal[a][b] == Klocal[b][a] |
| Assembly.ElementStiffnessSymmetric | lab1/FEM1.h:404-414 | the finished Klocal is symmetric |
| Assembly.StiffnessScatterSymmetric | lab1/FEM1.h:418-430 | what one element's scatter adds to K[r][c] it also adds to K[c][r] |
| Assembly.GlobalStiffnessSymmetric | lab1/FEM1.h:362-432 | the assembled K is symmetric after every element |
| Assembly.UntouchedStaysZero | lab1/FEM1.h:351-430 | a global number that no element uses keeps F[g] == 0 and a zero row and column in K |
| Assembly.LoadScatterFlux | lab1/FEM1.h:394-401 | one element's scatter of Flocal in problem 2 is problem 1's scatter, plus h at the global node of slot 1 when that node lies at x = L |
| Assembly.NeumannFluxAtRightEnd | lab1/FEM1.h:394-401 | the assembled F of problem 2 is the body-force F plus h once per element whose slot-1 node is at x = L, added at that node only; any other problem number adds nothing |
| Boundary.BoundaryUpToCharacterized | lab1/FEM1.h:276-285 | a node is in the map if and only if it lies at x = 0, or at x = L in problem 1. Its value is g2 at x = L in problem 1 (g2 wins when L is 0), and otherwise g1 |
| ErrorNorm.ErrorIntegrandSign | lab1/FEM1.h:506 | one term (u_h - u_exact)^2 * h_e/2 * w_q is never negative, and it is zero exactly when the error, h_e or w_q is |
| ErrorNorm.ElementErrorZeroIff | lab1/FEM1.h:490-508 | one element's share is never negative, and it is zero exactly when u_h equals u_exact at each of its quadrature points |
| ErrorNorm.ErrorZeroIff | lab1/FEM1.h:478-509 | the whole sum is never negative, and it is zero exactly when u_h equals u_exact at every quadrature point of every element |
| Solver.NewFem | lab1/FEM1.h:92-97 | the result is fatal (InvalidProblemVariant) if and only if the problem number is neither 1 nor 2; otherwise a new Fem with that order and problem |
| Solver.Fem.constructor | lab1/FEM1.h:89-98 | an accepted problem number and the order are stored, and the boundary map starts empty |
| Solver.Fem.GenerateMesh | lab1/FEM1.h:250 | the domain length L becomes 0.1 |
| Solver.Fem.SetupSystem | lab1/FEM1.h:289-337 | sets the constants, stores the node coordinates and connectivity, and adds the boundary entries of those nodes to the map. It also allocates zeroed K, F and D sized by the number of nodes and installs the three-point rule |
| Solver.Fem.DefineConstants | lab1/FEM1.h:292-296 | g1 = 0, g2 = 0.001, E = 1e11, f = 1e11, h = 1e10 |
| Solver.Fem.AllocateGlobalSystem | lab1/FEM1.h:319-321 | K is n by n, F and D have n entries, all fresh and zero |
| Solver.Fem.DefineQuadratureRule | lab1/FEM1.h:330-336 | three points and weights, as the source's literals |
| Solver.Fem.DefineBoundaryConds | lab1/FEM1.h:261-286 | the loop over global nodes leaves the map the boundary rule describes (characterised by Boundary.BoundaryUpToCharacterized) |
| Solver.Fem.AssembleSystem | lab1/FEM1.h:349-432 | F[g] and K[r][c] are the sums over all elements of what their scatter adds there, whatever K and F held before (so assembling twice gives the same arrays), and K is symmetric |
| Solver.Fem.ZeroGlobalSystem | lab1/FEM1.h:351 | every entry of K and F is 0 |
| Solver.Fem.AssembleElements | lab1/FEM1.h:362-432 | starting from zero, after the element loop F and K hold the accumulated sums of every element's scatter |
| Solver.Fem.ElementLoadVector | lab1/FEM1.h:376-401 | Flocal[a] is the body-force quadrature sum for slot a, plus h only at slot 1 in problem 2 when the right end point is at L |
| Solver.Fem.AccumulateLoad | lab1/FEM1.h:379-391 | the quadrature loop adds up Flocal[A] from 0 and leaves every other slot alone |
| Solver.Fem.ElementStiffnessMatrix | lab1/FEM1.h:403-414 | Klocal[a][b] is the stiffness quadrature sum for slots a and b |
| Solver.Fem.AccumulateStiffness | lab1/FEM1.h:408-413 | the quadrature loop adds up Klocal[A][B] from 0 and leaves every other entry alone |
| Solver.Fem.ScatterElement | lab1/FEM1.h:418-430 | F and K gain, entry by entry, the element's scatter sums: accumulation, never overwrite |
| Solver.Fem.ScatterRow | lab1/FEM1.h:423-429 | row idx[A] of K gains row A of Klocal, column by global number; other rows are unchanged |
| Solver.Fem.InterpolateAt | lab1/FEM1.h:384-387 | the loop over slots B computes the interpolant of the nodal values at xi |
| Solver.Fem.PointError | lab1/FEM1.h:492-506 | the term added for one quadrature point uses u_h and x interpolated there and u_exact at x |
| Solver.Fem.ElementErrorSum | lab1/FEM1.h:490-508 | the quadrature loop of one element sums its error terms |
| Solver.Fem.ErrorSum | lab1/FEM1.h:478-509 | the element loop sums every element's share |
| Solver.Fem.L2NormSquaredOfError | lab1/FEM1.h:466-509 | the value whose square root l2norm_of_error returns: the error sum of the solution D. It is never negative, and it is zero exactly when D interpolates u_exact at every quadrature point |

## Left out

- Lagrange.BasisGradient: for order 1 and a slot above 1 the source relies on `assert(node==1)`. The model returns `Fatal(InvalidNodeIndex)` there. A build with assertions disabled would return 1/2 instead.
- Solver.Fem.AssembleSystem: the stiffness loop uses the corrected `Gradient`, not `basis_gradient` as written. The two agree for orders 1 to 3 (Lagrange.BasisGradientAgrees) and differ above 3 (see Findings).
- Solver.Fem.L2NormSquaredOfError: returns the sum before the final `sqrt`. Square roots of reals are not modelled.
- Solver.Fem.L2NormSquaredOfError: `u_exact` is the parameter `uExact: real -> real`. The closed-form solutions of problems 1 and 2 are hard-coded physics formulas and are not modelled.
- Solver.Fem.InterpolateAt: `l2norm_of_error` interpolates x and u_h in one loop over B. The model runs that loop once per vector, which gives the same two sums.
- Solver.Fem.ElementLoadVector, Solver.Fem.ElementStiffnessMatrix, Solver.Fem.ScatterElement, Solver.Fem.ErrorSum and Solver.Fem.L2NormSquaredOfError: these require a valid element (or mesh), whose connectivity indexes the node list and whose slot 0 lies strictly left of slot 1. deal.II's mesh guarantees this. Without it the assembly would index out of range or divide by a zero h_e. `l2norm_of_error` itself needs only the indexing. The model also asks for h_e > 0 there, because the error sum is never negative only when h_e is not.
- Lagrange.BasisFunction, Lagrange.BasisGradient, Lagrange.Gradient and Assembly.IndexesInto (and so everything built on them): these require order >= 1. The source's functions also run at order 0: `basis_function(1, xi)` then gives (xi + 1)/2 without failing. But the element `FE_Q<dim>(order)` built at line 90 is defined for degree 1 and up, so an order-0 solver never reaches them. Solver.NewFem still accepts order 0, as the constructor does, and Lagrange.XiAtNode is modelled for order 0 too.
- Lagrange.PartitionOfUnity: proved for orders 1 to 3, the orders `basis_gradient` is written for. For higher orders the sum is not stated.
- Solver.Fem.constructor: L, g1, g2, E, f, h and the quadrature fields start at 0. The source leaves them uninitialised until `generate_mesh` and `setup_system` set them.
- Solver.Fem.SetupSystem: the mesh generation and degree-of-freedom numbering (`GridGenerator::subdivided_hyper_rectangle`, `distribute_dofs`, `map_dofs_to_support_points`) are deal.II calls. They are replaced by the node coordinates and connectivity passed in.
- The sparsity pattern and the sparse matrix: K is a dense `array2<real>`. Adding to an entry outside a sparsity pattern is not a possible error here.
- `apply_boundary_values`, the UMFPACK solve, VTK output and console messages: these are foreign library calls and I/O.
- Floating point: every value is an exact real, so rounding is not modelled. The tests `nodeLocation[k] == 0` and `== L` are exact comparisons. The three-point rule keeps the source's decimal literals; its weights do not sum to exactly 2, and no exactness of the rule is claimed.
- `basisFunctionOrder` and `prob` are `double` members in the source. The model makes them `nat`, since both only ever hold whole numbers.
- Only `dim == 1`, the one instantiation the solver is written for, is modelled.

## Findings

| source | as written | input that shows it | evidently intended | confidence | as-written member | corrected member |
|---|---|---|---|---|---|---|
| lab1/FEM1.h:164-243 | `basis_gradient` has formulas only for orders 1, 2 and 3; for any higher order it returns its initial value 0 | order 4, node 0, xi = -1: it returns 0, while the derivative of `basis_function(0, .)` there is -25/6 | the xi-derivative of `basis_function` for every order the constructor accepts | medium, not executed (the driver may only ever use orders 1 to 3) | Lagrange.BasisGradientOrder4IsZero | Lagrange.GradientIsDerivative |
