/** What assemble_system computes (lab1/FEM1.h), stated as functions of the
    mesh: the element length, the quadrature sums of the element load vector
    and stiffness matrix, the Neumann flux, and the sums that scatter the
    element values into the global F and K. The class in fem.dfy computes the
    same values with loops over arrays. */
module Assembly {
  import opened Outcome
  import opened Lagrange

  // ---------------------------------------------------------------------------
  // Quadrature rule and mesh
  // ---------------------------------------------------------------------------

  /** The three-point Gauss rule of setup_system, as the decimal literals it is
      written with (over exact reals these weights do not sum to 2 exactly). */
  const QuadRule: nat := 3
  const QuadPoints: seq<real> := [-0.7745966692414834, 0.0, 0.7745966692414834]
  const QuadWeights: seq<real> := [0.5555555555555557, 0.8888888888888888, 0.5555555555555557]

  /** An element of a mesh of order `order`: its order + 1 global node numbers
      (local_dof_indices), all within the mesh, with the left end point in slot 0
      strictly left of the right end point in slot 1. */
  predicate ValidElement(order: nat, nodes: seq<real>, idx: seq<nat>)
  {
    IndexesInto(order, nodes, idx) && nodes[idx[0]] < nodes[idx[1]]
  }

  /** idx holds order + 1 global numbers, each an index of `values`. */
  predicate IndexesInto(order: nat, values: seq<real>, idx: seq<nat>)
  {
    order >= 1 && |idx| == order + 1
    && (forall a :: 0 <= a < |idx| ==> idx[a] < |values|)
  }

  predicate ValidMesh(order: nat, nodes: seq<real>, elems: seq<seq<nat>>)
  {
    forall e :: 0 <= e < |elems| ==> ValidElement(order, nodes, elems[e])
  }

  /** h_e: the distance between the nodes of local slots 0 and 1, the element's
      two end points; no other slot enters it. */
  function ElementLength(order: nat, nodes: seq<real>, idx: seq<nat>): (r: real)
    requires ValidElement(order, nodes, idx)
    ensures r > 0.0
    ensures r == nodes[idx[1]] - nodes[idx[0]]
  {
    nodes[idx[1]] - nodes[idx[0]]
  }

  // ---------------------------------------------------------------------------
  // Element load vector
  // ---------------------------------------------------------------------------

  /** x * y, nothing more. It is a proof device: the verifier's arithmetic
      does not reliably identify two copies of a nonlinear product, so the
      products a loop accumulates are written with Mul, and the loop's step
      and the function it is proved against then share one term. */
  function Mul(x: real, y: real): real
  {
    x * y
  }

  /** The sum of the first n nodal values of the element, weighted by their
      basis functions at reference point xi: with the node coordinates, the
      x-coordinate of xi; with the solution vector D, the value u_h there. */
  function Interpolant(order: nat, values: seq<real>, idx: seq<nat>, xi: real, n: nat): real
    requires IndexesInto(order, values, idx) && n <= order + 1
  {
    if n == 0 then 0.0
    else Interpolant(order, values, idx, xi, n - 1) + Mul(values[idx[n - 1]], BasisFunction(order, n - 1, xi).value)
  }

  /** The load integrand h_e / 2 * N_A(xi_q) * w_q * f(x_q) at one quadrature point. */
  function LoadIntegrand(he: real, na: real, w: real, f: real): real
  {
    he / 2.0 * na * w * f
  }

  /** The body force f(x) = x: assemble_system declares a local f that shadows
      the member f and sets it to 1 * x at every quadrature point. */
  function BodyForce(x: real): real
  {
    1.0 * x
  }

  /** Flocal[a] after the first nq quadrature points. */
  function LoadQuad(order: nat, nodes: seq<real>, idx: seq<nat>, a: nat, nq: nat): real
    requires ValidElement(order, nodes, idx) && a <= order && nq <= QuadRule
  {
    if nq == 0 then 0.0
    else
      LoadQuad(order, nodes, idx, a, nq - 1)
      + LoadIntegrand(ElementLength(order, nodes, idx), BasisFunction(order, a, QuadPoints[nq - 1]).value,
                      QuadWeights[nq - 1],
                      BodyForce(Interpolant(order, nodes, idx, QuadPoints[nq - 1], order + 1)))
  }

  /** The Neumann flux added to slot a: h for slot 1 in problem 2 when the
      element's right end point is at x = L, nothing otherwise. */
  function NeumannFlux(nodes: seq<real>, idx: seq<nat>, prob: nat, len: real, h: real, a: nat): real
    requires 2 <= |idx| && idx[1] < |nodes|
  {
    if a == 1 && prob == 2 && nodes[idx[1]] == len then h else 0.0
  }

  /** Flocal[a] when the element is complete. */
  function ElementLoad(order: nat, nodes: seq<real>, idx: seq<nat>, prob: nat, len: real, h: real,
                       a: nat): real
    requires ValidElement(order, nodes, idx) && a <= order
  {
    LoadQuad(order, nodes, idx, a, QuadRule) + NeumannFlux(nodes, idx, prob, len, h, a)
  }

  // ---------------------------------------------------------------------------
  // Element stiffness matrix
  // ---------------------------------------------------------------------------

  /** The stiffness integrand 2 / h_e * dN_A(xi_q) * dN_B(xi_q) * w_q. */
  function StiffIntegrand(he: real, ga: real, gb: real, w: real): real
    requires he != 0.0
  {
    2.0 / he * ga * gb * w
  }

  /** Klocal[a][b] after the first nq quadrature points. The gradients are the
      exact derivatives of the basis functions, which are basis_gradient's for
      orders 1 to 3 (Lagrange.BasisGradientAgrees). */
  function StiffQuad(order: nat, nodes: seq<real>, idx: seq<nat>, a: nat, b: nat, nq: nat): real
    requires ValidElement(order, nodes, idx) && a <= order && b <= order && nq <= QuadRule
  {
    if nq == 0 then 0.0
    else
      StiffQuad(order, nodes, idx, a, b, nq - 1)
      + StiffIntegrand(ElementLength(order, nodes, idx), Gradient(order, a, QuadPoints[nq - 1]).value,
                       Gradient(order, b, QuadPoints[nq - 1]).value, QuadWeights[nq - 1])
  }

  /** Klocal[a][b] when the element is complete. */
  function ElementStiffness(order: nat, nodes: seq<real>, idx: seq<nat>, a: nat, b: nat): real
    requires ValidElement(order, nodes, idx) && a <= order && b <= order
  {
    StiffQuad(order, nodes, idx, a, b, QuadRule)
  }

  // ---------------------------------------------------------------------------
  // Scatter into the global system
  // ---------------------------------------------------------------------------

  /** What one element adds to F[g]: the sum of Flocal[a] over its first n
      slots a whose global number idx[a] is g. */
  function LoadScatter(order: nat, nodes: seq<real>, idx: seq<nat>, prob: nat, len: real, h: real,
                       g: nat, n: nat): real
    requires ValidElement(order, nodes, idx) && n <= order + 1
  {
    if n == 0 then 0.0
    else
      LoadScatter(order, nodes, idx, prob, len, h, g, n - 1)
      + (if idx[n - 1] == g then ElementLoad(order, nodes, idx, prob, len, h, n - 1) else 0.0)
  }

  /** What row a of Klocal adds to K[., gc]: the sum of Klocal[a][b] over the
      first m slots b whose global number is gc. */
  function StiffnessScatterRow(order: nat, nodes: seq<real>, idx: seq<nat>, a: nat, gc: nat, m: nat): real
    requires ValidElement(order, nodes, idx) && a <= order && m <= order + 1
  {
    if m == 0 then 0.0
    else
      StiffnessScatterRow(order, nodes, idx, a, gc, m - 1)
      + (if idx[m - 1] == gc then ElementStiffness(order, nodes, idx, a, m - 1) else 0.0)
  }

  /** What one element adds to K[gr, gc] through the first n rows and the
      first m columns of Klocal. */
  function StiffnessScatter(order: nat, nodes: seq<real>, idx: seq<nat>, gr: nat, gc: nat, n: nat, m: nat): real
    requires ValidElement(order, nodes, idx) && n <= order + 1 && m <= order + 1
  {
    if n == 0 then 0.0
    else
      StiffnessScatter(order, nodes, idx, gr, gc, n - 1, m)
      + (if idx[n - 1] == gr then StiffnessScatterRow(order, nodes, idx, n - 1, gc, m) else 0.0)
  }

  /** F[g] after the first e elements have been assembled. */
  function GlobalLoad(order: nat, nodes: seq<real>, elems: seq<seq<nat>>, prob: nat, len: real, h: real,
                      g: nat, e: nat): real
    requires ValidMesh(order, nodes, elems) && e <= |elems|
  {
    if e == 0 then 0.0
    else
      GlobalLoad(order, nodes, elems, prob, len, h, g, e - 1)
      + LoadScatter(order, nodes, elems[e - 1], prob, len, h, g, order + 1)
  }

  /** K[gr, gc] after the first e elements have been assembled. */
  function GlobalStiffness(order: nat, nodes: seq<real>, elems: seq<seq<nat>>, gr: nat, gc: nat, e: nat): real
    requires ValidMesh(order, nodes, elems) && e <= |elems|
  {
    if e == 0 then 0.0
    else
      GlobalStiffness(order, nodes, elems, gr, gc, e - 1)
      + StiffnessScatter(order, nodes, elems[e - 1], gr, gc, order + 1, order + 1)
  }

  // ---------------------------------------------------------------------------
  // Properties of the element values
  // ---------------------------------------------------------------------------

  /** At reference node j the interpolant takes node j's own value: the
      element's reference nodes go to its mesh nodes, and u_h equals D there. */
  lemma {:induction false} InterpolantAtNode(order: nat, values: seq<real>, idx: seq<nat>, j: nat, xj: real, n: nat)
    requires IndexesInto(order, values, idx) && n <= order + 1
    requires XiAtNode(order, j) == Ok(xj)
    ensures Interpolant(order, values, idx, xj, n) == if j < n then values[idx[j]] else 0.0
  {
    if n > 0 {
      InterpolantAtNode(order, values, idx, j, xj, n - 1);
      BasisFunctionDelta(order, n - 1, j, xj);
    }
  }

  /** h_e is the length of the element: the interpolation x(xi) that the load
      and error loops use maps the reference interval [-1, 1] onto an
      interval of exactly that length. */
  lemma ElementLengthIsImageLength(order: nat, nodes: seq<real>, idx: seq<nat>)
    requires ValidElement(order, nodes, idx)
    ensures ElementLength(order, nodes, idx)
         == Interpolant(order, nodes, idx, 1.0, order + 1) - Interpolant(order, nodes, idx, -1.0, order + 1)
  {
    InterpolantAtNode(order, nodes, idx, 1, 1.0, order + 1);
    InterpolantAtNode(order, nodes, idx, 0, -1.0, order + 1);
  }

  lemma {:induction false} StiffQuadSymmetric(order: nat, nodes: seq<real>, idx: seq<nat>, a: nat, b: nat, nq: nat)
    requires ValidElement(order, nodes, idx) && a <= order && b <= order && nq <= QuadRule
    ensures StiffQuad(order, nodes, idx, a, b, nq) == StiffQuad(order, nodes, idx, b, a, nq)
  {
    if nq > 0 {
      StiffQuadSymmetric(order, nodes, idx, a, b, nq - 1);
    }
  }

  /** Klocal is symmetric: Klocal[a][b] == Klocal[b][a]. */
  lemma ElementStiffnessSymmetric(order: nat, nodes: seq<real>, idx: seq<nat>, a: nat, b: nat)
    requires ValidElement(order, nodes, idx) && a <= order && b <= order
    ensures ElementStiffness(order, nodes, idx, a, b) == ElementStiffness(order, nodes, idx, b, a)
  {
    StiffQuadSymmetric(order, nodes, idx, a, b, QuadRule);
  }

  // ---------------------------------------------------------------------------
  // Symmetry of the global stiffness matrix
  // ---------------------------------------------------------------------------

  /** Column b of Klocal summed over the first n slots a numbered gr. */
  function StiffnessScatterColumn(order: nat, nodes: seq<real>, idx: seq<nat>, b: nat, gr: nat, n: nat): real
    requires ValidElement(order, nodes, idx) && b <= order && n <= order + 1
  {
    if n == 0 then 0.0
    else
      StiffnessScatterColumn(order, nodes, idx, b, gr, n - 1)
      + (if idx[n - 1] == gr then ElementStiffness(order, nodes, idx, n - 1, b) else 0.0)
  }

  /** The element's contribution to K[gr, gc] summed column by column. */
  function StiffnessScatterByColumns(order: nat, nodes: seq<real>, idx: seq<nat>, gr: nat, gc: nat, n: nat, m: nat): real
    requires ValidElement(order, nodes, idx) && n <= order + 1 && m <= order + 1
  {
    if m == 0 then 0.0
    else
      StiffnessScatterByColumns(order, nodes, idx, gr, gc, n, m - 1)
      + (if idx[m - 1] == gc then StiffnessScatterColumn(order, nodes, idx, m - 1, gr, n) else 0.0)
  }

  lemma {:induction false} ByColumnsAddRow(order: nat, nodes: seq<real>, idx: seq<nat>, gr: nat, gc: nat, n: nat, m: nat)
    requires ValidElement(order, nodes, idx) && 0 < n <= order + 1 && m <= order + 1
    ensures StiffnessScatterByColumns(order, nodes, idx, gr, gc, n, m)
         == StiffnessScatterByColumns(order, nodes, idx, gr, gc, n - 1, m)
            + (if idx[n - 1] == gr then StiffnessScatterRow(order, nodes, idx, n - 1, gc, m) else 0.0)
  {
    if m > 0 {
      ByColumnsAddRow(order, nodes, idx, gr, gc, n, m - 1);
    }
  }

  /** Summing the element's contribution row by row or column by column gives the same. */
  lemma {:induction false} RowsEqualColumns(order: nat, nodes: seq<real>, idx: seq<nat>, gr: nat, gc: nat, n: nat, m: nat)
    requires ValidElement(order, nodes, idx) && n <= order + 1 && m <= order + 1
    ensures StiffnessScatter(order, nodes, idx, gr, gc, n, m) == StiffnessScatterByColumns(order, nodes, idx, gr, gc, n, m)
  {
    if n == 0 {
      ColumnsOfNoRows(order, nodes, idx, gr, gc, m);
    } else {
      RowsEqualColumns(order, nodes, idx, gr, gc, n - 1, m);
      ByColumnsAddRow(order, nodes, idx, gr, gc, n, m);
    }
  }

  lemma {:induction false} ColumnsOfNoRows(order: nat, nodes: seq<real>, idx: seq<nat>, gr: nat, gc: nat, m: nat)
    requires ValidElement(order, nodes, idx) && m <= order + 1
    ensures StiffnessScatterByColumns(order, nodes, idx, gr, gc, 0, m) == 0.0
  {
    if m > 0 {
      ColumnsOfNoRows(order, nodes, idx, gr, gc, m - 1);
    }
  }

  /** With Klocal symmetric, column b summed over slots numbered gr is row b summed over them. */
  lemma {:induction false} ColumnEqualsRow(order: nat, nodes: seq<real>, idx: seq<nat>, b: nat, gr: nat, n: nat)
    requires ValidElement(order, nodes, idx) && b <= order && n <= order + 1
    ensures StiffnessScatterColumn(order, nodes, idx, b, gr, n) == StiffnessScatterRow(order, nodes, idx, b, gr, n)
  {
    if n > 0 {
      ColumnEqualsRow(order, nodes, idx, b, gr, n - 1);
      ElementStiffnessSymmetric(order, nodes, idx, n - 1, b);
    }
  }

  lemma {:induction false} ColumnsEqualTransposedRows(order: nat, nodes: seq<real>, idx: seq<nat>, gr: nat, gc: nat, m: nat)
    requires ValidElement(order, nodes, idx) && m <= order + 1
    ensures StiffnessScatterByColumns(order, nodes, idx, gr, gc, order + 1, m)
         == StiffnessScatter(order, nodes, idx, gc, gr, m, order + 1)
  {
    if m > 0 {
      ColumnsEqualTransposedRows(order, nodes, idx, gr, gc, m - 1);
      ColumnEqualsRow(order, nodes, idx, m - 1, gr, order + 1);
    }
  }

  /** What one element adds to K[gr, gc] it also adds to K[gc, gr]. */
  lemma StiffnessScatterSymmetric(order: nat, nodes: seq<real>, idx: seq<nat>, gr: nat, gc: nat)
    requires ValidElement(order, nodes, idx)
    ensures StiffnessScatter(order, nodes, idx, gr, gc, order + 1, order + 1)
         == StiffnessScatter(order, nodes, idx, gc, gr, order + 1, order + 1)
  {
    RowsEqualColumns(order, nodes, idx, gr, gc, order + 1, order + 1);
    ColumnsEqualTransposedRows(order, nodes, idx, gr, gc, order + 1);
  }

  /** The assembled stiffness matrix is symmetric after every element. */
  lemma {:induction false} GlobalStiffnessSymmetric(order: nat, nodes: seq<real>, elems: seq<seq<nat>>, gr: nat, gc: nat, e: nat)
    requires ValidMesh(order, nodes, elems) && e <= |elems|
    ensures GlobalStiffness(order, nodes, elems, gr, gc, e) == GlobalStiffness(order, nodes, elems, gc, gr, e)
  {
    if e > 0 {
      GlobalStiffnessSymmetric(order, nodes, elems, gr, gc, e - 1);
      StiffnessScatterSymmetric(order, nodes, elems[e - 1], gr, gc);
    }
  }

  // ---------------------------------------------------------------------------
  // Entries no element touches
  // ---------------------------------------------------------------------------

  /** No slot of any element is numbered g. */
  predicate Untouched(elems: seq<seq<nat>>, g: nat)
  {
    forall e, a :: 0 <= e < |elems| && 0 <= a < |elems[e]| ==> elems[e][a] != g
  }

  lemma {:induction false} LoadScatterUntouched(order: nat, nodes: seq<real>, idx: seq<nat>, prob: nat, len: real, h: real,
                                                g: nat, n: nat)
    requires ValidElement(order, nodes, idx) && n <= order + 1
    requires forall a :: 0 <= a < |idx| ==> idx[a] != g
    ensures LoadScatter(order, nodes, idx, prob, len, h, g, n) == 0.0
  {
    if n > 0 {
      LoadScatterUntouched(order, nodes, idx, prob, len, h, g, n - 1);
    }
  }

  lemma {:induction false} RowScatterUntouched(order: nat, nodes: seq<real>, idx: seq<nat>, a: nat, g: nat, m: nat)
    requires ValidElement(order, nodes, idx) && a <= order && m <= order + 1
    requires forall b :: 0 <= b < |idx| ==> idx[b] != g
    ensures StiffnessScatterRow(order, nodes, idx, a, g, m) == 0.0
  {
    if m > 0 {
      RowScatterUntouched(order, nodes, idx, a, g, m - 1);
    }
  }

  lemma {:induction false} StiffnessScatterUntouched(order: nat, nodes: seq<real>, idx: seq<nat>, g: nat, other: nat, n: nat)
    requires ValidElement(order, nodes, idx) && n <= order + 1
    requires forall a :: 0 <= a < |idx| ==> idx[a] != g
    ensures StiffnessScatter(order, nodes, idx, g, other, n, order + 1) == 0.0
    ensures StiffnessScatter(order, nodes, idx, other, g, n, order + 1) == 0.0
  {
    if n > 0 {
      StiffnessScatterUntouched(order, nodes, idx, g, other, n - 1);
      RowScatterUntouched(order, nodes, idx, n - 1, g, order + 1);
    }
  }

  /** A global number that no element uses keeps the 0 the assembly starts
      from: in F, and in its whole row and column of K. */
  lemma {:induction false} UntouchedStaysZero(order: nat, nodes: seq<real>, elems: seq<seq<nat>>, prob: nat, len: real,
                                              h: real, g: nat, other: nat, e: nat)
    requires ValidMesh(order, nodes, elems) && e <= |elems|
    requires Untouched(elems, g)
    ensures GlobalLoad(order, nodes, elems, prob, len, h, g, e) == 0.0
    ensures GlobalStiffness(order, nodes, elems, g, other, e) == 0.0
    ensures GlobalStiffness(order, nodes, elems, other, g, e) == 0.0
  {
    if e > 0 {
      UntouchedStaysZero(order, nodes, elems, prob, len, h, g, other, e - 1);
      var idx := elems[e - 1];
      assert forall a :: 0 <= a < |idx| ==> idx[a] != g;
      LoadScatterUntouched(order, nodes, idx, prob, len, h, g, order + 1);
      StiffnessScatterUntouched(order, nodes, idx, g, other, order + 1);
    }
  }

  // ---------------------------------------------------------------------------
  // The Neumann flux
  // ---------------------------------------------------------------------------

  /** The flux h summed over the first e elements whose slot-1 node is g and
      lies at x = len. */
  function FluxTotal(order: nat, nodes: seq<real>, elems: seq<seq<nat>>, len: real, h: real, g: nat, e: nat): real
    requires ValidMesh(order, nodes, elems) && e <= |elems|
  {
    if e == 0 then 0.0
    else
      FluxTotal(order, nodes, elems, len, h, g, e - 1)
      + (if elems[e - 1][1] == g && nodes[g] == len then h else 0.0)
  }

  lemma {:induction false} LoadScatterFlux(order: nat, nodes: seq<real>, idx: seq<nat>, prob: nat, len: real, h: real,
                                           g: nat, n: nat)
    requires ValidElement(order, nodes, idx) && n <= order + 1
    ensures LoadScatter(order, nodes, idx, prob, len, h, g, n)
         == LoadScatter(order, nodes, idx, 1, len, h, g, n)
            + (if prob == 2 && 1 < n && idx[1] == g && nodes[g] == len then h else 0.0)
  {
    if n > 0 {
      LoadScatterFlux(order, nodes, idx, prob, len, h, g, n - 1);
    }
  }

  /** The load vector of problem 2 is problem 1's body-force load plus h at
      each element whose slot-1 node is at x = len, added to that node only;
      any other problem number adds no flux. */
  lemma {:induction false} NeumannFluxAtRightEnd(order: nat, nodes: seq<real>, elems: seq<seq<nat>>, prob: nat, len: real,
                                                 h: real, g: nat, e: nat)
    requires ValidMesh(order, nodes, elems) && e <= |elems|
    ensures GlobalLoad(order, nodes, elems, prob, len, h, g, e)
         == GlobalLoad(order, nodes, elems, 1, len, h, g, e)
            + (if prob == 2 then FluxTotal(order, nodes, elems, len, h, g, e) else 0.0)
  {
    if e > 0 {
      NeumannFluxAtRightEnd(order, nodes, elems, prob, len, h, g, e - 1);
      LoadScatterFlux(order, nodes, elems[e - 1], prob, len, h, g, order + 1);
    }
  }
}
