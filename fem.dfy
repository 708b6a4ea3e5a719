/** The FEM class of lab1/FEM1.h: its state, the constructor's check of the
    problem number, the constants and arrays set up by setup_system, the
    boundary map, the assembly of K and F, and the error sum of
    l2norm_of_error. deal.II's mesh and degree-of-freedom handler are not
    modelled: the node coordinates and each element's global node numbers are
    handed to SetupSystem as they come out of them. */
module Solver {
  import opened Outcome
  import opened Lagrange
  import opened Assembly
  import opened Boundary
  import opened ErrorNorm

  class Fem {
    var basisFunctionOrder: nat
    var prob: nat
    var L: real
    var g1: real
    var g2: real
    var E: real
    var f: real
    var h: real

    var quadRule: nat
    var quadPoints: seq<real>
    var quadWeights: seq<real>

    /** x-coordinate of each node, by global number. */
    var nodeLocation: seq<real>
    /** The global numbers of each element's local slots (local_dof_indices). */
    var elements: seq<seq<nat>>
    /** Dirichlet values by global node number. */
    var boundaryValues: map<nat, real>

    var K: array2<real>
    var F: array<real>
    var D: array<real>

    /** The constructor for a problem the source accepts, 1 or 2; NewFem below
        is the entry point that also covers every other problem number. */
    constructor (order: nat, problem: nat)
      requires problem == 1 || problem == 2
      ensures basisFunctionOrder == order && prob == problem
      ensures boundaryValues == map[] && nodeLocation == [] && elements == []
    {
      basisFunctionOrder := order;
      prob := problem;
      L, g1, g2, E, f, h := 0.0, 0.0, 0.0, 0.0, 0.0, 0.0;
      quadRule, quadPoints, quadWeights := 0, [], [];
      nodeLocation, elements, boundaryValues := [], [], map[];
      K := new real[0, 0];
      F := new real[0];
      D := new real[0];
    }

    /** generate_mesh's domain: [0, L] with L = 0.1. */
    method GenerateMesh()
      modifies this`L
      ensures L == 0.1
    {
      L := 0.1;
    }

    /** setup_system: the problem constants, the node coordinates, the boundary
        map, zeroed K, F and D sized by the number of nodes, and the three-point
        Gauss rule. */
    method SetupSystem(nodes: seq<real>, elems: seq<seq<nat>>)
      modifies this
      ensures g1 == 0.0 && g2 == 0.001 && E == 100000000000.0 && f == 100000000000.0 && h == 10000000000.0
      ensures nodeLocation == nodes && elements == elems
      ensures basisFunctionOrder == old(basisFunctionOrder) && prob == old(prob) && L == old(L)
      ensures boundaryValues == BoundaryUpTo(nodes, L, prob, g1, g2, old(boundaryValues), |nodes|)
      ensures fresh(K) && fresh(F) && fresh(D)
      ensures K.Length0 == |nodes| && K.Length1 == |nodes| && F.Length == |nodes| && D.Length == |nodes|
      ensures forall r, c :: 0 <= r < K.Length0 && 0 <= c < K.Length1 ==> K[r, c] == 0.0
      ensures forall g :: 0 <= g < F.Length ==> F[g] == 0.0 && D[g] == 0.0
      ensures quadRule == QuadRule && quadPoints == QuadPoints && quadWeights == QuadWeights
    {
      DefineConstants();
      nodeLocation := nodes;
      elements := elems;
      DefineBoundaryConds();
      AllocateGlobalSystem(|nodes|);
      DefineQuadratureRule();
    }

    /** The Dirichlet values g1 and g2, Young's modulus E, the load constant f
        and the Neumann flux h of setup_system. */
    method DefineConstants()
      modifies this`g1, this`g2, this`E, this`f, this`h
      ensures g1 == 0.0 && g2 == 0.001 && E == 100000000000.0 && f == 100000000000.0 && h == 10000000000.0
    {
      g1 := 0.0;
      g2 := 0.001;
      E := 100000000000.0;
      f := 100000000000.0;
      h := 10000000000.0;
    }

    /** K.reinit, F.reinit and D.reinit: all zero, one row and entry per node. */
    method AllocateGlobalSystem(n: nat)
      modifies this`K, this`F, this`D
      ensures fresh(K) && fresh(F) && fresh(D)
      ensures K.Length0 == n && K.Length1 == n && F.Length == n && D.Length == n
      ensures forall r, c :: 0 <= r < K.Length0 && 0 <= c < K.Length1 ==> K[r, c] == 0.0
      ensures forall g :: 0 <= g < F.Length ==> F[g] == 0.0 && D[g] == 0.0
    {
      K := new real[n, n]((r, c) => 0.0);
      F := new real[n](g => 0.0);
      D := new real[n](g => 0.0);
    }

    /** The three-point Gauss rule chosen in setup_system. */
    method DefineQuadratureRule()
      modifies this`quadRule, this`quadPoints, this`quadWeights
      ensures quadRule == QuadRule && quadPoints == QuadPoints && quadWeights == QuadWeights
    {
      quadRule := 3;
      quadPoints := [-0.7745966692414834, 0.0, 0.7745966692414834];
      quadWeights := [0.5555555555555557, 0.8888888888888888, 0.5555555555555557];
    }

    /** define_boundary_conds: visits every node in global order and records g1
        at a node at x = 0 and, for problem 1, g2 at a node at x = L. */
    method DefineBoundaryConds()
      modifies this`boundaryValues
      ensures boundaryValues == BoundaryUpTo(nodeLocation, L, prob, g1, g2, old(boundaryValues), |nodeLocation|)
    {
      var totalNodes := |nodeLocation|;
      for globalNode := 0 to totalNodes
        invariant boundaryValues
               == BoundaryUpTo(nodeLocation, L, prob, g1, g2, old(boundaryValues), globalNode)
      {
        if nodeLocation[globalNode] == 0.0 {
          boundaryValues := boundaryValues[globalNode := g1];
        }
        if nodeLocation[globalNode] == L {
          if prob == 1 {
            boundaryValues := boundaryValues[globalNode := g2];
          }
        }
      }
    }

    // -------------------------------------------------------------------------
    // assemble_system
    // -------------------------------------------------------------------------

    /** The state assemble_system needs: a valid mesh, K and F sized by the
        number of nodes, and the quadrature rule of setup_system. */
    predicate ReadyToAssemble()
      reads this
    {
      ValidMesh(basisFunctionOrder, nodeLocation, elements)
      && basisFunctionOrder >= 1
      && K.Length0 == |nodeLocation| && K.Length1 == |nodeLocation| && F.Length == |nodeLocation|
      && quadRule == QuadRule && quadPoints == QuadPoints && quadWeights == QuadWeights
    }

    /** assemble_system up to the application of the boundary values: F and K
        hold the sums over all elements of what each contributes, whatever
        they held before, and K is symmetric. */
    method AssembleSystem()
      requires ReadyToAssemble()
      modifies K, F
      ensures forall g :: 0 <= g < F.Length
                ==> F[g] == GlobalLoad(basisFunctionOrder, nodeLocation, elements, prob, L, h, g, |elements|)
      ensures forall r, c :: 0 <= r < K.Length0 && 0 <= c < K.Length1
                ==> K[r, c] == GlobalStiffness(basisFunctionOrder, nodeLocation, elements, r, c, |elements|)
      ensures forall r, c :: 0 <= r < K.Length0 && 0 <= c < K.Length1 ==> K[r, c] == K[c, r]
    {
      ZeroGlobalSystem();
      AssembleElements();
      forall r, c | 0 <= r < K.Length0 && 0 <= c < K.Length1 {
        GlobalStiffnessSymmetric(basisFunctionOrder, nodeLocation, elements, r, c, |elements|);
      }
    }

    /** The loop over elements: Flocal and Klocal of each element, then their
        scatter into the zeroed F and K. */
    method AssembleElements()
      requires ReadyToAssemble()
      requires forall g :: 0 <= g < F.Length ==> F[g] == 0.0
      requires forall r, c :: 0 <= r < K.Length0 && 0 <= c < K.Length1 ==> K[r, c] == 0.0
      modifies K, F
      ensures forall g :: 0 <= g < F.Length
                ==> F[g] == GlobalLoad(basisFunctionOrder, nodeLocation, elements, prob, L, h, g, |elements|)
      ensures forall r, c :: 0 <= r < K.Length0 && 0 <= c < K.Length1
                ==> K[r, c] == GlobalStiffness(basisFunctionOrder, nodeLocation, elements, r, c, |elements|)
    {
      var dofsPerElem := basisFunctionOrder + 1;
      var Klocal := new real[dofsPerElem, dofsPerElem];
      var Flocal := new real[dofsPerElem];
      for e := 0 to |elements|
        invariant forall g :: 0 <= g < F.Length
                    ==> F[g] == GlobalLoad(basisFunctionOrder, nodeLocation, elements, prob, L, h, g, e)
        invariant forall r, c :: 0 <= r < K.Length0 && 0 <= c < K.Length1
                    ==> K[r, c] == GlobalStiffness(basisFunctionOrder, nodeLocation, elements, r, c, e)
      {
        var localDofIndices := elements[e];
        ElementLoadVector(localDofIndices, Flocal);
        ElementStiffnessMatrix(localDofIndices, Klocal);
        ScatterElement(localDofIndices, Flocal, Klocal);
      }
    }

    /** K = 0; F = 0. */
    method ZeroGlobalSystem()
      modifies K, F
      ensures forall g :: 0 <= g < F.Length ==> F[g] == 0.0
      ensures forall r, c :: 0 <= r < K.Length0 && 0 <= c < K.Length1 ==> K[r, c] == 0.0
    {
      for r := 0 to K.Length0
        invariant forall r', c :: 0 <= r' < r && 0 <= c < K.Length1 ==> K[r', c] == 0.0
      {
        for c := 0 to K.Length1
          invariant forall r', c' :: 0 <= r' < r && 0 <= c' < K.Length1 ==> K[r', c'] == 0.0
          invariant forall c' :: 0 <= c' < c ==> K[r, c'] == 0.0
        {
          K[r, c] := 0.0;
        }
      }
      for g := 0 to F.Length
        invariant forall r, c :: 0 <= r < K.Length0 && 0 <= c < K.Length1 ==> K[r, c] == 0.0
        invariant forall g' :: 0 <= g' < g ==> F[g'] == 0.0
      {
        F[g] := 0.0;
      }
    }

    /** Flocal of one element: the body-force quadrature for every slot, then
        the Neumann flux h at slot 1 in problem 2 when the right end is at L. */
    method ElementLoadVector(idx: seq<nat>, Flocal: array<real>)
      requires ValidElement(basisFunctionOrder, nodeLocation, idx)
      requires quadRule == QuadRule && quadPoints == QuadPoints && quadWeights == QuadWeights
      requires Flocal.Length == basisFunctionOrder + 1
      modifies Flocal
      ensures forall a :: 0 <= a < Flocal.Length
                ==> Flocal[a] == ElementLoad(basisFunctionOrder, nodeLocation, idx, prob, L, h, a)
    {
      var order := basisFunctionOrder;
      var nodes := nodeLocation;
      var dofsPerElem := order + 1;
      for a := 0 to dofsPerElem
        invariant forall a' :: 0 <= a' < a ==> Flocal[a'] == 0.0
      {
        Flocal[a] := 0.0;
      }
      for A := 0 to dofsPerElem
        invariant forall a :: 0 <= a < A ==> Flocal[a] == LoadQuad(order, nodes, idx, a, QuadRule)
        invariant forall a :: A <= a < dofsPerElem ==> Flocal[a] == 0.0
      {
        AccumulateLoad(idx, Flocal, A);
      }
      if prob == 2 {
        if nodes[idx[1]] == L {
          Flocal[1] := Flocal[1] + h;
        }
      }
    }

    /** The quadrature loop that adds up the body-force part of Flocal[A]
        from zero, interpolating x at each point; every other slot is left as
        it was. */
    method AccumulateLoad(idx: seq<nat>, Flocal: array<real>, A: nat)
      requires ValidElement(basisFunctionOrder, nodeLocation, idx)
      requires quadRule == QuadRule && quadPoints == QuadPoints && quadWeights == QuadWeights
      requires A < Flocal.Length == basisFunctionOrder + 1
      requires Flocal[A] == 0.0
      modifies Flocal
      ensures Flocal[A] == LoadQuad(basisFunctionOrder, nodeLocation, idx, A, QuadRule)
      ensures forall a :: 0 <= a < Flocal.Length && a != A ==> Flocal[a] == old(Flocal[a])
    {
      var order := basisFunctionOrder;
      var nodes := nodeLocation;
      var he := nodes[idx[1]] - nodes[idx[0]];
      for q := 0 to quadRule
        invariant Flocal[A] == LoadQuad(order, nodes, idx, A, q)
        invariant forall a :: 0 <= a < Flocal.Length && a != A ==> Flocal[a] == old(Flocal[a])
      {
        var xi := quadPoints[q];
        var x := InterpolateAt(nodes, idx, xi);
        var fx := 1.0 * x;
        Flocal[A] := Flocal[A] + LoadIntegrand(he, BasisFunction(order, A, xi).value, quadWeights[q], fx);
      }
    }

    /** Klocal of one element, entry by entry over the quadrature points. */
    method ElementStiffnessMatrix(idx: seq<nat>, Klocal: array2<real>)
      requires ValidElement(basisFunctionOrder, nodeLocation, idx)
      requires quadRule == QuadRule && quadPoints == QuadPoints && quadWeights == QuadWeights
      requires Klocal.Length0 == basisFunctionOrder + 1 && Klocal.Length1 == basisFunctionOrder + 1
      modifies Klocal
      ensures forall a, b :: 0 <= a < Klocal.Length0 && 0 <= b < Klocal.Length1
                ==> Klocal[a, b] == ElementStiffness(basisFunctionOrder, nodeLocation, idx, a, b)
    {
      var order := basisFunctionOrder;
      var nodes := nodeLocation;
      var n := order + 1;
      for a := 0 to n
        invariant forall a', b :: 0 <= a' < a && 0 <= b < n ==> Klocal[a', b] == 0.0
      {
        for b := 0 to n
          invariant forall a', b' :: 0 <= a' < a && 0 <= b' < n ==> Klocal[a', b'] == 0.0
          invariant forall b' :: 0 <= b' < b ==> Klocal[a, b'] == 0.0
        {
          Klocal[a, b] := 0.0;
        }
      }
      for A := 0 to n
        invariant forall a, b :: 0 <= a < A && 0 <= b < n ==> Klocal[a, b] == ElementStiffness(order, nodes, idx, a, b)
        invariant forall a, b :: A <= a < n && 0 <= b < n ==> Klocal[a, b] == 0.0
      {
        for B := 0 to n
          invariant forall a, b :: 0 <= a < A && 0 <= b < n ==> Klocal[a, b] == ElementStiffness(order, nodes, idx, a, b)
          invariant forall a, b :: A < a < n && 0 <= b < n ==> Klocal[a, b] == 0.0
          invariant forall b :: 0 <= b < B ==> Klocal[A, b] == ElementStiffness(order, nodes, idx, A, b)
          invariant forall b :: B <= b < n ==> Klocal[A, b] == 0.0
        {
          AccumulateStiffness(idx, Klocal, A, B);
        }
      }
    }

    /** The quadrature loop that adds up Klocal[A][B] from zero; every other
        entry of Klocal is left as it was. */
    method AccumulateStiffness(idx: seq<nat>, Klocal: array2<real>, A: nat, B: nat)
      requires ValidElement(basisFunctionOrder, nodeLocation, idx)
      requires quadRule == QuadRule && quadPoints == QuadPoints && quadWeights == QuadWeights
      requires A < Klocal.Length0 == basisFunctionOrder + 1 && B < Klocal.Length1 == basisFunctionOrder + 1
      requires Klocal[A, B] == 0.0
      modifies Klocal
      ensures Klocal[A, B] == ElementStiffness(basisFunctionOrder, nodeLocation, idx, A, B)
      ensures forall a, b :: 0 <= a < Klocal.Length0 && 0 <= b < Klocal.Length1 && (a != A || b != B)
                ==> Klocal[a, b] == old(Klocal[a, b])
    {
      var order := basisFunctionOrder;
      var nodes := nodeLocation;
      var he := nodes[idx[1]] - nodes[idx[0]];
      for q := 0 to quadRule
        invariant Klocal[A, B] == StiffQuad(order, nodes, idx, A, B, q)
        invariant forall a, b :: 0 <= a < Klocal.Length0 && 0 <= b < Klocal.Length1 && (a != A || b != B)
                    ==> Klocal[a, b] == old(Klocal[a, b])
      {
        var xi := quadPoints[q];
        Klocal[A, B] := Klocal[A, B]
          + StiffIntegrand(he, Gradient(order, A, xi).value, Gradient(order, B, xi).value, quadWeights[q]);
      }
    }

    /** F[idx[A]] += Flocal[A] and K.add(idx[A], idx[B], Klocal[A][B]) for
        every pair of slots: entries are added to, never overwritten. */
    method ScatterElement(idx: seq<nat>, Flocal: array<real>, Klocal: array2<real>)
      requires ReadyToAssemble()
      requires ValidElement(basisFunctionOrder, nodeLocation, idx)
      requires Flocal.Length == basisFunctionOrder + 1
      requires Klocal.Length0 == basisFunctionOrder + 1 && Klocal.Length1 == basisFunctionOrder + 1
      requires forall a :: 0 <= a < Flocal.Length
                 ==> Flocal[a] == ElementLoad(basisFunctionOrder, nodeLocation, idx, prob, L, h, a)
      requires forall a, b :: 0 <= a < Klocal.Length0 && 0 <= b < Klocal.Length1
                 ==> Klocal[a, b] == ElementStiffness(basisFunctionOrder, nodeLocation, idx, a, b)
      requires Flocal != F && Klocal != K
      modifies K, F
      ensures forall g :: 0 <= g < F.Length
                ==> F[g] == old(F[g]) + LoadScatter(basisFunctionOrder, nodeLocation, idx, prob, L, h, g, basisFunctionOrder + 1)
      ensures forall r, c :: 0 <= r < K.Length0 && 0 <= c < K.Length1
                ==> K[r, c] == old(K[r, c]) + StiffnessScatter(basisFunctionOrder, nodeLocation, idx, r, c,
                                                               basisFunctionOrder + 1, basisFunctionOrder + 1)
    {
      var order := basisFunctionOrder;
      var nodes := nodeLocation;
      var n := order + 1;
      for A := 0 to n
        invariant forall g :: 0 <= g < F.Length
                    ==> F[g] == old(F[g]) + LoadScatter(order, nodes, idx, prob, L, h, g, A)
        invariant forall r, c :: 0 <= r < K.Length0 && 0 <= c < K.Length1
                    ==> K[r, c] == old(K[r, c]) + StiffnessScatter(order, nodes, idx, r, c, A, n)
      {
        F[idx[A]] := F[idx[A]] + Flocal[A];
        ScatterRow(idx, Klocal, A);
      }
    }

    /** The inner loop of the scatter: K.add(idx[A], idx[B], Klocal[A][B])
        for every slot B, so row idx[A] of K gains row A of Klocal. */
    method ScatterRow(idx: seq<nat>, Klocal: array2<real>, A: nat)
      requires ReadyToAssemble()
      requires ValidElement(basisFunctionOrder, nodeLocation, idx)
      requires A < Klocal.Length0 == basisFunctionOrder + 1 && Klocal.Length1 == basisFunctionOrder + 1
      requires forall a, b :: 0 <= a < Klocal.Length0 && 0 <= b < Klocal.Length1
                 ==> Klocal[a, b] == ElementStiffness(basisFunctionOrder, nodeLocation, idx, a, b)
      requires Klocal != K
      modifies K
      ensures forall r, c :: 0 <= r < K.Length0 && 0 <= c < K.Length1
                ==> K[r, c] == old(K[r, c])
                               + (if idx[A] == r then StiffnessScatterRow(basisFunctionOrder, nodeLocation, idx, A, c,
                                                                          basisFunctionOrder + 1)
                                  else 0.0)
    {
      var order := basisFunctionOrder;
      var nodes := nodeLocation;
      var n := order + 1;
      assert forall c :: StiffnessScatterRow(order, nodes, idx, A, c, 0) == 0.0;
      for B := 0 to n
        invariant forall r, c :: 0 <= r < K.Length0 && 0 <= c < K.Length1
                    ==> K[r, c] == old(K[r, c])
                                   + (if idx[A] == r then StiffnessScatterRow(order, nodes, idx, A, c, B) else 0.0)
      {
        K[idx[A], idx[B]] := K[idx[A], idx[B]] + Klocal[A, B];
      }
    }

    /** One element's share of l2norm_of_error's sum: u_h and x interpolated
        at each quadrature point, u_exact evaluated at x. */
    method ElementErrorSum(idx: seq<nat>, values: seq<real>, uExact: real -> real) returns (sum: real)
      requires ValidElement(basisFunctionOrder, nodeLocation, idx) && IndexesInto(basisFunctionOrder, values, idx)
      requires quadRule == QuadRule && quadPoints == QuadPoints && quadWeights == QuadWeights
      ensures sum == ElementError(basisFunctionOrder, nodeLocation, values, idx, uExact, QuadRule)
    {
      var order := basisFunctionOrder;
      var nodes := nodeLocation;
      sum := 0.0;
      for q := 0 to quadRule
        invariant sum == ElementError(order, nodes, values, idx, uExact, q)
      {
        var term := PointError(idx, values, uExact, q);
        sum := sum + term;
      }
    }

    /** What l2norm_of_error adds for quadrature point q of one element:
        (u_h - u_exact)^2 * h_e/2 * w_q. */
    method PointError(idx: seq<nat>, values: seq<real>, uExact: real -> real, q: nat) returns (term: real)
      requires ValidElement(basisFunctionOrder, nodeLocation, idx) && IndexesInto(basisFunctionOrder, values, idx)
      requires quadRule == QuadRule && quadPoints == QuadPoints && quadWeights == QuadWeights
      requires q < QuadRule
      ensures term == ErrorIntegrand(Interpolant(basisFunctionOrder, values, idx, QuadPoints[q], basisFunctionOrder + 1)
                                     - uExact(Interpolant(basisFunctionOrder, nodeLocation, idx, QuadPoints[q],
                                                          basisFunctionOrder + 1)),
                                     ElementLength(basisFunctionOrder, nodeLocation, idx), QuadWeights[q])
    {
      var nodes := nodeLocation;
      var he := nodes[idx[1]] - nodes[idx[0]];
      var xi := quadPoints[q];
      var x := InterpolateAt(nodes, idx, xi);
      var uh := InterpolateAt(values, idx, xi);
      var ue := uExact(x);
      term := ErrorIntegrand(uh - ue, he, quadWeights[q]);
    }

    /** The loop over slots B that both assemble_system and l2norm_of_error
        use to interpolate nodal values at reference point xi: with the node
        coordinates it gives x, with the solution vector u_h. */
    method InterpolateAt(values: seq<real>, idx: seq<nat>, xi: real) returns (x: real)
      requires IndexesInto(basisFunctionOrder, values, idx)
      ensures x == Interpolant(basisFunctionOrder, values, idx, xi, basisFunctionOrder + 1)
    {
      var order := basisFunctionOrder;
      x := 0.0;
      for B := 0 to order + 1
        invariant x == Interpolant(order, values, idx, xi, B)
      {
        x := x + Mul(values[idx[B]], BasisFunction(order, B, xi).value);
      }
    }

    // -------------------------------------------------------------------------
    // l2norm_of_error
    // -------------------------------------------------------------------------

    /** The sum l2norm_of_error accumulates before its square root: never
        negative, and zero exactly when the solution D interpolates to
        uExact at every quadrature point of every element. */
    method L2NormSquaredOfError(uExact: real -> real) returns (l2norm: real)
      requires ValidMesh(basisFunctionOrder, nodeLocation, elements)
      requires D.Length == |nodeLocation|
      requires quadRule == QuadRule && quadPoints == QuadPoints && quadWeights == QuadWeights
      ensures l2norm == ErrorUpTo(basisFunctionOrder, nodeLocation, D[..], elements, uExact, |elements|)
      ensures l2norm >= 0.0
      ensures l2norm == 0.0 <==> forall i, q :: 0 <= i < |elements| && 0 <= q < QuadRule
                                   ==> ExactAt(basisFunctionOrder, nodeLocation, D[..], elements[i], uExact, q)
    {
      l2norm := ErrorSum(D[..], uExact);
      ErrorZeroIff(basisFunctionOrder, nodeLocation, D[..], elements, uExact, |elements|);
    }

    /** The loop of l2norm_of_error over the elements, with the solution
        vector's values taken as they are when it starts. */
    method ErrorSum(values: seq<real>, uExact: real -> real) returns (l2norm: real)
      requires ValidMesh(basisFunctionOrder, nodeLocation, elements)
      requires |values| == |nodeLocation|
      requires quadRule == QuadRule && quadPoints == QuadPoints && quadWeights == QuadWeights
      ensures l2norm == ErrorUpTo(basisFunctionOrder, nodeLocation, values, elements, uExact, |elements|)
    {
      var order := basisFunctionOrder;
      var nodes := nodeLocation;
      l2norm := 0.0;
      for e := 0 to |elements|
        invariant l2norm == ErrorUpTo(order, nodes, values, elements, uExact, e)
      {
        var sum := ElementErrorSum(elements[e], values, uExact);
        l2norm := l2norm + sum;
      }
    }
  }

  /** The FEM constructor: problem numbers other than 1 and 2 end the program
      with an error message, modelled as a Fatal result. */
  method NewFem(order: nat, problem: nat) returns (r: Result<Fem>)
    ensures r.Fatal? <==> problem != 1 && problem != 2
    ensures r.Fatal? ==> r.error == InvalidProblemVariant
    ensures r.Ok? ==> fresh(r.value) && r.value.basisFunctionOrder == order && r.value.prob == problem
  {
    if problem == 1 || problem == 2 {
      var fem := new Fem(order, problem);
      r := Ok(fem);
    } else {
      r := Fatal(InvalidProblemVariant);
    }
  }
}
