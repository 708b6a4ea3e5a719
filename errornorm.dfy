/** The quantity l2norm_of_error accumulates (lab1/FEM1.h): the quadrature
    sum, over all elements, of the squared difference between the finite
    element solution u_h and the exact solution. The square root the source
    takes of it at the end is not part of this model. */
module ErrorNorm {
  import opened Lagrange
  import opened Assembly

  /** The sign of a product written with Mul: a proof device that states
      these facts about the Mul term itself, so that ErrorIntegrandSign can
      chain them through its three nested products. */
  lemma MulSign(x: real, y: real)
    ensures x > 0.0 && y > 0.0 ==> Mul(x, y) > 0.0
    ensures x < 0.0 && y < 0.0 ==> Mul(x, y) > 0.0
    ensures x == 0.0 || y == 0.0 ==> Mul(x, y) == 0.0
    ensures x >= 0.0 && y >= 0.0 ==> Mul(x, y) >= 0.0
  {
  }

  /** err * err * h_e / 2 * w_q at one quadrature point, err being
      u_h - u_exact there. */
  function ErrorIntegrand(err: real, he: real, w: real): real
  {
    Mul(Mul(Mul(err, err), he) / 2.0, w)
  }

  /** The integrand is never negative when h_e and w_q are not, and it is zero
      exactly when one of err, h_e, w_q is. */
  lemma ErrorIntegrandSign(err: real, he: real, w: real)
    requires he >= 0.0 && w >= 0.0
    ensures ErrorIntegrand(err, he, w) >= 0.0
    ensures ErrorIntegrand(err, he, w) == 0.0 <==> err == 0.0 || he == 0.0 || w == 0.0
  {
    MulSign(err, err);
    MulSign(Mul(err, err), he);
    MulSign(Mul(Mul(err, err), he) / 2.0, w);
  }

  /** The error of one element over its first nq quadrature points. u_h is
      interpolated from the solution vector `values`, u_exact is evaluated at
      the interpolated coordinate x. */
  function ElementError(order: nat, nodes: seq<real>, values: seq<real>, idx: seq<nat>,
                        uExact: real -> real, nq: nat): real
    requires ValidElement(order, nodes, idx) && IndexesInto(order, values, idx) && nq <= QuadRule
  {
    if nq == 0 then 0.0
    else
      ElementError(order, nodes, values, idx, uExact, nq - 1)
      + ErrorIntegrand(Interpolant(order, values, idx, QuadPoints[nq - 1], order + 1)
                         - uExact(Interpolant(order, nodes, idx, QuadPoints[nq - 1], order + 1)),
                       ElementLength(order, nodes, idx), QuadWeights[nq - 1])
  }

  /** The sum over the first e elements. */
  function ErrorUpTo(order: nat, nodes: seq<real>, values: seq<real>, elems: seq<seq<nat>>,
                     uExact: real -> real, e: nat): real
    requires ValidMesh(order, nodes, elems) && |values| == |nodes| && e <= |elems|
  {
    if e == 0 then 0.0
    else
      ErrorUpTo(order, nodes, values, elems, uExact, e - 1)
      + ElementError(order, nodes, values, elems[e - 1], uExact, QuadRule)
  }

  /** u_h equals u_exact at quadrature point q of element idx. */
  predicate ExactAt(order: nat, nodes: seq<real>, values: seq<real>, idx: seq<nat>, uExact: real -> real, q: nat)
    requires ValidElement(order, nodes, idx) && IndexesInto(order, values, idx) && q < QuadRule
  {
    Interpolant(order, values, idx, QuadPoints[q], order + 1)
      == uExact(Interpolant(order, nodes, idx, QuadPoints[q], order + 1))
  }

  lemma {:induction false} ElementErrorZeroIff(order: nat, nodes: seq<real>, values: seq<real>, idx: seq<nat>,
                                               uExact: real -> real, nq: nat)
    requires ValidElement(order, nodes, idx) && IndexesInto(order, values, idx) && nq <= QuadRule
    ensures ElementError(order, nodes, values, idx, uExact, nq) >= 0.0
    ensures ElementError(order, nodes, values, idx, uExact, nq) == 0.0
        <==> forall q :: 0 <= q < nq ==> ExactAt(order, nodes, values, idx, uExact, q)
  {
    if nq > 0 {
      ElementErrorZeroIff(order, nodes, values, idx, uExact, nq - 1);
      var xi := QuadPoints[nq - 1];
      assert QuadWeights[nq - 1] > 0.0;
      assert ExactAt(order, nodes, values, idx, uExact, nq - 1)
         <==> Interpolant(order, values, idx, xi, order + 1)
                - uExact(Interpolant(order, nodes, idx, xi, order + 1)) == 0.0;
      ErrorIntegrandSign(Interpolant(order, values, idx, xi, order + 1)
                           - uExact(Interpolant(order, nodes, idx, xi, order + 1)),
                         ElementLength(order, nodes, idx), QuadWeights[nq - 1]);
    }
  }

  /** The accumulated error is never negative, and it is zero exactly when
      u_h agrees with u_exact at every quadrature point of every element. */
  lemma {:induction false} ErrorZeroIff(order: nat, nodes: seq<real>, values: seq<real>, elems: seq<seq<nat>>,
                                        uExact: real -> real, e: nat)
    requires ValidMesh(order, nodes, elems) && |values| == |nodes| && e <= |elems|
    ensures ErrorUpTo(order, nodes, values, elems, uExact, e) >= 0.0
    ensures ErrorUpTo(order, nodes, values, elems, uExact, e) == 0.0
        <==> forall i, q :: 0 <= i < e && 0 <= q < QuadRule ==> ExactAt(order, nodes, values, elems[i], uExact, q)
  {
    if e > 0 {
      ErrorZeroIff(order, nodes, values, elems, uExact, e - 1);
      ElementErrorZeroIff(order, nodes, values, elems[e - 1], uExact, QuadRule);
    }
  }
}
