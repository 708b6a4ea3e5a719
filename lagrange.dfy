/** Reference element and Lagrange basis of the one-dimensional finite element
    solver: the node map xi_at_node, the basis functions basis_function and
    their derivatives basis_gradient (lab1/FEM1.h). All values are exact reals. */
module Lagrange {
  import opened Outcome

  // ---------------------------------------------------------------------------
  // Reference nodes
  // ---------------------------------------------------------------------------

  /** Reference coordinate of a valid local slot, in deal.II's numbering: the
      left end point is slot 0, the right end point slot 1, and the interior
      nodes follow from left to right as slots 2 .. order. */
  function NodeXi(order: nat, slot: nat): real
    requires 1 <= order && slot <= order
  {
    if slot == 0 then -1.0
    else if slot == 1 then 1.0
    else -1.0 + 2.0 * (slot - 1) as real / order as real
  }

  /** How many steps of width 2/order separate a slot's node from the left end
      point -1 of the reference interval. */
  function Rank(order: nat, slot: nat): (r: nat)
    requires slot <= order
    ensures r <= order
  {
    if slot == 0 then 0 else if slot == 1 then order else slot - 1
  }

  /** Distinct slots sit at distinct places along the reference interval. */
  lemma RankInjective(order: nat, i: nat, j: nat)
    requires i <= order && j <= order && i != j
    ensures Rank(order, i) != Rank(order, j)
  {
  }

  /** Every slot's node sits at -1 + 2 * rank / order: the nodes cut [-1, 1]
      into `order` equal pieces. */
  lemma NodeXiUniform(order: nat, slot: nat)
    requires 1 <= order && slot <= order
    ensures NodeXi(order, slot) == -1.0 + 2.0 * Rank(order, slot) as real / order as real
  {
    if slot == 1 {
      var o := order as real;
      assert o / o == 1.0;
      assert 2.0 * o / o == 2.0 * (o / o);
    }
  }

  /** Two different slots never share a reference coordinate, so every
      denominator of the Lagrange product is non-zero. */
  lemma NodeXiDistinct(order: nat, i: nat, j: nat)
    requires 1 <= order && i <= order && j <= order && i != j
    ensures NodeXi(order, i) != NodeXi(order, j)
  {
    NodeXiUniform(order, i);
    NodeXiUniform(order, j);
    RankInjective(order, i, j);
    var o := order as real;
    var a, b := Rank(order, i) as real, Rank(order, j) as real;
    assert (2.0 * a / o) * o == 2.0 * a;
    assert (2.0 * b / o) * o == 2.0 * b;
    assert 2.0 * a / o != 2.0 * b / o;
  }

  /** The reference interval is [-1, 1]. */
  lemma NodeXiInRange(order: nat, slot: nat)
    requires 1 <= order && slot <= order
    ensures -1.0 <= NodeXi(order, slot) <= 1.0
  {
    NodeXiUniform(order, slot);
    var o, r := order as real, Rank(order, slot) as real;
    assert 0.0 <= r <= o;
    assert 0.0 <= r / o <= 1.0 by {
      assert r / o * o == r;
    }
    assert 2.0 * r / o == 2.0 * (r / o);
  }

  /** xi_at_node: the slot's reference coordinate, or a fatal error for a slot
      beyond the element's `order + 1` nodes. Slots 0 and 1 are answered
      before the order is looked at, so at order 0 slot 1 still gives +1. */
  function XiAtNode(order: nat, slot: nat): (r: Result<real>)
    ensures slot > 1 && slot > order <==> r == Fatal(InvalidNodeIndex)
    ensures 1 <= order && slot <= order ==> r == Ok(-1.0 + 2.0 * Rank(order, slot) as real / order as real)
    ensures order == 0 && slot <= 1 ==> r == Ok(if slot == 0 then -1.0 else 1.0)
    ensures r.Ok? ==> -1.0 <= r.value <= 1.0
  {
    if 1 <= order && slot <= order then
      NodeXiUniform(order, slot);
      NodeXiInRange(order, slot);
      Ok(NodeXi(order, slot))
    else if slot == 0 then Ok(-1.0)
    else if slot == 1 then Ok(1.0)
    else Fatal(InvalidNodeIndex)
  }

  /** xi_at_node(node) - xi_at_node(i), the denominator of one Lagrange factor. */
  function Gap(order: nat, node: nat, i: nat): (r: real)
    requires 1 <= order && node <= order && i <= order && i != node
    ensures r != 0.0
  {
    NodeXiDistinct(order, node, i);
    NodeXi(order, node) - NodeXi(order, i)
  }

  // ---------------------------------------------------------------------------
  // Products of affine factors
  // ---------------------------------------------------------------------------

  /** The product, over the slots i < k other than `skip`, of the affine
      factors a[i] * xi + b[i]: the shape of basis_function's loop. */
  function SkipProduct(a: seq<real>, b: seq<real>, skip: nat, xi: real, k: nat): real
    requires k <= |a| == |b|
  {
    if k == 0 then 1.0
    else if k - 1 == skip then SkipProduct(a, b, skip, xi, k - 1)
    else SkipProduct(a, b, skip, xi, k - 1) * (a[k - 1] * xi + b[k - 1])
  }

  /** The derivative of SkipProduct in xi by the product rule, one factor at a
      time: (P * f)' == P' * f + P * f', where f' == a[i]. */
  function SkipProductDeriv(a: seq<real>, b: seq<real>, skip: nat, xi: real, k: nat): real
    requires k <= |a| == |b|
  {
    if k == 0 then 0.0
    else if k - 1 == skip then SkipProductDeriv(a, b, skip, xi, k - 1)
    else
      SkipProductDeriv(a, b, skip, xi, k - 1) * (a[k - 1] * xi + b[k - 1])
      + SkipProduct(a, b, skip, xi, k - 1) * a[k - 1]
  }

  /** The divided difference (SkipProduct(y) - SkipProduct(x)) / (y - x),
      written as a polynomial in x and y so that it is defined at y == x too. */
  function SkipProductDiff(a: seq<real>, b: seq<real>, skip: nat, x: real, y: real, k: nat): real
    requires k <= |a| == |b|
  {
    if k == 0 then 0.0
    else if k - 1 == skip then SkipProductDiff(a, b, skip, x, y, k - 1)
    else
      SkipProductDiff(a, b, skip, x, y, k - 1) * (a[k - 1] * y + b[k - 1])
      + SkipProduct(a, b, skip, x, k - 1) * a[k - 1]
  }

  /** d is a divided difference of a function whose values at x and y are
      fx and fy: fy - fx == (y - x) * d. */
  predicate DividesDifference(fx: real, fy: real, x: real, y: real, d: real)
  {
    fy - fx == (y - x) * d
  }

  /** SkipProductDiff is the divided difference of the product between any
      two points. */
  lemma {:induction false} SkipProductDiffIsQuotient(a: seq<real>, b: seq<real>, skip: nat,
                                                     x: real, y: real, k: nat)
    requires k <= |a| == |b|
    ensures DividesDifference(SkipProduct(a, b, skip, x, k), SkipProduct(a, b, skip, y, k),
                              x, y, SkipProductDiff(a, b, skip, x, y, k))
  {
    if k > 0 {
      SkipProductDiffIsQuotient(a, b, skip, x, y, k - 1);
    }
  }

  /** At coincident points the divided difference is the product-rule derivative. */
  lemma {:induction false} SkipProductDiffAtSamePoint(a: seq<real>, b: seq<real>, skip: nat,
                                                      x: real, k: nat)
    requires k <= |a| == |b|
    ensures SkipProductDiff(a, b, skip, x, x, k) == SkipProductDeriv(a, b, skip, x, k)
  {
    if k > 0 {
      SkipProductDiffAtSamePoint(a, b, skip, x, k - 1);
    }
  }

  /** A product whose factors all equal 1 at xi is 1 at xi. */
  lemma {:induction false} SkipProductOfOnes(a: seq<real>, b: seq<real>, skip: nat, xi: real, k: nat)
    requires k <= |a| == |b|
    requires forall i :: 0 <= i < k && i != skip ==> a[i] * xi + b[i] == 1.0
    ensures SkipProduct(a, b, skip, xi, k) == 1.0
  {
    if k > 0 {
      SkipProductOfOnes(a, b, skip, xi, k - 1);
    }
  }

  /** A product with a vanishing factor vanishes. */
  lemma {:induction false} SkipProductWithZero(a: seq<real>, b: seq<real>, skip: nat, xi: real,
                                               j: nat, k: nat)
    requires k <= |a| == |b|
    requires j < k && j != skip && a[j] * xi + b[j] == 0.0
    ensures SkipProduct(a, b, skip, xi, k) == 0.0
  {
    if k - 1 != j {
      SkipProductWithZero(a, b, skip, xi, j, k - 1);
    }
  }

  // ---------------------------------------------------------------------------
  // Basis functions
  // ---------------------------------------------------------------------------

  /** Slope 1 / (xi_node - xi_i) of the factor (xi - xi_i) / (xi_node - xi_i)
      of every slot i other than the node (the node's own entry is unused). */
  function Slopes(order: nat, node: nat): (s: seq<real>)
    requires 1 <= order && node <= order
    ensures |s| == order + 1
  {
    seq(order + 1, i requires 0 <= i <= order =>
          if i == node then 0.0 else 1.0 / Gap(order, node, i))
  }

  /** Offset -xi_i / (xi_node - xi_i) of the same factors. */
  function Offsets(order: nat, node: nat): (s: seq<real>)
    requires 1 <= order && node <= order
    ensures |s| == order + 1
  {
    seq(order + 1, i requires 0 <= i <= order =>
          if i == node then 0.0 else -NodeXi(order, i) / Gap(order, node, i))
  }

  /** (xi - p) / c written as the affine function (1 / c) * xi + (-p / c). */
  lemma AffineQuotient(c: real, p: real, xi: real)
    requires c != 0.0
    ensures (1.0 / c) * xi + -p / c == (xi - p) / c
  {
    assert (1.0 / c) * c == 1.0 && (-p / c) * c == -p;
    assert ((1.0 / c) * xi + -p / c) * c == xi - p;
  }

  /** Each factor of the product is basis_function's
      (xi - xi_at_node(i)) / (xi_at_node(node) - xi_at_node(i)). */
  lemma LagrangeFactor(order: nat, node: nat, i: nat, xi: real)
    requires 1 <= order && node <= order && i <= order && i != node
    ensures Slopes(order, node)[i] * xi + Offsets(order, node)[i]
         == (xi - NodeXi(order, i)) / Gap(order, node, i)
  {
    var c, xii := Gap(order, node, i), NodeXi(order, i);
    assert Slopes(order, node)[i] == 1.0 / c && Offsets(order, node)[i] == -xii / c;
    AffineQuotient(c, xii, xi);
  }

  /** The Lagrange polynomial of a valid slot: the loop of basis_function
      multiplies, for i = 0 .. order with i != node, the factors above. */
  function LagrangeBasis(order: nat, node: nat, xi: real): real
    requires 1 <= order && node <= order
  {
    SkipProduct(Slopes(order, node), Offsets(order, node), node, xi, order + 1)
  }

  /** basis_function: the Lagrange polynomial of the slot; a slot outside the
      element aborts, because the loop asks xi_at_node for it. */
  function BasisFunction(order: nat, node: nat, xi: real): (r: Result<real>)
    requires order >= 1
    ensures node > order <==> r == Fatal(InvalidNodeIndex)
  {
    if node > order then Fatal(InvalidNodeIndex) else Ok(LagrangeBasis(order, node, xi))
  }

  /** Every factor of slot i's product equals 1 at slot i's own node. */
  lemma FactorsAtOwnNode(order: nat, i: nat)
    requires 1 <= order && i <= order
    ensures forall m :: 0 <= m <= order && m != i ==>
              Slopes(order, i)[m] * NodeXi(order, i) + Offsets(order, i)[m] == 1.0
  {
    forall m | 0 <= m <= order && m != i
      ensures Slopes(order, i)[m] * NodeXi(order, i) + Offsets(order, i)[m] == 1.0
    {
      FactorAtOwnNode(order, i, m);
    }
  }

  /** Factor m of slot i's product is (xi_i - xi_m) / (xi_i - xi_m) == 1 at xi_i. */
  lemma FactorAtOwnNode(order: nat, i: nat, m: nat)
    requires 1 <= order && i <= order && m <= order && m != i
    ensures Slopes(order, i)[m] * NodeXi(order, i) + Offsets(order, i)[m] == 1.0
  {
    LagrangeFactor(order, i, m, NodeXi(order, i));
    QuotientOfEquals(NodeXi(order, i) - NodeXi(order, m), Gap(order, i, m));
  }

  /** p / c == 1 when p == c != 0. */
  lemma QuotientOfEquals(p: real, c: real)
    requires c != 0.0 && p == c
    ensures p / c == 1.0
  {
  }

  /** The basis function of a slot is 1 at its own node. */
  lemma BasisAtOwnNode(order: nat, i: nat)
    requires 1 <= order && i <= order
    ensures LagrangeBasis(order, i, NodeXi(order, i)) == 1.0
  {
    FactorsAtOwnNode(order, i);
    SkipProductOfOnes(Slopes(order, i), Offsets(order, i), i, NodeXi(order, i), order + 1);
  }

  /** The basis function of a slot is 0 at every other node of the element. */
  lemma BasisAtOtherNode(order: nat, i: nat, j: nat)
    requires 1 <= order && i <= order && j <= order && i != j
    ensures LagrangeBasis(order, i, NodeXi(order, j)) == 0.0
  {
    LagrangeFactor(order, i, j, NodeXi(order, j));
    SkipProductWithZero(Slopes(order, i), Offsets(order, i), i, NodeXi(order, j), j, order + 1);
  }

  /** Kronecker delta property: the basis function of slot i is 1 at its own
      node and 0 at every other node of the element. */
  lemma BasisFunctionDelta(order: nat, i: nat, j: nat, xj: real)
    requires order >= 1 && i <= order
    requires XiAtNode(order, j) == Ok(xj)
    ensures BasisFunction(order, i, xj) == Ok(if i == j then 1.0 else 0.0)
  {
    NodeXiUniform(order, j);
    if i == j {
      BasisAtOwnNode(order, i);
    } else {
      BasisAtOtherNode(order, i, j);
    }
  }

  /** The sum of the first n basis functions of an order at xi. */
  function BasisSum(order: nat, xi: real, n: nat): real
    requires 1 <= order && n <= order + 1
  {
    if n == 0 then 0.0 else BasisSum(order, xi, n - 1) + BasisFunction(order, n - 1, xi).value
  }

  /** The basis functions of order 1 as polynomials in xi. */
  lemma ShapeOrder1(xi: real)
    ensures LagrangeBasis(1, 0, xi) == (1.0 / 2.0) + (-1.0 / 2.0) * xi
    ensures LagrangeBasis(1, 1, xi) == (1.0 / 2.0) + (1.0 / 2.0) * xi
  {
    var a, b := Slopes(1, 0), Offsets(1, 0);
    assert a[1] == (-1.0 / 2.0) && b[1] == (1.0 / 2.0);
    assert SkipProduct(a, b, 0, xi, 1) == 1.0;
    var c, d := Slopes(1, 1), Offsets(1, 1);
    assert c[0] == (1.0 / 2.0) && d[0] == (1.0 / 2.0);
    assert SkipProduct(c, d, 1, xi, 1) == (1.0 / 2.0) + (1.0 / 2.0) * xi;
  }

  /** The basis functions of order 2 as polynomials in xi, slot by slot. */
  lemma ShapeOrder2Node0(xi: real)
    ensures LagrangeBasis(2, 0, xi) == (-1.0 / 2.0) * xi + (1.0 / 2.0) * xi * xi
  {
    var a, b := Slopes(2, 0), Offsets(2, 0);
    assert a[1] == (-1.0 / 2.0) && b[1] == (1.0 / 2.0) && a[2] == -1.0 && b[2] == 0.0;
    assert SkipProduct(a, b, 0, xi, 1) == 1.0;
    assert SkipProduct(a, b, 0, xi, 2) == (1.0 / 2.0) + (-1.0 / 2.0) * xi;
  }

  lemma ShapeOrder2Node1(xi: real)
    ensures LagrangeBasis(2, 1, xi) == (1.0 / 2.0) * xi + (1.0 / 2.0) * xi * xi
  {
    var a, b := Slopes(2, 1), Offsets(2, 1);
    assert a[0] == (1.0 / 2.0) && b[0] == (1.0 / 2.0) && a[2] == 1.0 && b[2] == 0.0;
    assert SkipProduct(a, b, 1, xi, 1) == (1.0 / 2.0) + (1.0 / 2.0) * xi;
    assert SkipProduct(a, b, 1, xi, 2) == (1.0 / 2.0) + (1.0 / 2.0) * xi;
  }

  lemma ShapeOrder2Node2(xi: real)
    ensures LagrangeBasis(2, 2, xi) == 1.0 + -1.0 * xi * xi
  {
    var a, b := Slopes(2, 2), Offsets(2, 2);
    assert a[0] == 1.0 && b[0] == 1.0 && a[1] == -1.0 && b[1] == 1.0;
    assert SkipProduct(a, b, 2, xi, 1) == 1.0 + xi;
    assert SkipProduct(a, b, 2, xi, 2) == 1.0 + -1.0 * xi * xi;
  }

  /** The basis functions of order 3 as polynomials in xi, slot by slot. */
  lemma ShapeOrder3Node0(xi: real)
    ensures LagrangeBasis(3, 0, xi)
         == (-1.0 / 16.0) + (1.0 / 16.0) * xi + (9.0 / 16.0) * xi * xi + (-9.0 / 16.0) * xi * xi * xi
  {
    var a, b := Slopes(3, 0), Offsets(3, 0);
    assert a[1] == (-1.0 / 2.0) && b[1] == (1.0 / 2.0) && a[2] == (-3.0 / 2.0) && b[2] == (-1.0 / 2.0) && a[3] == (-3.0 / 4.0) && b[3] == (1.0 / 4.0);
    assert SkipProduct(a, b, 0, xi, 1) == 1.0;
    assert SkipProduct(a, b, 0, xi, 2) == (1.0 / 2.0) + (-1.0 / 2.0) * xi;
    assert SkipProduct(a, b, 0, xi, 3) == (-1.0 / 4.0) + (-1.0 / 2.0) * xi + (3.0 / 4.0) * xi * xi;
  }

  lemma ShapeOrder3Node1(xi: real)
    ensures LagrangeBasis(3, 1, xi)
         == (-1.0 / 16.0) + (-1.0 / 16.0) * xi + (9.0 / 16.0) * xi * xi + (9.0 / 16.0) * xi * xi * xi
  {
    var a, b := Slopes(3, 1), Offsets(3, 1);
    assert a[0] == (1.0 / 2.0) && b[0] == (1.0 / 2.0) && a[2] == (3.0 / 4.0) && b[2] == (1.0 / 4.0) && a[3] == (3.0 / 2.0) && b[3] == (-1.0 / 2.0);
    assert SkipProduct(a, b, 1, xi, 1) == (1.0 / 2.0) + (1.0 / 2.0) * xi;
    assert SkipProduct(a, b, 1, xi, 2) == (1.0 / 2.0) + (1.0 / 2.0) * xi;
    assert SkipProduct(a, b, 1, xi, 3) == (1.0 / 8.0) + (1.0 / 2.0) * xi + (3.0 / 8.0) * xi * xi;
  }

  lemma ShapeOrder3Node2(xi: real)
    ensures LagrangeBasis(3, 2, xi)
         == (9.0 / 16.0) + (-27.0 / 16.0) * xi + (-9.0 / 16.0) * xi * xi + (27.0 / 16.0) * xi * xi * xi
  {
    var a, b := Slopes(3, 2), Offsets(3, 2);
    assert a[0] == (3.0 / 2.0) && b[0] == (3.0 / 2.0) && a[1] == (-3.0 / 4.0) && b[1] == (3.0 / 4.0) && a[3] == (-3.0 / 2.0) && b[3] == (1.0 / 2.0);
    assert SkipProduct(a, b, 2, xi, 1) == (3.0 / 2.0) + (3.0 / 2.0) * xi;
    assert SkipProduct(a, b, 2, xi, 3) == (9.0 / 8.0) + (-9.0 / 8.0) * xi * xi;
  }

  lemma ShapeOrder3Node3(xi: real)
    ensures LagrangeBasis(3, 3, xi)
         == (9.0 / 16.0) + (27.0 / 16.0) * xi + (-9.0 / 16.0) * xi * xi + (-27.0 / 16.0) * xi * xi * xi
  {
    var a, b := Slopes(3, 3), Offsets(3, 3);
    assert a[0] == (3.0 / 4.0) && b[0] == (3.0 / 4.0) && a[1] == (-3.0 / 2.0) && b[1] == (3.0 / 2.0) && a[2] == (3.0 / 2.0) && b[2] == (1.0 / 2.0);
    assert SkipProduct(a, b, 3, xi, 1) == (3.0 / 4.0) + (3.0 / 4.0) * xi;
    assert SkipProduct(a, b, 3, xi, 2) == (9.0 / 8.0) + (-9.0 / 8.0) * xi * xi;
    assert SkipProduct(a, b, 3, xi, 3)
        == (9.0 / 16.0) + (27.0 / 16.0) * xi + (-9.0 / 16.0) * xi * xi + (-27.0 / 16.0) * xi * xi * xi;
  }

  /** Partition of unity: for the orders basis_gradient is written for, the
      basis functions of an element sum to exactly 1 at every xi. */
  lemma PartitionOfUnity(order: nat, xi: real)
    requires 1 <= order <= 3
    ensures BasisSum(order, xi, order + 1) == 1.0
  {
    assert BasisSum(order, xi, 1) == LagrangeBasis(order, 0, xi);
    assert BasisSum(order, xi, 2) == LagrangeBasis(order, 0, xi) + LagrangeBasis(order, 1, xi);
    if order == 1 {
      ShapeOrder1(xi);
    } else if order == 2 {
      ShapeOrder2Node0(xi);
      ShapeOrder2Node1(xi);
      ShapeOrder2Node2(xi);
    } else {
      ShapeOrder3Node0(xi);
      ShapeOrder3Node1(xi);
      ShapeOrder3Node2(xi);
      ShapeOrder3Node3(xi);
    }
  }

  // ---------------------------------------------------------------------------
  // Derivatives
  // ---------------------------------------------------------------------------

  /** The exact derivative of the Lagrange polynomial of a valid slot, for any order. */
  function LagrangeDerivative(order: nat, node: nat, xi: real): real
    requires 1 <= order && node <= order
  {
    SkipProductDeriv(Slopes(order, node), Offsets(order, node), node, xi, order + 1)
  }

  /** The divided difference of the Lagrange polynomial of a valid slot. */
  function DividedDifference(order: nat, node: nat, x: real, y: real): real
    requires 1 <= order && node <= order
  {
    SkipProductDiff(Slopes(order, node), Offsets(order, node), node, x, y, order + 1)
  }

  /** basis_gradient as written: hard-coded derivative formulas for orders 1,
      2 and 3; a slot outside the element aborts (the assert for order 1, the
      call xi_at_node(node) for orders 2 and 3); every other order falls
      through to the initial value 0. */
  function BasisGradient(order: nat, node: nat, xi: real): (r: Result<real>)
    requires order >= 1
    ensures order <= 3 ==> (r.Fatal? <==> node > order)
    ensures r.Fatal? ==> r.error == InvalidNodeIndex
    ensures order > 3 ==> r == Ok(0.0)
  {
    if order == 1 then
      if node == 0 then Ok(-1.0 / 2.0)
      else if node == 1 then Ok(1.0 / 2.0)
      else Fatal(InvalidNodeIndex)
    else if order == 2 then
      if node > 2 then Fatal(InvalidNodeIndex)
      else
        var s1: nat, s2: nat := if node == 0 then 1 else 0, if node == 2 then 1 else 2;
        NodeXiDistinct(2, node, s1);
        NodeXiDistinct(2, node, s2);
        var xi0, xi1, xi2 := NodeXi(2, node), NodeXi(2, s1), NodeXi(2, s2);
        var denum := (xi0 - xi1) * (xi0 - xi2);
        Ok((xi - xi2) / denum + (xi - xi1) / denum)
    else if order == 3 then
      if node > 3 then Fatal(InvalidNodeIndex)
      else
        var s1: nat := if node == 0 then 1 else 0;
        var s2: nat := if node <= 1 then 2 else 1;
        var s3: nat := if node == 3 then 2 else 3;
        NodeXiDistinct(3, node, s1);
        NodeXiDistinct(3, node, s2);
        NodeXiDistinct(3, node, s3);
        var xi0, xi1, xi2, xi3 := NodeXi(3, node), NodeXi(3, s1), NodeXi(3, s2), NodeXi(3, s3);
        var denum := (xi0 - xi1) * (xi0 - xi2) * (xi0 - xi3);
        Ok((xi - xi2) * (xi - xi3) / denum + (xi - xi1) * (xi - xi3) / denum
           + (xi - xi1) * (xi - xi2) / denum)
    else Ok(0.0)
  }

  /** The derivative of the Lagrange basis for any order, with the same fatal
      condition as basis_function; the assembler uses this one. */
  function Gradient(order: nat, node: nat, xi: real): (r: Result<real>)
    requires order >= 1
    ensures node > order <==> r == Fatal(InvalidNodeIndex)
  {
    if node > order then Fatal(InvalidNodeIndex) else Ok(LagrangeDerivative(order, node, xi))
  }

  /** Gradient is the xi-derivative of BasisFunction, for every order and
      slot: the difference quotient of the basis function between any two
      points is the polynomial DividedDifference, and at coincident points that
      polynomial is the gradient. */
  lemma GradientIsDerivative(order: nat, node: nat, x: real, y: real)
    requires 1 <= order && node <= order
    ensures Gradient(order, node, x).Ok? && BasisFunction(order, node, y).Ok?
    ensures DividesDifference(BasisFunction(order, node, x).value,
                              BasisFunction(order, node, y).value,
                              x, y, DividedDifference(order, node, x, y))
    ensures Gradient(order, node, x).value == DividedDifference(order, node, x, x)
  {
    var a, b := Slopes(order, node), Offsets(order, node);
    SkipProductDiffIsQuotient(a, b, node, x, y, order + 1);
    SkipProductDiffAtSamePoint(a, b, node, x, order + 1);
  }

  /** basis_gradient's hard-coded formulas are the derivative for order 1. */
  lemma BasisGradientAgreesOrder1(node: nat, xi: real)
    ensures BasisGradient(1, node, xi) == Gradient(1, node, xi)
  {
    if node <= 1 {
      var a, b := Slopes(1, node), Offsets(1, node);
      assert SkipProduct(a, b, node, xi, 0) == 1.0;
      assert SkipProductDeriv(a, b, node, xi, 0) == 0.0;
      if node == 0 {
        assert SkipProduct(a, b, node, xi, 1) == 1.0;
        assert SkipProductDeriv(a, b, node, xi, 1) == 0.0;
        assert SkipProductDeriv(a, b, node, xi, 2) == a[1];
        assert a[1] == 1.0 / Gap(1, 0, 1);
      } else {
        assert SkipProductDeriv(a, b, node, xi, 1) == a[0];
        assert SkipProductDeriv(a, b, node, xi, 2) == a[0];
        assert a[0] == 1.0 / Gap(1, 1, 0);
      }
    }
  }

  /** The same for each slot of orders 2 and 3: the slopes and offsets of
      the slot's factors, then the partial products and their derivatives as
      polynomials in xi, which end at basis_gradient's formula. */
  lemma GradientOrder2Node0(xi: real)
    ensures BasisGradient(2, 0, xi) == Gradient(2, 0, xi)
  {
    var a, b := Slopes(2, 0), Offsets(2, 0);
    assert a[1] == (-1.0 / 2.0) && b[1] == (1.0 / 2.0) && a[2] == -1.0 && b[2] == 0.0;
    assert SkipProduct(a, b, 0, xi, 1) == 1.0;
    assert SkipProductDeriv(a, b, 0, xi, 1) == 0.0;
    assert SkipProduct(a, b, 0, xi, 2) == (1.0 / 2.0) + (-1.0 / 2.0) * xi;
    assert SkipProductDeriv(a, b, 0, xi, 2) == (-1.0 / 2.0);
    assert SkipProductDeriv(a, b, 0, xi, 3) == (-1.0 / 2.0) + xi;
  }

  lemma GradientOrder2Node1(xi: real)
    ensures BasisGradient(2, 1, xi) == Gradient(2, 1, xi)
  {
    var a, b := Slopes(2, 1), Offsets(2, 1);
    assert a[0] == (1.0 / 2.0) && b[0] == (1.0 / 2.0) && a[2] == 1.0 && b[2] == 0.0;
    assert SkipProduct(a, b, 1, xi, 1) == (1.0 / 2.0) + (1.0 / 2.0) * xi;
    assert SkipProductDeriv(a, b, 1, xi, 1) == (1.0 / 2.0);
    assert SkipProduct(a, b, 1, xi, 2) == (1.0 / 2.0) + (1.0 / 2.0) * xi;
    assert SkipProductDeriv(a, b, 1, xi, 2) == (1.0 / 2.0);
    assert SkipProductDeriv(a, b, 1, xi, 3) == (1.0 / 2.0) + xi;
  }

  lemma GradientOrder2Node2(xi: real)
    ensures BasisGradient(2, 2, xi) == Gradient(2, 2, xi)
  {
    var a, b := Slopes(2, 2), Offsets(2, 2);
    assert a[0] == 1.0 && b[0] == 1.0 && a[1] == -1.0 && b[1] == 1.0;
    assert SkipProduct(a, b, 2, xi, 1) == 1.0 + xi;
    assert SkipProductDeriv(a, b, 2, xi, 1) == 1.0;
    assert SkipProduct(a, b, 2, xi, 2) == 1.0 + -1.0 * xi * xi;
    assert SkipProductDeriv(a, b, 2, xi, 2) == -2.0 * xi;
    assert SkipProductDeriv(a, b, 2, xi, 3) == -2.0 * xi;
  }

  lemma GradientOrder3Node0(xi: real)
    ensures BasisGradient(3, 0, xi) == Gradient(3, 0, xi)
  {
    var a, b := Slopes(3, 0), Offsets(3, 0);
    assert a[1] == (-1.0 / 2.0) && b[1] == (1.0 / 2.0) && a[2] == (-3.0 / 2.0) && b[2] == (-1.0 / 2.0) && a[3] == (-3.0 / 4.0) && b[3] == (1.0 / 4.0);
    assert SkipProduct(a, b, 0, xi, 1) == 1.0;
    assert SkipProductDeriv(a, b, 0, xi, 1) == 0.0;
    assert SkipProduct(a, b, 0, xi, 2) == (1.0 / 2.0) + (-1.0 / 2.0) * xi;
    assert SkipProductDeriv(a, b, 0, xi, 2) == (-1.0 / 2.0);
    assert SkipProduct(a, b, 0, xi, 3) == (-1.0 / 4.0) + (-1.0 / 2.0) * xi + (3.0 / 4.0) * xi * xi;
    assert SkipProductDeriv(a, b, 0, xi, 3) == (-1.0 / 2.0) + (3.0 / 2.0) * xi;
    assert SkipProductDeriv(a, b, 0, xi, 4) == (1.0 / 16.0) + (9.0 / 8.0) * xi + (-27.0 / 16.0) * xi * xi;
  }

  lemma GradientOrder3Node1(xi: real)
    ensures BasisGradient(3, 1, xi) == Gradient(3, 1, xi)
  {
    var a, b := Slopes(3, 1), Offsets(3, 1);
    assert a[0] == (1.0 / 2.0) && b[0] == (1.0 / 2.0) && a[2] == (3.0 / 4.0) && b[2] == (1.0 / 4.0) && a[3] == (3.0 / 2.0) && b[3] == (-1.0 / 2.0);
    assert SkipProduct(a, b, 1, xi, 1) == (1.0 / 2.0) + (1.0 / 2.0) * xi;
    assert SkipProductDeriv(a, b, 1, xi, 1) == (1.0 / 2.0);
    assert SkipProduct(a, b, 1, xi, 2) == (1.0 / 2.0) + (1.0 / 2.0) * xi;
    assert SkipProductDeriv(a, b, 1, xi, 2) == (1.0 / 2.0);
    assert SkipProduct(a, b, 1, xi, 3) == (1.0 / 8.0) + (1.0 / 2.0) * xi + (3.0 / 8.0) * xi * xi;
    assert SkipProductDeriv(a, b, 1, xi, 3) == (1.0 / 2.0) + (3.0 / 4.0) * xi;
    assert SkipProductDeriv(a, b, 1, xi, 4) == (-1.0 / 16.0) + (9.0 / 8.0) * xi + (27.0 / 16.0) * xi * xi;
  }

  lemma GradientOrder3Node2(xi: real)
    ensures BasisGradient(3, 2, xi) == Gradient(3, 2, xi)
  {
    var a, b := Slopes(3, 2), Offsets(3, 2);
    assert a[0] == (3.0 / 2.0) && b[0] == (3.0 / 2.0) && a[1] == (-3.0 / 4.0) && b[1] == (3.0 / 4.0) && a[3] == (-3.0 / 2.0) && b[3] == (1.0 / 2.0);
    assert SkipProduct(a, b, 2, xi, 1) == (3.0 / 2.0) + (3.0 / 2.0) * xi;
    assert SkipProductDeriv(a, b, 2, xi, 1) == (3.0 / 2.0);
    assert SkipProduct(a, b, 2, xi, 2) == (9.0 / 8.0) + (-9.0 / 8.0) * xi * xi;
    assert SkipProductDeriv(a, b, 2, xi, 2) == (-9.0 / 4.0) * xi;
    assert SkipProduct(a, b, 2, xi, 3) == (9.0 / 8.0) + (-9.0 / 8.0) * xi * xi;
    assert SkipProductDeriv(a, b, 2, xi, 3) == (-9.0 / 4.0) * xi;
    assert SkipProductDeriv(a, b, 2, xi, 4) == (-27.0 / 16.0) + (-9.0 / 8.0) * xi + (81.0 / 16.0) * xi * xi;
  }

  lemma GradientOrder3Node3(xi: real)
    ensures BasisGradient(3, 3, xi) == Gradient(3, 3, xi)
  {
    var a, b := Slopes(3, 3), Offsets(3, 3);
    assert a[0] == (3.0 / 4.0) && b[0] == (3.0 / 4.0) && a[1] == (-3.0 / 2.0) && b[1] == (3.0 / 2.0) && a[2] == (3.0 / 2.0) && b[2] == (1.0 / 2.0);
    assert SkipProduct(a, b, 3, xi, 1) == (3.0 / 4.0) + (3.0 / 4.0) * xi;
    assert SkipProductDeriv(a, b, 3, xi, 1) == (3.0 / 4.0);
    assert SkipProduct(a, b, 3, xi, 2) == (9.0 / 8.0) + (-9.0 / 8.0) * xi * xi;
    assert SkipProductDeriv(a, b, 3, xi, 2) == (-9.0 / 4.0) * xi;
    assert SkipProduct(a, b, 3, xi, 3) == (9.0 / 16.0) + (27.0 / 16.0) * xi + (-9.0 / 16.0) * xi * xi + (-27.0 / 16.0) * xi * xi * xi;
    assert SkipProductDeriv(a, b, 3, xi, 3) == (27.0 / 16.0) + (-9.0 / 8.0) * xi + (-81.0 / 16.0) * xi * xi;
    assert SkipProductDeriv(a, b, 3, xi, 4) == (27.0 / 16.0) + (-9.0 / 8.0) * xi + (-81.0 / 16.0) * xi * xi;
  }


  /** For the orders it handles, basis_gradient's hard-coded formulas are the
      derivative of basis_function, with the same fatal conditions. */
  lemma BasisGradientAgrees(order: nat, node: nat, xi: real)
    requires 1 <= order <= 3
    ensures BasisGradient(order, node, xi) == Gradient(order, node, xi)
  {
    if order == 1 {
      BasisGradientAgreesOrder1(node, xi);
    } else if order == 2 {
      if node == 0 { GradientOrder2Node0(xi); }
      else if node == 1 { GradientOrder2Node1(xi); }
      else if node == 2 { GradientOrder2Node2(xi); }
    } else {
      if node == 0 { GradientOrder3Node0(xi); }
      else if node == 1 { GradientOrder3Node1(xi); }
      else if node == 2 { GradientOrder3Node2(xi); }
      else if node == 3 { GradientOrder3Node3(xi); }
    }
  }

  /** basis_gradient as written returns 0 for every order above 3, although
      the basis functions are not constant there: for order 4 the function of
      slot 0 falls from 1 at xi = -1 to 0 at xi = 1, and its derivative at
      xi = -1 is -25/6. */
  lemma BasisGradientOrder4IsZero()
    ensures BasisGradient(4, 0, -1.0) == Ok(0.0)
    ensures BasisFunction(4, 0, -1.0) == Ok(1.0) && BasisFunction(4, 0, 1.0) == Ok(0.0)
    ensures Gradient(4, 0, -1.0) == Ok(-25.0 / 6.0)
  {
    BasisFunctionDelta(4, 0, 0, -1.0);
    BasisFunctionDelta(4, 0, 1, 1.0);
    var a, b := Slopes(4, 0), Offsets(4, 0);
    assert a[1] == (-1.0 / 2.0) && b[1] == (1.0 / 2.0) && a[2] == -2.0 && b[2] == -1.0 && a[3] == -1.0 && b[3] == 0.0 && a[4] == (-2.0 / 3.0) && b[4] == (1.0 / 3.0);
    assert SkipProduct(a, b, 0, -1.0, 1) == 1.0;
    assert SkipProductDeriv(a, b, 0, -1.0, 1) == 0.0;
    assert SkipProduct(a, b, 0, -1.0, 2) == 1.0;
    assert SkipProductDeriv(a, b, 0, -1.0, 2) == (-1.0 / 2.0);
    assert SkipProduct(a, b, 0, -1.0, 3) == 1.0;
    assert SkipProductDeriv(a, b, 0, -1.0, 3) == (-5.0 / 2.0);
    assert SkipProduct(a, b, 0, -1.0, 4) == 1.0;
    assert SkipProductDeriv(a, b, 0, -1.0, 4) == (-7.0 / 2.0);
    assert SkipProductDeriv(a, b, 0, -1.0, 5) == (-25.0 / 6.0);
  }
}
