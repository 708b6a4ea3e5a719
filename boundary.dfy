/** The Dirichlet boundary map built by define_boundary_conds (lab1/FEM1.h). */
module Boundary {

  /** A node define_boundary_conds puts in the map: one at x = 0, or, in
      problem 1 only, one at x = len. */
  predicate IsDirichletNode(nodes: seq<real>, len: real, prob: nat, k: nat)
    requires k < |nodes|
  {
    nodes[k] == 0.0 || (nodes[k] == len && prob == 1)
  }

  /** boundary_values after the loop has visited global nodes 0 .. n - 1,
      starting from the map m: g1 at a node at x = 0, then g2 at a node at
      x = len when the problem is 1 (so g2 wins when len is 0). */
  function BoundaryUpTo(nodes: seq<real>, len: real, prob: nat, g1: real, g2: real,
                        m: map<nat, real>, n: nat): map<nat, real>
    requires n <= |nodes|
  {
    if n == 0 then m
    else
      var before := BoundaryUpTo(nodes, len, prob, g1, g2, m, n - 1);
      var atLeft := if nodes[n - 1] == 0.0 then before[n - 1 := g1] else before;
      if nodes[n - 1] == len && prob == 1 then atLeft[n - 1 := g2] else atLeft
  }

  /** The keys of the map are the starting keys and the Dirichlet nodes
      visited, nothing else; a Dirichlet node at x = len in problem 1 maps to
      g2, another one at x = 0 to g1, and every other key keeps its value. */
  lemma {:induction false} BoundaryUpToCharacterized(nodes: seq<real>, len: real, prob: nat, g1: real, g2: real,
                                                     m: map<nat, real>, n: nat, k: nat)
    requires n <= |nodes|
    ensures k in BoundaryUpTo(nodes, len, prob, g1, g2, m, n)
        <==> k in m || (k < n && IsDirichletNode(nodes, len, prob, k))
    ensures k in BoundaryUpTo(nodes, len, prob, g1, g2, m, n) ==>
      BoundaryUpTo(nodes, len, prob, g1, g2, m, n)[k]
        == if k < n && nodes[k] == len && prob == 1 then g2
           else if k < n && nodes[k] == 0.0 then g1
           else m[k]
  {
    if n > 0 {
      BoundaryUpToCharacterized(nodes, len, prob, g1, g2, m, n - 1, k);
    }
  }
}
