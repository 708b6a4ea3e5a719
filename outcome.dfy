/** How the solver ends on an error: lab1/FEM1.h prints a message and calls
    exit(0) (or fails an assert), which the model turns into a Fatal result. */
module Outcome {

  /** The solver's two fatal conditions: a problem variant other than 1 or 2
      (the constructor), and a local node slot outside the element
      (xi_at_node, basis_gradient). */
  datatype FemError = InvalidProblemVariant | InvalidNodeIndex

  /** Outcome of an operation that the solver aborts on error. */
  datatype Result<T> = Ok(value: T) | Fatal(error: FemError)
}
