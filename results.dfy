/** Outcomes of the engine's operations. The source signals failure with
    exceptions; here they are error values that the caller can inspect. */
module Results {

  /** The two failures the engine raises. */
  datatype Error =
    | GraphMismatch  // ArgumentException from DependencyGraph.CheckGraph
    | CannotOrder    // InvalidOperationException "Cannot order this set of processes"

  /** Result of an operation that returns a value or throws. */
  datatype Result<T> = Ok(value: T) | Err(error: Error)

  /** Result of an operation that returns nothing (`void`) or throws. */
  datatype Outcome = Pass | Fail(error: Error)
}
