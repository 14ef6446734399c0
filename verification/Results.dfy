/** Results of operations that may not have one. */
module Results {

  datatype Option<+T> = None | Some(value: T)

  /** Fault: an assertion of the C code fires, freed memory is used, or the code gives up. */
  datatype Result<+T> = Done(value: T) | Fault {
    predicate IsFailure() { Fault? }
    function PropagateFailure<U>(): Result<U>
      requires Fault?
    {
      Fault
    }
    function Extract(): T
      requires Done?
    {
      value
    }
  }
}
