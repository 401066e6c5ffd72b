/** Optional values and results with errors: the model's stand-in for Java's
  * nullable references and for the exceptions the modelled code throws. */
module Results {

  datatype Option<+T> = None | Some(value: T)
  {
    predicate IsSome() { Some? }
  }

  datatype Result<+T, +E> = Ok(value: T) | Err(error: E)
  {
    predicate IsOk() { Ok? }
  }

  /** What the prorating code throws: the ArithmeticException cases of
    * java.math.BigDecimal division (a zero divisor, or an exact quotient with
    * no finite decimal expansion), and the IllegalArgumentException of a
    * `HashMap` sized with a negative capacity. */
  datatype ArithError = DivisionByZero | NonTerminatingDecimal | NegativeCapacity

}
