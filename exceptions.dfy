/** The error kinds raised by the interval algebra core, and the result type
    through which the model's operations report them instead of raising. */
module Exceptions {

  /** The exceptions of the core that the model can produce.  The serialisation
      errors (unserialisable item, unparseable dict, unsupported version) belong
      to the dict framing, which is not part of this model. */
  datatype Error =
    | InvalidValue            // malformed peg or interval
    | IndeterminateForm       // opposite-infinity arithmetic (e.g. +inf - +inf)
    | MetricNotImplemented    // extension asked of a domain without a metric
    | InvalidCombineEndState  // combine finished with an unflushed buffer

  datatype Result<+T> = Success(value: T) | Failure(error: Error) {
    predicate IsFailure() { Failure? }

    function PropagateFailure<U>(): Result<U>
      requires Failure?
    {
      Failure(error)
    }

    function Extract(): T
      requires Success?
    {
      value
    }
  }

  datatype Option<+T> = None | Some(value: T)
}
