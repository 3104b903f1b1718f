/** Result and option types shared by every module of the model. */
module Wrappers {

  /** An optional value: Go's nil pointers and Python's None. */
  datatype Option<T> = None | Some(value: T)

  /** The value, or `default` when absent (Go's `aws.ToString` and friends). */
  function UnwrapOr<T>(o: Option<T>, default: T): T
  {
    if o.Some? then o.value else default
  }

  /** The outcome of an operation that returns a value or an error. */
  datatype Result<T, E> = Ok(value: T) | Err(error: E)

  /** The outcome of an operation that returns only an error, or nothing. */
  datatype Outcome<E> = Pass | Fail(error: E)

  /**
   * How a Go operation stops: an error value the caller wraps, or a
   * run-time panic (an index out of range, a nil dereference) that no
   * caller sees as an error value.
   */
  datatype GoError = Failure(message: string) | Panic(reason: string)

  /** `fmt.Errorf(prefix + "%w", err)`: a failure is wrapped, a panic passes through. */
  function Wrap(prefix: string, e: GoError): (r: GoError)
    ensures e.Failure? ==> r == Failure(prefix + e.message)
    ensures e.Panic? ==> r == e
  {
    match e
    case Failure(m) => Failure(prefix + m)
    case Panic(_) => e
  }

  const IndexOutOfRange := "index out of range"
  const NilDereference := "nil pointer dereference"

  /**
   * `r` is one of the outcomes `spec` allows: the same value, or one of
   * the errors an unspecified (Go map) iteration order can report first.
   */
  predicate Realizes<T(==), E(==)>(r: Result<T, E>, spec: Result<T, set<E>>)
  {
    && (r.Ok? <==> spec.Ok?)
    && (r.Ok? ==> r.value == spec.value)
    && (r.Err? ==> r.error in spec.error)
  }
}
