/** The optional value the Java, C# and Python sources express with
    `Optional`, nullable references and `None`, and the result of an
    operation that may throw. */
module Wrappers {

  datatype Option<+T> = None | Some(value: T) {

    function GetOr(default: T): (r: T)
      ensures Some? ==> r == value
      ensures None? ==> r == default
    {
      match this
      case Some(v) => v
      case None => default
    }
  }

  /** A value, or the exception that took its place. */
  datatype Result<+T, +E> = Success(value: T) | Failure(error: E) {

    function ToOption(): (r: Option<T>)
      ensures Success? <==> r.Some?
      ensures Success? ==> r.value == value
    {
      match this
      case Success(v) => Some(v)
      case Failure(_) => None
    }
  }
}
