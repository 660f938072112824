/** Optional values (Java's nullable references) and the outcome of an
    operation that may throw (Java's unchecked exceptions). */
module Wrappers {

  datatype Option<+T> = None | Some(value: T) {
    function GetOr(default: T): T {
      match this
      case Some(v) => v
      case None => default
    }
  }

  /** The exceptions the core throws, with the message Java attaches to them.
      EntityExists stands for the persistence layer refusing a second row
      with an identifier that is already taken. */
  datatype Exception =
    | IllegalArgument(message: string)
    | IllegalState(message: string)
    | EntityExists(id: string)
  {
    /** What `getMessage()` gives back. */
    function Message(): string {
      match this
      case IllegalArgument(m) => m
      case IllegalState(m) => m
      case EntityExists(id) => "entity already exists: " + id
    }
  }

  datatype Result<+T> = Ok(value: T) | Err(error: Exception) {
    predicate IsFailure() { Err? }
    function PropagateFailure<U>(): Result<U>
      requires Err?
    {
      Err(error)
    }
    function Extract(): T
      requires Ok?
    {
      value
    }
  }
}
