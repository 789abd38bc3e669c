/** Option and Result values used wherever the Java code returns null or throws. */
module Wrappers {

  datatype Option<T> = None | Some(value: T)
  {
    predicate IsFailure() { None? }

    function PropagateFailure<U>(): Option<U>
      requires None?
    {
      None
    }

    function Extract(): T
      requires Some?
    {
      value
    }
  }

  /** The exceptions the modelled Java code can throw, by class name. */
  datatype Failure =
    | IllegalArgument(message: string)
    | IllegalState(message: string)
    | ClassCast
    | NullPointer
    | IndexOutOfBounds
    | NoSuchElement
    | UnsupportedOperation(message: string)
    | NoSolution
    | SymbolNotOfKindType
    | NoSuchSymbol
    | DuplicateSymbol
    | NoSuchModule
    | OutOfFuel
    | NegativeArraySize
    | Runtime(message: string)

  datatype Result<T> = Success(value: T) | Error(error: Failure)
  {
    predicate IsFailure() { Error? }

    function PropagateFailure<U>(): Result<U>
      requires Error?
    {
      Error(error)
    }

    function Extract(): T
      requires Success?
    {
      value
    }
  }
}
