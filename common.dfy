/** Shared vocabulary: the two ways the computation can fail, and Python's
    list subscript (a negative index counts from the end of the list). */
module Common {

  /** IndexOutOfRange is Python's IndexError; DivisionByZero is ZeroDivisionError. */
  datatype Error = IndexOutOfRange | DivisionByZero

  /** A computation that either produces a value or raises one of the errors. */
  datatype Result<+T> = Ok(value: T) | Err(error: Error) {
    predicate IsFailure() { Err? }

    function PropagateFailure<U>(): Result<U>
      requires Err?
    {
      Err(error)
    }

    function Extract(): T
      requires Ok?
    {
      value
    }
  }

  /** `s[j]` is defined in Python exactly when `-|s| <= j < |s|`. */
  predicate InBounds(len: nat, j: int) {
    -(len as int) <= j < len
  }

  /** The element Python's `s[j]` reads. */
  function Get<T>(s: seq<T>, j: int): T
    requires InBounds(|s|, j)
  {
    if j < 0 then s[|s| + j] else s[j]
  }

  /** Python's `s[j]` as a total operation: the element, or IndexError. */
  function At<T>(s: seq<T>, j: int): Result<T> {
    if InBounds(|s|, j) then Ok(Get(s, j)) else Err(IndexOutOfRange)
  }
}
