/** Results shared by every module. */
module Outcomes {

  datatype Option<+T> = None | Some(value: T)

  /** The result of an operation of the program: a value, an error with its
      stable code, or the death of the process in the middle of it. */
  datatype Outcome<+T> = Ok(value: T) | Err(code: string) | Crashed
  {
    predicate IsFailure() {
      !Ok?
    }

    function PropagateFailure<U>(): Outcome<U>
      requires !Ok?
    {
      if Err? then Outcome<U>.Err(code) else Outcome<U>.Crashed
    }

    function Extract(): T
      requires Ok?
    {
      value
    }
  }

  predicate Unique<T(==)>(s: seq<T>) {
    forall i, j | 0 <= i < j < |s| :: s[i] != s[j]
  }
}
