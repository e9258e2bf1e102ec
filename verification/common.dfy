/** Small types shared by every part of the model. */
module Common {

  datatype Option<+T> = None | Some(value: T)

  /** A value, or the exception the source raises instead of returning one. */
  datatype Result<+T> = Ok(value: T) | Raised(reason: Exception) {
    predicate IsFailure() { Raised? }

    function PropagateFailure<U>(): Result<U>
      requires Raised?
    {
      Raised(reason)
    }

    function Extract(): T
      requires Ok?
    {
      value
    }
  }

  datatype Exception =
    | ValueError        // int() or an Enum constructor on a value it does not know, list.index
    | IndexError        // a list subscript past the end
    | TypeError         // calling None, which select_child returns for an unknown status
    | ZeroDivision      // the remainder by an empty relayer list
    | RecursionLimit    // a recursion deeper than the interpreter allows
    | Refused           // an explicit raise in the source

  type byte = n: nat | n < 256 witness 0

  /** Python's s[i:j] for 0 <= i <= j: both bounds are clamped to the length. */
  function PySlice<T>(s: seq<T>, i: nat, j: nat): seq<T>
    requires i <= j
  {
    if |s| <= i then [] else if |s| <= j then s[i..] else s[i..j]
  }
}
