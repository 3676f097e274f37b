/** Option and Result values standing for Python's `None` returns and raised exceptions, and a sequence fact. */
module Wrappers {

  datatype Option<+T> = None | Some(value: T)

  datatype Result<+T, +E> = Ok(value: T) | Err(error: E)

  /** The outcome of a foreign call that returns nothing useful: it completes or it raises. */
  datatype Outcome = Pass | Fail(reason: string)

  /** Concatenation regroups, stated over plain sequences so that no function in the parts is unfolded. */
  lemma ConcatAssoc<T>(a: seq<T>, b: seq<T>, c: seq<T>)
    ensures (a + b) + c == a + (b + c)
  {
  }
}
