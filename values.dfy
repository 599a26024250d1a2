/** Shared value types: optional values, the Python exceptions the pipeline
    lets escape, and worksheet grids. */
module Values {

  datatype Option<T> = None | Some(value: T)

  /** The exceptions `run.py` does not catch, each as the value that ends a step. */
  datatype Error =
    | IndexError                   // `stock[-1]` on a worksheet without rows
    | ValueError(literal: string)  // `int()` of a string that is no integer literal
    | ZeroDivisionError            // the mean of an empty column

  datatype Result<T> = Ok(value: T) | Err(error: Error)

  /** A worksheet as the list of its rows, each a list of cell texts. */
  type Grid = seq<seq<string>>

  /** `s[-1]`. */
  function Last<T>(s: seq<T>): T
    requires |s| > 0
  {
    s[|s| - 1]
  }

  function Min(a: int, b: int): int
  {
    if a <= b then a else b
  }

  function Max(a: int, b: int): int
  {
    if a >= b then a else b
  }

  function Abs(a: int): nat
  {
    if a < 0 then -a else a
  }
}
