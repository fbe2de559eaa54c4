/** Values shared by every part of the model: optional values, Python
    exceptions as error results, and floating-point numbers that may be NaN. */
module Numbers {

  /** Python's `None` or a value. */
  datatype Option<+T> = None | Some(value: T)

  /** The Python exceptions the modelled code raises or lets through. */
  datatype PyError =
    | TypeError(message: string)
    | ValueError(message: string)
    | KeyError(key: string)
    | IndexError(message: string)
    | AttributeError(message: string)
    | FileNotFound(path: string)
    | RuntimeError(cause: PyError)

  /** Either a returned value or a raised exception. */
  datatype Result<+T> = Ok(value: T) | Err(error: PyError) {
    predicate IsFailure() { Err? }

    function PropagateFailure<U>(): Result<U>
      requires Err?
    {
      Err(error)
    }

    function Extract(): T
      requires Ok?
    {
      value
    }
  }

  /** A float of the analysis: either NaN ("undefined", the value pandas and
      numpy use for missing data) or a number. */
  datatype Num = NaN | Val(v: real)

  /** Sum of two floats; NaN if either is NaN. */
  function Add(a: Num, b: Num): Num
  {
    if a.Val? && b.Val? then Val(a.v + b.v) else NaN
  }

  /** Difference of two floats; NaN if either is NaN. */
  function Sub(a: Num, b: Num): Num
  {
    if a.Val? && b.Val? then Val(a.v - b.v) else NaN
  }

  /** A constant coefficient times a float; NaN stays NaN. */
  function Scale(c: real, a: Num): Num
  {
    if a.Val? then Val(c * a.v) else NaN
  }

  /** Quotient of two floats. NaN if either is NaN; a zero divisor also
      gives NaN here (IEEE infinities are not modelled). */
  function Div(a: Num, b: Num): Num
  {
    if a.Val? && b.Val? && b.v != 0.0 then Val(a.v / b.v) else NaN
  }

  lemma {:induction false} ArithmeticPropagatesNaN(a: Num, b: Num, c: real)
    ensures Add(a, b).NaN? <==> a.NaN? || b.NaN?
    ensures Sub(a, b).NaN? <==> a.NaN? || b.NaN?
    ensures Scale(c, a).NaN? <==> a.NaN?
    ensures a.NaN? || b.NaN? ==> Div(a, b).NaN?
  {
  }
}
