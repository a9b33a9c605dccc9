/** The parts of Python's run-time behaviour the two entry points depend on:
    the exceptions that can end a run, and integer `%` with Python's sign rule. */
module Runtime {

  datatype Option<+T> = None | Some(value: T)

  /** The exceptions the modelled code can raise. Each one ends the run. */
  datatype Exception =
    | InvalidIntLiteral(literal: string)    // ValueError raised by int() on a bad field
    | DatasetNotSupported(dataset: string)  // ValueError raised by parse_option itself
    | ZeroDivision                          // ZeroDivisionError from `%` or `/`

  /** A value, or the exception that was raised instead. */
  datatype Result<+T> = Ok(value: T) | Raise(exception: Exception)

  /** Python's `a % b` on ints: floor modulo, so a non-zero remainder has the sign of `b`,
      and a zero divisor raises. */
  function Mod(a: int, b: int): (r: Result<int>)
    ensures r.Raise? <==> b == 0
    ensures r.Raise? ==> r.exception == ZeroDivision
    ensures r.Ok? && b > 0 ==> 0 <= r.value < b
    ensures r.Ok? && b < 0 ==> b < r.value <= 0
    ensures r.Ok? ==> r.value == a % b || r.value == a % b + b
    ensures r.Ok? ==> (r.value == 0 <==> a % b == 0)
  {
    if b == 0 then Raise(ZeroDivision)
    else if b > 0 || a % b == 0 then Ok(a % b)
    else Ok(a % b + b)
  }
}
