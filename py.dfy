/**
 * Small value types shared by the model: Python's optional values, the
 * exceptions the modelled code can raise, and Python's sequence indexing
 * (which accepts negative indices counted from the end).
 */
module Py {

  datatype Option<+T> = None | Some(value: T)

  /** The exceptions that end the modelled scripts (none of them is caught). */
  datatype Error =
    | ValueError      // `Corner(id)` with an unknown id, `int(s)` on a non-integer
    | KeyError        // a missing dictionary key
    | IndexError      // a sequence or array index out of range
    | NameError       // a name read before it was ever bound
    | EOFError        // `input()` after the input has ended

  datatype Result<+T> = Ok(value: T) | Err(error: Error)

  /**
   * Python's `xs[i]` on a sequence of length `n`: the position it reads, or
   * None when Python raises IndexError.
   */
  function PyIndex(i: int, n: nat): (r: Option<nat>)
    ensures r.Some? <==> -(n as int) <= i < n
    ensures r.Some? ==> r.value < n && (r.value == i || r.value == i + n)
    ensures r.Some? && 0 <= i ==> r.value == i
  {
    if 0 <= i < n then Some(i)
    else if -(n as int) <= i < 0 then Some(i + n)
    else None
  }

  /** Python's `str(n)` for a natural number: its decimal digits. */
  function DecimalString(n: nat): (s: string)
    ensures |s| >= 1
    ensures forall i :: 0 <= i < |s| ==> '0' <= s[i] <= '9'
    ensures n < 10 ==> s == [('0' as int + n) as char]
  {
    if n < 10 then [('0' as int + n) as char]
    else DecimalString(n / 10) + [('0' as int + n % 10) as char]
  }
}
