/** Shared value types: nullable values, HTTP-style error results and the
    rendering of Python f-string fragments (integers and `None`). */
module Common {

  /** A nullable column or parameter (`Optional[...]` / SQL NULL). */
  datatype Option<+T> = None | Some(value: T)

  /** The `status_code` and `detail` of an `HTTPException`. */
  datatype HttpError = HttpError(status: int, detail: string)

  /** A handler outcome: a value, or the HTTP error it raises. */
  datatype Result<+T> = Ok(value: T) | Err(error: HttpError)

  /** A decimal digit as a character. */
  function DigitChar(d: nat): (c: char)
    requires d < 10
    ensures '0' <= c <= '9'
  {
    "0123456789"[d]
  }

  /** The decimal text of a natural number, as `str(n)` gives it. */
  function NatText(n: nat): (s: string)
    decreases n
    ensures |s| >= 1
    ensures forall k :: 0 <= k < |s| ==> '0' <= s[k] <= '9'
  {
    if n < 10 then [DigitChar(n)] else NatText(n / 10) + [DigitChar(n % 10)]
  }

  /** The decimal text of an integer, with a leading `-` when negative. */
  function IntText(i: int): string
  {
    if i < 0 then "-" + NatText(-i) else NatText(i)
  }

  /** How an f-string renders a nullable string: the text itself, or `None`. */
  function Text(s: Option<string>): string
  {
    if s.Some? then s.value else "None"
  }
}
