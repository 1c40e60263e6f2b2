// Values shared by the three scripts: optional and failing results, the
// integer helpers Python's built-ins stand for, the coordinates handed to
// the plotting library, and the row paging the two logo plotters share.

module Common {

  datatype Option<+T> = None | Some(value: T)

  /** The value of a step, or the exception that stops the script. */
  datatype Result<+T, +E> = Ok(value: T) | Err(error: E)

  function Min(a: int, b: int): int { if a <= b then a else b }

  function Max(a: int, b: int): int { if a >= b then a else b }

  /** Python's `math.ceil(n / d)` for a positive divisor. */
  function CeilDiv(n: int, d: int): (q: int)
    requires d > 0
    ensures d * (q - 1) < n <= d * q
  {
    var k := (-n) / d;
    assert -n == d * k + (-n) % d;
    -k
  }

  /** Python's `int(n / d)` for a positive divisor: the quotient truncated toward zero. */
  function TruncDiv(n: int, d: int): (q: int)
    requires d > 0
    ensures n >= 0 ==> d * q <= n < d * (q + 1)
    ensures n < 0 ==> d * (q - 1) < n <= d * q
  {
    if n >= 0 then n / d else -((-n) / d)
  }

  /**
   * One annotation bar and its text label: the bar runs from barStart to
   * barEnd on the codon axis, the text is written at textX.
   */
  datatype Mark = Mark(barStart: int, barEnd: int, textX: real, color: string, text: string)

  // Both logo plotters start with the window [9, 50] and step by 50 - 9.
  const FirstRowStart := 9
  const FirstRowEnd := 50
  const Increment := FirstRowEnd - FirstRowStart

  /**
   * `num_rows = math.ceil((endPos - start + 1) / increment)` where endPos is
   * the largest codon position; a count below one draws no row.
   */
  function RowCount(maxIndex: int): (n: int)
    ensures maxIndex >= FirstRowStart ==> n >= 1
    ensures Increment * (n - 1) < maxIndex - FirstRowStart + 1 <= Increment * n
  {
    CeilDiv(maxIndex - FirstRowStart + 1, Increment)
  }
}
