/** The few pieces of Python's runtime behaviour the controller relies on:
    the two exceptions it can raise, list indexing with negative indices,
    and the built-in round() applied to a quotient of two integers. */
module Python {
  import opened Arith

  /** The exceptions the controller can raise. */
  datatype Error = ZeroDivisionError | IndexError

  /** A computation that either returns a value or raises. */
  datatype Result<T> = Ok(value: T) | Err(error: Error)

  /** A computation that returns nothing useful, or raises. */
  datatype Status = Done | Raised(error: Error)

  /** `s[i]` on a Python list: negative indices count from the end. */
  function Index<T>(s: seq<T>, i: int): (r: Result<T>)
    ensures r.Ok? <==> -|s| <= i < |s|
    ensures 0 <= i < |s| ==> r == Ok(s[i])
    ensures -|s| <= i < 0 ==> r == Ok(s[|s| + i])
    ensures r.Err? ==> r.error == IndexError
  {
    if 0 <= i < |s| then Ok(s[i])
    else if -|s| <= i < 0 then Ok(s[|s| + i])
    else Err(IndexError)
  }

  /** `round(n / k)`: the integer nearest to n/k, ties to the even one. */
  function RoundHalfEven(n: int, k: int): (r: int)
    requires k > 0
    ensures n >= 0 ==> r >= 0
  {
    var q, rem := n / k, n % k;
    if 2 * rem < k then q
    else if 2 * rem > k then q + 1
    else if q % 2 == 0 then q
    else q + 1
  }

  /** round(n / k) is an integer nearest to n/k, and the even one on a tie. */
  lemma RoundHalfEvenNearest(n: int, k: int)
    requires k > 0
    ensures var r := RoundHalfEven(n, k);
      2 * Abs(n - r * k) <= k && (2 * Abs(n - r * k) == k ==> r % 2 == 0)
  {
    var q, rem := n / k, n % k;
    assert n - q * k == rem;
    assert n - (q + 1) * k == rem - k;
  }

  /** The nearest-integer characterization determines round(n / k) uniquely. */
  lemma RoundHalfEvenUnique(n: int, k: int, r: int)
    requires k > 0
    requires 2 * Abs(n - r * k) <= k
    requires 2 * Abs(n - r * k) == k ==> r % 2 == 0
    ensures r == RoundHalfEven(n, k)
  {
    var s := RoundHalfEven(n, k);
    RoundHalfEvenNearest(n, k);
    Products(n, r, s, k);
    NearestTies(n - s * k, n - r * k, r - s, (r - s) * k, k, s, r);
  }
}
