/** The parts of Go's runtime semantics that the benchmark's bookkeeping depends on:
    how a run can stop abnormally, truncated integer remainder, float-to-int
    conversion, and the math.MaxInt64 sentinel. */
module GoRuntime {

  /** Ways in which the benchmark process stops instead of producing a value. */
  datatype Failure =
    | UnknownDistribution(name: string)  // log.Fatalf in the default branch of next()
    | DivideByZero                       // `x % K` with K == 0 panics at run time
    | IntnNonPositive                    // rand.Intn(n) panics when n <= 0
    | Diverges                           // a loop that never exits on unbounded integers
    | NegativeWaitGroup                  // sync.WaitGroup.Done below zero panics

  datatype Option<+T> = None | Some(value: T)

  datatype Result<+T> = Ok(value: T) | Err(failure: Failure)

  /** math.MaxInt64, used by the worker as the "never finished" end time. */
  const MaxInt64: int := 0x7fff_ffff_ffff_ffff

  function Abs(x: int): (r: nat)
    ensures r == x || r == -x
  {
    if x < 0 then -x else x
  }

  function Max(a: int, b: int): (r: int)
    ensures r >= a && r >= b && (r == a || r == b)
  {
    if a < b then b else a
  }

  /** Go's `a % b` for b != 0: the result takes the sign of the dividend and its
      magnitude is |a| mod |b| (Dafny's own % is Euclidean). */
  function GoRem(a: int, b: int): (r: int)
    requires b != 0
    ensures a >= 0 ==> 0 <= r < Abs(b)
    ensures a < 0 ==> r <= 0 && -r < Abs(b)
    ensures a >= 0 ==> r == a % Abs(b)
    // with the sign and the bound above, this fixes the value for either sign
    ensures (a - r) % Abs(b) == 0
  {
    var m := Abs(b);
    if a >= 0 then
      assert a - a % m == (a / m) * m;
      MultipleModZero(a / m, m);
      a % m
    else
      assert a + (-a) % m == (-((-a) / m)) * m;
      MultipleModZero(-((-a) / m), m);
      -((-a) % m)
  }

  /** Go's conversion `int(x)` of a float: truncation toward zero. Floats are
      modelled as exact reals. */
  function Trunc(x: real): (n: int)
    ensures x >= 0.0 ==> 0 <= n && n as real <= x < n as real + 1.0
    ensures x < 0.0 ==> n <= 0 && n as real - 1.0 < x <= n as real
  {
    if x >= 0.0 then x.Floor else -((-x).Floor)
  }

  /** A remainder and quotient are determined by any decomposition x == q * k + r
      with 0 <= r < k. */
  lemma DivModUnique(x: int, k: int, q: int, r: int)
    requires k > 0 && 0 <= r < k && x == q * k + r
    ensures x % k == r && x / k == q
  {
    var q', r' := x / k, x % k;
    assert q * k + r == q' * k + r';
    MultipleInWindow(q - q', k, r' - r);
    assert q == q';
  }

  /** The only multiple of k strictly between -k and k is zero. */
  lemma MultipleInWindow(d: int, k: int, m: int)
    requires k > 0 && d * k == m && -k < m < k
    ensures d == 0
  {
    if d > 0 {
      MulAtLeast(d, k);
    } else if d < 0 {
      MulAtLeast(-d, k);
    }
  }

  /** A positive multiple of k is at least k. */
  lemma {:induction false} MulAtLeast(d: int, k: int)
    requires d >= 1 && k > 0
    ensures d * k >= k
    decreases d
  {
    if d > 1 {
      MulAtLeast(d - 1, k);
      assert d * k == (d - 1) * k + k;
    }
  }

  /** Adding a whole number of periods does not change a Euclidean remainder. */
  lemma ModAddMultiple(x: int, q: int, k: int)
    requires k > 0
    ensures (x + q * k) % k == x % k
  {
    assert x == (x / k) * k + x % k;
    assert x + q * k == (x / k + q) * k + x % k;
    DivModUnique(x + q * k, k, x / k + q, x % k);
  }

  /** A multiple of k leaves no remainder. */
  lemma MultipleModZero(q: int, k: int)
    requires k > 0
    ensures (q * k) % k == 0
  {
    DivModUnique(q * k, k, q, 0);
  }

  /** Reducing a summand first does not change the remainder of a sum. */
  lemma ModOfSum(a: int, b: int, k: int)
    requires k > 0
    ensures (a % k + b) % k == (a + b) % k
  {
    assert a == (a / k) * k + a % k;
    ModAddMultiple(a % k + b, a / k, k);
  }
}
