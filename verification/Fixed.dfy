/** Fixed-point vocabulary shared by the pricing engine and the contract: the error codes, the
    result type, the constants of `storage.rs`, and Rust's 128-bit signed arithmetic. */
module Fixed {

  // The contract's error codes, and `Trap` for a host abort: a failing token transfer, or plain
  // `+` and `-` outside the 128-bit range (the release profile compiles them with overflow checks).
  datatype Error =
    | AlreadyInitialized
    | NotInitialized
    | AlreadyResolved
    | NotResolved
    | InvalidOutcome
    | InvalidAmount
    | InsufficientBalance
    | SlippageExceeded
    | ReturnTooLow
    | Unauthorized
    | InvalidLiquidity
    | Overflow
    | NothingToClaim
    | InsufficientPool
    | Trap

  datatype Result<+T> = Ok(value: T) | Err(error: Error) {
    predicate IsFailure() {
      Err?
    }

    function PropagateFailure<U>(): Result<U>
      requires Err?
    {
      Err(error)
    }

    function Extract(): T
      requires Ok?
    {
      value
    }
  }

  datatype Option<+T> = None | Some(value: T)

  const SCALE: int := 10_000_000
  const LN2_SCALED: int := 6_931_472
  const CLAIM_FEE_BPS: int := 200
  const BPS_DENOMINATOR: int := 10_000

  const I128_MAX: int := 0x7FFF_FFFF_FFFF_FFFF_FFFF_FFFF_FFFF_FFFF
  const I128_MIN: int := -I128_MAX - 1

  predicate InRange(v: int) {
    I128_MIN <= v <= I128_MAX
  }

  function Abs(v: int): nat {
    if v < 0 then -v else v
  }

  function Max(a: int, b: int): int {
    if a < b then b else a
  }

  function Min(a: int, b: int): int {
    if a < b then a else b
  }

  // Rust's `/` drops the fraction towards zero; Dafny's is Euclidean.
  function TruncDiv(a: int, b: int): int
    requires b != 0
  {
    if a >= 0 then a / b else -((-a) / b)
  }

  function CheckedAdd(a: int, b: int): Result<int> {
    if InRange(a + b) then Ok(a + b) else Err(Overflow)
  }

  function CheckedSub(a: int, b: int): Result<int> {
    if InRange(a - b) then Ok(a - b) else Err(Overflow)
  }

  function CheckedMul(a: int, b: int): Result<int> {
    if InRange(a * b) then Ok(a * b) else Err(Overflow)
  }

  function CheckedDiv(a: int, b: int): Result<int> {
    if b == 0 || (a == I128_MIN && b == -1) then Err(Overflow) else Ok(TruncDiv(a, b))
  }

  // Non-linear steps, one at a time.

  lemma MulLe(a: int, b: int, c: int)
    requires a <= b && 0 <= c
    ensures a * c <= b * c
  {}

  lemma AbsMul(a: int, b: int)
    ensures Abs(a * b) == Abs(a) * Abs(b)
  {}

  lemma DivAtMost(a: int, b: int, k: int)
    requires b > 0 && a <= k * b
    ensures a / b <= k
  {
    if a / b > k {
      MulLe(k + 1, a / b, b);
    }
  }

  lemma DivAtLeast(a: int, b: int, k: int)
    requires b > 0 && k * b <= a
    ensures k <= a / b
  {
    if a / b < k {
      MulLe(a / b + 1, k, b);
    }
  }

  lemma DivLe(a: int, c: int, b: int)
    requires b > 0 && a <= c
    ensures a / b <= c / b
  {
    DivAtLeast(c, b, a / b);
  }

  lemma Quotient(a: int, b: int, q: int)
    requires b > 0 && q * b <= a < q * b + b
    ensures a / b == q
  {
    DivAtLeast(a, b, q);
    assert (q + 1) * b == q * b + b;
    if a / b > q {
      MulLe(q + 1, a / b, b);
    }
  }

  // Dividing in two steps drops the same fraction as dividing once.
  lemma DivDiv(a: int, b: int, c: int)
    requires 0 <= a && b > 0 && c > 0
    ensures b * c > 0 && (a / b) / c == a / (b * c)
  {
    var q := (a / b) / c;
    MulLe(1, b, c);
    assert a == (a / b) * b + a % b;
    assert a / b == q * c + (a / b) % c;
    assert a == (q * c + (a / b) % c) * b + a % b;
    assert (q * c + (a / b) % c) * b == q * (b * c) + ((a / b) % c) * b;
    MulLe((a / b) % c, c - 1, b);
    MulLe(0, (a / b) % c, b);
    DivAtLeast(a, b * c, q);
    if a / (b * c) > q {
      MulLe(q + 1, a / (b * c), b * c);
    }
  }

  lemma TruncDivAbs(a: int, b: int)
    requires b > 0
    ensures Abs(TruncDiv(a, b)) == Abs(a) / b
  {}

  lemma TruncDivSign(a: int, b: int)
    requires 0 <= a && b > 0
    ensures TruncDiv(a, b) == a / b && TruncDiv(-a, b) == -(a / b)
  {}
}
