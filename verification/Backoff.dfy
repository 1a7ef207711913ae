/** Retry delays: calculateBackoff of pkg/controller/reconciler.go in int64 nanoseconds, and
    the policy check of pkg/validation/validator_enhanced.go that bounds its operands. */
module Backoff {
  import opened Types

  const MAX_TIMEOUT: int := 30 * 24 * 3600 * SECOND

  datatype DurationError = NotADuration | NotPositive | TooLong

  function ValidateTimeout(text: DurationText): (err: Option<DurationError>)
    ensures err.None? <==> text.Empty? || (text.Parsed? && 0 < text.nanos <= MAX_TIMEOUT)
  {
    match text
    case Empty => None
    case Malformed => Some(NotADuration)
    case Parsed(nanos) =>
      if nanos <= 0 then Some(NotPositive)
      else if nanos > MAX_TIMEOUT then Some(TooLong)
      else None
  }

  datatype RetryPolicyError = NegativeLimit | UnknownBackoffType | BadDuration(cause: DurationError) | SmallFactor

  function ValidateRetryPolicy(policy: RetryPolicy): Option<RetryPolicyError>
  {
    if policy.limit < 0 then Some(NegativeLimit)
    else match policy.backoff
      case None => None
      case Some(b) =>
        if b.kind != "" && b.kind !in {"Exponential", "Linear", "Fixed"} then Some(UnknownBackoffType)
        else match ValidateTimeout(b.duration)
          case Some(e) => Some(BadDuration(e))
          case None => if b.factor.Some? && b.factor.value < 1.0 then Some(SmallFactor) else None
  }

  function Pow2(n: nat): (r: int)
    ensures r > 0
  {
    if n == 0 then 1 else 2 * Pow2(n - 1)
  }

  /** Go's 1 << n on an int64. */
  function ShiftOne(n: nat): int
  {
    if n >= 64 then 0 else Int64(Pow2(n))
  }

  /** The base delay: one second when the duration does not parse. */
  function BaseDuration(b: BackoffPolicy): int
  {
    if b.duration.Parsed? then b.duration.nanos else SECOND
  }

  /** The delay before a retry. The floating-point value of the Exponential branch is an
      input. */
  function CalculateBackoff(policy: RetryPolicy, retryCount: nat, defaultBase: int, exponential: int): int
  {
    match policy.backoff
    case None => Times(ShiftOne(retryCount), defaultBase)
    case Some(b) =>
      if b.kind == "Fixed" then BaseDuration(b)
      else if b.kind == "Linear" then Times(BaseDuration(b), Int32(retryCount + 1))
      else if b.kind == "Exponential" then exponential
      else Times(BaseDuration(b), ShiftOne(retryCount))
  }

  /** The product of two int64 values. */
  function Times(x: int, y: int): int
  {
    Int64(x * y)
  }

  predicate IntegerBranch(policy: RetryPolicy)
  {
    policy.backoff.Some? ==> policy.backoff.value.kind != "Exponential"
  }

  /** A base that is given as a duration counts as it is; any other text counts as one second. */
  function IdealBase(text: DurationText): int
  {
    match text
    case Parsed(nanos) => nanos
    case Empty => 1_000_000_000
    case Malformed => 1_000_000_000
  }

  /** The delay that the user guide gives, on unbounded integers. */
  function IdealBackoff(policy: RetryPolicy, retryCount: nat, defaultBase: int): int
  {
    match policy.backoff
    case None => defaultBase * Pow2(retryCount)
    case Some(b) =>
      if b.kind == "Fixed" then IdealBase(b.duration)
      else if b.kind == "Linear" then IdealBase(b.duration) * (retryCount + 1)
      else IdealBase(b.duration) * Pow2(retryCount)
  }

  lemma Pow2Values()
    ensures Pow2(11) == 2048 && Pow2(12) == 4096
    ensures Pow2(62) == 0x4000_0000_0000_0000 && Pow2(63) == 0x8000_0000_0000_0000
  {
    assert Pow2(4) == 16;
    assert Pow2(8) == 256;
    assert Pow2(11) == 2048;
    assert Pow2(16) == 0x1_0000;
    assert Pow2(20) == 0x10_0000;
    assert Pow2(24) == 0x100_0000;
    assert Pow2(28) == 0x1000_0000;
    assert Pow2(32) == 0x1_0000_0000;
    assert Pow2(36) == 0x10_0000_0000;
    assert Pow2(40) == 0x100_0000_0000;
    assert Pow2(44) == 0x1000_0000_0000;
    assert Pow2(48) == 0x1_0000_0000_0000;
    assert Pow2(52) == 0x10_0000_0000_0000;
    assert Pow2(56) == 0x100_0000_0000_0000;
    assert Pow2(60) == 0x1000_0000_0000_0000;
  }

  lemma {:induction false} Pow2Monotone(j: nat, k: nat)
    requires j <= k
    ensures Pow2(j) <= Pow2(k)
    decreases k - j
  {
    if j < k {
      Pow2Monotone(j, k - 1);
    }
  }

  lemma ProductMonotone(a: int, x: int, y: int)
    requires 0 <= a && x <= y
    ensures a * x <= a * y
  {
  }

  lemma Int64Range(x: int)
    ensures -MAX_INT64 - 1 <= Int64(x) <= MAX_INT64
    ensures Int64(x) == x <==> -MAX_INT64 - 1 <= x <= MAX_INT64
  {
  }

  lemma ShiftOneValue(retryCount: nat)
    ensures retryCount <= 62 ==> ShiftOne(retryCount) == Pow2(retryCount)
    ensures retryCount > 62 ==> Pow2(retryCount) > MAX_INT64
  {
    Pow2Values();
    if retryCount <= 62 {
      Pow2Monotone(retryCount, 62);
      Int64Range(Pow2(retryCount));
    } else {
      Pow2Monotone(63, retryCount);
    }
  }

  /** A doubling delay is exact if and only if its mathematical value fits an int64. */
  lemma {:induction false} DoublingExactIff(base: int, retryCount: nat)
    requires base > 0
    ensures Times(base, ShiftOne(retryCount)) == base * Pow2(retryCount)
            <==> base * Pow2(retryCount) <= MAX_INT64
  {
    ShiftOneValue(retryCount);
    var p, s := Pow2(retryCount), ShiftOne(retryCount);
    ProductMonotone(p, 1, base);
    ProductFits(base, s, p);
  }

  lemma ProductFits(base: int, s: int, p: int)
    requires base > 0 && p > 0
    requires s == p || p > MAX_INT64
    ensures Times(base, s) == base * p <==> base * p <= MAX_INT64
  {
    ProductMonotone(p, 1, base);
    var x, y := base * s, base * p;
    assert s == p ==> x == y;
    WrapFits(x, y);
  }

  lemma WrapFits(x: int, y: int)
    requires y > 0 && (x == y || y > MAX_INT64)
    ensures Int64(x) == y <==> y <= MAX_INT64
  {
  }

  /** For the longest base that validation admits, the delay is exact up to retry 11 and no
      further. */
  lemma {:induction false} LongestBaseThreshold(retryCount: nat)
    ensures Times(MAX_TIMEOUT, ShiftOne(retryCount)) == MAX_TIMEOUT * Pow2(retryCount) <==> retryCount <= 11
  {
    Pow2Values();
    DoublingExactIff(MAX_TIMEOUT, retryCount);
    if retryCount <= 11 {
      Pow2Monotone(retryCount, 11);
      ProductMonotone(MAX_TIMEOUT, Pow2(retryCount), Pow2(11));
    } else {
      Pow2Monotone(12, retryCount);
      ProductMonotone(MAX_TIMEOUT, Pow2(12), Pow2(retryCount));
    }
  }

  /** With accepted durations and at most 11 retries behind it, every integer branch yields
      the ideal delay: no wrap-around, hence a positive delay. */
  lemma {:induction false} BackoffExact(policy: RetryPolicy, retryCount: nat, defaultBase: int, exponential: int)
    requires ValidateRetryPolicy(policy).None? && IntegerBranch(policy)
    requires 0 < defaultBase <= MAX_TIMEOUT && retryCount <= 11
    ensures CalculateBackoff(policy, retryCount, defaultBase, exponential) ==
            IdealBackoff(policy, retryCount, defaultBase)
    ensures 0 < IdealBackoff(policy, retryCount, defaultBase) <= MAX_INT64
  {
    if policy.backoff.None? {
      TimesCommutes(ShiftOne(retryCount), defaultBase);
      DoublingInRange(defaultBase, retryCount);
    } else {
      var b := policy.backoff.value;
      var base := BaseDuration(b);
      assert 0 < base <= MAX_TIMEOUT;
      if b.kind == "Linear" {
        LinearInRange(base, retryCount);
      } else if b.kind != "Fixed" {
        DoublingInRange(base, retryCount);
      }
    }
  }

  /** The delay is the one that the user guide gives if and only if that fits an int64, for every
      policy with an integer branch and every count. */
  lemma {:induction false} BackoffExactIff(policy: RetryPolicy, retryCount: nat, defaultBase: int, exponential: int)
    requires IntegerBranch(policy) && retryCount < MAX_INT32
    requires match policy.backoff
             case None => 0 < defaultBase <= MAX_INT64
             case Some(b) => 0 < IdealBase(b.duration) <= MAX_INT64
    ensures CalculateBackoff(policy, retryCount, defaultBase, exponential) ==
              IdealBackoff(policy, retryCount, defaultBase)
            <==> IdealBackoff(policy, retryCount, defaultBase) <= MAX_INT64
  {
    match policy.backoff {
      case None =>
        TimesCommutes(ShiftOne(retryCount), defaultBase);
        DoublingExactIff(defaultBase, retryCount);
      case Some(b) =>
        var base := IdealBase(b.duration);
        assert base == BaseDuration(b);
        if b.kind == "Linear" {
          ProductMonotone(base, 1, retryCount + 1);
          WrapFits(base * (retryCount + 1), base * (retryCount + 1));
        } else if b.kind != "Fixed" {
          DoublingExactIff(base, retryCount);
        }
    }
  }

  /** The remaining branch takes the value that the float computation gives. */
  lemma ExponentialIsGiven(policy: RetryPolicy, retryCount: nat, defaultBase: int, exponential: int)
    requires policy.backoff.Some? && policy.backoff.value.kind == "Exponential"
    ensures CalculateBackoff(policy, retryCount, defaultBase, exponential) == exponential
  {
  }

  /** Which retry policies are accepted. */
  lemma PolicyAcceptedIff(policy: RetryPolicy)
    ensures ValidateRetryPolicy(policy).None? <==>
              && policy.limit >= 0
              && (policy.backoff.Some? ==>
                    var b := policy.backoff.value;
                    && b.kind in {"", "Exponential", "Linear", "Fixed"}
                    && (|| b.duration == Empty
                        || (b.duration.Parsed? && 0 < b.duration.nanos <= 2_592_000_000_000_000))
                    && (b.factor.Some? ==> b.factor.value >= 1.0))
  {
  }

  lemma TimesCommutes(x: int, y: int)
    ensures Times(x, y) == Times(y, x)
  {
    assert x * y == y * x;
  }

  lemma DoublingInRange(base: int, retryCount: nat)
    requires 0 < base <= MAX_TIMEOUT && retryCount <= 11
    ensures Times(base, ShiftOne(retryCount)) == base * Pow2(retryCount)
    ensures 0 < base * Pow2(retryCount) <= MAX_INT64
  {
    Pow2Values();
    Pow2Monotone(retryCount, 11);
    ProductMonotone(base, 1, Pow2(retryCount));
    ProductMonotone(base, Pow2(retryCount), Pow2(11));
    DoublingExactIff(base, retryCount);
  }

  lemma LinearInRange(base: int, retryCount: nat)
    requires 0 < base <= MAX_TIMEOUT && retryCount <= 11
    ensures Times(base, Int32(retryCount + 1)) == base * (retryCount + 1)
    ensures 0 < base * (retryCount + 1) <= MAX_INT64
  {
    ProductMonotone(base, 1, retryCount + 1);
    ProductMonotone(base, retryCount + 1, 12);
    Int64Range(base * (retryCount + 1));
  }

  /** Later retries never wait less. */
  lemma {:induction false} BackoffMonotone(policy: RetryPolicy, j: nat, k: nat, defaultBase: int, exponential: int)
    requires ValidateRetryPolicy(policy).None? && IntegerBranch(policy)
    requires 0 < defaultBase <= MAX_TIMEOUT && j <= k <= 11
    ensures CalculateBackoff(policy, j, defaultBase, exponential) <= CalculateBackoff(policy, k, defaultBase,
            exponential)
  {
    BackoffExact(policy, j, defaultBase, exponential);
    BackoffExact(policy, k, defaultBase, exponential);
    var base := if policy.backoff.Some? then BaseDuration(policy.backoff.value) else defaultBase;
    Pow2Monotone(j, k);
    ProductMonotone(base, Pow2(j), Pow2(k));
    ProductMonotone(base, j + 1, k + 1);
  }

  /** A seconds value becomes the duration it names if and only if it is at most
      9223372036 seconds away from zero. */
  lemma SecondsExactIff(seconds: int)
    ensures SecondsToDuration(seconds) == seconds * SECOND <==> -9223372036 <= seconds <= 9223372036
  {
  }
}
