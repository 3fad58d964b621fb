/** Fixed-width integer types of the Rust source, their wrapping and
    truncating conversions, and an Option type. */
module Basics {

  datatype Option<T> = None | Some(value: T) {
    /** `Option::unwrap_or`. */
    function GetOr(default: T): T {
      match this
      case Some(v) => v
      case None => default
    }
  }

  const U32_LIMIT: int := 0x1_0000_0000
  const U64_LIMIT: int := 0x1_0000_0000_0000_0000
  const I32_MIN: int := -0x8000_0000
  const I32_MAX: int := 0x7FFF_FFFF

  type u8 = x: int | 0 <= x < 0x100
  type u32 = x: int | 0 <= x < 0x1_0000_0000
  type u64 = x: int | 0 <= x < 0x1_0000_0000_0000_0000
  type i32 = x: int | -0x8000_0000 <= x < 0x8000_0000

  function Min(a: int, b: int): int { if a <= b then a else b }

  /** `k` copies of `d` added up. */
  function Times(k: nat, d: real): real
    decreases k
  {
    if k == 0 then 0.0 else Times(k - 1, d) + d
  }

  /** `Times(k, d)` is the product `k * d`. */
  lemma {:induction false} TimesIsProduct(k: nat, d: real)
    ensures Times(k, d) == k as real * d
  {
    if k > 0 {
      TimesIsProduct(k - 1, d);
      assert (k - 1) as real * d + d == k as real * d;
    }
  }

  /** `u64::wrapping_add`. */
  function WrappingAddU64(a: u64, b: u64): (r: u64)
    ensures a + b < U64_LIMIT ==> r == a + b
    ensures a + b >= U64_LIMIT ==> r == a + b - U64_LIMIT
  {
    (a + b) % U64_LIMIT
  }

  /** One more step of a count modulo 2^64 that may or may not count. */
  lemma WrappingStep(a: u64, c: nat, counts: bool)
    ensures (if counts then WrappingAddU64((a + c) % U64_LIMIT, 1) else (a + c) % U64_LIMIT)
            == (a + c + if counts then 1 else 0) % U64_LIMIT
  {
    WrappingIncrementCounts(a, c);
  }

  /** A count below 2^64 is its own residue. */
  lemma SmallModU64(n: int)
    requires 0 <= n < U64_LIMIT
    ensures n % U64_LIMIT == n
  {
  }

  /** Counting up one step at a time with `wrapping_add(1)` counts modulo
      2^64. */
  lemma WrappingIncrementCounts(a: u64, c: nat)
    ensures WrappingAddU64((a + c) % U64_LIMIT, 1) == (a + c + 1) % U64_LIMIT
  {
    var x := a + c;
    var q := x % U64_LIMIT;
    var d := x / U64_LIMIT;
    assert x == d * U64_LIMIT + q;
    if q + 1 < U64_LIMIT {
      assert x + 1 == d * U64_LIMIT + (q + 1);
    } else {
      assert x + 1 == (d + 1) * U64_LIMIT;
    }
  }

  /** `x as u32` for a `usize` value: keeps the low 32 bits. */
  function UsizeAsU32(x: nat): (r: u32)
    ensures x < U32_LIMIT ==> r == x
    ensures (x - r) % U32_LIMIT == 0
  {
    x % U32_LIMIT
  }

  /** Two's-complement wrap of an integer into the `i32` range
      (what `AtomicI32::fetch_sub` does on overflow). */
  function WrapI32(x: int): (r: i32)
    ensures I32_MIN <= x <= I32_MAX ==> r == x
    ensures (x - r) % U32_LIMIT == 0
  {
    (x - I32_MIN) % U32_LIMIT + I32_MIN
  }

  /** Decrementing a wrapped value wraps like decrementing the original. */
  lemma WrapI32Decrement(x: int)
    ensures WrapI32(WrapI32(x) - 1) == WrapI32(x - 1)
  {
    var y := x - I32_MIN;
    var q := y / U32_LIMIT;
    var r := y % U32_LIMIT;
    assert y == q * U32_LIMIT + r;
    if r == 0 {
      assert y - 1 == (q - 1) * U32_LIMIT + (U32_LIMIT - 1);
      assert (y - 1) % U32_LIMIT == U32_LIMIT - 1;
    } else {
      assert y - 1 == q * U32_LIMIT + (r - 1);
      assert (y - 1) % U32_LIMIT == r - 1;
    }
  }

  /** Truncation of a real toward zero (the integer part of `x as i32`). */
  function TruncToward0(x: real): (r: int)
    ensures 0.0 <= x ==> r as real <= x < r as real + 1.0
    ensures x < 0.0 ==> r as real - 1.0 < x <= r as real
  {
    if x >= 0.0 then x.Floor else -((-x).Floor)
  }

  /** Rust's float-to-`i32` cast: truncates toward zero and saturates at the
      ends of the `i32` range. */
  function SaturatingToI32(x: real): (r: i32)
    ensures I32_MIN <= TruncToward0(x) <= I32_MAX ==> r == TruncToward0(x)
    ensures TruncToward0(x) > I32_MAX ==> r == I32_MAX
    ensures TruncToward0(x) < I32_MIN ==> r == I32_MIN
  {
    var t := TruncToward0(x);
    if t > I32_MAX then I32_MAX else if t < I32_MIN then I32_MIN else t
  }

  /** A buffer whose samples below `i` are untouched and whose samples in
      [i, j) are `middle` starts with the old prefix followed by `middle`. */
  lemma Splice<T>(before: seq<T>, after: seq<T>, i: nat, j: nat, middle: seq<T>)
    requires i <= j <= |after| && i <= |before|
    requires after[i..j] == middle
    requires forall k :: 0 <= k < i ==> after[k] == before[k]
    ensures after[..j] == before[..i] + middle
  {
    assert after[..j] == after[..i] + after[i..j];
    assert after[..i] == before[..i];
  }

  /** The first `i + 1` elements after element `i` is replaced. */
  lemma UpdatePrefix<T>(s: seq<T>, i: nat, x: T)
    requires i < |s|
    ensures s[i := x][..i + 1] == s[..i] + [x]
  {
  }

  lemma AppendAssoc<T>(a: seq<T>, b: seq<T>, c: seq<T>)
    ensures a + (b + c) == (a + b) + c
  {
  }
}
