/** Machine integers and the small failure-compatible wrappers used throughout the model. */
module Base {

  /** Go's `int64`. Go's `int` is 64 bits wide on the platforms the gateway targets, so it shares this range. */
  type Int64 = x: int | -0x8000_0000_0000_0000 <= x <= 0x7fff_ffff_ffff_ffff

  const MinInt64: int := -0x8000_0000_0000_0000
  const MaxInt64: int := 0x7fff_ffff_ffff_ffff
  /** 2^64, the modulus of two's-complement 64-bit arithmetic. */
  const TwoTo64: int := 0x1_0000_0000_0000_0000

  predicate InInt64(x: int) {
    MinInt64 <= x <= MaxInt64
  }

  /** `atomic.AddInt64(&c, 1)`: a 64-bit two's-complement increment, wrapping at the top. */
  function AddOne(x: Int64): (r: Int64)
    ensures (r - x - 1) % TwoTo64 == 0
    ensures r != x
  {
    if x == MaxInt64 then MinInt64 else x + 1
  }

  /** The value of a counter that started at 0 after `n` atomic increments. */
  function CounterAfter(n: nat): (r: Int64)
    ensures n <= MaxInt64 ==> r == n
    decreases n
  {
    if n == 0 then 0 else AddOne(CounterAfter(n - 1))
  }

  /** Below 2^64 increments the counter is `n` until it passes MaxInt64 and `n - 2^64` after. */
  lemma {:induction false} CounterAfterClosedForm(n: nat)
    requires n < TwoTo64
    ensures CounterAfter(n) == if n <= MaxInt64 then n else n - TwoTo64
    decreases n
  {
    if n > 0 {
      CounterAfterClosedForm(n - 1);
    }
  }

  /** Ids drawn from one counter are pairwise distinct for the first 2^64 draws, wrap-around included. */
  lemma CounterAfterInjective(i: nat, j: nat)
    requires i < TwoTo64 && j < TwoTo64 && i != j
    ensures CounterAfter(i) != CounterAfter(j)
  {
    CounterAfterClosedForm(i);
    CounterAfterClosedForm(j);
  }

  /** Until the counter wraps, later draws are strictly larger. */
  lemma CounterAfterIncreasing(i: nat, j: nat)
    requires i < j <= MaxInt64
    ensures CounterAfter(i) < CounterAfter(j)
  {
  }

  datatype Option<+T> = None | Some(value: T)

  datatype Result<+T, +E> = Ok(value: T) | Err(error: E)
}
