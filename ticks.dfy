/**
 * Unsigned machine arithmetic used by the benchmark's bookkeeping.
 *
 * Every cycle-counter sample and every accumulator in the benchmark is a
 * `uint64_t`, and the unbounded generator counts in `unsigned int`; C++
 * evaluates `+`, `-` and `++` on those types modulo 2^64 (resp. 2^32). The
 * functions here spell that wrap-around out, and `TotalTicks` is the
 * wrapping sum that a `total += sample` loop computes.
 */
module Ticks {

  const TWO_64: int := 0x1_0000_0000_0000_0000
  const TWO_32: int := 0x1_0000_0000

  /** A `uint64_t`: a cycle-counter sample or a tick/event accumulator. */
  type u64 = x: int | 0 <= x < TWO_64

  /** An `unsigned int` (32 bits on the targets the program is built for). */
  type u32 = x: int | 0 <= x < TWO_32

  /** `a + b` on `uint64_t`. */
  function Add64(a: u64, b: u64): (r: u64)
    ensures r == (a + b) % TWO_64
    ensures a + b < TWO_64 ==> r == a + b
  {
    if a + b < TWO_64 then a + b else a + b - TWO_64
  }

  /**
   * `a - b` on `uint64_t`: the difference of two cycle samples. Adding `b`
   * back gives `a` again, and when no wrap occurs it is the plain difference.
   */
  function Sub64(a: u64, b: u64): (r: u64)
    ensures Add64(b, r) == a
    ensures b <= a ==> r == a - b
  {
    if b <= a then a - b else a - b + TWO_64
  }

  /** `a + b` on `unsigned int`. */
  function Add32(a: u32, b: u32): (r: u32)
    ensures r == (a + b) % TWO_32
    ensures a + b < TWO_32 ==> r == a + b
  {
    if a + b < TWO_32 then a + b else a + b - TWO_32
  }

  /**
   * `total / count` where a positive `int count` is converted to `uint64_t`:
   * the integer average, rounded down.
   */
  function Average(total: u64, count: int): (r: u64)
    requires 0 < count
    ensures r * count <= total < (r + 1) * count
  {
    total / count
  }

  /**
   * The value of a `uint64_t` accumulator that starts at 0 and has
   * `ticks(s)` added to it for each sample `s`, in order.
   */
  function TotalTicks<S>(samples: seq<S>, ticks: S -> u64): u64
  {
    if samples == [] then 0
    else Add64(TotalTicks(samples[..|samples| - 1], ticks), ticks(samples[|samples| - 1]))
  }

  /** The same sum over the integers, without wrap-around. */
  function ExactTicks<S>(samples: seq<S>, ticks: S -> u64): nat
  {
    if samples == [] then 0
    else ExactTicks(samples[..|samples| - 1], ticks) + ticks(samples[|samples| - 1])
  }

  /** The wrapping accumulator is the exact sum reduced modulo 2^64. */
  lemma {:induction false} TotalTicksIsExactModulo<S>(samples: seq<S>, ticks: S -> u64)
    ensures TotalTicks(samples, ticks) == ExactTicks(samples, ticks) % TWO_64
  {
    if samples != [] {
      var init := samples[..|samples| - 1];
      TotalTicksIsExactModulo(init, ticks);
      ModuloAdd(ExactTicks(init, ticks), ticks(samples[|samples| - 1]), TWO_64);
    }
  }

  /** Reducing a partial sum before adding does not change the residue, for either word size. */
  lemma ModuloAdd(a: nat, b: nat, m: int)
    requires m == TWO_64 || m == TWO_32
    ensures (a % m + b) % m == (a + b) % m
  {
  }

  /** In particular, while the exact sum stays below 2^64 the accumulator does not wrap. */
  lemma {:induction false} TotalTicksExact<S>(samples: seq<S>, ticks: S -> u64)
    requires ExactTicks(samples, ticks) < TWO_64
    ensures TotalTicks(samples, ticks) == ExactTicks(samples, ticks)
  {
    TotalTicksIsExactModulo(samples, ticks);
  }

  /** A pointwise bound between two tick measures carries over to their exact sums. */
  lemma {:induction false} ExactTicksMonotone<S>(samples: seq<S>, inner: S -> u64, outer: S -> u64)
    requires forall i :: 0 <= i < |samples| ==> inner(samples[i]) <= outer(samples[i])
    ensures ExactTicks(samples, inner) <= ExactTicks(samples, outer)
  {
    if samples != [] {
      var init := samples[..|samples| - 1];
      assert forall i :: 0 <= i < |init| ==> init[i] == samples[i];
      ExactTicksMonotone(init, inner, outer);
    }
  }
}
