/**
 * The benchmark's workload: the doubly recursive Fibonacci function. The
 * program evaluates it on a `double`; it is only ever called with an integer
 * argument, for which every intermediate sum is an integer that a `double`
 * holds exactly up to n = 78, so it is modelled on `int`.
 */
module Workload {

  /** `fib(n)`: arguments up to 1 are returned unchanged, every other value is the sum of the two before it. */
  function Fib(n: int): (r: int)
    decreases n
    ensures 0 <= n ==> 0 <= r
    ensures 1 <= n ==> 1 <= r
  {
    if n <= 1 then n else Fib(n - 1) + Fib(n - 2)
  }

  /** From n = 1 on, the sequence never decreases. */
  lemma {:induction false} FibMonotone(m: int, n: int)
    requires 1 <= m <= n
    ensures Fib(m) <= Fib(n)
    decreases n - m
  {
    if m < n {
      FibMonotone(m, n - 1);
      assert Fib(n) == Fib(n - 1) + Fib(n - 2);
    }
  }
}
