/**
 * The bounded lazy sequence of coroutine3.cpp: `Generator`, its promise, and
 * the coroutine `fib_generator(n, count)`, which yields `fib(n)` `count`
 * times and then finishes.
 *
 * The frame (`GenFrame`) keeps the loop counter `i` inside its suspension
 * point `pc`. `GenAfter` is the reference definition of where the body
 * stands after k resumes; the frame's ghost `resumes` ties the object to it.
 * The thread-local `g_resume_time`, `g_yield_count`, ... accumulators are the
 * fields of a `GenCounters` object.
 */
module FibGenerator {
  import opened Ticks
  import opened Workload

  /** `g_resume_time`, `g_yield_count`, `g_resume_count`, `g_gen_creation_overhead`, `g_gen_destruction_overhead`, `g_pure_compute_time`. */
  class GenCounters {
    var resumeTime: u64
    var yieldCount: u64
    var resumeCount: u64
    var creationOverhead: u64
    var destructionOverhead: u64
    var pureComputeTime: u64

    /** Thread-local storage starts zeroed. */
    constructor ()
      ensures resumeTime == 0 && yieldCount == 0 && resumeCount == 0
      ensures creationOverhead == 0 && destructionOverhead == 0 && pureComputeTime == 0
    {
      resumeTime, yieldCount, resumeCount := 0, 0, 0;
      creationOverhead, destructionOverhead, pureComputeTime := 0, 0, 0;
    }
  }

  /** Suspension points of `fib_generator`: before the loop, at `co_yield` in iteration `i`, or after the loop. */
  datatype GenPc = AtStart | AtYield(i: nat) | AtEnd

  /** One resume of the body: run the loop from where it stopped to the next `co_yield` or off its end. */
  function GenStep(count: int, pc: GenPc): GenPc
  {
    var i := match pc
      case AtYield(j) => j + 1
      case _ => 0;
    if pc != AtEnd && i < count then AtYield(i) else AtEnd
  }

  /** Where the body of `fib_generator(_, count)` is suspended after `k` resumes. */
  function GenAfter(count: int, k: nat): GenPc
  {
    if k == 0 then AtStart else GenStep(count, GenAfter(count, k - 1))
  }

  /** The number of values a bounded sequence of `count` values can produce: `count`, or none when it is not positive. */
  function Capacity(count: int): nat
  {
    if count < 0 then 0 else count
  }

  /**
   * The k-th resume (1 <= k <= count) stops at the k-th `co_yield`; every
   * later resume finds the loop finished.
   */
  lemma {:induction false} GenAfterShape(count: int, k: nat)
    ensures k == 0 ==> GenAfter(count, k) == AtStart
    ensures 1 <= k <= count ==> GenAfter(count, k) == AtYield(k - 1)
    ensures k > 0 && k > count ==> GenAfter(count, k) == AtEnd
  {
    if k > 0 {
      GenAfterShape(count, k - 1);
    }
  }

  /** The sequence is exhausted exactly after more than `Capacity(count)` resumes. */
  lemma ExhaustedIff(count: int, k: nat)
    ensures GenAfter(count, k) == AtEnd <==> k > Capacity(count)
  {
    GenAfterShape(count, k);
  }

  /** The coroutine frame of one `fib_generator(n, count)` call. */
  class GenFrame {
    const n: int
    const count: int
    const creationStart: u64
    var pc: GenPc
    var currentValue: int
    var destroyed: bool
    ghost var resumes: nat

    /**
     * The frame is where `resumes` resumes put it, and its promise holds 0
     * (`current_value`'s initial value) until the first `co_yield` and
     * `fib(n)` from then on.
     */
    ghost predicate Valid()
      reads this
    {
      !destroyed &&
      pc == GenAfter(count, resumes) &&
      currentValue == (if resumes > 0 && count > 0 then Fib(n) else 0)
    }

    /** `handle.done()`. */
    predicate Done()
      reads this
    {
      pc == AtEnd
    }

    /** Frame allocation and `promise_type()`, which takes the creation timestamp. */
    constructor (n: int, count: int, creationStart: u64)
      ensures Valid() && resumes == 0 && !Done()
      ensures this.n == n && this.count == count && this.creationStart == creationStart
    {
      this.n, this.count, this.creationStart := n, count, creationStart;
      pc := AtStart;
      currentValue := 0;
      destroyed := false;
      resumes := 0;
    }

    /**
     * `handle.resume()`: `++i` (or `i = 0` on the first resume); while
     * `i < count` the body times `fib(n)` into `g_pure_compute_time` and
     * `co_yield`s it, which stores it and counts one yield; otherwise it
     * leaves the loop and stops at the final suspension point.
     */
    method Resume(computeStart: u64, computeEnd: u64, counters: GenCounters)
      requires Valid() && !Done()
      modifies this`pc, this`currentValue, this`resumes, counters`pureComputeTime, counters`yieldCount
      ensures Valid() && resumes == old(resumes) + 1
      ensures !Done() ==>
        currentValue == Fib(n) &&
        counters.pureComputeTime == Add64(old(counters.pureComputeTime), Sub64(computeEnd, computeStart)) &&
        counters.yieldCount == Add64(old(counters.yieldCount), 1)
      ensures Done() ==>
        counters.pureComputeTime == old(counters.pureComputeTime) &&
        counters.yieldCount == old(counters.yieldCount)
    {
      var i := if pc.AtYield? then pc.i + 1 else 0;
      if i < count {
        var result := Fib(n);
        counters.pureComputeTime := Add64(counters.pureComputeTime, Sub64(computeEnd, computeStart));
        currentValue := result;
        counters.yieldCount := Add64(counters.yieldCount, 1);
        pc := AtYield(i);
      } else {
        pc := AtEnd;
      }
      resumes := resumes + 1;
      GenAfterShape(count, resumes - 1);
      GenAfterShape(count, resumes);
    }

    /** `handle.destroy()`. */
    method Destroy()
      requires !destroyed
      modifies this`destroyed
      ensures destroyed
    {
      destroyed := true;
    }
  }

  /** The move-only owner of one `fib_generator` frame. */
  class Generator {
    var handle: GenFrame?

    ghost predicate Valid()
      reads this, handle
    {
      handle != null ==> handle.Valid()
    }

    /** `explicit Generator(handle)`. */
    constructor (h: GenFrame?)
      ensures handle == h
    {
      handle := h;
    }

    /** `Generator(Generator&&)`: takes over the other generator's frame and leaves the other one empty. */
    constructor Move(other: Generator)
      modifies other`handle
      ensures handle == old(other.handle) && other.handle == null
    {
      handle := other.handle;
      new;
      other.handle := null;
    }

    /** `~Generator()`: destroys a live handle and accounts the time it took; an empty one is not accounted. */
    method Destroy(destroyStart: u64, destroyEnd: u64, counters: GenCounters)
      requires Valid()
      modifies handle, counters`destructionOverhead
      ensures handle != null ==> handle.destroyed
      ensures handle != null ==>
        counters.destructionOverhead == Add64(old(counters.destructionOverhead), Sub64(destroyEnd, destroyStart))
      ensures handle == null ==> counters.destructionOverhead == old(counters.destructionOverhead)
    {
      if handle != null {
        handle.Destroy();
        counters.destructionOverhead := Add64(counters.destructionOverhead, Sub64(destroyEnd, destroyStart));
      }
    }

    /**
     * `resume()`: on a live, unfinished frame, times one resume of the body
     * (`resumeStart` .. `resumeEnd`, with `computeStart` .. `computeEnd`
     * read inside it), counts it, and reports whether a value was produced;
     * the resume that finds the loop finished is timed and counted too. On an
     * empty or finished generator it returns false and changes nothing.
     */
    method Resume(resumeStart: u64, computeStart: u64, computeEnd: u64, resumeEnd: u64, counters: GenCounters)
      returns (active: bool)
      requires Valid()
      modifies handle, counters`resumeTime, counters`resumeCount, counters`pureComputeTime, counters`yieldCount
      ensures Valid()
      ensures handle == null || old(handle.Done()) ==>
        !active && unchanged(counters) && (handle != null ==> unchanged(handle))
      ensures handle != null && !old(handle.Done()) ==>
        handle.resumes == old(handle.resumes) + 1 &&
        (active <==> handle.resumes <= handle.count) &&
        active == !handle.Done() &&
        counters.resumeTime == Add64(old(counters.resumeTime), Sub64(resumeEnd, resumeStart)) &&
        counters.resumeCount == Add64(old(counters.resumeCount), 1)
      ensures handle != null && !old(handle.Done()) && active ==>
        handle.currentValue == Fib(handle.n) &&
        counters.yieldCount == Add64(old(counters.yieldCount), 1) &&
        counters.pureComputeTime == Add64(old(counters.pureComputeTime), Sub64(computeEnd, computeStart))
      ensures handle != null && !old(handle.Done()) && !active ==>
        counters.yieldCount == old(counters.yieldCount) &&
        counters.pureComputeTime == old(counters.pureComputeTime)
    {
      if handle != null && !handle.Done() {
        handle.Resume(computeStart, computeEnd, counters);
        counters.resumeTime := Add64(counters.resumeTime, Sub64(resumeEnd, resumeStart));
        counters.resumeCount := Add64(counters.resumeCount, 1);
        active := !handle.Done();
        ExhaustedIff(handle.count, handle.resumes);
      } else {
        active := false;
      }
    }

    /** `value()`: the most recently yielded value, `fib(n)`; 0 before the first yield. */
    function Value(): (r: int)
      reads this, handle
      requires Valid() && handle != null
      ensures handle.resumes > 0 && handle.count > 0 ==> r == Fib(handle.n)
      ensures handle.resumes == 0 || handle.count <= 0 ==> r == 0
    {
      handle.currentValue
    }

    /** `done()`: true exactly once more than `count` resumes have reached the frame. */
    function IsDone(): (r: bool)
      reads this, handle
      requires Valid() && handle != null
      ensures r <==> handle.resumes > Capacity(handle.count)
    {
      ExhaustedIff(handle.count, handle.resumes);
      handle.Done()
    }
  }

  /**
   * A call `fib_generator(n, count)`: allocates the frame, and
   * `get_return_object()` adds the creation time to the creation overhead;
   * `initial_suspend` stops before the loop starts.
   */
  method NewFibGenerator(n: int, count: int, creationStart: u64, creationEnd: u64, counters: GenCounters)
    returns (gen: Generator)
    modifies counters`creationOverhead
    ensures fresh(gen) && fresh(gen.handle) && gen.Valid()
    ensures gen.handle != null && gen.handle.n == n && gen.handle.count == count && gen.handle.resumes == 0
    ensures counters.creationOverhead == Add64(old(counters.creationOverhead), Sub64(creationEnd, creationStart))
  {
    var frame := new GenFrame(n, count, creationStart);
    counters.creationOverhead := Add64(counters.creationOverhead, Sub64(creationEnd, frame.creationStart));
    gen := new Generator(frame);
  }
}
