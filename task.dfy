/**
 * The single-shot suspendable computation of coroutine3.cpp: `Task`, its
 * promise, and the coroutine `fib_task`.
 *
 * A coroutine frame is an object (`TaskFrame`) holding the promise (`value`,
 * `creationStart`), the argument `n` and the suspension point `pc`; a `Task`
 * owns at most one frame through its nullable `handle`. The thread-local
 * `g_coro_*` accumulators are the fields of a `TaskCounters` object passed by
 * reference. Each cycle-counter reading is a parameter.
 */
module TaskCoroutine {
  import opened Ticks
  import opened Workload

  /** The thread-local accumulators `g_coro_creation_overhead`, `g_coro_destruction_overhead`, `g_coro_count` and `g_last_pure_compute_time`. */
  class TaskCounters {
    var creationOverhead: u64
    var destructionOverhead: u64
    var count: u64
    var lastPureComputeTime: u64

    /** Thread-local storage starts zeroed. */
    constructor ()
      ensures creationOverhead == 0 && destructionOverhead == 0
      ensures count == 0 && lastPureComputeTime == 0
    {
      creationOverhead, destructionOverhead := 0, 0;
      count, lastPureComputeTime := 0, 0;
    }
  }

  /** Where `fib_task`'s frame is suspended: before its body, or after `co_return`. */
  datatype TaskPc = InitialSuspend | FinalSuspend

  /** The coroutine frame of one `fib_task(n)` call. */
  class TaskFrame {
    const n: int
    const creationStart: u64
    var pc: TaskPc
    var value: int
    var destroyed: bool

    /** A live frame holds 0 (the promise's initial `value`) until its body has returned, then `fib(n)`. */
    ghost predicate Valid()
      reads this
    {
      !destroyed &&
      (pc == InitialSuspend ==> value == 0) &&
      (pc == FinalSuspend ==> value == Fib(n))
    }

    /** `handle.done()`: suspended at the final suspension point. */
    predicate Done()
      reads this
    {
      pc == FinalSuspend
    }

    /** Frame allocation and `promise_type()`, which takes the creation timestamp. */
    constructor (n: int, creationStart: u64)
      ensures Valid() && !Done()
      ensures this.n == n && this.creationStart == creationStart && value == 0
    {
      this.n := n;
      this.creationStart := creationStart;
      pc := InitialSuspend;
      value := 0;
      destroyed := false;
    }

    /**
     * `handle.resume()`: runs `fib_task`'s whole body, which times `fib(n)`
     * into `g_last_pure_compute_time`, stores the result through
     * `return_value`, and stops at the final suspension point.
     */
    method Resume(computeStart: u64, computeEnd: u64, counters: TaskCounters)
      requires Valid() && !Done()
      modifies this`pc, this`value, counters`lastPureComputeTime
      ensures Valid() && Done() && value == Fib(n)
      ensures counters.lastPureComputeTime == Sub64(computeEnd, computeStart)
    {
      var result := Fib(n);
      counters.lastPureComputeTime := Sub64(computeEnd, computeStart);
      value := result;
      pc := FinalSuspend;
    }

    /** `handle.destroy()`: releases the frame at whatever point it is suspended. */
    method Destroy()
      requires !destroyed
      modifies this`destroyed
      ensures destroyed
    {
      destroyed := true;
    }
  }

  /** The move-only owner of one `fib_task` frame. */
  class Task {
    var handle: TaskFrame?

    ghost predicate Valid()
      reads this, handle
    {
      handle != null ==> handle.Valid()
    }

    /** `explicit Task(handle)`. */
    constructor (h: TaskFrame?)
      ensures handle == h
    {
      handle := h;
    }

    /** `Task(Task&&)`: takes over the other task's frame and leaves the other one empty. */
    constructor Move(other: Task)
      modifies other`handle
      ensures handle == old(other.handle) && other.handle == null
    {
      handle := other.handle;
      new;
      other.handle := null;
    }

    /**
     * `~Task()`: a live handle is destroyed between two clock readings and
     * the elapsed ticks are added to the destruction overhead; an empty one
     * costs nothing and is not accounted.
     */
    method Destroy(destroyStart: u64, destroyEnd: u64, counters: TaskCounters)
      requires Valid()
      modifies handle, counters`destructionOverhead
      ensures handle != null ==> handle.destroyed
      ensures handle != null ==>
        counters.destructionOverhead == Add64(old(counters.destructionOverhead), Sub64(destroyEnd, destroyStart))
      ensures handle == null ==> counters.destructionOverhead == old(counters.destructionOverhead)
    {
      if handle != null {
        handle.Destroy();
        counters.destructionOverhead := Add64(counters.destructionOverhead, Sub64(destroyEnd, destroyStart));
      }
    }

    /**
     * `resume()`: runs the body to completion when the handle is live and not
     * done; on an empty or finished task it changes nothing.
     */
    method Resume(computeStart: u64, computeEnd: u64, counters: TaskCounters)
      requires Valid()
      modifies handle, counters`lastPureComputeTime
      ensures Valid()
      ensures handle != null && !old(handle.Done()) ==>
        handle.Done() && handle.value == Fib(handle.n) &&
        counters.lastPureComputeTime == Sub64(computeEnd, computeStart)
      ensures handle != null && old(handle.Done()) ==> unchanged(handle)
      ensures handle == null || old(handle.Done()) ==>
        counters.lastPureComputeTime == old(counters.lastPureComputeTime)
    {
      if handle != null && !handle.Done() {
        handle.Resume(computeStart, computeEnd, counters);
      }
    }

    /** `result()`: the promise's value, which is `fib(n)` once the task has been resumed and 0 before. */
    function Result(): (r: int)
      reads this, handle
      requires Valid() && handle != null
      ensures handle.Done() ==> r == Fib(handle.n)
      ensures !handle.Done() ==> r == 0
    {
      handle.value
    }
  }

  /**
   * A call `fib_task(n)`: allocates the frame (`promise_type()` reads the
   * clock as `creationStart`), `get_return_object()` reads it again as
   * `creationEnd`, adds the difference to the creation overhead and counts
   * the coroutine, and `initial_suspend` stops before any of the body runs,
   * so `g_last_pure_compute_time` is left alone.
   */
  method FibTask(n: int, creationStart: u64, creationEnd: u64, counters: TaskCounters) returns (task: Task)
    modifies counters`creationOverhead, counters`count
    ensures fresh(task) && fresh(task.handle) && task.Valid()
    ensures task.handle != null && task.handle.n == n && !task.handle.Done()
    ensures counters.creationOverhead == Add64(old(counters.creationOverhead), Sub64(creationEnd, creationStart))
    ensures counters.count == Add64(old(counters.count), 1)
  {
    var frame := new TaskFrame(n, creationStart);
    counters.creationOverhead := Add64(counters.creationOverhead, Sub64(creationEnd, frame.creationStart));
    counters.count := Add64(counters.count, 1);
    task := new Task(frame);
  }
}
