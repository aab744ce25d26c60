# Coroutine overhead benchmark: a verified model of its suspendable computations

The benchmark compares ways of running many small units of work. Its core is
a pair of hand-written C++20 coroutine types and the bookkeeping that times
their lifecycle. This project models that core in Dafny and proves what each
operation does to the coroutine state and to the accumulators.

- **`Task` / `fib_task`** (module `TaskCoroutine`): a single-shot deferred
  computation. It starts suspended and runs its whole body on one `resume()`.
  It stores `fib(n)` in its promise. It is move-only. It accounts its creation
  and destruction cost.
- **`Generator` / `fib_generator`** (module `FibGenerator`): a bounded lazy
  sequence. It yields `fib(n)` `count` times and is then exhausted. It counts
  yields and resumes and times every resume.
- **The drivers `test_coroutines` and `test_coroutines_yield`** (module
  `Benchmark`). They reset the accumulators, run the batch, and report the
  integer figures: sums, the `uint64_t` switch overhead, integer averages.
- **`generator<T>`, its iterator, `iota` and the consuming `main` of
  coroutine2.cpp** (module `UnboundedGenerator`).
- **Unsigned arithmetic** (module `Ticks`): `uint64_t` / `unsigned int`
  addition and subtraction with wrap-around, integer averages, and the
  wrapping sum a `total += x` loop computes.

Each coroutine frame is an object. It holds the promise fields, the locals
that live across suspension, and a suspension point `pc`. A frame is done
when `pc` is the final suspension point. A handle is a nullable reference to
a frame, so `null` is the empty handle. The iterator of `generator<T>` holds
a second, non-owning copy of the generator's handle, and the two share the
frame. Resuming a frame advances it by exactly one step of the coroutine
body. A ghost `resumes` count ties each frame to a reference definition:
`GenAfter` for `fib_generator`, `IotaValue` for `iota`. The `thread_local`
accumulators are the fields of a counters object (`TaskCounters`,
`GenCounters`), passed by reference. Every reading of the cycle counter is an
input parameter or an input record (`TaskTimes`, `ResumeTimes`). Every timing
sum is therefore explicit unsigned arithmetic.

`Task::result()` read before completion returns the promise's initial
`0.0` (modelled as 0); the code does not fail there, and neither does the
model.

## Model

| member | source | states |
|---|---|---|
| `Workload.Fib` | coroutine3.cpp:29-32 | the workload's reference definition on integers: non-negative for non-negative arguments, at least 1 from n = 1 on |
| `Workload.FibMonotone` | coroutine3.cpp:29-32 | from n = 1 on, `fib` never decreases |
| `Ticks.Add64` | coroutine3.cpp:129 | `uint64_t` addition is the sum reduced modulo 2^64, and is the plain sum when it fits |
| `Ticks.Sub64` | coroutine3.cpp:202 | `uint64_t` subtraction is the inverse of `Add64` (adding `b` back gives `a`); it is the plain difference when `b <= a` |
| `Ticks.Add32` | coroutine2.cpp:89 | `unsigned int` addition is the sum reduced modulo 2^32 |
| `Ticks.Average` | coroutine3.cpp:230-235 | `total / count` is the floored average: `r * count <= total < (r + 1) * count` |
| `Ticks.TotalTicksIsExactModulo` | coroutine3.cpp:195 | a `uint64_t` accumulator fed sample by sample equals the exact sum of the samples modulo 2^64 |
| `Ticks.TotalTicksExact` | coroutine3.cpp:195-197 | while the exact sum stays below 2^64, the accumulator equals it |
| `Ticks.ExactTicksMonotone` | coroutine3.cpp:195-197 | a per-sample bound between two measures carries over to their sums |
| `TaskCoroutine.TaskCounters.constructor` | coroutine3.cpp:113-116 | the `g_coro_*` accumulators start at zero |
| `TaskCoroutine.TaskFrame.constructor` | coroutine3.cpp:119-125 | a new frame is suspended at its start, not done, and holds `value == 0` and the creation timestamp |
| `TaskCoroutine.TaskFrame.Resume` | coroutine3.cpp:165-173 | resuming a frame that is not done runs the body to completion: done, `value == fib(n)`, and `g_last_pure_compute_time` is the compute-window difference |
| `TaskCoroutine.TaskFrame.Destroy` | coroutine3.cpp:150 | destroying a live frame releases it |
| `TaskCoroutine.Task.constructor` | coroutine3.cpp:141 | the task owns the given handle |
| `TaskCoroutine.Task.Move` | coroutine3.cpp:143-145 | the move constructor takes the other task's handle and leaves the other task null |
| `TaskCoroutine.Task.Destroy` | coroutine3.cpp:147-154 | a live handle is destroyed and its destruction time added; a null handle changes nothing |
| `TaskCoroutine.Task.Resume` | coroutine3.cpp:156-160 | on a live, not-done handle it runs the body to completion and stores `fib(n)`; on a null or done handle it changes nothing, including `g_last_pure_compute_time` |
| `TaskCoroutine.Task.Result` | coroutine3.cpp:162 | the result is `fib(n)` once the task is done and 0 before |
| `TaskCoroutine.FibTask` | coroutine3.cpp:123-133 | a fresh task is suspended and not done, and none of its body has run; the creation overhead grows by `creationEnd - creationStart`; `g_coro_count` grows by one |
| `FibGenerator.GenAfterShape` | coroutine3.cpp:312-320 | resumes 1..count of `fib_generator` stop at the k-th `co_yield`; every later resume finds the loop finished |
| `FibGenerator.ExhaustedIff` | coroutine3.cpp:312-320 | the body is exhausted exactly when it has been resumed more than `count` times (more than zero times when `count <= 0`) |
| `FibGenerator.GenCounters.constructor` | coroutine3.cpp:239-244 | the generator accumulators start at zero |
| `FibGenerator.GenFrame.constructor` | coroutine3.cpp:247-253 | a new frame is suspended before its loop, has had no resumes and is not done |
| `FibGenerator.GenFrame.Resume` | coroutine3.cpp:264-268 | one resume reaches the next state of the reference definition; a yield stores `fib(n)`, counts one yield and adds the compute time; finishing the loop changes neither counter |
| `FibGenerator.GenFrame.Destroy` | coroutine3.cpp:285 | destroying a live frame releases it |
| `FibGenerator.Generator.constructor` | coroutine3.cpp:276 | the generator owns the given handle |
| `FibGenerator.Generator.Move` | coroutine3.cpp:278-280 | the move constructor takes the other generator's handle and leaves the other one null |
| `FibGenerator.Generator.Destroy` | coroutine3.cpp:282-289 | a live handle is destroyed and its destruction time added; a null handle changes nothing |
| `FibGenerator.Generator.Resume` | coroutine3.cpp:291-301 | on a null or done handle: returns false and changes nothing. Otherwise: one more resume, timed and counted, including the one that reaches exhaustion; returns true exactly for resumes 1..count; a true return means `value() == fib(n)` and one more yield |
| `FibGenerator.Generator.Value` | coroutine3.cpp:303-305 | the current value is `fib(n)` after the first yield and 0 before |
| `FibGenerator.Generator.IsDone` | coroutine3.cpp:307-309 | `done()` holds exactly once more than `count` resumes have reached the frame |
| `FibGenerator.NewFibGenerator` | coroutine3.cpp:255-261 | a fresh generator is suspended before its loop; the creation overhead grows by `creationEnd - creationStart` |
| `Benchmark.SwitchOverheadExact` | coroutine3.cpp:202 | if each compute time is at most its resume time and the resume total does not overflow, then `resume - compute` on `uint64_t` does not wrap and is the exact non-negative difference |
| `Benchmark.TaskSwitchOverheadExact` | coroutine3.cpp:184-202 | in `test_coroutines`, when each compute window lies inside its resume window and the resume total fits, the switch overhead is the exact difference of the totals |
| `Benchmark.YieldSwitchOverheadExact` | coroutine3.cpp:346 | the same for `test_coroutines_yield` |
| `Benchmark.TestCoroutines` | coroutine3.cpp:175-236 | after the reset and `count` iterations: `g_coro_count == count`; the creation, destruction, resume and compute totals are the wrapping sums of the per-iteration differences; switch overhead is their `uint64_t` difference; the averages are the integer averages over `count` |
| `Benchmark.ResumeLoop` | coroutine3.cpp:338-341 | `count` resumes of a fresh `fib_generator(n, count)` all yield: `g_resume_count == g_yield_count == count`, the generator is not done, and the resume and compute totals are the wrapping sums |
| `Benchmark.TestCoroutinesYield` | coroutine3.cpp:322-379 | the driver as written: counters reset, one creation, `count` resumes and yields, switch overhead as a `uint64_t` difference, averages over `g_resume_count`; the reported destruction overhead is 0 |
| `Benchmark.TestCoroutinesYieldScoped` | coroutine3.cpp:322-379 | the driver with the generator destroyed before the report: the reported destruction overhead is the one destruction's time |
| `UnboundedGenerator.IotaValueClosedForm` | coroutine2.cpp:87-90 | the k-th value of `iota(start)` is `start + 1234 * k` modulo 2^32 |
| `UnboundedGenerator.IotaFrame.constructor` | coroutine2.cpp:8-16 | a new `iota` frame is suspended before its loop and has had no resumes |
| `UnboundedGenerator.IotaFrame.Resume` | coroutine2.cpp:18-21 | one resume performs `n += 1234` and yields it; the frame never becomes done |
| `UnboundedGenerator.IotaFrame.Destroy` | coroutine2.cpp:64 | destroying a live frame releases it |
| `UnboundedGenerator.Iterator.constructor` | coroutine2.cpp:31-36 | unless `d` is set, the iterator resumes the coroutine exactly once and takes `done` from the handle; with `d` it resumes nothing and is done |
| `UnboundedGenerator.Iterator.Next` | coroutine2.cpp:38-42 | `++` resumes exactly once and refreshes `done` |
| `UnboundedGenerator.Iterator.NotEqual` | coroutine2.cpp:44-46 | `!=` depends only on the `done` flags; against an end marker it holds exactly while the iterator is not done |
| `UnboundedGenerator.Iterator.Current` | coroutine2.cpp:48-50 | `*` is the value yielded by the latest resume |
| `UnboundedGenerator.Generator.constructor` | coroutine2.cpp:61 | the generator owns the given handle |
| `UnboundedGenerator.Generator.Move` | coroutine2.cpp:70-72 | the move constructor takes the other generator's handle and leaves the other one null |
| `UnboundedGenerator.Generator.MoveAssign` | coroutine2.cpp:74-81 | self-assignment changes nothing; otherwise the owned frame, if any, is destroyed, the other's handle is taken, and the other becomes null |
| `UnboundedGenerator.Generator.Destroy` | coroutine2.cpp:63-65 | the destructor destroys only a non-null handle |
| `UnboundedGenerator.Generator.Begin` | coroutine2.cpp:53-55 | `begin()` resumes exactly once and returns a not-done iterator on the same frame |
| `UnboundedGenerator.Generator.End` | coroutine2.cpp:57-59 | `end()` resumes nothing and returns a done iterator on the same frame |
| `UnboundedGenerator.Iota` | coroutine2.cpp:87-90 | `iota(start)` returns a generator suspended before its loop |
| `UnboundedGenerator.IotaMain` | coroutine2.cpp:92-101 | the consumer prints exactly 1234, 2468, 3702, 4936, 6170 and stops after 6170, the first value above 5000 |

## Left out

- `RdtscClock::now` (a fenced hardware counter read): each reading is an input value. The model assumes nothing about monotonicity except where a lemma states it (`TaskWindowsNested`, `StepWindowsNested`).
- `RdtscClock::to_ns`, `CPU_FREQUENCY_GHZ`, and every nanosecond, percentage and throughput figure: floating point. The reports hold only the integer figures.
- `fib(double)`: modelled as `Workload.Fib` on integers (see its row above). For the integer arguments the program passes, doubles represent every intermediate value exactly up to n = 78. Rounding for larger n is not modelled.
- `test_sequential`: it only times a loop and prints.
- `test_threads`: operating-system threads, an atomic start flag, `sleep_for` and `join`. Its point is concurrency.
- Coroutine3.cpp's `main`, its configuration banner, and all `std::cout` output. The printed values of coroutine2.cpp's `main` are returned as a sequence.
- `unhandled_exception` → `std::terminate`: the bodies cannot throw in the model.
- Real frame allocation and deallocation: a frame records `destroyed`. Use of a destroyed or null handle is undefined behaviour in the source and is excluded by preconditions.
- The drivers require `0 < count <= INT_MAX`. A zero `count` divides by zero in the source. A negative `count` is converted to a huge `uint64_t` divisor, and that case is not modelled.
- `generator<T>` is modelled only at `T = unsigned int`, its one instance. Its deleted copy operations have nothing to model.
- `UnboundedGenerator.IotaFrame.constructor`: `current_value` is left uninitialised by the source; the model starts it at 0. It is never read before the first resume.
- `UnboundedGenerator.Iterator.Current`: says nothing about the value before the first resume, because the source reads an uninitialised slot there.
- `UnboundedGenerator.Generator.MoveAssign`: requires that two distinct generators do not own the same frame. This is the move-only ownership the type enforces. Its behaviour on shared frames is not modelled.
- The unused local `compute_time` of `test_coroutines_yield` and the `volatile` result reads. The model reads each result and proves it is `fib(n)`.
- Consistency between throughput and average figures, and the thread driver's thread count: they concern floating point and operating-system threads, both left out.

## Findings

| source | as written | input that shows it | evidently intended | confidence | as-written member | corrected member |
|---|---|---|---|---|---|---|
| coroutine3.cpp:353-355 | `test_coroutines_yield` prints `g_gen_destruction_overhead` while `gen` is still alive. Its destructor runs only at the function's closing brace (line 379), after the report. | any call, e.g. `test_coroutines_yield(25, 1000)`: the reported destruction overhead is 0, and afterwards the accumulator holds the destruction time | report the one destruction of the generator, as `test_coroutines` does for its tasks | not executed; high | `Benchmark.TestCoroutinesYield` | `Benchmark.TestCoroutinesYieldScoped` |
