/**
 * The bookkeeping of the two coroutine drivers of coroutine3.cpp,
 * `test_coroutines` (one single-shot task per unit of work) and
 * `test_coroutines_yield` (one bounded generator for the whole batch).
 *
 * Every cycle-counter reading a driver takes is an input: per-iteration
 * readings come as one record per iteration, in the order the program takes
 * them. What a driver prints is returned as a report holding its integer
 * quantities; the nanosecond, percentage and throughput figures are floating
 * point and are not modelled.
 */
module Benchmark {
  import opened Ticks
  import opened Workload
  import opened TaskCoroutine
  import opened FibGenerator

  /** The largest `int` batch size the drivers' `int count` can hold. */
  const INT_MAX: int := 0x7fff_ffff

  /** The eight readings of one iteration of `test_coroutines`'s loop, in the order they are taken. */
  datatype TaskTimes = TaskTimes(
    creationStart: u64, creationEnd: u64,
    resumeStart: u64, computeStart: u64, computeEnd: u64, resumeEnd: u64,
    destroyStart: u64, destroyEnd: u64)

  function CreationTicks(t: TaskTimes): u64 { Sub64(t.creationEnd, t.creationStart) }
  function DestructionTicks(t: TaskTimes): u64 { Sub64(t.destroyEnd, t.destroyStart) }
  function ResumeTicks(t: TaskTimes): u64 { Sub64(t.resumeEnd, t.resumeStart) }
  function ComputeTicks(t: TaskTimes): u64 { Sub64(t.computeEnd, t.computeStart) }

  /** The four readings of one `Generator::resume()` that yields, in the order they are taken. */
  datatype ResumeTimes = ResumeTimes(resumeStart: u64, computeStart: u64, computeEnd: u64, resumeEnd: u64)

  function StepResumeTicks(t: ResumeTimes): u64 { Sub64(t.resumeEnd, t.resumeStart) }
  function StepComputeTicks(t: ResumeTimes): u64 { Sub64(t.computeEnd, t.computeStart) }

  /** The timed compute window lies inside the timed resume window, on a counter that did not wrap. */
  predicate TaskWindowsNested(t: TaskTimes)
  {
    t.resumeStart <= t.computeStart <= t.computeEnd <= t.resumeEnd
  }

  predicate StepWindowsNested(t: ResumeTimes)
  {
    t.resumeStart <= t.computeStart <= t.computeEnd <= t.resumeEnd
  }

  /** The integer figures `test_coroutines` prints. */
  datatype TaskReport = TaskReport(
    totalTime: u64,
    creationOverhead: u64, destructionOverhead: u64,
    resumeTime: u64, pureComputeTime: u64, switchOverhead: u64,
    avgPerTask: u64, avgCreation: u64, avgDestruction: u64, avgSwitch: u64)

  /** The integer figures `test_coroutines_yield` prints. */
  datatype YieldReport = YieldReport(
    totalTime: u64,
    creationOverhead: u64, destructionOverhead: u64,
    resumeTime: u64, pureComputeTime: u64, switchOverhead: u64,
    avgPerTask: u64, resumeCount: u64,
    avgResume: u64, avgPureCompute: u64, avgSwitch: u64)

  /**
   * Switch overhead is `resume - compute` on `uint64_t`, which wraps when the
   * accumulated compute time exceeds the accumulated resume time. When every
   * compute window lies inside its resume window and the resume total does
   * not overflow, it cannot wrap: it is the exact, non-negative difference.
   */
  lemma {:induction false} SwitchOverheadExact<S>(samples: seq<S>, compute: S -> u64, resume: S -> u64)
    requires forall i :: 0 <= i < |samples| ==> compute(samples[i]) <= resume(samples[i])
    requires ExactTicks(samples, resume) < TWO_64
    ensures ExactTicks(samples, compute) <= ExactTicks(samples, resume)
    ensures Sub64(TotalTicks(samples, resume), TotalTicks(samples, compute))
         == ExactTicks(samples, resume) - ExactTicks(samples, compute)
  {
    ExactTicksMonotone(samples, compute, resume);
    TotalTicksExact(samples, resume);
    TotalTicksExact(samples, compute);
  }

  /** `test_coroutines`'s switch overhead under nested timing windows. */
  lemma {:induction false} TaskSwitchOverheadExact(samples: seq<TaskTimes>)
    requires forall i :: 0 <= i < |samples| ==> TaskWindowsNested(samples[i])
    requires ExactTicks(samples, ResumeTicks) < TWO_64
    ensures ExactTicks(samples, ComputeTicks) <= ExactTicks(samples, ResumeTicks)
    ensures Sub64(TotalTicks(samples, ResumeTicks), TotalTicks(samples, ComputeTicks))
         == ExactTicks(samples, ResumeTicks) - ExactTicks(samples, ComputeTicks)
  {
    forall i | 0 <= i < |samples| ensures ComputeTicks(samples[i]) <= ResumeTicks(samples[i]) {
      assert TaskWindowsNested(samples[i]);
    }
    SwitchOverheadExact(samples, ComputeTicks, ResumeTicks);
  }

  /** `test_coroutines_yield`'s switch overhead under nested timing windows. */
  lemma {:induction false} YieldSwitchOverheadExact(steps: seq<ResumeTimes>)
    requires forall i :: 0 <= i < |steps| ==> StepWindowsNested(steps[i])
    requires ExactTicks(steps, StepResumeTicks) < TWO_64
    ensures ExactTicks(steps, StepComputeTicks) <= ExactTicks(steps, StepResumeTicks)
    ensures Sub64(TotalTicks(steps, StepResumeTicks), TotalTicks(steps, StepComputeTicks))
         == ExactTicks(steps, StepResumeTicks) - ExactTicks(steps, StepComputeTicks)
  {
    forall i | 0 <= i < |steps| ensures StepComputeTicks(steps[i]) <= StepResumeTicks(steps[i]) {
      assert StepWindowsNested(steps[i]);
    }
    SwitchOverheadExact(steps, StepComputeTicks, StepResumeTicks);
  }

  /**
   * `test_coroutines(n, count)`: resets the `g_coro_*` accumulators, then
   * for each of the `count` iterations creates a task, times one `resume()`,
   * adds the body's self-reported compute time, reads the result and lets
   * the task be destroyed at the end of the iteration.
   */
  method TestCoroutines(n: int, count: int, samples: seq<TaskTimes>, totalStart: u64, totalEnd: u64,
                        counters: TaskCounters)
    returns (report: TaskReport)
    requires 0 < count <= INT_MAX && |samples| == count
    modifies counters
    ensures counters.count == count
    ensures counters.creationOverhead == TotalTicks(samples, CreationTicks)
    ensures counters.destructionOverhead == TotalTicks(samples, DestructionTicks)
    ensures counters.lastPureComputeTime == ComputeTicks(samples[count - 1])
    ensures report.totalTime == Sub64(totalEnd, totalStart)
    ensures report.creationOverhead == TotalTicks(samples, CreationTicks)
    ensures report.destructionOverhead == TotalTicks(samples, DestructionTicks)
    ensures report.resumeTime == TotalTicks(samples, ResumeTicks)
    ensures report.pureComputeTime == TotalTicks(samples, ComputeTicks)
    ensures report.switchOverhead == Sub64(report.resumeTime, report.pureComputeTime)
    ensures report.avgPerTask == Average(report.totalTime, count)
    ensures report.avgCreation == Average(report.creationOverhead, count)
    ensures report.avgDestruction == Average(report.destructionOverhead, count)
    ensures report.avgSwitch == Average(report.switchOverhead, count)
  {
    counters.creationOverhead, counters.destructionOverhead, counters.count := 0, 0, 0;
    var totalResumeTime: u64 := 0;
    var totalPureComputeTime: u64 := 0;
    var i := 0;
    while i < count
      invariant 0 <= i <= count
      invariant counters.count == i
      invariant counters.creationOverhead == TotalTicks(samples[..i], CreationTicks)
      invariant counters.destructionOverhead == TotalTicks(samples[..i], DestructionTicks)
      invariant totalResumeTime == TotalTicks(samples[..i], ResumeTicks)
      invariant totalPureComputeTime == TotalTicks(samples[..i], ComputeTicks)
      invariant i > 0 ==> counters.lastPureComputeTime == ComputeTicks(samples[i - 1])
    {
      var s := samples[i];
      var task := FibTask(n, s.creationStart, s.creationEnd, counters);
      task.Resume(s.computeStart, s.computeEnd, counters);
      totalResumeTime := Add64(totalResumeTime, Sub64(s.resumeEnd, s.resumeStart));
      totalPureComputeTime := Add64(totalPureComputeTime, counters.lastPureComputeTime);
      var result := task.Result();
      assert result == Fib(n);
      task.Destroy(s.destroyStart, s.destroyEnd, counters);
      assert samples[..i + 1][..i] == samples[..i];
      i := i + 1;
    }
    assert samples[..count] == samples;
    var totalSwitchOverhead := Sub64(totalResumeTime, totalPureComputeTime);
    var totalTime := Sub64(totalEnd, totalStart);
    report := TaskReport(
      totalTime,
      counters.creationOverhead, counters.destructionOverhead,
      totalResumeTime, totalPureComputeTime, totalSwitchOverhead,
      Average(totalTime, count), Average(counters.creationOverhead, count),
      Average(counters.destructionOverhead, count), Average(totalSwitchOverhead, count));
  }

  /**
   * The loop of `test_coroutines_yield`: `count` calls of `resume()` on a
   * fresh `fib_generator(n, count)`, each followed by `value()`. Every call
   * yields, so afterwards the generator has produced `count` values, both
   * counters read `count`, and it is not yet done.
   */
  method ResumeLoop(gen: Generator, count: int, steps: seq<ResumeTimes>, counters: GenCounters)
    requires 0 < count <= INT_MAX && |steps| == count
    requires gen.Valid() && gen.handle != null && gen.handle.count == count && gen.handle.resumes == 0
    requires counters.resumeCount == 0 && counters.yieldCount == 0
    requires counters.resumeTime == 0 && counters.pureComputeTime == 0
    modifies gen.handle, counters`resumeTime, counters`resumeCount, counters`pureComputeTime, counters`yieldCount
    ensures gen.Valid() && gen.handle.resumes == count && !gen.IsDone()
    ensures gen.Value() == Fib(gen.handle.n)
    ensures counters.resumeCount == count && counters.yieldCount == count
    ensures counters.resumeTime == TotalTicks(steps, StepResumeTicks)
    ensures counters.pureComputeTime == TotalTicks(steps, StepComputeTicks)
  {
    var i := 0;
    while i < count
      invariant 0 <= i <= count
      invariant gen.Valid() && gen.handle.resumes == i
      invariant counters.resumeCount == i && counters.yieldCount == i
      invariant counters.resumeTime == TotalTicks(steps[..i], StepResumeTicks)
      invariant counters.pureComputeTime == TotalTicks(steps[..i], StepComputeTicks)
    {
      var s := steps[i];
      assert !gen.IsDone();
      var active := gen.Resume(s.resumeStart, s.computeStart, s.computeEnd, s.resumeEnd, counters);
      assert active;
      var result := gen.Value();
      assert result == Fib(gen.handle.n);
      assert steps[..i + 1][..i] == steps[..i];
      i := i + 1;
    }
    assert steps[..count] == steps;
  }

  /**
   * `test_coroutines_yield(n, count)` as written: resets the accumulators,
   * creates one generator for the whole batch, resumes it `count` times,
   * and prints. The generator is a local whose destructor runs only when the
   * function returns, after the report has been printed, so the destruction
   * overhead it reports is always 0 although the destructor does account it
   * afterwards.
   */
  method TestCoroutinesYield(n: int, count: int, creationStart: u64, creationEnd: u64,
                             steps: seq<ResumeTimes>, totalStart: u64, totalEnd: u64,
                             destroyStart: u64, destroyEnd: u64, counters: GenCounters)
    returns (report: YieldReport)
    requires 0 < count <= INT_MAX && |steps| == count
    modifies counters
    ensures counters.resumeCount == count && counters.yieldCount == count
    ensures counters.creationOverhead == Sub64(creationEnd, creationStart)
    ensures counters.destructionOverhead == Sub64(destroyEnd, destroyStart)
    ensures counters.resumeTime == TotalTicks(steps, StepResumeTicks)
    ensures counters.pureComputeTime == TotalTicks(steps, StepComputeTicks)
    ensures report.totalTime == Sub64(totalEnd, totalStart)
    ensures report.creationOverhead == Sub64(creationEnd, creationStart)
    ensures report.destructionOverhead == 0
    ensures report.resumeTime == TotalTicks(steps, StepResumeTicks)
    ensures report.pureComputeTime == TotalTicks(steps, StepComputeTicks)
    ensures report.switchOverhead == Sub64(report.resumeTime, report.pureComputeTime)
    ensures report.resumeCount == count
    ensures report.avgPerTask == Average(report.totalTime, count)
    ensures report.avgResume == Average(report.resumeTime, count)
    ensures report.avgPureCompute == Average(report.pureComputeTime, count)
    ensures report.avgSwitch == Average(report.switchOverhead, count)
  {
    counters.resumeTime, counters.pureComputeTime, counters.yieldCount := 0, 0, 0;
    counters.resumeCount, counters.creationOverhead, counters.destructionOverhead := 0, 0, 0;
    var gen := NewFibGenerator(n, count, creationStart, creationEnd, counters);
    ResumeLoop(gen, count, steps, counters);
    var totalTime := Sub64(totalEnd, totalStart);
    var totalSwitchOverhead := Sub64(counters.resumeTime, counters.pureComputeTime);
    report := YieldReport(
      totalTime,
      counters.creationOverhead, counters.destructionOverhead,
      counters.resumeTime, counters.pureComputeTime, totalSwitchOverhead,
      Average(totalTime, count), counters.resumeCount,
      Average(counters.resumeTime, counters.resumeCount),
      Average(counters.pureComputeTime, counters.resumeCount),
      Average(totalSwitchOverhead, counters.resumeCount));
    gen.Destroy(destroyStart, destroyEnd, counters);
  }

  /**
   * `test_coroutines_yield` with the generator destroyed inside the timed
   * region, before the accumulators are read, as the single-shot driver does
   * with each of its tasks: the reported destruction overhead is then the
   * time the one destruction took.
   */
  method TestCoroutinesYieldScoped(n: int, count: int, creationStart: u64, creationEnd: u64,
                                   steps: seq<ResumeTimes>, destroyStart: u64, destroyEnd: u64,
                                   totalStart: u64, totalEnd: u64, counters: GenCounters)
    returns (report: YieldReport)
    requires 0 < count <= INT_MAX && |steps| == count
    modifies counters
    ensures counters.resumeCount == count && counters.yieldCount == count
    ensures counters.creationOverhead == Sub64(creationEnd, creationStart)
    ensures counters.destructionOverhead == Sub64(destroyEnd, destroyStart)
    ensures counters.resumeTime == TotalTicks(steps, StepResumeTicks)
    ensures counters.pureComputeTime == TotalTicks(steps, StepComputeTicks)
    ensures report.totalTime == Sub64(totalEnd, totalStart)
    ensures report.creationOverhead == Sub64(creationEnd, creationStart)
    ensures report.destructionOverhead == Sub64(destroyEnd, destroyStart)
    ensures report.resumeTime == TotalTicks(steps, StepResumeTicks)
    ensures report.pureComputeTime == TotalTicks(steps, StepComputeTicks)
    ensures report.switchOverhead == Sub64(report.resumeTime, report.pureComputeTime)
    ensures report.resumeCount == count
    ensures report.avgPerTask == Average(report.totalTime, count)
    ensures report.avgResume == Average(report.resumeTime, count)
    ensures report.avgPureCompute == Average(report.pureComputeTime, count)
    ensures report.avgSwitch == Average(report.switchOverhead, count)
  {
    counters.resumeTime, counters.pureComputeTime, counters.yieldCount := 0, 0, 0;
    counters.resumeCount, counters.creationOverhead, counters.destructionOverhead := 0, 0, 0;
    var gen := NewFibGenerator(n, count, creationStart, creationEnd, counters);
    ResumeLoop(gen, count, steps, counters);
    gen.Destroy(destroyStart, destroyEnd, counters);
    var totalTime := Sub64(totalEnd, totalStart);
    var totalSwitchOverhead := Sub64(counters.resumeTime, counters.pureComputeTime);
    report := YieldReport(
      totalTime,
      counters.creationOverhead, counters.destructionOverhead,
      counters.resumeTime, counters.pureComputeTime, totalSwitchOverhead,
      Average(totalTime, count), counters.resumeCount,
      Average(counters.resumeTime, counters.resumeCount),
      Average(counters.pureComputeTime, counters.resumeCount),
      Average(totalSwitchOverhead, counters.resumeCount));
  }
}
