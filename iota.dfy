/**
 * The generic lazy sequence of coroutine2.cpp: the class template
 * `generator<T>` with its input iterator, the unbounded coroutine `iota`, and
 * the consuming loop of that program's `main`.
 *
 * The template has one instance, `generator<unsigned int>` driven by `iota`,
 * and is modelled at that instance: its frame (`IotaFrame`) holds `iota`'s
 * local `n`, the promise's `current_value` and the suspension point. An
 * iterator holds a second, non-owning copy of the generator's handle, so
 * frames are objects that both refer to.
 */
module UnboundedGenerator {
  import opened Ticks

  /** `iota`'s step: `n += 1234`. */
  const STEP: u32 := 1234

  /** The value `iota(start)` has yielded after `k` resumes: `start` advanced `k` times by `n += 1234` on `unsigned int`. */
  function IotaValue(start: u32, k: nat): u32
  {
    if k == 0 then start else Add32(IotaValue(start, k - 1), STEP)
  }

  /** The k-th yielded value is `start + 1234 * k` reduced modulo 2^32. */
  lemma {:induction false} IotaValueClosedForm(start: u32, k: nat)
    ensures IotaValue(start, k) == (start + STEP * k) % TWO_32
  {
    if k > 0 {
      IotaValueClosedForm(start, k - 1);
      ModuloAdd(start + STEP * (k - 1), STEP, TWO_32);
    }
  }

  /** Suspension points of `iota`: before its loop, at its `co_yield`, or at the final suspension point (which its `while (true)` never reaches). */
  datatype IotaPc = AtStart | AtYield | AtFinal

  /** The coroutine frame of one `iota(start)` call. */
  class IotaFrame {
    const start: u32
    var n: u32
    var pc: IotaPc
    var currentValue: u32
    var destroyed: bool
    ghost var resumes: nat

    /** After `resumes` resumes, `n` and the promise's value are the `resumes`-th value, and the frame is never finished. */
    ghost predicate Valid()
      reads this
    {
      !destroyed &&
      n == IotaValue(start, resumes) &&
      pc != AtFinal &&
      (pc == AtStart <==> resumes == 0) &&
      (resumes > 0 ==> currentValue == n)
    }

    /** `handle.done()`. */
    predicate Done()
      reads this
    {
      pc == AtFinal
    }

    /** Frame allocation; the promise's `current_value` has no initial value in the source and starts at 0 here. */
    constructor (start: u32)
      ensures Valid() && resumes == 0 && this.start == start
    {
      this.start := start;
      n := start;
      pc := AtStart;
      currentValue := 0;
      destroyed := false;
      resumes := 0;
    }

    /** `handle.resume()`: one turn of `while (true) co_yield n += 1234;`. */
    method Resume()
      requires Valid()
      modifies this`n, this`pc, this`currentValue, this`resumes
      ensures Valid() && !Done()
      ensures resumes == old(resumes) + 1
      ensures currentValue == IotaValue(start, resumes)
    {
      n := Add32(n, STEP);
      currentValue := n;
      pc := AtYield;
      resumes := resumes + 1;
    }

    /** `handle.destroy()`. */
    method Destroy()
      requires !destroyed
      modifies this`destroyed
      ensures destroyed
    {
      destroyed := true;
    }
  }

  /** `generator<T>::iterator`: a copy of the handle and a `done` flag. */
  class Iterator {
    var handle: IotaFrame?
    var done: bool

    /**
     * `iterator(h, d)`: unless made as the end marker (`d`), resumes the
     * coroutine once and takes `done` from the handle.
     */
    constructor (h: IotaFrame?, d: bool)
      requires !d ==> h != null && h.Valid()
      modifies if d then {} else {h}
      ensures handle == h
      ensures d ==> done
      ensures d && h != null ==> unchanged(h)
      ensures !d ==> h.Valid() && h.resumes == old(h.resumes) + 1 && done == h.Done() && !done
    {
      handle := h;
      done := d;
      new;
      if !done {
        handle.Resume();
        done := handle.Done();
      }
    }

    /** `operator++`: resumes the coroutine once and refreshes `done`. */
    method Next()
      requires handle != null && handle.Valid()
      modifies this`done, handle
      ensures handle.Valid() && handle.resumes == old(handle.resumes) + 1
      ensures done == handle.Done() && !done
    {
      handle.Resume();
      done := handle.Done();
    }

    /** `operator!=`: compares the `done` flags only; against an end marker it holds exactly while this iterator is not done. */
    function NotEqual(other: Iterator): (r: bool)
      reads this, other
      ensures other.done ==> (r <==> !done)
      ensures !other.done ==> (r <==> done)
    {
      done != other.done
    }

    /** `operator*`: the value the coroutine yielded last. */
    function Current(): (r: u32)
      reads this, handle
      requires handle != null && handle.Valid()
      ensures handle.resumes > 0 ==> r == IotaValue(handle.start, handle.resumes)
    {
      handle.currentValue
    }
  }

  /** `generator<unsigned int>`: the move-only owner of one `iota` frame. */
  class Generator {
    var handle: IotaFrame?

    ghost predicate Valid()
      reads this, handle
    {
      handle != null ==> handle.Valid()
    }

    /** `generator(handle)`. */
    constructor (h: IotaFrame?)
      ensures handle == h
    {
      handle := h;
    }

    /** `generator(generator&&)`: takes over the other generator's frame and leaves the other one empty. */
    constructor Move(other: Generator)
      modifies other`handle
      ensures handle == old(other.handle) && other.handle == null
    {
      handle := other.handle;
      new;
      other.handle := null;
    }

    /**
     * `operator=(generator&&)`: a no-op on self-assignment; otherwise
     * destroys the frame this generator owns, if any, takes over the other's
     * frame and leaves the other one empty. Two distinct generators never
     * own the same frame.
     */
    method MoveAssign(other: Generator)
      requires Valid() && other.Valid()
      requires this != other && handle != null ==> handle != other.handle
      modifies this`handle, other`handle, handle
      ensures this == other ==> handle == old(handle) && (handle != null ==> unchanged(handle))
      ensures this != other ==> handle == old(other.handle) && other.handle == null
      ensures this != other && old(handle) != null ==> old(handle).destroyed
      ensures Valid()
    {
      if this != other {
        if handle != null {
          handle.Destroy();
        }
        handle := other.handle;
        other.handle := null;
      }
    }

    /** `~generator()`: destroys the frame only when the handle is not empty. */
    method Destroy()
      requires Valid()
      modifies handle
      ensures handle != null ==> handle.destroyed
    {
      if handle != null {
        handle.Destroy();
      }
    }

    /** `begin()`: an iterator that has resumed the coroutine once and holds its first value. */
    method Begin() returns (it: Iterator)
      requires Valid() && handle != null
      modifies handle
      ensures fresh(it) && it.handle == handle && !it.done
      ensures handle.Valid() && handle.resumes == old(handle.resumes) + 1
    {
      it := new Iterator(handle, false);
    }

    /** `end()`: the end marker, made without resuming the coroutine. */
    method End() returns (it: Iterator)
      ensures fresh(it) && it.handle == handle && it.done
    {
      it := new Iterator(handle, true);
    }
  }

  /** A call `iota(start)`: a generator suspended before its loop. */
  method Iota(start: u32) returns (gen: Generator)
    ensures fresh(gen) && fresh(gen.handle) && gen.Valid()
    ensures gen.handle != null && gen.handle.start == start && gen.handle.resumes == 0
  {
    var frame := new IotaFrame(start);
    gen := new Generator(frame);
  }

  /**
   * coroutine2.cpp's `main`: a range-`for` over `iota(0)` that prints each
   * value and breaks after the first one above 5000, after which the
   * generator is destroyed. Returns what it prints.
   */
  method IotaMain() returns (printed: seq<u32>)
    ensures printed == [1234, 2468, 3702, 4936, 6170]
  {
    var numberGenerator := Iota(0);
    var it := numberGenerator.Begin();
    var last := numberGenerator.End();
    printed := [];
    while it.NotEqual(last)
      invariant fresh(it) && fresh(numberGenerator) && fresh(numberGenerator.handle)
      invariant it.handle == numberGenerator.handle && it.handle != null
      invariant numberGenerator.Valid() && it.handle.start == 0
      invariant it.handle.resumes == |printed| + 1
      invariant !it.done && last.done
      invariant |printed| <= 4
      invariant forall j :: 0 <= j < |printed| ==> printed[j] == STEP * (j + 1)
      decreases 4 - |printed|
    {
      var num := it.Current();
      IotaValueClosedForm(0, |printed| + 1);
      printed := printed + [num];
      if num > 5000 {
        break;
      }
      it.Next();
    }
    numberGenerator.Destroy();
  }
}
