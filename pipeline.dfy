/** The iterative OpenCL command pipeline `cmd` (cmd.hpp, cmd.cpp) over a
    model of the OpenCL runtime's memory objects, events and command queue.

    The runtime (class Device) keeps the set of live buffers, the set of live
    events and an ordered log of every call with its outcome. Which calls fail
    is fixed in advance by `faults`, a set of positions in the log. Handle
    numbers are issued in order, one per call that returns an object, whether
    or not the call succeeds; a failed call's handle never becomes live. The
    reference-counted context, queue and kernel handles live in a
    RefCount.Runtime and are held through RefCount.SmartPtr wrappers. */
module Pipeline {
  import RefCount
  import opened Layout
  import opened Budget

  type Handle = RefCount.Handle

  /** sizeof(float) on the host. */
  const FloatBytes: nat := 4

  datatype MemFlags = ReadOnly | WriteOnly

  /** One runtime call, with the handle it returns (buffer or event). */
  datatype Command =
    | CreateBuffer(context: Handle, flags: MemFlags, bytes: nat, buffer: Handle)
    | WriteBuffer(queue: Handle, buffer: Handle, blocking: bool, bytes: nat, event: Handle)
    | Marker(queue: Handle, event: Handle)
    | SetKernelArg(kernel: Handle, index: nat, buffer: Handle)
    | NDRangeKernel(queue: Handle, kernel: Handle, globalSize: seq<nat>, waitFor: Handle, event: Handle)
    | ReadBuffer(queue: Handle, buffer: Handle, blocking: bool, bytes: nat, waitFor: Handle, event: Handle)
    | Flush(queue: Handle)
    | SetEventCallback(event: Handle)
    | ReleaseMemObject(buffer: Handle)
    | ReleaseEvent(event: Handle)

  /** A logged call and whether it returned CL_SUCCESS. */
  datatype Entry = Entry(command: Command, ok: bool)

  class Device {
    var log: seq<Entry>
    var next: Handle
    var buffers: set<Handle>
    var events: set<Handle>
    const faults: set<nat>

    ghost predicate Valid()
      reads this
    {
      && next > 0
      && (forall b :: b in buffers ==> 0 < b < next)
      && (forall e :: e in events ==> 0 < e < next)
    }

    constructor (faults: set<nat>)
      ensures Valid() && this.faults == faults
      ensures log == [] && next == 1 && buffers == {} && events == {}
    {
      log, next, buffers, events := [], 1, {}, {};
      this.faults := faults;
    }

    /** Whether the next call is one the runtime makes fail. */
    predicate Faulty()
      reads this
    {
      |log| in faults
    }

    /** clCreateBuffer: a new buffer, or the null handle on failure. */
    method CreateBuffer(context: Handle, flags: MemFlags, bytes: nat) returns (buffer: Handle, ok: bool)
      requires Valid()
      modifies this
      ensures Valid() && next == old(next) + 1 && events == old(events)
      ensures ok == !old(Faulty())
      ensures log == old(log) + [Entry(Command.CreateBuffer(context, flags, bytes, old(next)), ok)]
      ensures buffer == (if ok then old(next) else RefCount.Null)
      ensures buffers == if ok then old(buffers) + {old(next)} else old(buffers)
    {
      ok := !Faulty();
      log := log + [Entry(Command.CreateBuffer(context, flags, bytes, next), ok)];
      buffer := RefCount.Null;
      if ok {
        buffer := next;
        buffers := buffers + {next};
      }
      next := next + 1;
    }

    /** Issues a handle for a call that returns an event: on success the new
        event is live and returned; on failure the caller's event variable
        keeps its previous value `slot`. */
    method NewEvent(command: Command, ok: bool, slot: Handle) returns (event: Handle)
      requires Valid()
      modifies this
      ensures Valid() && next == old(next) + 1 && buffers == old(buffers)
      ensures log == old(log) + [Entry(command, ok)]
      ensures event == (if ok then old(next) else slot)
      ensures events == if ok then old(events) + {old(next)} else old(events)
    {
      log := log + [Entry(command, ok)];
      event := slot;
      if ok {
        event := next;
        events := events + {next};
      }
      next := next + 1;
    }

    /** clEnqueueWriteBuffer with no wait list. */
    method EnqueueWriteBuffer(queue: Handle, buffer: Handle, blocking: bool, bytes: nat, slot: Handle)
      returns (event: Handle, ok: bool)
      requires Valid()
      modifies this
      ensures Valid() && next == old(next) + 1 && buffers == old(buffers)
      ensures ok == (!old(Faulty()) && buffer in buffers)
      ensures log == old(log) + [Entry(Command.WriteBuffer(queue, buffer, blocking, bytes, old(next)), ok)]
      ensures event == (if ok then old(next) else slot)
      ensures events == if ok then old(events) + {old(next)} else old(events)
    {
      ok := !Faulty() && buffer in buffers;
      event := NewEvent(Command.WriteBuffer(queue, buffer, blocking, bytes, next), ok, slot);
    }

    /** clEnqueueMarker: an event that completes when all earlier commands
        of the (in-order) queue have completed. */
    method EnqueueMarker(queue: Handle, slot: Handle) returns (event: Handle, ok: bool)
      requires Valid()
      modifies this
      ensures Valid() && next == old(next) + 1 && buffers == old(buffers)
      ensures ok == !old(Faulty())
      ensures log == old(log) + [Entry(Command.Marker(queue, old(next)), ok)]
      ensures event == (if ok then old(next) else slot)
      ensures events == if ok then old(events) + {old(next)} else old(events)
    {
      ok := !Faulty();
      event := NewEvent(Command.Marker(queue, next), ok, slot);
    }

    /** clSetKernelArg with a memory-object argument. */
    method SetKernelArg(kernel: Handle, index: nat, buffer: Handle) returns (ok: bool)
      requires Valid()
      modifies this
      ensures Valid() && next == old(next) && buffers == old(buffers) && events == old(events)
      ensures ok == (!old(Faulty()) && buffer in buffers)
      ensures log == old(log) + [Entry(Command.SetKernelArg(kernel, index, buffer), ok)]
    {
      ok := !Faulty() && buffer in buffers;
      log := log + [Entry(Command.SetKernelArg(kernel, index, buffer), ok)];
    }

    /** clEnqueueNDRangeKernel waiting on one event; a wait-list entry that
        is not a live event makes the call fail. */
    method EnqueueNDRangeKernel(queue: Handle, kernel: Handle, globalSize: seq<nat>, waitFor: Handle, slot: Handle)
      returns (event: Handle, ok: bool)
      requires Valid()
      modifies this
      ensures Valid() && next == old(next) + 1 && buffers == old(buffers)
      ensures ok == (!old(Faulty()) && waitFor in old(events))
      ensures log == old(log) + [Entry(Command.NDRangeKernel(queue, kernel, globalSize, waitFor, old(next)), ok)]
      ensures event == (if ok then old(next) else slot)
      ensures events == if ok then old(events) + {old(next)} else old(events)
    {
      ok := !Faulty() && waitFor in events;
      event := NewEvent(Command.NDRangeKernel(queue, kernel, globalSize, waitFor, next), ok, slot);
    }

    /** clEnqueueReadBuffer waiting on one event. */
    method EnqueueReadBuffer(queue: Handle, buffer: Handle, blocking: bool, bytes: nat, waitFor: Handle, slot: Handle)
      returns (event: Handle, ok: bool)
      requires Valid()
      modifies this
      ensures Valid() && next == old(next) + 1 && buffers == old(buffers)
      ensures ok == (!old(Faulty()) && buffer in buffers && waitFor in old(events))
      ensures log == old(log) + [Entry(Command.ReadBuffer(queue, buffer, blocking, bytes, waitFor, old(next)), ok)]
      ensures event == (if ok then old(next) else slot)
      ensures events == if ok then old(events) + {old(next)} else old(events)
    {
      ok := !Faulty() && buffer in buffers && waitFor in events;
      event := NewEvent(Command.ReadBuffer(queue, buffer, blocking, bytes, waitFor, next), ok, slot);
    }

    /** clFlush. */
    method Flush(queue: Handle) returns (ok: bool)
      requires Valid()
      modifies this
      ensures Valid() && next == old(next) && buffers == old(buffers) && events == old(events)
      ensures ok == !old(Faulty())
      ensures log == old(log) + [Entry(Command.Flush(queue), ok)]
    {
      ok := !Faulty();
      log := log + [Entry(Command.Flush(queue), ok)];
    }

    /** clSetEventCallback for CL_COMPLETE on a live event. */
    method SetEventCallback(event: Handle) returns (ok: bool)
      requires Valid()
      modifies this
      ensures Valid() && next == old(next) && buffers == old(buffers) && events == old(events)
      ensures ok == (!old(Faulty()) && event in events)
      ensures log == old(log) + [Entry(Command.SetEventCallback(event), ok)]
    {
      ok := !Faulty() && event in events;
      log := log + [Entry(Command.SetEventCallback(event), ok)];
    }

    /** clReleaseMemObject: each buffer is created with one reference and
        never retained, so one release frees it; releasing anything else is
        an error with no effect. */
    method ReleaseMemObject(buffer: Handle) returns (ok: bool)
      requires Valid()
      modifies this
      ensures Valid() && next == old(next) && events == old(events)
      ensures ok == (buffer in old(buffers))
      ensures buffers == old(buffers) - {buffer}
      ensures log == old(log) + [Entry(Command.ReleaseMemObject(buffer), ok)]
    {
      ok := buffer in buffers;
      buffers := buffers - {buffer};
      log := log + [Entry(Command.ReleaseMemObject(buffer), ok)];
    }

    /** clReleaseEvent, likewise for events. */
    method ReleaseEvent(event: Handle) returns (ok: bool)
      requires Valid()
      modifies this
      ensures Valid() && next == old(next) && buffers == old(buffers)
      ensures ok == (event in old(events))
      ensures events == old(events) - {event}
      ensures log == old(log) + [Entry(Command.ReleaseEvent(event), ok)]
    {
      ok := event in events;
      events := events - {event};
      log := log + [Entry(Command.ReleaseEvent(event), ok)];
    }
  }

  /** std::vector::resize: keeps the first n elements and pads with zeros. */
  function Resized(v: seq<int>, n: nat): (r: seq<int>)
    ensures |r| == n
    ensures forall i :: 0 <= i < n ==> r[i] == if i < |v| then v[i] else 0
  {
    if n <= |v| then v[..n] else v + seq(n - |v|, _ => 0)
  }

  /** cmd.cpp:46-51: two read-only input buffers, then the write-only
      output buffer, issued handles n, n + 1, n + 2. */
  function Creates(ctx: Handle, bytes: nat, n: Handle): seq<Entry>
  {
    [ Entry(CreateBuffer(ctx, ReadOnly, bytes, n), true),
      Entry(CreateBuffer(ctx, ReadOnly, bytes, n + 1), true),
      Entry(CreateBuffer(ctx, WriteOnly, bytes, n + 2), true) ]
  }

  /** cmd.cpp:53-64: the two non-blocking writes and the marker, with their
      outcomes w1, w2, m; events n, n + 1, n + 2. */
  function Writes(queue: Handle, b1: Handle, b2: Handle, bytes: nat, n: Handle, w1: bool, w2: bool, m: bool): seq<Entry>
  {
    [ Entry(WriteBuffer(queue, b1, false, bytes, n), w1),
      Entry(WriteBuffer(queue, b2, false, bytes, n + 1), w2),
      Entry(Marker(queue, n + 2), m) ]
  }

  /** cmd.cpp:66-71: argument 0 is the first input, 1 the second, 2 the output. */
  function Args(kernel: Handle, b1: Handle, b2: Handle, b3: Handle): seq<Entry>
  {
    [ Entry(SetKernelArg(kernel, 0, b1), true),
      Entry(SetKernelArg(kernel, 1, b2), true),
      Entry(SetKernelArg(kernel, 2, b3), true) ]
  }

  /** cmd.cpp:74-93: the launch over `dims` waiting on `markerWait` (event n),
      the blocking read of the output waiting on the launch (event n + 1), the
      flush (outcome f) and the completion callback on the read event. */
  function Launch(queue: Handle, kernel: Handle, dims: seq<nat>, markerWait: Handle, b3: Handle,
                  bytes: nat, n: Handle, f: bool): seq<Entry>
  {
    [ Entry(NDRangeKernel(queue, kernel, dims, markerWait, n), true),
      Entry(ReadBuffer(queue, b3, true, bytes, n, n + 1), true),
      Entry(Flush(queue), f),
      Entry(SetEventCallback(n + 1), true) ]
  }

  /** The runtime objects and the buffer size one enqueue works with. */
  datatype Setup = Setup(context: Handle, queue: Handle, kernel: Handle, dims: seq<nat>, bytes: nat)

  /** The handle variables cmd keeps between calls: the three buffers, the
      two write events, the marker and the kernel and read events. */
  datatype Slots = Slots(in1: Handle, in2: Handle, out: Handle, write1: Handle, write2: Handle,
                         marker: Handle, launched: Handle, read: Handle)

  /** The calls one iteration of cmd::enqueue makes when none of its checked
      calls fails, n being the first handle number it is issued. */
  function Iteration(n: Handle, ctx: Handle, queue: Handle, kernel: Handle, bytes: nat, dims: seq<nat>,
                     markerWait: Handle, w1: bool, w2: bool, m: bool, f: bool): (r: seq<Entry>)
    ensures |r| == 13
  {
    Creates(ctx, bytes, n) + Writes(queue, n, n + 1, bytes, n + 3, w1, w2, m)
    + Args(kernel, n, n + 1, n + 2) + Launch(queue, kernel, dims, markerWait, n + 2, bytes, n + 6, f)
  }

  /** Offsets, within one iteration, of the calls whose status cmd checks. */
  predicate CheckedStep(j: nat)
  {
    j in {0, 1, 2, 6, 7, 8, 9, 10, 12}
  }

  /** The log of an enqueue that stopped at its j-th call: the calls before
      it as in Iteration, then that call failing. */
  function AbortedAt(it: seq<Entry>, j: nat): seq<Entry>
    requires j < |it|
  {
    it[..j] + [Entry(it[j].command, false)]
  }

  /** Whether the unchecked call at offset j of an iteration starting at log
      position p succeeds. */
  predicate Succeeds(faults: set<nat>, p: nat, j: nat)
  {
    p + j !in faults
  }

  /** The events the two writes and the marker, issued handles n, n + 1,
      n + 2 at log positions p, p + 1, p + 2, leave live. */
  function WrittenEvents(faults: set<nat>, p: nat, n: Handle): set<Handle>
  {
    (if p !in faults then {n} else {}) + (if p + 1 !in faults then {n + 1} else {})
    + (if p + 2 !in faults then {n + 2} else {})
  }

  /** The event the launch waits on: the new marker, or the old one when
      clEnqueueMarker failed. */
  function MarkerWait(faults: set<nat>, p: nat, n: Handle, marker0: Handle): Handle
  {
    if Succeeds(faults, p, 5) then n + 5 else marker0
  }

  /** The iteration issued from log position p and handle number n. */
  function CallsOf(faults: set<nat>, p: nat, n: Handle, s: Setup, marker0: Handle): (r: seq<Entry>)
    ensures |r| == 13
  {
    Iteration(n, s.context, s.queue, s.kernel, s.bytes, s.dims, MarkerWait(faults, p, n, marker0),
              Succeeds(faults, p, 3), Succeeds(faults, p, 4), Succeeds(faults, p, 5), Succeeds(faults, p, 11))
  }

  /** The outcome of one cmd::enqueue that started from log `log0`, handle
      number n, live events `events0` and handle variables `slots0`: it
      succeeds (ok) iff none of its checked calls fails and the launch's wait
      event is live. On success the log gains the whole iteration and the
      handle variables hold what it issued, an event variable keeping its
      old value when its unchecked call failed; on failure the log stops at
      the first checked call that fails, the `failed`-th of the iteration:
      every checked call before it succeeded, and it failed either at its
      position in the log or, for the launch, because the event it waits on
      is not live. */
  ghost predicate Issued(ok: bool, failed: nat, log0: seq<Entry>, log: seq<Entry>, faults: set<nat>, n: Handle,
                         events0: set<Handle>, s: Setup, slots0: Slots, slots: Slots)
  {
    var p := |log0|;
    var it := CallsOf(faults, p, n, s, slots0.marker);
    && (ok <==> (forall j :: CheckedStep(j) ==> Succeeds(faults, p, j))
                && (Succeeds(faults, p, 5) || slots0.marker in events0))
    && (!ok ==> && CheckedStep(failed) && failed < 13 && log == log0 + AbortedAt(it, failed)
                && (forall j: nat :: CheckedStep(j) && j < failed ==> Succeeds(faults, p, j))
                && (failed > 9 ==> Succeeds(faults, p, 5) || slots0.marker in events0)
                && (!Succeeds(faults, p, failed) || (failed == 9 && !Succeeds(faults, p, 5) && slots0.marker !in events0)))
    && (ok ==> && log == log0 + it
               && slots == IssuedSlots(faults, p, n, slots0))
  }

  /** The handle variables after a successful enqueue that issued handles
      from n on at log position p: the buffers and the launch and read
      events are new; a write event and the marker are new only if their
      call succeeded, otherwise the variable keeps its old handle. */
  function IssuedSlots(faults: set<nat>, p: nat, n: Handle, slots0: Slots): Slots
  {
    Slots(n, n + 1, n + 2,
          if Succeeds(faults, p, 3) then n + 3 else slots0.write1,
          if Succeeds(faults, p, 4) then n + 4 else slots0.write2,
          MarkerWait(faults, p, n, slots0.marker), n + 6, n + 7)
  }

  /** Issued leaves nothing open: two enqueues from the same state over the
      same faults agree on success, on the log and on the step at which they
      stopped, which is therefore the first checked call that fails. */
  lemma {:induction false} IssuedDetermined(log0: seq<Entry>, faults: set<nat>, n: Handle, events0: set<Handle>,
                                            s: Setup, slots0: Slots,
                                            ok1: bool, failed1: nat, log1: seq<Entry>, slots1: Slots,
                                            ok2: bool, failed2: nat, log2: seq<Entry>, slots2: Slots)
    requires Issued(ok1, failed1, log0, log1, faults, n, events0, s, slots0, slots1)
    requires Issued(ok2, failed2, log0, log2, faults, n, events0, s, slots0, slots2)
    ensures ok1 == ok2 && log1 == log2
    ensures ok1 ==> slots1 == slots2
    ensures !ok1 ==> failed1 == failed2
  {
  }

  lemma {:induction false} AbortedAtAppend(a: seq<Entry>, b: seq<Entry>, c: seq<Entry>, j: nat)
    requires j < |b|
    ensures a + AbortedAt(b, j) == AbortedAt(a + b + c, |a| + j)
  {
    assert (a + b + c)[..|a| + j] == a + b[..j];
    assert (a + b + c)[|a| + j] == b[j];
  }

  /** A failed buffer creation ends the enqueue. */
  lemma CreatesFailed(log0: seq<Entry>, log: seq<Entry>, faults: set<nat>, n: Handle, events0: set<Handle>,
                      s: Setup, slots0: Slots, slots: Slots, failed: nat)
    requires failed < 3 && |log0| + failed in faults
    requires (failed > 0 ==> Succeeds(faults, |log0|, 0)) && (failed > 1 ==> Succeeds(faults, |log0|, 1))
    requires log == log0 + AbortedAt(Creates(s.context, s.bytes, n), failed)
    ensures Issued(false, failed, log0, log, faults, n, events0, s, slots0, slots)
  {
    var p := |log0|;
    var c := Creates(s.context, s.bytes, n);
    var it := CallsOf(faults, p, n, s, slots0.marker);
    var rest := it[3..];
    assert it == c + rest;
    AbortedAtAppend([], c, rest, failed);
    assert [] + c + rest == it;
    assert [] + AbortedAt(c, failed) == AbortedAt(c, failed);
    assert !Succeeds(faults, p, failed) && CheckedStep(failed);
  }

  /** A failed kernel-argument call ends the enqueue after the creations
      and the writes. */
  lemma ArgsFailed(log0: seq<Entry>, log: seq<Entry>, faults: set<nat>, n: Handle, events0: set<Handle>,
                   s: Setup, slots0: Slots, slots: Slots, failed: nat)
    requires failed < 3 && |log0| + 6 + failed in faults
    requires Succeeds(faults, |log0|, 0) && Succeeds(faults, |log0|, 1) && Succeeds(faults, |log0|, 2)
    requires (failed > 0 ==> Succeeds(faults, |log0|, 6)) && (failed > 1 ==> Succeeds(faults, |log0|, 7))
    requires var p := |log0|;
             log == log0 + Creates(s.context, s.bytes, n)
                    + Writes(s.queue, n, n + 1, s.bytes, n + 3, Succeeds(faults, p, 3), Succeeds(faults, p, 4), Succeeds(faults, p, 5))
                    + AbortedAt(Args(s.kernel, n, n + 1, n + 2), failed)
    ensures Issued(false, 6 + failed, log0, log, faults, n, events0, s, slots0, slots)
  {
    var p := |log0|;
    var cw := Creates(s.context, s.bytes, n)
              + Writes(s.queue, n, n + 1, s.bytes, n + 3, Succeeds(faults, p, 3), Succeeds(faults, p, 4), Succeeds(faults, p, 5));
    var a := Args(s.kernel, n, n + 1, n + 2);
    var l := Launch(s.queue, s.kernel, s.dims, MarkerWait(faults, p, n, slots0.marker), n + 2, s.bytes, n + 6, Succeeds(faults, p, 11));
    AbortedAtAppend(cw, a, l, failed);
    assert log == log0 + (cw + AbortedAt(a, failed));
    assert !Succeeds(faults, p, 6 + failed) && CheckedStep(6 + failed);
  }

  /** A failed launch, read or callback registration ends the enqueue after
      the kernel arguments; the launch also fails when it waits on an event
      that is not live. */
  lemma LaunchFailed(log0: seq<Entry>, log: seq<Entry>, faults: set<nat>, n: Handle, events0: set<Handle>,
                     s: Setup, slots0: Slots, slots: Slots, failed: nat)
    requires failed < 4 && failed != 2
    requires var p := |log0|;
             || p + 9 + failed in faults
             || (failed == 0 && !Succeeds(faults, p, 5) && slots0.marker !in events0)
    requires var p := |log0|;
             && Succeeds(faults, p, 0) && Succeeds(faults, p, 1) && Succeeds(faults, p, 2)
             && Succeeds(faults, p, 6) && Succeeds(faults, p, 7) && Succeeds(faults, p, 8)
             && (failed > 0 ==> Succeeds(faults, p, 9)) && (failed > 1 ==> Succeeds(faults, p, 10))
             && (failed > 0 ==> Succeeds(faults, p, 5) || slots0.marker in events0)
    requires var p := |log0|;
             log == log0 + Creates(s.context, s.bytes, n)
                    + Writes(s.queue, n, n + 1, s.bytes, n + 3, Succeeds(faults, p, 3), Succeeds(faults, p, 4), Succeeds(faults, p, 5))
                    + Args(s.kernel, n, n + 1, n + 2)
                    + AbortedAt(Launch(s.queue, s.kernel, s.dims, MarkerWait(faults, p, n, slots0.marker), n + 2, s.bytes, n + 6, Succeeds(faults, p, 11)), failed)
    ensures Issued(false, 9 + failed, log0, log, faults, n, events0, s, slots0, slots)
  {
    var p := |log0|;
    var cwa := Creates(s.context, s.bytes, n)
               + Writes(s.queue, n, n + 1, s.bytes, n + 3, Succeeds(faults, p, 3), Succeeds(faults, p, 4), Succeeds(faults, p, 5))
               + Args(s.kernel, n, n + 1, n + 2);
    var l := Launch(s.queue, s.kernel, s.dims, MarkerWait(faults, p, n, slots0.marker), n + 2, s.bytes, n + 6, Succeeds(faults, p, 11));
    AbortedAtAppend(cwa, l, [], failed);
    assert cwa + l + [] == cwa + l;
    assert log == log0 + (cwa + AbortedAt(l, failed));
    assert CheckedStep(9 + failed);
  }

  /** An enqueue none of whose checked calls failed. */
  lemma AllIssued(log0: seq<Entry>, log: seq<Entry>, faults: set<nat>, n: Handle, events0: set<Handle>,
                  s: Setup, slots0: Slots, slots: Slots)
    requires var p := |log0|;
             && (forall j :: CheckedStep(j) ==> Succeeds(faults, p, j))
             && (Succeeds(faults, p, 5) || slots0.marker in events0)
    requires var p := |log0|;
             log == log0 + Creates(s.context, s.bytes, n)
                    + Writes(s.queue, n, n + 1, s.bytes, n + 3, Succeeds(faults, p, 3), Succeeds(faults, p, 4), Succeeds(faults, p, 5))
                    + Args(s.kernel, n, n + 1, n + 2)
                    + Launch(s.queue, s.kernel, s.dims, MarkerWait(faults, p, n, slots0.marker), n + 2, s.bytes, n + 6, Succeeds(faults, p, 11))
    requires slots == IssuedSlots(faults, |log0|, n, slots0)
    ensures Issued(true, 0, log0, log, faults, n, events0, s, slots0, slots)
  {
    var p := |log0|;
    var c := Creates(s.context, s.bytes, n);
    var w := Writes(s.queue, n, n + 1, s.bytes, n + 3, Succeeds(faults, p, 3), Succeeds(faults, p, 4), Succeeds(faults, p, 5));
    var a := Args(s.kernel, n, n + 1, n + 2);
    var l := Launch(s.queue, s.kernel, s.dims, MarkerWait(faults, p, n, slots0.marker), n + 2, s.bytes, n + 6, Succeeds(faults, p, 11));
    assert log0 + c + w + a + l == log0 + (c + w + a + l);
  }

  /** The events cmd's destructor releases: the last write events and the
      last kernel and read events. */
  function Released(slots: Slots): set<Handle>
  {
    {slots.write1, slots.write2, slots.launched, slots.read}
  }

  /** What a cmd owns of the runtime's live objects, on top of the
      `baseBuffers` and `baseEvents` that were live before it: its three
      buffers while an iteration is in flight, and the events `mine` it
      created, five per iteration when no call fails, among them the ones
      its destructor releases. */
  ghost predicate Owns(buffers: set<Handle>, events: set<Handle>, baseBuffers: set<Handle>, baseEvents: set<Handle>,
                       mine: set<Handle>, slots: Slots, inFlight: bool, enqueues: nat, faultFree: bool)
  {
    OwnsBuffers(buffers, baseBuffers, slots, inFlight) && OwnsEvents(events, baseEvents, mine, slots, enqueues, faultFree)
  }

  ghost predicate OwnsBuffers(buffers: set<Handle>, baseBuffers: set<Handle>, slots: Slots, inFlight: bool)
  {
    && buffers == baseBuffers + (if inFlight then {slots.in1, slots.in2, slots.out} else {})
    && (inFlight ==> slots.in1 != slots.in2 && slots.in1 != slots.out && slots.in2 != slots.out)
    && (inFlight ==> slots.in1 !in baseBuffers && slots.in2 !in baseBuffers && slots.out !in baseBuffers)
  }

  /** Releasing the three buffers of an iteration in flight leaves exactly
      the buffers that were live before it. */
  lemma BuffersAfterRelease(buffers: set<Handle>, baseBuffers: set<Handle>, slots: Slots)
    requires OwnsBuffers(buffers, baseBuffers, slots, true)
    ensures OwnsBuffers(buffers - {slots.in1, slots.in2, slots.out}, baseBuffers, slots, false)
  {
  }

  ghost predicate OwnsEvents(events: set<Handle>, baseEvents: set<Handle>, mine: set<Handle>, slots: Slots,
                             enqueues: nat, faultFree: bool)
  {
    && events == baseEvents + mine && baseEvents !! mine
    && (faultFree ==> |mine| == 5 * enqueues)
    && (faultFree && enqueues > 0 ==> Released(slots) <= mine && |Released(slots)| == 4)
  }

  /** The events an iteration adds are new: their handles lie at or past
      n, where every earlier live event lies below. */
  lemma AddedEvents(events0: set<Handle>, faults: set<nat>, p: nat, n: Handle)
    requires forall h :: h in events0 ==> h < n
    ensures var added := WrittenEvents(faults, p + 3, n + 3) + {n + 6, n + 7};
            && events0 !! added
            && (events0 + WrittenEvents(faults, p + 3, n + 3) + {n + 6, n + 7}) - events0 == added
  {
  }

  /** When no call fails an iteration adds five events. */
  lemma AddedFive(faults: set<nat>, p: nat, n: Handle)
    requires faults == {}
    ensures WrittenEvents(faults, p + 3, n + 3) + {n + 6, n + 7} == {n + 3, n + 4, n + 5, n + 6, n + 7}
    ensures |{n + 3, n + 4, n + 5, n + 6, n + 7}| == 5
  {
  }

  /** A successful enqueue, which issues buffers n, n + 1, n + 2 while
      every earlier live buffer lies below n, adds them to what the cmd owns. */
  lemma BuffersAfterIssue(buffers0: set<Handle>, buffers: set<Handle>, baseBuffers: set<Handle>, slots0: Slots, slots: Slots, n: Handle)
    requires OwnsBuffers(buffers0, baseBuffers, slots0, false)
    requires forall h :: h in buffers0 ==> h < n
    requires buffers == buffers0 + {n, n + 1, n + 2}
    requires slots.in1 == n && slots.in2 == n + 1 && slots.out == n + 2
    ensures OwnsBuffers(buffers, baseBuffers, slots, true)
  {
  }

  /** A successful enqueue adds its new events to those the cmd owns: five
      when no call fails, among them the four its destructor releases. */
  lemma {:induction false} EventsAfterIssue(events0: set<Handle>, events: set<Handle>, baseEvents: set<Handle>, mine0: set<Handle>,
                                            slots0: Slots, slots: Slots, enqueues0: nat, faults: set<nat>, p: nat, n: Handle,
                                            mine: set<Handle>, enqueues: nat)
    requires OwnsEvents(events0, baseEvents, mine0, slots0, enqueues0, faults == {})
    requires forall h :: h in events0 ==> h < n
    requires events == events0 + WrittenEvents(faults, p + 3, n + 3) + {n + 6, n + 7}
    requires slots.write1 == (if Succeeds(faults, p, 3) then n + 3 else slots0.write1)
    requires slots.write2 == (if Succeeds(faults, p, 4) then n + 4 else slots0.write2)
    requires slots.launched == n + 6 && slots.read == n + 7
    requires mine == mine0 + (events - events0) && enqueues == enqueues0 + 1
    ensures OwnsEvents(events, baseEvents, mine, slots, enqueues, faults == {})
  {
    AddedEvents(events0, faults, p, n);
    var added := WrittenEvents(faults, p + 3, n + 3) + {n + 6, n + 7};
    assert mine == mine0 + added;
    if faults == {} {
      AddedFive(faults, p, n);
      assert |mine| == |mine0| + 5;
      assert Released(slots) == {n + 3, n + 4, n + 6, n + 7};
    }
  }

  /** A successful enqueue that issued handles from n on at log position p,
      while every earlier live buffer and event lies below n, adds its three
      buffers and its new events to what the cmd owns. */
  lemma OwnsAfterIssue(buffers0: set<Handle>, events0: set<Handle>, baseBuffers: set<Handle>, baseEvents: set<Handle>,
                       mine0: set<Handle>, slots0: Slots, enqueues0: nat, faults: set<nat>, p: nat, n: Handle)
    requires Owns(buffers0, events0, baseBuffers, baseEvents, mine0, slots0, false, enqueues0, faults == {})
    requires forall h :: h in buffers0 ==> h < n
    requires forall h :: h in events0 ==> h < n
    ensures var events := events0 + WrittenEvents(faults, p + 3, n + 3) + {n + 6, n + 7};
            Owns(buffers0 + {n, n + 1, n + 2}, events, baseBuffers, baseEvents, mine0 + (events - events0),
                 IssuedSlots(faults, p, n, slots0), true, enqueues0 + 1, faults == {})
  {
    var events := events0 + WrittenEvents(faults, p + 3, n + 3) + {n + 6, n + 7};
    var slots := IssuedSlots(faults, p, n, slots0);
    BuffersAfterIssue(buffers0, buffers0 + {n, n + 1, n + 2}, baseBuffers, slots0, slots, n);
    EventsAfterIssue(events0, events, baseEvents, mine0, slots0, slots, enqueues0, faults, p, n,
                     mine0 + (events - events0), enqueues0 + 1);
  }

  /** The release calls of cmd::make_decision. */
  function BufferReleases(b1: Handle, b2: Handle, b3: Handle): seq<Entry>
  {
    [Entry(Command.ReleaseMemObject(b1), true), Entry(Command.ReleaseMemObject(b2), true), Entry(Command.ReleaseMemObject(b3), true)]
  }

  /** The four clReleaseEvent calls of cmd::~cmd on e1..e4, each succeeding
      iff its event is still live at that point. */
  function EventReleases(live: set<Handle>, e1: Handle, e2: Handle, e3: Handle, e4: Handle): seq<Entry>
  {
    [ Entry(Command.ReleaseEvent(e1), e1 in live),
      Entry(Command.ReleaseEvent(e2), e2 in live - {e1}),
      Entry(Command.ReleaseEvent(e3), e3 in live - {e1, e2}),
      Entry(Command.ReleaseEvent(e4), e4 in live - {e1, e2, e3}) ]
  }

  /** When no call fails, a command that ran k >= 1 iterations and releases
      only the last iteration's four events leaves 5k - 4 of its own events
      live: every marker, and all events of the earlier iterations. */
  lemma {:induction false} LeakedEvents(events: set<Handle>, baseEvents: set<Handle>, mine: set<Handle>, slots: Slots, enqueues: nat)
    requires OwnsEvents(events, baseEvents, mine, slots, enqueues, true) && enqueues > 0
    ensures events - Released(slots) == baseEvents + (mine - Released(slots))
    ensures |mine - Released(slots)| == 5 * enqueues - 4
  {
    var r := Released(slots);
    assert (mine - r) + r == mine;
    assert (mine - r) !! r;
  }

  class Cmd {
    const size: nat
    const maxIterations: nat
    var currentIterations: nat
    var matrix1: seq<int>
    var matrix2: seq<int>
    var result: seq<int>
    const dimensions: seq<nat>
    var bufIn1: Handle
    var bufIn2: Handle
    var bufOut: Handle
    const writeEvents: array<Handle>
    var kernelEvent: Handle
    var readEvent: Handle
    var marker: Handle
    const kernel: RefCount.SmartPtr
    const context: RefCount.SmartPtr
    const queue: RefCount.SmartPtr
    const rt: RefCount.Runtime
    const device: Device
    /** The read event's callback is registered and has not yet run. */
    var inFlight: bool
    /** The condition variable was notified: the pipeline is done. */
    var notified: bool
    /** A checked call failed and check_cl_error ended the program. */
    var aborted: bool
    /** When aborted: the offset, within the last iteration, of the call that failed. */
    ghost var failedStep: nat
    ghost var enqueues: nat
    ghost const baseBuffers: set<Handle>
    ghost const baseEvents: set<Handle>
    /** The live events this command created. */
    ghost var mine: set<Handle>

    /** The runtime objects and buffer size cmd::enqueue works with. */
    function CurrentSetup(): Setup
      reads context, queue, kernel
    {
      Setup(context.Get(), queue.Get(), kernel.Get(), dimensions, FloatBytes * (size * size))
    }

    /** The current values of the handle variables. */
    function CurrentSlots(): Slots
      reads this`bufIn1, this`bufIn2, this`bufOut, this`marker, this`kernelEvent, this`readEvent, writeEvents
      requires writeEvents.Length == 2
    {
      Slots(bufIn1, bufIn2, bufOut, writeEvents[0], writeEvents[1], marker, kernelEvent, readEvent)
    }

    ghost predicate Valid()
      reads this`bufIn1, this`bufIn2, this`bufOut, this`marker, this`kernelEvent, this`readEvent, writeEvents
      reads this`mine, this`enqueues, this`currentIterations, this`inFlight, this`notified
      reads device, rt, kernel, context, queue
    {
      && Core()
      && DeviceOk()
      && Owns(device.buffers, device.events, baseBuffers, baseEvents, mine, CurrentSlots(), inFlight, enqueues, device.faults == {})
    }

    /** The wrappers share one consistent runtime, and the iteration counter
        stays within the budget. */
    ghost predicate Core()
      reads this`enqueues, this`currentIterations, this`inFlight, this`notified
      reads rt, kernel, context, queue
    {
      && kernel != context && kernel != queue && context != queue
      && kernel.rt == rt && context.rt == rt && queue.rt == rt
      && kernel.Valid() && context.Valid() && queue.Valid()
      && writeEvents.Length == 2
      && dimensions == [size, size]
      && enqueues == currentIterations + (if inFlight then 1 else 0)
      && (notified ==> !inFlight && currentIterations == Max(maxIterations, 1))
      && (!notified ==> currentIterations < Max(maxIterations, 1))
    }

    /** The runtime is consistent and the marker variable holds a handle it
        has issued (or the null handle). */
    ghost predicate DeviceOk()
      reads this`marker, device
    {
      device.Valid() && marker < device.next
    }

    /** cmd::cmd (cmd.cpp:11-22): copies the three wrappers (one retain
        each), no iteration done, global size {size, size}. */
    constructor (size: nat, kernel: RefCount.SmartPtr, context: RefCount.SmartPtr,
                 queue: RefCount.SmartPtr, iterations: nat, device: Device)
      requires kernel.Valid() && context.Valid() && queue.Valid()
      requires context.rt == kernel.rt && queue.rt == kernel.rt
      requires device.Valid()
      modifies kernel.rt
      ensures Valid() && fresh(writeEvents)
      ensures this.size == size && maxIterations == iterations && currentIterations == 0
      ensures dimensions == [size, size] && this.device == device && rt == kernel.rt
      ensures this.kernel.ptr == kernel.ptr && this.context.ptr == context.ptr && this.queue.ptr == queue.ptr
      ensures fresh(this.kernel) && fresh(this.context) && fresh(this.queue)
      ensures !inFlight && !notified && !aborted && enqueues == 0
      ensures baseBuffers == device.buffers && baseEvents == device.events && mine == {}
      ensures unchanged(device)
      ensures rt.log == old(kernel.rt.log) + RefCount.RetainCalls(kernel.ptr)
                        + RefCount.RetainCalls(context.ptr) + RefCount.RetainCalls(queue.ptr)
      ensures rt.next == old(kernel.rt.next)
    {
      var k := new RefCount.SmartPtr.Copy(kernel);
      var c := new RefCount.SmartPtr.Copy(context);
      var q := new RefCount.SmartPtr.Copy(queue);
      this.size := size;
      this.kernel, this.context, this.queue := k, c, q;
      this.rt := kernel.rt;
      this.device := device;
      maxIterations := iterations;
      currentIterations := 0;
      dimensions := [size, size];
      matrix1, matrix2, result := [], [], [];
      bufIn1, bufIn2, bufOut := RefCount.Null, RefCount.Null, RefCount.Null;
      writeEvents := new Handle[2](_ => RefCount.Null);
      kernelEvent, readEvent, marker := RefCount.Null, RefCount.Null, RefCount.Null;
      inFlight, notified, aborted := false, false, false;
      failedStep := 0;
      enqueues := 0;
      baseBuffers := device.buffers;
      baseEvents := device.events;
      mine := {};
    }

    /** cmd::enqueue (cmd.cpp:36-94): the host matrices are refilled with
        0, 1, ..., size*size - 1 and result_ is resized, then the chain of
        runtime calls of Iteration is issued (Issue); a failed checked call
        ends the program. */
    method Enqueue()
      requires Valid() && !inFlight && !notified && !aborted
      modifies this, writeEvents, device
      ensures matrix1 == Iota(size * size) && matrix2 == Iota(size * size)
      ensures result == Resized(old(result), size * size)
      ensures currentIterations == old(currentIterations) && !notified
      ensures writeEvents.Length == 2
      ensures Issued(!aborted, failedStep, old(device.log), device.log, device.faults, old(device.next),
                     old(device.events), CurrentSetup(), old(CurrentSlots()), CurrentSlots())
      ensures !aborted ==> inFlight && Valid() && enqueues == old(enqueues) + 1
      ensures aborted ==> !inFlight
      ensures device.faults == {} ==> !aborted
    {
      Refill();
      IssueIteration();
    }

    /** cmd.cpp:46-93: the runtime calls of one iteration, and the
        bookkeeping of a successful one: the buffers and events it created
        become the command's, and the callback is in flight. */
    method IssueIteration()
      requires Valid() && !inFlight && !notified && !aborted
      modifies this`bufIn1, this`bufIn2, this`bufOut, this`marker, this`kernelEvent, this`readEvent, writeEvents
      modifies this`inFlight, this`enqueues, this`mine, this`aborted, this`failedStep, device
      ensures Issued(!aborted, failedStep, old(device.log), device.log, device.faults, old(device.next),
                     old(device.events), CurrentSetup(), old(CurrentSlots()), CurrentSlots())
      ensures !aborted ==> inFlight && Valid() && enqueues == old(enqueues) + 1
      ensures aborted ==> !inFlight
      ensures device.faults == {} ==> !aborted
    {
      ghost var n, p, buffers0, events0, slots0 := device.next, |device.log|, device.buffers, device.events, CurrentSlots();
      var setup, slots := CurrentSetup(), CurrentSlots();
      var ok;
      ok, failedStep, slots := Issue(setup, slots);
      if ok {
        OwnsAfterIssue(buffers0, events0, baseBuffers, baseEvents, mine, slots0, enqueues, device.faults, p, n);
      }
      Record(ok, slots, mine + (device.events - events0));
      assert CurrentSetup() == setup;
    }

    /** cmd::make_decision (cmd.cpp:101-122), which the read event's
        callback runs: Finish, then, unless the command was notified,
        cmd::enqueue for the next iteration. */
    method Complete()
      requires Valid() && inFlight && !aborted
      modifies this, writeEvents, device
      ensures currentIterations == old(currentIterations) + 1 && currentIterations <= Max(maxIterations, 1)
      ensures notified <==> currentIterations >= maxIterations
      ensures var released := old(device.log) + BufferReleases(old(bufIn1), old(bufIn2), old(bufOut));
              && (notified ==> device.log == released && device.buffers == baseBuffers && Valid() && !inFlight)
              && (!notified ==> Issued(!aborted, failedStep, released, device.log, device.faults, old(device.next),
                                       old(device.events), CurrentSetup(), old(CurrentSlots()), CurrentSlots()))
      ensures !aborted ==> Valid()
      ensures !notified && !aborted ==> inFlight
      ensures aborted ==> !inFlight && !notified
      ensures device.faults == {} ==> !aborted
    {
      Finish();
      if !notified {
        Enqueue();
      }
    }

    /** cmd.cpp:102, 114-118: counts the finished iteration, releases its
        three buffers, and notifies once the count reaches max_iterations_. */
    method Finish()
      requires Valid() && inFlight
      modifies this`currentIterations, this`inFlight, this`notified, device
      ensures Valid() && !inFlight
      ensures currentIterations == old(currentIterations) + 1
      ensures notified <==> currentIterations >= maxIterations
      ensures device.log == old(device.log) + BufferReleases(bufIn1, bufIn2, bufOut)
      ensures device.buffers == baseBuffers
      ensures device.events == old(device.events) && device.next == old(device.next)
    {
      ghost var slots := CurrentSlots();
      BuffersAfterRelease(device.buffers, baseBuffers, slots);
      currentIterations := currentIterations + 1;
      ReleaseBuffers();
      inFlight := false;
      if currentIterations >= maxIterations {
        notified := true;
      }
      assert CurrentSlots() == slots;
    }

    /** cmd.cpp:114-116: the three buffers of the iteration are released. */
    method ReleaseBuffers()
      requires device.Valid()
      requires bufIn1 != bufIn2 && bufIn1 != bufOut && bufIn2 != bufOut
      requires bufIn1 in device.buffers && bufIn2 in device.buffers && bufOut in device.buffers
      modifies device
      ensures device.Valid()
      ensures device.log == old(device.log) + BufferReleases(bufIn1, bufIn2, bufOut)
      ensures device.buffers == old(device.buffers) - {bufIn1, bufIn2, bufOut}
      ensures device.events == old(device.events) && device.next == old(device.next)
    {
      var ok1 := device.ReleaseMemObject(bufIn1);
      var ok2 := device.ReleaseMemObject(bufIn2);
      var ok3 := device.ReleaseMemObject(bufOut);
    }

    /** cmd::~cmd (cmd.cpp:26-34) followed by the destruction of the wrapper
        members in reverse declaration order (cmd.hpp:31-33): the last
        iteration's two write events, kernel event and read event are
        released -- never the marker and never a buffer -- then the
        command's reference to the queue, the context and the kernel. */
    method Destroy()
      requires Valid()
      modifies device, kernel, context, queue, rt
      ensures device.log == old(device.log) + EventReleases(old(device.events), old(writeEvents[0]), old(writeEvents[1]),
                                                             old(kernelEvent), old(readEvent))
      ensures device.events == old(device.events) - old(Released(CurrentSlots()))
      ensures device.buffers == old(device.buffers) && device.next == old(device.next)
      ensures rt.log == old(rt.log) + RefCount.ReleaseCalls(old(queue.ptr)) + RefCount.ReleaseCalls(old(context.ptr))
                        + RefCount.ReleaseCalls(old(kernel.ptr))
      ensures rt.next == old(rt.next)
      ensures queue.ptr == RefCount.Null && context.ptr == RefCount.Null && kernel.ptr == RefCount.Null
      ensures device.faults == {} && old(enqueues) > 0 ==>
                && device.events == baseEvents + (old(mine) - old(Released(CurrentSlots())))
                && |old(mine) - old(Released(CurrentSlots()))| == 5 * old(enqueues) - 4
    {
      ReleaseLastEvents();
      DropWrappers();
    }

    /** cmd.cpp:30-33. */
    method ReleaseLastEvents()
      requires Valid()
      modifies device
      ensures device.log == old(device.log) + EventReleases(old(device.events), writeEvents[0], writeEvents[1],
                                                             kernelEvent, readEvent)
      ensures device.events == old(device.events) - Released(CurrentSlots())
      ensures device.buffers == old(device.buffers) && device.next == old(device.next)
      ensures device.faults == {} && enqueues > 0 ==>
                && device.events == baseEvents + (mine - Released(CurrentSlots()))
                && |mine - Released(CurrentSlots())| == 5 * enqueues - 4
    {
      ghost var events0 := device.events;
      if device.faults == {} && enqueues > 0 {
        LeakedEvents(device.events, baseEvents, mine, CurrentSlots(), enqueues);
      }
      var ok := device.ReleaseEvent(writeEvents[0]);
      ok := device.ReleaseEvent(writeEvents[1]);
      ok := device.ReleaseEvent(kernelEvent);
      ok := device.ReleaseEvent(readEvent);
      assert device.events == events0 - Released(CurrentSlots());
    }

    /** The wrapper members' destructors, queue_ first (cmd.hpp:31-33). */
    method DropWrappers()
      requires Core()
      modifies kernel, context, queue, rt
      ensures rt.log == old(rt.log) + RefCount.ReleaseCalls(old(queue.ptr)) + RefCount.ReleaseCalls(old(context.ptr))
                        + RefCount.ReleaseCalls(old(kernel.ptr))
      ensures queue.ptr == RefCount.Null && context.ptr == RefCount.Null && kernel.ptr == RefCount.Null
      ensures rt.next == old(rt.next)
    {
      queue.Destroy();
      context.Destroy();
      kernel.Destroy();
    }

    /** cmd.cpp:38-43: the inputs are resized and filled by std::iota from
        0, the result resized. */
    method Refill()
      modifies this`matrix1, this`matrix2, this`result
      ensures matrix1 == Iota(size * size) && matrix2 == Iota(size * size)
      ensures result == Resized(old(result), size * size)
    {
      var matrixSize := size * size;
      matrix1 := Iota(matrixSize);
      matrix2 := Iota(matrixSize);
      result := Resized(result, matrixSize);
    }

    /** Stores the handle variables; after a successful enqueue the
        command owns `owned` and the callback is in flight, otherwise the
        program ends. */
    method Record(ok: bool, slots: Slots, ghost owned: set<Handle>)
      requires writeEvents.Length == 2
      modifies this`bufIn1, this`bufIn2, this`bufOut, this`marker, this`kernelEvent, this`readEvent, writeEvents
      modifies this`inFlight, this`enqueues, this`mine, this`aborted
      ensures CurrentSlots() == slots
      ensures ok ==> inFlight && enqueues == old(enqueues) + 1 && mine == owned && aborted == old(aborted)
      ensures !ok ==> aborted && inFlight == old(inFlight) && enqueues == old(enqueues) && mine == old(mine)
    {
      bufIn1, bufIn2, bufOut := slots.in1, slots.in2, slots.out;
      writeEvents[0], writeEvents[1] := slots.write1, slots.write2;
      marker, kernelEvent, readEvent := slots.marker, slots.launched, slots.read;
      if ok {
        inFlight, enqueues, mine := true, enqueues + 1, owned;
      } else {
        aborted := true;
      }
    }

    /** cmd.cpp:46-93: the calls of Iteration in order, stopping at the first
        checked call that fails; returns the new values of the handle
        variables, which start as `slots0`. */
    method Issue(s: Setup, slots0: Slots) returns (ok: bool, ghost failed: nat, slots: Slots)
      requires device.Valid() && slots0.marker < device.next
      requires s == CurrentSetup()
      modifies device
      ensures device.Valid() && slots.marker < device.next
      ensures Issued(ok, failed, old(device.log), device.log, device.faults, old(device.next), old(device.events), s, slots0, slots)
      ensures ok ==> device.buffers == old(device.buffers) + {old(device.next), old(device.next) + 1, old(device.next) + 2}
      ensures ok ==> device.next == old(device.next) + 8
      ensures ok ==> slots == IssuedSlots(device.faults, |old(device.log)|, old(device.next), slots0)
      ensures ok ==> device.events == old(device.events) + WrittenEvents(device.faults, |old(device.log)| + 3, old(device.next) + 3)
                                      + {old(device.next) + 6, old(device.next) + 7}
    {
      ghost var log0, n, events0 := device.log, device.next, device.events;
      slots := slots0;
      var b1, b2, b3;
      b1, b2, b3, ok, failed := CreateBuffers(s.bytes);
      if !ok {
        CreatesFailed(log0, device.log, device.faults, n, events0, s, slots0, slots, failed);
        return;
      }
      var e1, e2, mk := WriteInputs(b1, b2, s.bytes, slots0.write1, slots0.write2, slots0.marker);
      ok, failed := BindArgs(b1, b2, b3);
      if !ok {
        ArgsFailed(log0, device.log, device.faults, n, events0, s, slots0, slots, failed);
        failed := 6 + failed;
        return;
      }
      ok, failed, slots := IssueLaunch(s, slots0, b1, b2, b3, e1, e2, mk, log0, n, events0);
    }

    /** cmd.cpp:74-93: the second half of Issue, once the buffers exist, the
        inputs are written and the kernel arguments are set. */
    method IssueLaunch(s: Setup, slots0: Slots, b1: Handle, b2: Handle, b3: Handle, e1: Handle, e2: Handle, mk: Handle,
                       ghost log0: seq<Entry>, ghost n: Handle, ghost events0: set<Handle>)
      returns (ok: bool, ghost failed: nat, slots: Slots)
      requires device.Valid() && s == CurrentSetup()
      requires b1 == n && b2 == n + 1 && b3 == n + 2 && b3 in device.buffers && device.next == n + 6
      requires var p := |log0|;
               && device.log == log0 + Creates(s.context, s.bytes, n)
                  + Writes(s.queue, n, n + 1, s.bytes, n + 3, Succeeds(device.faults, p, 3), Succeeds(device.faults, p, 4), Succeeds(device.faults, p, 5))
                  + Args(s.kernel, n, n + 1, n + 2)
               && e1 == (if Succeeds(device.faults, p, 3) then n + 3 else slots0.write1)
               && e2 == (if Succeeds(device.faults, p, 4) then n + 4 else slots0.write2)
               && mk == MarkerWait(device.faults, p, n, slots0.marker)
               && device.events == events0 + WrittenEvents(device.faults, p + 3, n + 3)
               && Succeeds(device.faults, p, 0) && Succeeds(device.faults, p, 1) && Succeeds(device.faults, p, 2)
               && Succeeds(device.faults, p, 6) && Succeeds(device.faults, p, 7) && Succeeds(device.faults, p, 8)
      requires slots0.marker < n && forall h :: h in events0 ==> h < n
      modifies device
      ensures device.Valid() && slots.marker < device.next
      ensures Issued(ok, failed, log0, device.log, device.faults, n, events0, s, slots0, slots)
      ensures ok ==> device.buffers == old(device.buffers) && device.next == n + 8
      ensures ok ==> device.events == events0 + WrittenEvents(device.faults, |log0| + 3, n + 3) + {n + 6, n + 7}
    {
      var ke, re;
      ke, re, ok, failed := Enqueued(b3, s.bytes, mk, slots0.launched, slots0.read);
      slots := Slots(b1, b2, b3, e1, e2, mk, ke, re);
      if !ok {
        LaunchFailed(log0, device.log, device.faults, n, events0, s, slots0, slots, failed);
        failed := 9 + failed;
      } else {
        AllIssued(log0, device.log, device.faults, n, events0, s, slots0, slots);
      }
    }

    /** cmd.cpp:46-51: each creation is checked; `failed` is the offset of
        the one that failed. */
    method CreateBuffers(bytes: nat) returns (b1: Handle, b2: Handle, b3: Handle, ok: bool, ghost failed: nat)
      requires device.Valid()
      modifies device
      ensures device.Valid() && device.events == old(device.events) && device.next > old(device.next)
      ensures var n, p := old(device.next), |old(device.log)|;
              var calls := Creates(context.ptr, bytes, n);
              && (ok <==> p !in device.faults && p + 1 !in device.faults && p + 2 !in device.faults)
              && (ok ==> b1 == n && b2 == n + 1 && b3 == n + 2 && device.next == n + 3
                         && device.log == old(device.log) + calls
                         && device.buffers == old(device.buffers) + {n, n + 1, n + 2})
              && (!ok ==> failed < 3 && p + failed in device.faults
                          && (failed > 0 ==> p !in device.faults) && (failed > 1 ==> p + 1 !in device.faults)
                          && device.log == old(device.log) + AbortedAt(calls, failed))
    {
      b1, b2, b3 := RefCount.Null, RefCount.Null, RefCount.Null;
      failed := 0;
      b1, ok := device.CreateBuffer(context.Get(), ReadOnly, bytes);
      if !ok {
        return;
      }
      failed := 1;
      b2, ok := device.CreateBuffer(context.Get(), ReadOnly, bytes);
      if !ok {
        return;
      }
      failed := 2;
      b3, ok := device.CreateBuffer(context.Get(), WriteOnly, bytes);
    }

    /** cmd.cpp:53-64: the writes and the marker; their statuses are
        overwritten unchecked, and each event variable is overwritten only
        when its call succeeds. */
    method WriteInputs(b1: Handle, b2: Handle, bytes: nat, e1: Handle, e2: Handle, mk: Handle)
      returns (e1': Handle, e2': Handle, mk': Handle)
      requires device.Valid() && b1 in device.buffers && b2 in device.buffers
      modifies device
      ensures device.Valid() && device.buffers == old(device.buffers) && device.next == old(device.next) + 3
      ensures var n, p := old(device.next), |old(device.log)|;
              var w1, w2, m := p !in device.faults, p + 1 !in device.faults, p + 2 !in device.faults;
              && device.log == old(device.log) + Writes(queue.ptr, b1, b2, bytes, n, w1, w2, m)
              && e1' == (if w1 then n else e1) && e2' == (if w2 then n + 1 else e2) && mk' == (if m then n + 2 else mk)
              && device.events == old(device.events) + WrittenEvents(device.faults, p, n)
    {
      var err;
      e1', err := device.EnqueueWriteBuffer(queue.Get(), b1, false, bytes, e1);
      e2', err := device.EnqueueWriteBuffer(queue.Get(), b2, false, bytes, e2);
      mk', err := device.EnqueueMarker(queue.Get(), mk);
    }

    /** cmd.cpp:66-71, each call checked. */
    method BindArgs(b1: Handle, b2: Handle, b3: Handle) returns (ok: bool, ghost failed: nat)
      requires device.Valid() && b1 in device.buffers && b2 in device.buffers && b3 in device.buffers
      modifies device
      ensures device.Valid() && device.buffers == old(device.buffers) && device.events == old(device.events)
      ensures device.next == old(device.next)
      ensures var p := |old(device.log)|;
              var calls := Args(kernel.ptr, b1, b2, b3);
              && (ok <==> p !in device.faults && p + 1 !in device.faults && p + 2 !in device.faults)
              && (ok ==> device.log == old(device.log) + calls)
              && (!ok ==> failed < 3 && p + failed in device.faults
                          && (failed > 0 ==> p !in device.faults) && (failed > 1 ==> p + 1 !in device.faults)
                          && device.log == old(device.log) + AbortedAt(calls, failed))
    {
      failed := 0;
      ok := device.SetKernelArg(kernel.Get(), 0, b1);
      if !ok {
        return;
      }
      failed := 1;
      ok := device.SetKernelArg(kernel.Get(), 1, b2);
      if !ok {
        return;
      }
      failed := 2;
      ok := device.SetKernelArg(kernel.Get(), 2, b3);
    }

    /** cmd.cpp:74-93: launch, blocking read, flush (unchecked) and callback
        registration, the other three checked. */
    method Enqueued(b3: Handle, bytes: nat, markerWait: Handle, ke: Handle, re: Handle)
      returns (ke': Handle, re': Handle, ok: bool, ghost failed: nat)
      requires device.Valid() && b3 in device.buffers
      modifies device
      ensures device.Valid() && device.buffers == old(device.buffers) && device.next > old(device.next)
      ensures var n, p := old(device.next), |old(device.log)|;
              var calls := Launch(queue.ptr, kernel.ptr, dimensions, markerWait, b3, bytes, n, p + 2 !in device.faults);
              && (ok <==> p !in device.faults && markerWait in old(device.events) && p + 1 !in device.faults && p + 3 !in device.faults)
              && (ok ==> device.log == old(device.log) + calls && ke' == n && re' == n + 1 && device.next == n + 2
                         && device.events == old(device.events) + {n, n + 1})
              && (!ok ==> failed < 4 && failed != 2
                          && (p + failed in device.faults || (failed == 0 && markerWait !in old(device.events)))
                          && (failed > 0 ==> p !in device.faults) && (failed > 1 ==> p + 1 !in device.faults)
                          && (failed > 0 ==> markerWait in old(device.events))
                          && device.log == old(device.log) + AbortedAt(calls, failed))
    {
      failed := 0;
      ke', ok := device.EnqueueNDRangeKernel(queue.Get(), kernel.Get(), dimensions, markerWait, ke);
      re' := re;
      if !ok {
        return;
      }
      failed := 1;
      re', ok := device.EnqueueReadBuffer(queue.Get(), b3, true, bytes, ke', re);
      if !ok {
        return;
      }
      ok := device.Flush(queue.Get());
      failed := 3;
      ok := device.SetEventCallback(re');
    }
  }

  /** The life of one command as opencl_native.cpp:133-134 drives it, with
      the read event's callback made explicit: one enqueue from outside, then
      make_decision each time an iteration completes, until the command is
      notified. Unless a checked call failed, exactly max(max_iterations_, 1)
      iterations run and every buffer they created is released. */
  method Run(c: Cmd) returns (ghost log0: seq<Entry>, ghost n: Handle, ghost events0: set<Handle>, ghost slots0: Slots)
    requires c.Valid() && !c.inFlight && !c.notified && !c.aborted && c.currentIterations == 0
    modifies c, c.writeEvents, c.device
    ensures c.currentIterations <= Max(c.maxIterations, 1)
    ensures !c.aborted ==> c.Valid() && c.notified && c.currentIterations == Max(c.maxIterations, 1)
    ensures !c.aborted ==> c.device.buffers == c.baseBuffers
    ensures c.aborted ==> !c.inFlight && !c.notified
    ensures c.aborted ==> Issued(false, c.failedStep, log0, c.device.log, c.device.faults, n, events0,
                                 c.CurrentSetup(), slots0, c.CurrentSlots())
    ensures c.device.faults == {} ==> !c.aborted
  {
    log0, n, events0, slots0 := c.device.log, c.device.next, c.device.events, c.CurrentSlots();
    c.Enqueue();
    while c.inFlight && !c.aborted
      invariant !c.aborted ==> c.Valid()
      invariant c.aborted ==> !c.inFlight && !c.notified
      invariant c.aborted ==> Issued(false, c.failedStep, log0, c.device.log, c.device.faults, n, events0,
                                     c.CurrentSetup(), slots0, c.CurrentSlots())
      invariant !c.aborted && !c.inFlight ==> c.notified
      invariant c.currentIterations <= Max(c.maxIterations, 1)
      invariant c.device.faults == {} ==> !c.aborted
      decreases Max(c.maxIterations, 1) - c.currentIterations
    {
      ghost var before, n', events', slots' := c.device.log, c.device.next, c.device.events, c.CurrentSlots();
      ghost var released := before + BufferReleases(c.bufIn1, c.bufIn2, c.bufOut);
      c.Complete();
      if !c.notified {
        log0, n, events0, slots0 := released, n', events', slots';
      }
    }
  }
}
