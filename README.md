# Agere-LNCS-2017 benchmarks: a verified model of the sequential core

The benchmarks compare OpenCL through CAF actors with plain OpenCL host code.
Most of the repository is actor setup, device printing, timing and
floating-point Mandelbrot loops. This project models the sequential logic
underneath and proves what that logic promises:

- **RefCount** (`refcount.dfy`): the `smart_ptr<T, ref, deref>` wrapper of
  `util.hpp`. It follows the retain/release reference counting of section
  5.4.1 of the OpenCL 1.2 specification.
  - The runtime is a class that keeps the log of creating, retain and release
    calls. A handle's count is the net effect of that log.
  - `SmartPtr` is a class with the single field `m_ptr`. Each constructor,
    assignment, `reset`, `adopt` and the destructor is a method that states
    exactly which calls it appends to the log.
  - A value-level pool of any number of wrappers proves that every operation
    keeps each handle's count equal to the number of wrappers holding it.
- **Pipeline** (`pipeline.dfy`): the iterative command `cmd` of `cmd.hpp` and
  `cmd.cpp`, over a model of the OpenCL runtime (class `Device`). The device
  keeps:
  - the live buffers and the live events;
  - an ordered log of every call with its outcome;
  - a fixed set of log positions whose call fails.

  `cmd::enqueue` is a method that issues the fixed chain of one iteration.
  Every call whose status `check_cl_error` checks ends the run when it fails.
  `make_decision`, which the read event's callback runs, is an explicit
  `Complete` step. The command owns its three buffers while an iteration is
  in flight. When no runtime call fails, it owns five new events per
  iteration, and since its destructor releases only four events, `5k - 4`
  of its events stay live after `k` iterations.
- **Budget** (`budget.dfy`): the "one request, then stop or ask again"
  counter that `cmd`, `multiplier` and `copy_guy` each implement on their
  own. `TotalRequests` follows it step by step and is proved equal to
  max(budget, count).
- **Actors** (`actors.dfy`):
  - the `multiplier` actor of `opencl_caf.cpp`;
  - the `copy_guy` actor of `copy_ops_small.cpp`;
  - the option check of `copy_ops_small.cpp`'s `main`.

  Each handler is a method on a class holding `count_`. Each actor's outbox
  is a sequence field.
- **NativeMain** (`native.dfy`): `main` of `opencl_native.cpp`. It covers:
  - the exact argc/argv shape check;
  - the device search over an abstract table (device type, then platform,
    then device names), proved equal to a declarative choice;
  - the `adopt`-based creation of context, queue, program and kernel;
  - the single enqueue and wait;
  - the destruction of every wrapper on the way out;
  - the failed build, whose exception no handler catches, so the program
    ends without destroying the wrappers it holds.
- **Offload** (`offload.dfy`): `get_bottom`, `get_top` and the split of the
  image width in `bench_matrix_offloading.cpp`. All of it is in `uint32_t`
  arithmetic with wrap-around written out.
- **CpuMatrix** (`cpu_matrix.dfy`): `get`, `dot_product`, `simple_multiply`
  and `create_matrix` of `cpu_matrix.cpp`.
- **Kernels** (`kernels.dfy`): the OpenCL C kernels of `kernel.hpp`. Each
  kernel launch is a loop over all global ids that writes an output array.
  Per-work-item semantics follow section 6.12.1 of the OpenCL 1.2
  specification.
- **Layout** (`layout.dfy`): shared by the modules above. It holds the
  row-major index and the 3-D index, with their bijection lemmas, and the
  `std::iota` fill.

Two behaviours of the source look like defects and are modelled as written:
when no runtime call fails, `cmd`'s destructor leaks `5k - 4` events after
`k` iterations (`Pipeline.LeakedEvents`), and `wait` can miss `make_decision`'s
notification (see the threading line under "Left out").

Element values are integers. The handles issued by the runtime are natural
numbers, with 0 standing for `nullptr`.

## Model

| member | source | states |
|---|---|---|
| Layout.Index2Bounds | benchmarks/src/cpu_matrix.cpp:21-27 | every in-range (col, row) of a size x size matrix addresses a position inside the size*size vector, so `get` never reads out of bounds |
| Layout.Index2Below | benchmarks/src/cpu_matrix.cpp:21-27 | a cell of a matrix with `rows` rows lies below size*rows |
| Layout.Index2Injective | benchmarks/src/cpu_matrix.cpp:21-27 | distinct cells have distinct row-major positions |
| Layout.Index2Onto | benchmarks/src/cpu_matrix.cpp:21-27 | every position below size*rows is the position of the cell (i % size, i / size) |
| Layout.Index2Digits | benchmarks/src/cpu_matrix.cpp:21-27 | `%` and `/` recover a cell's column and row from its position |
| Layout.Index3Bounds | benchmarks/include/kernel.hpp:98-104 | the index x + size*(y + size*z) of a work item of the cube lies inside the size^3 vector |
| Layout.Index3Injective | benchmarks/include/kernel.hpp:98-104 | distinct work items of the cube write distinct positions |
| Layout.Index3Onto | benchmarks/include/kernel.hpp:98-104 | every position of the size^3 vector is the index of some work item |
| RefCount.ResetEffect | benchmarks/include/util.hpp:69-73 | `reset(p)` changes p's count by +1 and the old handle's count by -1, and nothing else; null contributes nothing |
| RefCount.CopyAssignEffect | benchmarks/include/util.hpp:63-67 | copy assignment has net effect +1 on the source's handle and -1 on the target's old handle; self-assignment leaves every count unchanged and the retain comes first, so the count never drops on the way |
| RefCount.ResetToSelfPassesZero | benchmarks/include/util.hpp:69-73 | resetting a sole-owned handle to itself drops its count to 0 before the retain restores it to 1 |
| RefCount.Runtime.Create | benchmarks/src/opencl_native.cpp:94-96 | a creating call returns a fresh non-null handle whose count is 1 |
| RefCount.SmartPtr.IsNull | benchmarks/include/util.hpp:81-87 | `operator!` is true exactly when `get()` returns null |
| RefCount.SmartPtr.IsSet | benchmarks/include/util.hpp:87-89 | `operator bool` is exactly the negation of `operator!` |
| RefCount.SmartPtr.constructor | benchmarks/include/util.hpp:39-41 | the wrapper holds p; exactly one retain of p is logged if p is non-null, and no call if it is null |
| RefCount.SmartPtr.Copy | benchmarks/include/util.hpp:45-47 | both wrappers hold the same handle and exactly one retain of it is logged |
| RefCount.SmartPtr.Move | benchmarks/include/util.hpp:49-51 | the handle moves to the new wrapper, the source becomes null, and the runtime is untouched |
| RefCount.SmartPtr.Reset | benchmarks/include/util.hpp:69-73 | the log gains the release of the old handle (if non-null) followed by the retain of p (if non-null); the wrapper then holds p |
| RefCount.SmartPtr.AssignRaw | benchmarks/include/util.hpp:53-56 | assigning a raw handle has exactly the effect of `reset` |
| RefCount.SmartPtr.Adopt | benchmarks/include/util.hpp:76-79 | the old handle is released and p is stored with no retain, so p's count is unchanged |
| RefCount.SmartPtr.MoveAssign | benchmarks/include/util.hpp:58-61 | the two wrappers swap handles (the source is not nulled) and no call is made |
| RefCount.SmartPtr.CopyAssign | benchmarks/include/util.hpp:63-67 | the target ends with the source's handle; the log gains the retain of the source's handle and then the release of the target's old handle |
| RefCount.SmartPtr.Destroy | benchmarks/include/util.hpp:43 | the destructor releases a held non-null handle exactly once and makes no call for null |
| RefCount.StepBalanced | benchmarks/include/util.hpp:37-89 | every wrapper operation keeps each non-null handle's count equal to the number of wrappers holding it |
| RefCount.ConstructBalanced | benchmarks/include/util.hpp:39-41 | constructing a wrapper from a handle keeps counts equal to holders |
| RefCount.CopyConstructBalanced | benchmarks/include/util.hpp:45-47 | copy construction keeps counts equal to holders |
| RefCount.MoveConstructBalanced | benchmarks/include/util.hpp:49-51 | move construction keeps counts equal to holders |
| RefCount.ResetBalanced | benchmarks/include/util.hpp:53-73 | `reset` and raw-handle assignment keep counts equal to holders |
| RefCount.MoveAssignBalanced | benchmarks/include/util.hpp:58-61 | move assignment keeps counts equal to holders |
| RefCount.CopyAssignBalanced | benchmarks/include/util.hpp:63-67 | copy assignment, self-assignment included, keeps counts equal to holders |
| RefCount.AdoptBalanced | benchmarks/include/util.hpp:76-79 | adopting a freshly created handle keeps counts equal to holders |
| RefCount.DestroyBalanced | benchmarks/include/util.hpp:43 | destroying a wrapper keeps counts equal to holders |
| RefCount.RunBalanced | benchmarks/include/util.hpp:37-89 | any sequence of wrapper operations keeps counts equal to holders |
| RefCount.ReleasedWhenLastOwnerGoes | benchmarks/include/util.hpp:39-79 | from no wrappers, after any operations: no count is negative; a handle held by one wrapper has count 1; a handle no wrapper holds has count 0 |
| Budget.TotalRequests | benchmarks/src/opencl_caf.cpp:44-61 | a machine that has sent `count` requests sends max(budget, count) in total |
| Actors.Multiplier.constructor | benchmarks/src/opencl_caf.cpp:25-34 | `count_` starts at 0 with nothing sent |
| Actors.Multiplier.OnCalc | benchmarks/src/opencl_caf.cpp:38-45 | exactly one request is sent, carrying two vectors 0..size*size-1, and `count_` grows by 1 |
| Actors.Multiplier.OnResult | benchmarks/src/opencl_caf.cpp:46-63 | `count_` is unchanged; the actor quits iff `count_ >= iterations_`, otherwise it sends exactly one calc to itself |
| Actors.RunMultiplier | benchmarks/src/opencl_caf.cpp:38-113 | from one initial calc, the actor quits after exactly max(iterations, 1) requests; the outbox alternates a request with the calc each reply makes the actor send itself, so at most one request is outstanding at any time |
| Actors.CopyGuy.constructor | benchmarks/src/copy_ops_small.cpp:18-25 | `count_` starts at 0 with nothing sent |
| Actors.CopyGuy.OnMessage | benchmarks/src/copy_ops_small.cpp:28-54 | calc sends one vector 0..size^3-1 and counts it; a result leaves `count_` alone and quits iff `count_ >= iterations_`, else sends one calc; any other message changes nothing |
| Actors.RunCopyGuy | benchmarks/src/copy_ops_small.cpp:28-87 | from one initial calc, exactly max(iterations, 1) requests are sent before the actor quits, each followed by the calc its reply makes the actor send itself, so at most one is outstanding at a time |
| Actors.CheckOptions | benchmarks/src/copy_ops_small.cpp:72-79 | exit code 1 iff option parsing failed; exit code 0 iff it succeeded and help was asked for or size is 0; otherwise the run starts with the parsed size and iterations |
| CpuMatrix.Get | benchmarks/src/cpu_matrix.cpp:21-27 | for col, row < size over a size * size matrix, the index size * row + col is in bounds and the element there is returned |
| CpuMatrix.DotProduct | benchmarks/src/cpu_matrix.cpp:29-35 | the loop returns the sum over k < size of lhs[size*row + k] * rhs[size*k + column] |
| CpuMatrix.SimpleMultiply | benchmarks/src/cpu_matrix.cpp:37-43 | the result has size*size cells, each equal to its dot product; the positions written are 0, 1, ..., size*size - 1, so each cell is written exactly once; size 0 gives the empty matrix |
| CpuMatrix.MultiplyRow | benchmarks/src/cpu_matrix.cpp:39-42 | the inner loop sets the cells of one row to their dot products, in order, and leaves the earlier rows as they were |
| CpuMatrix.CreateMatrix | benchmarks/src/cpu_matrix.cpp:101-105 | size*size elements, element i equal to i |
| Kernels.MultSumIsDotUpTo | benchmarks/include/kernel.hpp:28-39 | after n rounds, the kernel's accumulator for work item (x, y) equals the CPU reference's partial dot product for column x and row y |
| Kernels.MultCellIsDot | benchmarks/include/kernel.hpp:15-26 | what work item (x, y) writes is exactly `dot_product` for column x and row y |
| Kernels.MultWorkItem | benchmarks/include/kernel.hpp:28-39 | the loop of one work item returns that work item's cell of the product |
| Kernels.LaunchMult | benchmarks/include/kernel.hpp:15-26 | a launch over (size, size) sets every cell (x, y) of the output to work item (x, y)'s product cell |
| Kernels.LaunchMultRow | benchmarks/include/kernel.hpp:15-26 | the work items of one row set that row's cells and keep the earlier ones |
| Kernels.MatrixMultInt | benchmarks/include/kernel.hpp:28-39 | when nothing overflows int32, output[x + y*size] is the product cell, and it equals the CPU reference's dot product |
| Kernels.MatrixMult | benchmarks/include/kernel.hpp:15-26 | the same index layout and result as matrix_mult_int |
| Kernels.MatrixSqr | benchmarks/include/kernel.hpp:71-81 | matrix_mult with both operands taken from the one input buffer |
| Kernels.Cpy | benchmarks/include/kernel.hpp:83-86 | output equals input on [0, n) and keeps its old contents beyond |
| Kernels.CpyMore | benchmarks/include/kernel.hpp:88-96 | only work item 0 writes, and the final output is exactly cpy's |
| Kernels.Cpy3d | benchmarks/include/kernel.hpp:98-104 | the whole size^3 output equals the input |
| Kernels.Cpy3dPlane | benchmarks/include/kernel.hpp:98-104 | the work items of plane z copy the next size*size cells |
| Kernels.Cpy3dRow | benchmarks/include/kernel.hpp:98-104 | the work items of row (y, z) copy the next size cells |
| Kernels.LDim1 | benchmarks/include/kernel.hpp:41-49 | exactly the cells at global ids that are multiples of the local size receive the local size; all other cells keep their value |
| Kernels.LDim2 | benchmarks/include/kernel.hpp:51-69 | with a global range of g0 * g1 items over an output at least that long, local (0,0) writes `l_size_0`; local (0,1) and (1,0) write `l_size_1`; every other cell, including the tail past g0 * g1, keeps its value |
| Kernels.LDim2Row | benchmarks/include/kernel.hpp:51-69 | one row of l_dim_2's work items writes its cells as above and leaves the later cells untouched |
| NativeMain.ParseArgs | benchmarks/src/opencl_native.cpp:30-38 | accepted iff argc is 5 or 7, argv[1] is "-s" and argv[3] is "-i"; the wish is argv[6] when argc is 7 and empty otherwise |
| NativeMain.DeviceFlagIgnored | benchmarks/src/opencl_native.cpp:36-38 | argv[5] is never inspected: replacing it does not change the outcome |
| NativeMain.FirstNamed | benchmarks/src/opencl_native.cpp:68-78 | the first position of the wished name in a device list, or none iff the name is absent |
| NativeMain.FirstNonEmpty | benchmarks/src/opencl_native.cpp:55-66 | the first platform reporting a device, or none iff every platform reports none |
| NativeMain.LastNamed | benchmarks/src/opencl_native.cpp:55-80 | the last platform with a device of the wished name, or none iff no platform has one |
| NativeMain.SelectFrom | benchmarks/src/opencl_native.cpp:52-83 | the earliest device type, from `kind` on, that yields a device gives the choice; none iff no type yields one |
| NativeMain.SelectDevice | benchmarks/src/opencl_native.cpp:52-83 | the nested loops with their breaks and continues return exactly the declarative choice `Select` |
| NativeMain.ScanPlatforms | benchmarks/src/opencl_native.cpp:55-80 | the platform loop of one device type returns that type's declarative choice |
| NativeMain.ScanDevices | benchmarks/src/opencl_native.cpp:68-78 | the device loop finds the wish iff it is in the list, at its first position |
| NativeMain.EmptyWishChoice | benchmarks/src/opencl_native.cpp:56-66 | without a wish, a device is chosen iff it is the first device of the first non-empty platform of the earliest type that has any device |
| NativeMain.WishedChoice | benchmarks/src/opencl_native.cpp:67-79 | with a wish, the chosen device has the wished name; it is the first match of its platform; no later platform of its type and no earlier type has a match |
| NativeMain.NothingFound | benchmarks/src/opencl_native.cpp:84-89 | nothing is found iff no platform reports a device (no wish) or no device has the wished name |
| NativeMain.CreateAdopted | benchmarks/src/opencl_native.cpp:94-96 | a creating call taken over with `adopt` leaves the new object at count 1, with no retain |
| NativeMain.CreateThree | benchmarks/src/opencl_native.cpp:94-109 | context, queue and program are three fresh wrappers holding new handles; the log gains exactly their three creating calls, in that order, and no retain |
| NativeMain.Teardown | benchmarks/src/opencl_native.cpp:94-138 | at the end of main the wrappers are destroyed kernel, program, queue, context, in that order, one release each |
| NativeMain.MainLogBalanced | benchmarks/src/opencl_native.cpp:94-138 | after a full run every object main created is back to count 0 and no other count changed |
| NativeMain.BuildFailureLeaks | benchmarks/src/opencl_native.cpp:94-126 | when the build fails, the uncaught exception ends the program with context, queue and program each still at the count 1 their creation gave them, and every other count unchanged |
| NativeMain.RunCommand | benchmarks/src/opencl_native.cpp:131-134 | unless a checked call fails, exactly max(iterations, 1) iterations run; all buffers are released; the command's three wrapper copies are retained and then released; 5k - 4 events stay live when no call fails |
| NativeMain.SetUpAndRun | benchmarks/src/opencl_native.cpp:94-138 | the build fails iff `buildOk` is false; a failed build ends the program after exactly the three creating calls, with no release; a finished run did max(iterations, 1) iterations and leaves every reference count as before; with no faults and a good build the command is notified (the finished outcome assumes that `wait` then returns; see the threading line under Left out) |
| NativeMain.Execute | benchmarks/src/opencl_native.cpp:28-138 | main prints usage iff the arguments are rejected; it finds no device iff the search comes up empty, and then it touches no runtime object; otherwise it runs on the chosen device; a failed build leaves context, queue and program at count 1; a finished run reports max(iterations, 1) iterations and leaves every reference count as it found it; with no faults and a good build the command is notified (see the threading line under Left out) |
| Offload.GetBottom | benchmarks/src/bench_matrix_offloading.cpp:122-125 | the product distance * percentage wraps modulo 2^32 and is then divided by 100 with truncation: when the product fits it is floor(distance * percentage / 100), and it never exceeds that |
| Offload.GetTop | benchmarks/src/bench_matrix_offloading.cpp:127-130 | 100 - percentage wraps modulo 2^32 as well; with percentage <= 100 and a product that fits, the result is floor(distance * (100 - percentage) / 100), and it is never more than the wrapped product over 100 |
| Offload.Split | benchmarks/src/bench_matrix_offloading.cpp:155-199 | the OpenCL actor is spawned exactly when its share of the width is non-zero, the CPU part runs exactly when its share is non-zero, and neither share exceeds its wrapped percentage of the width |
| Offload.SplitExact | benchmarks/src/bench_matrix_offloading.cpp:122-130 | with offloaded <= 100 and width*100 < 2^32, the CPU gets floor(width*(100-offloaded)/100) columns and OpenCL gets floor(width*offloaded/100) |
| Offload.SplitCovers | benchmarks/src/bench_matrix_offloading.cpp:174-183 | under the same bounds, the two shares never exceed the width and lose at most one column |
| Offload.NothingOffloaded | benchmarks/src/bench_matrix_offloading.cpp:155-192 | offloading 0%: the CPU gets the whole width and no OpenCL actor is spawned |
| Offload.AllOffloaded | benchmarks/src/bench_matrix_offloading.cpp:155-199 | offloading 100%: OpenCL gets the whole width and the CPU part is skipped |
| Offload.OffloadedAboveHundredWraps | benchmarks/src/bench_matrix_offloading.cpp:155 | above 100%, `100 - offloaded` wraps to 2^32 - 1 and the CPU share becomes huge |
| Offload.WideImageWraps | benchmarks/src/bench_matrix_offloading.cpp:122-125 | once width*100 reaches 2^32 the product wraps and the CPU share is wrong |
| Pipeline.Device.CreateBuffer | benchmarks/src/cmd.cpp:46-51 | `clCreateBuffer` makes a new live buffer, or returns null and logs the failure at a faulty position |
| Pipeline.Device.EnqueueWriteBuffer | benchmarks/src/cmd.cpp:53-58 | a write to a live buffer creates a new live event; on failure the event variable keeps its old value |
| Pipeline.Device.EnqueueMarker | benchmarks/src/cmd.cpp:63 | the marker creates a new live event unless the call fails |
| Pipeline.Device.SetKernelArg | benchmarks/src/cmd.cpp:66-71 | setting a buffer argument succeeds iff the position is not faulty and the buffer is live |
| Pipeline.Device.EnqueueNDRangeKernel | benchmarks/src/cmd.cpp:74-79 | the launch succeeds iff the position is not faulty and the waited event is live, and then creates a new event |
| Pipeline.Device.EnqueueReadBuffer | benchmarks/src/cmd.cpp:80-83 | the read succeeds iff the buffer and the waited event are live and the position is not faulty |
| Pipeline.Device.Flush | benchmarks/src/cmd.cpp:84 | the flush is logged and changes no object |
| Pipeline.Device.SetEventCallback | benchmarks/src/cmd.cpp:87-93 | registering the callback succeeds iff the event is live |
| Pipeline.Device.ReleaseMemObject | benchmarks/src/cmd.cpp:114-116 | a live buffer is freed by one release; releasing anything else fails without effect |
| Pipeline.Device.ReleaseEvent | benchmarks/src/cmd.cpp:30-33 | a live event is freed by one release; releasing anything else fails without effect |
| Pipeline.Resized | benchmarks/src/cmd.cpp:40-44 | `std::vector::resize` keeps the first n elements and pads with zeros |
| Pipeline.CreatesFailed | benchmarks/src/cmd.cpp:46-51 | a failed buffer creation ends the enqueue at that call |
| Pipeline.ArgsFailed | benchmarks/src/cmd.cpp:66-71 | a failed kernel-argument call ends the enqueue after the creations and the unchecked writes |
| Pipeline.LaunchFailed | benchmarks/src/cmd.cpp:74-93 | a failed launch, read or callback registration ends the enqueue at that call; so does a launch waiting on a dead marker |
| Pipeline.IssuedDetermined | benchmarks/src/cmd.cpp:46-93 | the outcome of one enqueue is fully determined by the faults: success, the log and the step at which it stopped (the first failing checked call) |
| Pipeline.AllIssued | benchmarks/src/cmd.cpp:46-93 | when every checked call succeeds, the log gains the whole 13-call iteration in source order |
| Pipeline.BuffersAfterRelease | benchmarks/src/cmd.cpp:114-116 | releasing the three buffers of the iteration in flight leaves exactly the buffers that were live before the command |
| Pipeline.BuffersAfterIssue | benchmarks/src/cmd.cpp:46-51 | a successful enqueue adds exactly its three new, distinct buffers to what the command owns |
| Pipeline.EventsAfterIssue | benchmarks/src/cmd.cpp:53-82 | a successful enqueue adds its new events to what the command owns: five when no call fails, four of them the ones the destructor releases |
| Pipeline.OwnsAfterIssue | benchmarks/src/cmd.cpp:46-93 | a successful enqueue puts the command's three buffers in flight and adds its new events to what it owns |
| Pipeline.LeakedEvents | benchmarks/src/cmd.cpp:26-34 | with no faults, after k >= 1 iterations, releasing the last iteration's four events leaves 5k - 4 of the command's events live |
| Pipeline.Cmd.constructor | benchmarks/src/cmd.cpp:11-22 | no iteration done, `max_iterations_` is the argument, dimensions are {size, size}; exactly one retain is logged per wrapper copy (kernel, context, queue); the device is untouched |
| Pipeline.Cmd.Enqueue | benchmarks/src/cmd.cpp:36-94 | both inputs are refilled with 0..size*size-1 and the result is resized; the log gains the iteration's calls in order, or stops at the first checked call that fails (every earlier checked call succeeded), which aborts; a successful enqueue puts the callback in flight |
| Pipeline.Cmd.IssueIteration | benchmarks/src/cmd.cpp:46-93 | the runtime calls of one iteration stop at the first checked call that fails, every earlier checked call having succeeded, and that aborts; on success the callback is in flight, the iteration is counted, and the command owns the new buffers and events |
| Pipeline.Cmd.Complete | benchmarks/src/cmd.cpp:101-122 | the counter grows by exactly 1 and never exceeds max(max_iterations_, 1); the three buffers are released; the command notifies iff the counter reached `max_iterations_`, otherwise it enqueues again |
| Pipeline.Cmd.Finish | benchmarks/src/cmd.cpp:101-118 | counts the iteration, releases its three buffers (only the pre-existing buffers stay live), and notifies iff the count reached `max_iterations_` |
| Pipeline.Cmd.ReleaseBuffers | benchmarks/src/cmd.cpp:114-116 | exactly the three buffer releases are logged and those buffers are no longer live |
| Pipeline.Cmd.Destroy | benchmarks/src/cmd.cpp:26-34 | the destructor releases only the last two write events, the kernel event and the read event, never the marker or a buffer; then the queue, context and kernel copies are released; with no faults, 5k - 4 events stay live |
| Pipeline.Cmd.ReleaseLastEvents | benchmarks/src/cmd.cpp:30-33 | the four event releases of the destructor, in order, and the events that stay live |
| Pipeline.Cmd.DropWrappers | benchmarks/include/cmd.hpp:31-33 | the member wrappers are destroyed queue first, then context, then kernel; each logs one release |
| Pipeline.Cmd.Refill | benchmarks/src/cmd.cpp:38-44 | both inputs become 0..size*size-1 and the result is resized to size*size |
| Pipeline.Cmd.Issue | benchmarks/src/cmd.cpp:46-93 | the calls of one iteration stop at the first checked call that fails: every checked call before it succeeded, and it failed at its log position or, for the launch, on a dead marker event; on success the three new buffers and the new events are live |
| Pipeline.Cmd.IssueLaunch | benchmarks/src/cmd.cpp:74-93 | the second half of the iteration, stopping at the first failing checked call among launch, read and callback registration after the first half's checked calls all succeeded |
| Pipeline.Cmd.CreateBuffers | benchmarks/src/cmd.cpp:46-51 | two read-only buffers, then a write-only one, each of sizeof(float)*size*size bytes; ok iff all three succeed; otherwise the first failing creation aborts and the creations before it succeeded |
| Pipeline.Cmd.WriteInputs | benchmarks/src/cmd.cpp:53-64 | the two writes and the marker are issued unchecked; each event variable changes only when its call succeeds |
| Pipeline.Cmd.BindArgs | benchmarks/src/cmd.cpp:66-71 | arguments 0, 1, 2 are bound to the first input, the second input and the output, in that order, each checked; ok iff none fails, otherwise the log stops at the first failing one and the ones before it succeeded |
| Pipeline.Cmd.Enqueued | benchmarks/src/cmd.cpp:74-93 | the launch waits on the marker, the blocking read waits on the launch, the flush goes unchecked, and the callback is set on the read event; on failure the log stops at the first failing checked call, the launch also failing on a dead marker event |
| Pipeline.Run | benchmarks/src/opencl_native.cpp:133-134 | one enqueue followed by callbacks until notified: unless a checked call fails, exactly max(max_iterations_, 1) iterations run and every buffer is released; with no faults nothing aborts; after an abort nothing is in flight, nobody is notified, and the log and events are those the failed enqueue leaves, as `Issued` states for the last enqueue |

## Left out

- Threading in `cmd` is not modelled: the mutex, the condition variable in `wait`, and the runtime's callback thread (cmd.cpp:96-99, 118).
  - `wait` has no predicate, and `make_decision` notifies without taking the mutex. A notification that comes before `wait` blocks is therefore lost.
  - An unpredicated `wait` may also wake spuriously and return before the last iteration.
  - The model replaces `wait` with the `notified` flag, and the callback with explicit `Complete` calls. A `Finished` outcome of `SetUpAndRun` or `Execute` therefore assumes that `wait` returns once the command is notified, which the source does not guarantee.
- The blocking read (`CL_TRUE`) can run the callback while `enqueue` is still on the stack. The model does not capture this nesting. It runs `Complete` after `Enqueue` returns, which makes the same calls in the same order.
- OpenCL runtime internals are not modelled.
  - Each `clCreateBuffer`, `clEnqueue*`, `clFlush`, `clSetEventCallback` and `clRelease*` is an operation on the abstract `Device`.
  - Which calls fail is a parameter, the set of faulty log positions.
  - `check_cl_error` is modelled as ending the run (`aborted`).
  - `get_opencl_error` and `create_program` are not part of this model.
- The data a read returns into `result_` is not modelled. The pipeline tracks objects and calls, not numbers.
- The `clEnqueueMarkerWithWaitList` branch for Apple (cmd.cpp:61) is not modelled. Only `clEnqueueMarker` is.
- Debug printing under `CL_ENABLE_DEBUG` is left out, as are all output to `cout`/`cerr` and all `std::chrono` timing.
- Floating point is left out.
  - Element values are integers.
  - The float-to-int truncation in `dot_product` (cpu_matrix.cpp:31-33) is not modelled.
  - The Mandelbrot loops, `get_cut`, the `scale` lambda and the float constants of `bench_matrix_offloading.cpp` and `config.cpp` are not modelled.
- `stoi` parsing of size and iterations (opencl_native.cpp:91-92) is not modelled. `Execute` takes them already converted, as natural numbers.
- `size_t` wrap-around of `size * size` and of negative `stoi` results is not modelled.
- Device queries are an abstract table of device names, without:
  - the 256-byte truncation of names;
  - a stale `num_devices` after a failed `clGetDeviceIDs`;
  - failing `clGetPlatformIDs`/`clGetDeviceIDs` calls.
- The uncaught exception after a failed build (opencl_native.cpp:124) calls `std::terminate`. Whether the stack is unwound first is implementation-defined; the model takes the common behaviour of no unwinding, so no wrapper destructor runs.
- Context, queue, program and kernel creation always succeed in the model. Only `clBuildProgram` may fail (`buildOk`), and its build-log queries are not modelled.
- The concurrent multiply variants `actor_multiply`, `actor_multiply2`, `async_multiply` and `async_multiply2` (cpu_matrix.cpp:45-99) rely on actor and future concurrency and are not modelled.
- `caf_main`'s device lookup, program creation and worker spawning in `opencl_caf.cpp` and `copy_ops_small.cpp` are CAF manager calls and are not modelled. The worker's replies are abstract messages.
- `list_devices.cpp`, `spawn_time.cpp`, `spawn_time_core.cpp`, `opencl_overhead.cpp` and `calculate_fractal.hpp` are I/O, timing or Qt code and are not part of this model.
- Pipeline.Cmd.constructor: does not model the temporaries of the by-value wrapper parameters (one extra retain, then a release, for each). It logs only the net single retain per member copy.
- Pipeline.Cmd.Destroy: requires a consistent command. The source destructor can also run on a command that was never enqueued, and then it releases uninitialised event slots. The model starts those slots at null.
- Kernels.MatrixMultInt: requires every product and partial sum to stay in int32 range, because signed overflow is undefined in OpenCL C.
- Kernels.MatrixMult: models float elements as integers, so rounding is not captured.
- Actors.RunMultiplier: delivers messages one at a time to a single actor, and the worker's reply contents are arbitrary. Mailbox interleaving with other actors is not modelled.
