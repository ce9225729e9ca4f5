/** The stand-alone OpenCL benchmark's `main` (opencl_native.cpp): the exact
    shape check of the command line, the search for a device (device type
    first, then platform, then device name), the creation of context, queue,
    program and kernel taken over with `adopt`, and one `cmd` driven by one
    enqueue and one wait.

    The runtime's answers to the device queries are an abstract table:
    table[t][p] lists the names of the devices of type t (in the order GPU,
    CPU, accelerator) that platform p reports. */
module NativeMain {
  import RefCount
  import opened Budget
  import Pipeline

  datatype Option<T> = None | Some(value: T)

  /** The command line accepted by main: `prog -s <size> -i <iterations>`,
      optionally followed by `-d <device-name>`. The result is the device
      wish ("" for none); None means usage is printed and main returns 0. */
  function ParseArgs(argv: seq<string>): (r: Option<string>)
    ensures r.Some? <==> (|argv| == 5 || |argv| == 7) && argv[1] == "-s" && argv[3] == "-i"
    ensures r.Some? && |argv| == 7 ==> r.value == argv[6]
    ensures r.Some? && |argv| == 5 ==> r.value == ""
  {
    if |argv| < 5 || argv[1] != "-s" || argv[3] != "-i" then None
    else if |argv| == 6 || |argv| > 7 then None
    else if |argv| == 7 then Some(argv[6])
    else Some("")
  }

  /** The flag in front of the device name is never looked at: any word in
      its place gives the same outcome. */
  lemma DeviceFlagIgnored(argv: seq<string>, word: string)
    requires |argv| > 5
    ensures ParseArgs(argv[5 := word]) == ParseArgs(argv)
  {
  }

  /** Where the chosen device sits in the table: device type, platform and
      position in that platform's device list. */
  datatype Pick = Pick(kind: nat, platform: nat, index: nat)

  /** Position of the first device named `wish`. */
  function FirstNamed(names: seq<string>, wish: string): (r: Option<nat>)
    ensures r.None? <==> wish !in names
    ensures r.Some? ==> r.value < |names| && names[r.value] == wish && wish !in names[..r.value]
  {
    if |names| == 0 then None
    else if names[0] == wish then Some(0)
    else match FirstNamed(names[1..], wish)
      case None => None
      case Some(i) =>
        assert names[..i + 1] == [names[0]] + names[1..][..i];
        Some(i + 1)
  }

  /** The first platform reporting at least one device. */
  function FirstNonEmpty(platforms: seq<seq<string>>): (r: Option<nat>)
    ensures r.None? <==> forall q :: 0 <= q < |platforms| ==> platforms[q] == []
    ensures r.Some? ==> r.value < |platforms| && platforms[r.value] != []
    ensures r.Some? ==> forall q :: 0 <= q < r.value ==> platforms[q] == []
  {
    if |platforms| == 0 then None
    else if platforms[0] != [] then Some(0)
    else match FirstNonEmpty(platforms[1..])
      case None => None
      case Some(p) =>
        assert forall q :: 0 < q <= p ==> platforms[q] == platforms[1..][q - 1];
        Some(p + 1)
  }

  /** The last platform that has a device named `wish`. */
  function LastNamed(platforms: seq<seq<string>>, wish: string): (r: Option<nat>)
    ensures r.None? <==> forall q :: 0 <= q < |platforms| ==> wish !in platforms[q]
    ensures r.Some? ==> r.value < |platforms| && wish in platforms[r.value]
    ensures r.Some? ==> forall q :: r.value < q < |platforms| ==> wish !in platforms[q]
  {
    if |platforms| == 0 then None
    else if wish in platforms[|platforms| - 1] then Some(|platforms| - 1)
    else
      var r := LastNamed(platforms[..|platforms| - 1], wish);
      assert forall q :: 0 <= q < |platforms| - 1 ==> platforms[q] == platforms[..|platforms| - 1][q];
      r
  }

  /** The device a device type contributes: without a wish the first device
      of the first platform that has any; with a wish the first device of
      that name on the last platform that has one. */
  function Choice(kind: nat, platforms: seq<seq<string>>, wish: string): Option<Pick>
  {
    if wish == "" then
      match FirstNonEmpty(platforms)
      case None => None
      case Some(p) => Some(Pick(kind, p, 0))
    else
      match LastNamed(platforms, wish)
      case None => None
      case Some(p) => Some(Pick(kind, p, FirstNamed(platforms[p], wish).value))
  }

  /** The device chosen among the types from `kind` on. */
  function SelectFrom(table: seq<seq<seq<string>>>, wish: string, kind: nat): (r: Option<Pick>)
    requires kind <= |table|
    ensures r.None? <==> forall k :: kind <= k < |table| ==> Choice(k, table[k], wish).None?
    ensures r.Some? ==> kind <= r.value.kind < |table| && r == Choice(r.value.kind, table[r.value.kind], wish)
    ensures r.Some? ==> forall k :: kind <= k < r.value.kind ==> Choice(k, table[k], wish).None?
    decreases |table| - kind
  {
    if kind == |table| then None
    else
      var c := Choice(kind, table[kind], wish);
      if c.Some? then c else SelectFrom(table, wish, kind + 1)
  }

  /** The device main settles on, if any. */
  function Select(table: seq<seq<seq<string>>>, wish: string): Option<Pick>
  {
    SelectFrom(table, wish, 0)
  }

  /** The device search of main (opencl_native.cpp:52-83): types in order,
      platforms in order; a platform reporting no device is skipped; without
      a wish the first device is taken and the platform loop left; with a
      wish each platform's devices are scanned up to the first match, and
      the platform loop runs on, so a later match replaces an earlier one;
      a type that yielded a device ends the search. */
  method SelectDevice(table: seq<seq<seq<string>>>, wish: string) returns (device: Option<Pick>)
    ensures device == Select(table, wish)
  {
    device := None;
    var t := 0;
    while t < |table|
      invariant t <= |table| && device.None?
      invariant Select(table, wish) == SelectFrom(table, wish, t)
    {
      device := ScanPlatforms(t, table[t], wish);
      if device.Some? {
        break;
      }
      t := t + 1;
    }
  }

  /** The platform loop for one device type (opencl_native.cpp:55-80). */
  method ScanPlatforms(kind: nat, platforms: seq<seq<string>>, wish: string) returns (device: Option<Pick>)
    ensures device == Choice(kind, platforms, wish)
  {
    device := None;
    var p := 0;
    while p < |platforms|
      invariant p <= |platforms|
      invariant device == Choice(kind, platforms[..p], wish)
      invariant wish == "" ==> device.None?
    {
      var devices := platforms[p];
      if |devices| == 0 {
        if wish == "" {
          FirstNonEmptyExtend(platforms, p);
        } else {
          LastNamedExtend(platforms, p, wish);
        }
        p := p + 1;
        continue;
      }
      if wish == "" {
        FirstNonEmptyAt(platforms, p);
        device := Some(Pick(kind, p, 0));
        return;
      }
      var found, d := ScanDevices(devices, wish);
      if found {
        LastNamedAt(platforms, p, wish);
        device := Some(Pick(kind, p, d));
      } else {
        LastNamedExtend(platforms, p, wish);
      }
      p := p + 1;
    }
    assert platforms[..p] == platforms;
  }

  /** The device loop for one platform when a name is wished for
      (opencl_native.cpp:68-78): the first device of that name. */
  method ScanDevices(devices: seq<string>, wish: string) returns (found: bool, d: nat)
    ensures found <==> wish in devices
    ensures found ==> FirstNamed(devices, wish) == Some(d)
  {
    d := 0;
    found := false;
    while d < |devices|
      invariant d <= |devices| && wish !in devices[..d]
    {
      if devices[d] == wish {
        FirstNamedAt(devices, wish, d);
        found := true;
        return;
      }
      assert devices[..d + 1] == devices[..d] + [devices[d]];
      d := d + 1;
    }
    assert devices[..d] == devices;
  }

  /** A platform that has a device of the wished name is, so far, the last
      one that has. */
  lemma LastNamedAt(platforms: seq<seq<string>>, p: nat, wish: string)
    requires p < |platforms| && wish in platforms[p]
    ensures LastNamed(platforms[..p + 1], wish) == Some(p)
  {
    assert platforms[..p + 1][p] == platforms[p];
  }

  /** A platform with no device of the wish's name leaves the choice over
      the platforms before it as it was. */
  lemma LastNamedExtend(platforms: seq<seq<string>>, p: nat, wish: string)
    requires p < |platforms| && wish !in platforms[p]
    ensures LastNamed(platforms[..p + 1], wish) == LastNamed(platforms[..p], wish)
  {
    assert platforms[..p + 1][..p] == platforms[..p];
  }

  /** An empty platform does not end the search for the first device. */
  lemma FirstNonEmptyExtend(platforms: seq<seq<string>>, p: nat)
    requires p < |platforms| && platforms[p] == []
    requires FirstNonEmpty(platforms[..p]).None?
    ensures FirstNonEmpty(platforms[..p + 1]).None?
  {
    assert forall q :: 0 <= q < p ==> platforms[..p][q] == platforms[..p + 1][q];
  }

  /** A platform with a device after only empty ones is the first non-empty
      one, both among the platforms seen so far and among all of them. */
  lemma FirstNonEmptyAt(platforms: seq<seq<string>>, p: nat)
    requires p < |platforms| && platforms[p] != []
    requires FirstNonEmpty(platforms[..p]).None?
    ensures FirstNonEmpty(platforms) == Some(p)
  {
    assert forall q :: 0 <= q < p ==> platforms[..p][q] == platforms[q];
  }

  /** The position where a scan from the front meets the wish first. */
  lemma FirstNamedAt(names: seq<string>, wish: string, d: nat)
    requires d < |names| && names[d] == wish && wish !in names[..d]
    ensures FirstNamed(names, wish) == Some(d)
  {
    assert names[d] in names;
  }

  /** Without a wish main takes the first device of the first platform
      that reports one for the earliest device type that any platform has. */
  lemma {:induction false} EmptyWishChoice(table: seq<seq<seq<string>>>, pick: Pick)
    ensures Select(table, "") == Some(pick) <==>
      && pick.kind < |table| && pick.platform < |table[pick.kind]| && pick.index == 0
      && table[pick.kind][pick.platform] != []
      && (forall q :: 0 <= q < pick.platform ==> table[pick.kind][q] == [])
      && (forall k, q :: 0 <= k < pick.kind && 0 <= q < |table[k]| ==> table[k][q] == [])
  {
    var r := Select(table, "");
    if r == Some(pick) {
      var ps := table[pick.kind];
      assert Choice(pick.kind, ps, "") == Some(pick);
      forall k, q | 0 <= k < pick.kind && 0 <= q < |table[k]|
        ensures table[k][q] == []
      {
        assert Choice(k, table[k], "").None?;
      }
    }
  }

  /** With a wish the chosen device carries the wished name; it is the first
      of that name on its platform, no later platform of its type has one,
      and no earlier type has one at all. */
  lemma {:induction false} WishedChoice(table: seq<seq<seq<string>>>, wish: string)
    requires wish != "" && Select(table, wish).Some?
    ensures var pick := Select(table, wish).value;
      && pick.kind < |table| && pick.platform < |table[pick.kind]|
      && pick.index < |table[pick.kind][pick.platform]|
      && table[pick.kind][pick.platform][pick.index] == wish
      && wish !in table[pick.kind][pick.platform][..pick.index]
      && (forall q :: pick.platform < q < |table[pick.kind]| ==> wish !in table[pick.kind][q])
      && (forall k, q :: 0 <= k < pick.kind && 0 <= q < |table[k]| ==> wish !in table[k][q])
  {
    var pick := Select(table, wish).value;
    var ps := table[pick.kind];
    assert LastNamed(ps, wish) == Some(pick.platform);
    forall k, q | 0 <= k < pick.kind && 0 <= q < |table[k]|
      ensures wish !in table[k][q]
    {
      assert Choice(k, table[k], wish).None?;
    }
  }

  /** Main finds no device exactly when no platform reports one of any type
      (without a wish) or no device of any type has the wished name. */
  lemma {:induction false} NothingFound(table: seq<seq<seq<string>>>, wish: string)
    ensures Select(table, wish).None? <==>
      forall k, q :: 0 <= k < |table| && 0 <= q < |table[k]| ==>
        if wish == "" then table[k][q] == [] else wish !in table[k][q]
  {
    if Select(table, wish).None? {
      forall k, q | 0 <= k < |table| && 0 <= q < |table[k]|
        ensures if wish == "" then table[k][q] == [] else wish !in table[k][q]
      {
        assert Choice(k, table[k], wish).None?;
      }
    } else {
      var pick := Select(table, wish).value;
      var ps := table[pick.kind];
      if wish == "" {
        assert ps[pick.platform] != [];
      } else {
        assert wish in ps[pick.platform];
      }
    }
  }

  /** How a run of main ends. */
  datatype Outcome =
    | Usage                                   // the command line was rejected
    | NoDevice                                // the search found nothing
    | BuildFailed                             // clBuildProgram failed: an uncaught exception ends the program
    | Aborted                                 // a checked runtime call failed inside the pipeline
    | Finished(pick: Pick, iterations: nat)   // the pipeline ran to its notification

  /** A creating call whose result is taken over with `adopt`: the wrapper
      starts empty and adds no retain, so the object keeps the count 1 the
      creating call gave it (opencl_native.cpp:94-109, 128-129). */
  method CreateAdopted(rt: RefCount.Runtime) returns (w: RefCount.SmartPtr)
    requires rt.Valid()
    modifies rt
    ensures fresh(w) && w.rt == rt && w.Valid()
    ensures w.ptr == old(rt.next) && rt.next == old(rt.next) + 1
    ensures rt.log == old(rt.log) + [RefCount.Created(w.ptr)]
    ensures rt.Count(w.ptr) == 1
  {
    w := new RefCount.SmartPtr(rt, RefCount.Null);
    var h := rt.Create();
    ghost var created := rt.log;
    w.Adopt(h);
    assert rt.log == created;
  }

  /** The calls main makes on the runtime's reference counts when the
      pipeline runs to its end: context, queue, program and kernel are
      created; cmd's copies retain kernel, context and queue; cmd's
      destructor releases its copies (queue, context, kernel: the reverse of
      their declaration order); main's own wrappers are destroyed in reverse
      order of declaration (kernel, program, queue, context). */
  function MainLog(log0: seq<RefCount.Call>, c: RefCount.Handle, q: RefCount.Handle, p: RefCount.Handle,
                   k: RefCount.Handle): seq<RefCount.Call>
  {
    log0 + [RefCount.Created(c)] + [RefCount.Created(q)] + [RefCount.Created(p)]
    + [RefCount.Created(k)] + RefCount.RetainCalls(k) + RefCount.RetainCalls(c)
    + RefCount.RetainCalls(q) + RefCount.ReleaseCalls(q) + RefCount.ReleaseCalls(c)
    + RefCount.ReleaseCalls(k) + RefCount.ReleaseCalls(k) + RefCount.ReleaseCalls(p)
    + RefCount.ReleaseCalls(q) + RefCount.ReleaseCalls(c)
  }

  /** The calls when clBuildProgram fails: context, queue and program have
      been created, then the exception thrown at opencl_native.cpp:124 finds
      no handler in main. std::terminate is called, and whether the stack is
      unwound first is implementation-defined; this model takes the common
      choice (GCC, Clang) of no unwinding, so no wrapper is destroyed and no
      release follows. */
  function BuildFailureLog(log0: seq<RefCount.Call>, c: RefCount.Handle, q: RefCount.Handle, p: RefCount.Handle)
    : seq<RefCount.Call>
  {
    log0 + [RefCount.Created(c)] + [RefCount.Created(q)] + [RefCount.Created(p)]
  }

  /** Every object main creates ends with count 0, and no other count
      changes: each is released exactly once more than it is retained. */
  lemma {:induction false} MainLogBalanced(log0: seq<RefCount.Call>, c: RefCount.Handle, q: RefCount.Handle,
                                           p: RefCount.Handle, k: RefCount.Handle)
    requires c != RefCount.Null && q != RefCount.Null && p != RefCount.Null && k != RefCount.Null
    ensures forall h :: RefCount.Net(MainLog(log0, c, q, p, k), h) == RefCount.Net(log0, h)
  {
    forall h ensures RefCount.Net(MainLog(log0, c, q, p, k), h) == RefCount.Net(log0, h) {
      var created := log0 + [RefCount.Created(c)] + [RefCount.Created(q)] + [RefCount.Created(p)]
                     + [RefCount.Created(k)];
      CreatesAdd(log0, c, q, p, k, h);
      CmdCallsCancel(created, k, c, q, h);
      var used := created + RefCount.RetainCalls(k) + RefCount.RetainCalls(c) + RefCount.RetainCalls(q)
                  + RefCount.ReleaseCalls(q) + RefCount.ReleaseCalls(c) + RefCount.ReleaseCalls(k);
      TeardownTakes(used, k, p, q, c, h);
    }
  }

  /** Creating c, q, p and k gives each of them one reference. */
  lemma {:induction false} CreatesAdd(log0: seq<RefCount.Call>, c: RefCount.Handle, q: RefCount.Handle,
                                      p: RefCount.Handle, k: RefCount.Handle, h: RefCount.Handle)
    requires c != RefCount.Null && q != RefCount.Null && p != RefCount.Null && k != RefCount.Null
    ensures RefCount.Net(log0 + [RefCount.Created(c)] + [RefCount.Created(q)] + [RefCount.Created(p)]
                         + [RefCount.Created(k)], h)
            == RefCount.Net(log0, h) + RefCount.Holds(c, h) + RefCount.Holds(q, h) + RefCount.Holds(p, h)
               + RefCount.Holds(k, h)
  {
    var prefix := log0;
    RefCount.NetAppend(prefix, [RefCount.Created(c)], h);
    prefix := prefix + [RefCount.Created(c)];
    RefCount.NetAppend(prefix, [RefCount.Created(q)], h);
    prefix := prefix + [RefCount.Created(q)];
    RefCount.NetAppend(prefix, [RefCount.Created(p)], h);
    prefix := prefix + [RefCount.Created(p)];
    RefCount.NetAppend(prefix, [RefCount.Created(k)], h);
  }

  /** The copies cmd makes of kernel, context and queue and their release
      by its destructor leave every count as it was. */
  lemma {:induction false} CmdCallsCancel(log0: seq<RefCount.Call>, k: RefCount.Handle, c: RefCount.Handle,
                                          q: RefCount.Handle, h: RefCount.Handle)
    ensures RefCount.Net(log0 + RefCount.RetainCalls(k) + RefCount.RetainCalls(c) + RefCount.RetainCalls(q)
                         + RefCount.ReleaseCalls(q) + RefCount.ReleaseCalls(c) + RefCount.ReleaseCalls(k), h)
            == RefCount.Net(log0, h)
  {
    var prefix := log0;
    RefCount.NetAppend(prefix, RefCount.RetainCalls(k), h);
    RefCount.RetainCallsEffect(k, h);
    prefix := prefix + RefCount.RetainCalls(k);
    RefCount.NetAppend(prefix, RefCount.RetainCalls(c), h);
    RefCount.RetainCallsEffect(c, h);
    prefix := prefix + RefCount.RetainCalls(c);
    RefCount.NetAppend(prefix, RefCount.RetainCalls(q), h);
    RefCount.RetainCallsEffect(q, h);
    prefix := prefix + RefCount.RetainCalls(q);
    RefCount.NetAppend(prefix, RefCount.ReleaseCalls(q), h);
    RefCount.ReleaseCallsEffect(q, h);
    prefix := prefix + RefCount.ReleaseCalls(q);
    RefCount.NetAppend(prefix, RefCount.ReleaseCalls(c), h);
    RefCount.ReleaseCallsEffect(c, h);
    prefix := prefix + RefCount.ReleaseCalls(c);
    RefCount.NetAppend(prefix, RefCount.ReleaseCalls(k), h);
    RefCount.ReleaseCallsEffect(k, h);
  }

  /** Destroying main's kernel, program, queue and context wrappers takes
      one reference from each. */
  lemma {:induction false} TeardownTakes(log0: seq<RefCount.Call>, k: RefCount.Handle, p: RefCount.Handle,
                                         q: RefCount.Handle, c: RefCount.Handle, h: RefCount.Handle)
    ensures RefCount.Net(log0 + RefCount.ReleaseCalls(k) + RefCount.ReleaseCalls(p) + RefCount.ReleaseCalls(q)
                         + RefCount.ReleaseCalls(c), h)
            == RefCount.Net(log0, h) - RefCount.Holds(k, h) - RefCount.Holds(p, h) - RefCount.Holds(q, h)
               - RefCount.Holds(c, h)
  {
    var prefix := log0;
    RefCount.NetAppend(prefix, RefCount.ReleaseCalls(k), h);
    RefCount.ReleaseCallsEffect(k, h);
    prefix := prefix + RefCount.ReleaseCalls(k);
    RefCount.NetAppend(prefix, RefCount.ReleaseCalls(p), h);
    RefCount.ReleaseCallsEffect(p, h);
    prefix := prefix + RefCount.ReleaseCalls(p);
    RefCount.NetAppend(prefix, RefCount.ReleaseCalls(q), h);
    RefCount.ReleaseCallsEffect(q, h);
    prefix := prefix + RefCount.ReleaseCalls(q);
    RefCount.NetAppend(prefix, RefCount.ReleaseCalls(c), h);
    RefCount.ReleaseCallsEffect(c, h);
  }

  /** When the build fails, context, queue and program are each left with
      the one reference their creation gave them, and no other count
      changes: the program ends without releasing them. */
  lemma {:induction false} BuildFailureLeaks(log0: seq<RefCount.Call>, c: RefCount.Handle, q: RefCount.Handle,
                                             p: RefCount.Handle)
    requires c != RefCount.Null && q != RefCount.Null && p != RefCount.Null
    ensures forall h :: RefCount.Net(BuildFailureLog(log0, c, q, p), h)
                        == RefCount.Net(log0, h) + RefCount.Holds(c, h) + RefCount.Holds(q, h) + RefCount.Holds(p, h)
  {
    forall h ensures RefCount.Net(BuildFailureLog(log0, c, q, p), h)
                     == RefCount.Net(log0, h) + RefCount.Holds(c, h) + RefCount.Holds(q, h) + RefCount.Holds(p, h) {
      var prefix := log0;
      RefCount.NetAppend(prefix, [RefCount.Created(c)], h);
      prefix := prefix + [RefCount.Created(c)];
      RefCount.NetAppend(prefix, [RefCount.Created(q)], h);
      prefix := prefix + [RefCount.Created(q)];
      RefCount.NetAppend(prefix, [RefCount.Created(p)], h);
    }
  }

  /** The life of `cmd c` in main (opencl_native.cpp:131-134 and the end
      of main): constructed from the three wrappers, driven by one enqueue
      and one wait, destroyed when main returns. A failed checked call ends
      the program on the spot. */
  method RunCommand(size: nat, iterations: nat, kernel: RefCount.SmartPtr, context: RefCount.SmartPtr,
                    queue: RefCount.SmartPtr, device: Pipeline.Device)
    returns (aborted: bool, rounds: nat)
    requires kernel.Valid() && context.Valid() && queue.Valid()
    requires context.rt == kernel.rt && queue.rt == kernel.rt && device.Valid()
    modifies kernel.rt, device
    ensures device.faults == {} ==> !aborted
    ensures !aborted ==> rounds == Max(iterations, 1)
    ensures !aborted ==> device.buffers == old(device.buffers)
    ensures !aborted ==> kernel.rt.next == old(kernel.rt.next)
    ensures !aborted ==>
              kernel.rt.log == old(kernel.rt.log) + RefCount.RetainCalls(kernel.ptr) + RefCount.RetainCalls(context.ptr)
                               + RefCount.RetainCalls(queue.ptr) + RefCount.ReleaseCalls(queue.ptr)
                               + RefCount.ReleaseCalls(context.ptr) + RefCount.ReleaseCalls(kernel.ptr)
    ensures !aborted && device.faults == {} ==> |device.events| == |old(device.events)| + 5 * Max(iterations, 1) - 4
  {
    var c := new Pipeline.Cmd(size, kernel, context, queue, iterations, device);
    ghost var log0, n, events0, slots0 := Pipeline.Run(c);
    aborted, rounds := c.aborted, c.currentIterations;
    if aborted {
      return;
    }
    ghost var base, leaked := c.baseEvents, c.mine - Pipeline.Released(c.CurrentSlots());
    assert base !! leaked;
    c.Destroy();
  }

  /** Context, queue and program are created in turn and each is taken
      over with `adopt` (opencl_native.cpp:94-109). */
  method CreateThree(rt: RefCount.Runtime) returns (context: RefCount.SmartPtr, queue: RefCount.SmartPtr,
                                                    prog: RefCount.SmartPtr)
    requires rt.Valid()
    modifies rt
    ensures fresh(context) && fresh(queue) && fresh(prog)
    ensures context.rt == rt && queue.rt == rt && prog.rt == rt
    ensures context.Valid() && queue.Valid() && prog.Valid()
    ensures context.ptr == old(rt.next) && queue.ptr == old(rt.next) + 1 && prog.ptr == old(rt.next) + 2
    ensures rt.next == old(rt.next) + 3
    ensures rt.log == old(rt.log) + [RefCount.Created(context.ptr)] + [RefCount.Created(queue.ptr)]
                      + [RefCount.Created(prog.ptr)]
  {
    context := CreateAdopted(rt);
    queue := CreateAdopted(rt);
    prog := CreateAdopted(rt);
  }

  /** The end of main: its wrappers are destroyed in reverse order of
      declaration -- kernel, program, queue, context (opencl_native.cpp:94-138). */
  method Teardown(kernel: RefCount.SmartPtr, prog: RefCount.SmartPtr, queue: RefCount.SmartPtr,
                  context: RefCount.SmartPtr)
    requires kernel.Valid() && prog.Valid() && queue.Valid() && context.Valid()
    requires prog.rt == kernel.rt && queue.rt == kernel.rt && context.rt == kernel.rt
    requires kernel != prog && kernel != queue && kernel != context
    requires prog != queue && prog != context && queue != context
    modifies kernel, prog, queue, context, kernel.rt
    ensures kernel.rt.log == old(kernel.rt.log) + RefCount.ReleaseCalls(old(kernel.ptr))
                             + RefCount.ReleaseCalls(old(prog.ptr)) + RefCount.ReleaseCalls(old(queue.ptr))
                             + RefCount.ReleaseCalls(old(context.ptr))
    ensures kernel.rt.next == old(kernel.rt.next)
  {
    kernel.Destroy();
    prog.Destroy();
    queue.Destroy();
    context.Destroy();
  }

  /** The part of main after a device is found (opencl_native.cpp:94-138):
      context, queue and program are created and adopted, the program is
      built, the kernel created and adopted, and the pipeline run; on the
      way out every wrapper is destroyed. A failed build ends the program
      with the three objects still held (see BuildFailureLog). */
  method SetUpAndRun(pick: Pick, size: nat, iterations: nat, buildOk: bool, rt: RefCount.Runtime,
                     device: Pipeline.Device)
    returns (outcome: Outcome)
    requires rt.Valid() && device.Valid()
    modifies rt, device
    ensures outcome == BuildFailed <==> !buildOk
    ensures outcome.Finished? ==> outcome == Finished(pick, Max(iterations, 1))
    ensures outcome == BuildFailed || outcome == Aborted || outcome.Finished?
    ensures outcome.Finished? ==> rt.next == old(rt.next) + 4 && device.buffers == old(device.buffers)
    ensures outcome == BuildFailed ==> rt.next == old(rt.next) + 3 && unchanged(device)
    ensures outcome == BuildFailed ==> rt.log == BuildFailureLog(old(rt.log), old(rt.next), old(rt.next) + 1, old(rt.next) + 2)
    ensures outcome == BuildFailed ==>
              forall h: RefCount.Handle :: rt.Count(h) == old(rt.Count(h)) + (if old(rt.next) <= h < old(rt.next) + 3 then 1 else 0)
    ensures outcome.Finished? ==> forall h :: rt.Count(h) == old(rt.Count(h))
    ensures outcome.Finished? && device.faults == {} ==>
              |device.events| == |old(device.events)| + 5 * Max(iterations, 1) - 4
    ensures device.faults == {} && buildOk ==> outcome.Finished?
  {
    ghost var log0 := rt.log;
    var context, queue, prog := CreateThree(rt);
    ghost var made := [context.ptr, queue.ptr, prog.ptr];
    if !buildOk {
      BuildFailureLeaks(log0, made[0], made[1], made[2]);
      return BuildFailed;
    }
    var kernel := CreateAdopted(rt);
    ghost var handles := [context.ptr, queue.ptr, prog.ptr, kernel.ptr];
    var aborted, rounds := RunCommand(size, iterations, kernel, context, queue, device);
    if aborted {
      return Aborted;
    }
    Teardown(kernel, prog, queue, context);
    MainLogBalanced(log0, handles[0], handles[1], handles[2], handles[3]);
    outcome := Finished(pick, rounds);
  }

  /** main (opencl_native.cpp:28-138) with size and iterations already
      converted from argv[2] and argv[4], and the outcome of clBuildProgram
      given as `buildOk`. */
  method Execute(argv: seq<string>, table: seq<seq<seq<string>>>, size: nat, iterations: nat, buildOk: bool,
                 rt: RefCount.Runtime, device: Pipeline.Device)
    returns (outcome: Outcome)
    requires rt.Valid() && device.Valid()
    modifies rt, device
    ensures outcome == Usage <==> ParseArgs(argv).None?
    ensures outcome == NoDevice <==> ParseArgs(argv).Some? && Select(table, ParseArgs(argv).value).None?
    ensures outcome == Usage || outcome == NoDevice ==> unchanged(rt) && unchanged(device)
    ensures outcome.Finished? ==> outcome.pick == Select(table, ParseArgs(argv).value).value
    ensures outcome.Finished? ==> outcome.iterations == Max(iterations, 1)
    ensures outcome.Finished? ==> rt.next == old(rt.next) + 4 && device.buffers == old(device.buffers)
    ensures outcome == BuildFailed ==> rt.next == old(rt.next) + 3 && unchanged(device)
    ensures outcome == BuildFailed ==> rt.log == BuildFailureLog(old(rt.log), old(rt.next), old(rt.next) + 1, old(rt.next) + 2)
    ensures outcome == BuildFailed ==>
              forall h: RefCount.Handle :: rt.Count(h) == old(rt.Count(h)) + (if old(rt.next) <= h < old(rt.next) + 3 then 1 else 0)
    ensures outcome.Finished? ==> forall h :: rt.Count(h) == old(rt.Count(h))
    ensures outcome.Finished? && device.faults == {} ==>
              |device.events| == |old(device.events)| + 5 * Max(iterations, 1) - 4
    ensures device.faults == {} && buildOk && ParseArgs(argv).Some? && Select(table, ParseArgs(argv).value).Some? ==>
              outcome.Finished?
  {
    var wish := ParseArgs(argv);
    if wish.None? {
      return Usage;
    }
    var chosen := SelectDevice(table, wish.value);
    if chosen.None? {
      return NoDevice;
    }
    outcome := SetUpAndRun(chosen.value, size, iterations, buildOk, rt, device);
  }
}
