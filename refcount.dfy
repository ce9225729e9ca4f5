/** The reference-counted OpenCL handle wrapper `smart_ptr<T, ref, deref>`.

    The OpenCL runtime keeps one reference count per object: a creating call
    (clCreateContext, clCreateKernel, ...) returns an object whose count is 1,
    clRetainX adds one and clReleaseX removes one (section 5.4.1 of the
    OpenCL 1.2 specification for memory objects; the other object kinds follow
    the same rule). The runtime is modelled as the log of those calls; the
    count of a handle is the net effect of the log on it. */
module RefCount {

  /** An OpenCL object handle; 0 stands for nullptr. */
  type Handle = nat

  const Null: Handle := 0

  /** A call that changes a reference count. */
  datatype Call = Created(h: Handle) | Retain(h: Handle) | Release(h: Handle)

  function Effect(c: Call, h: Handle): int
  {
    if c.h != h then 0 else if c.Release? then -1 else 1
  }

  /** The reference count a log of calls gives handle h. */
  function Net(log: seq<Call>, h: Handle): int
  {
    if log == [] then 0 else Net(log[..|log| - 1], h) + Effect(log[|log| - 1], h)
  }

  /** Counts add up along a log. */
  lemma {:induction false} NetAppend(a: seq<Call>, b: seq<Call>, h: Handle)
    ensures Net(a + b, h) == Net(a, h) + Net(b, h)
  {
    if b != [] {
      assert (a + b)[..|a + b| - 1] == a + b[..|b| - 1];
      NetAppend(a, b[..|b| - 1], h);
    } else {
      assert a + b == a;
    }
  }

  /** A handle no call mentions has count 0. */
  lemma {:induction false} NetUntouched(log: seq<Call>, h: Handle)
    requires forall i :: 0 <= i < |log| ==> log[i].h != h
    ensures Net(log, h) == 0
  {
    if log != [] {
      NetUntouched(log[..|log| - 1], h);
    }
  }

  /** `if (p) ref(p);` */
  function RetainCalls(p: Handle): seq<Call>
  {
    if p == Null then [] else [Retain(p)]
  }

  /** `if (p) deref(p);` */
  function ReleaseCalls(p: Handle): seq<Call>
  {
    if p == Null then [] else [Release(p)]
  }

  /** reset(p) on a wrapper holding `held`: release the old handle, then
      retain the new one (util.hpp:69-73). */
  function ResetCalls(held: Handle, p: Handle): seq<Call>
  {
    ReleaseCalls(held) + RetainCalls(p)
  }

  /** Copy assignment on a wrapper holding `held` from one holding q: the
      temporary copy retains q first; destroying the temporary after the
      swap releases `held` (util.hpp:63-67). */
  function CopyAssignCalls(held: Handle, q: Handle): seq<Call>
  {
    RetainCalls(q) + ReleaseCalls(held)
  }

  /** reset(p) changes the count of p by +1 and the count of the old handle
      by -1; all other counts stay. */
  lemma ResetEffect(held: Handle, p: Handle, h: Handle)
    ensures Net(ResetCalls(held, p), h)
            == (if h == p && p != Null then 1 else 0) - (if h == held && held != Null then 1 else 0)
  {
    NetAppend(ReleaseCalls(held), RetainCalls(p), h);
  }

  /** Copy assignment has net effect +1 on the source's handle and -1 on the
      target's old handle; self-assignment leaves every count unchanged and
      never drops the handle's count on the way. */
  lemma CopyAssignEffect(held: Handle, q: Handle, h: Handle)
    ensures Net(CopyAssignCalls(held, q), h)
            == (if h == q && q != Null then 1 else 0) - (if h == held && held != Null then 1 else 0)
    ensures held == q ==> Net(CopyAssignCalls(held, q), h) == 0
    ensures held == q && q != Null ==> Net(CopyAssignCalls(held, q)[..1], q) == 1
  {
    NetAppend(RetainCalls(q), ReleaseCalls(held), h);
  }

  /** Resetting a sole-owned handle to itself releases it before it is
      retained again: in between its count is 0, so the runtime may already
      have destroyed the object. */
  lemma ResetToSelfPassesZero(log: seq<Call>, h: Handle)
    requires h != Null && Net(log, h) == 1
    ensures Net(log + ResetCalls(h, h)[..1], h) == 0
    ensures Net(log + ResetCalls(h, h), h) == 1
  {
    NetAppend(log, ResetCalls(h, h)[..1], h);
    NetAppend(log, ResetCalls(h, h), h);
    ResetEffect(h, h, h);
  }

  /** The OpenCL runtime as seen through reference counts: the calls made so
      far and the next handle a creating call returns. */
  class Runtime {
    var log: seq<Call>
    var next: Handle

    /** Every handle mentioned so far was handed out by the runtime. */
    ghost predicate Valid()
      reads this
    {
      next > Null && forall i :: 0 <= i < |log| ==> log[i].h < next
    }

    /** The runtime's reference count of h. */
    function Count(h: Handle): int
      reads this
    {
      Net(log, h)
    }

    constructor ()
      ensures Valid() && log == [] && next == 1
    {
      log := [];
      next := 1;
    }

    /** A creating call: a fresh object whose count is 1. */
    method Create() returns (h: Handle)
      requires Valid()
      modifies this
      ensures Valid()
      ensures h == old(next) && h != Null && next == old(next) + 1
      ensures log == old(log) + [Created(h)]
      ensures Count(h) == 1
    {
      h := next;
      NetUntouched(log, h);
      next := next + 1;
      log := log + [Created(h)];
    }

    /** clRetainX(h). */
    method CallRetain(h: Handle)
      requires Valid() && h != Null && h < next
      modifies this
      ensures Valid() && next == old(next)
      ensures log == old(log) + [Retain(h)]
    {
      log := log + [Retain(h)];
    }

    /** clReleaseX(h). */
    method CallRelease(h: Handle)
      requires Valid() && h != Null && h < next
      modifies this
      ensures Valid() && next == old(next)
      ensures log == old(log) + [Release(h)]
    {
      log := log + [Release(h)];
    }
  }

  /** One `smart_ptr` object: the single field m_ptr, over the runtime whose
      retain and release functions the template is instantiated with. */
  class SmartPtr {
    var ptr: Handle
    const rt: Runtime

    ghost predicate Valid()
      reads this, rt
    {
      rt.Valid() && ptr < rt.next
    }

    /** operator!: true exactly when get() returns null. */
    predicate IsNull()
      reads this
      ensures IsNull() <==> Get() == Null
    {
      ptr == Null
    }

    /** explicit operator bool: the exact negation of operator!. */
    predicate IsSet()
      reads this
      ensures IsSet() == !IsNull()
    {
      ptr != Null
    }

    /** get() */
    function Get(): Handle
      reads this
    {
      ptr
    }

    /** smart_ptr(pointer ptr = nullptr): retains a non-null handle once,
        calls nothing for null (util.hpp:39-41). */
    constructor (rt: Runtime, p: Handle)
      requires rt.Valid() && p < rt.next
      modifies rt
      ensures this.rt == rt && ptr == p && Valid()
      ensures rt.log == old(rt.log) + RetainCalls(p) && rt.next == old(rt.next)
    {
      this.rt := rt;
      ptr := p;
      new;
      if p != Null {
        rt.CallRetain(p);
      }
    }

    /** Copy construction: both wrappers hold the handle, one retain more
        (util.hpp:45-47). */
    constructor Copy(other: SmartPtr)
      requires other.Valid()
      modifies other.rt
      ensures rt == other.rt && ptr == other.ptr && Valid()
      ensures rt.log == old(other.rt.log) + RetainCalls(ptr) && rt.next == old(other.rt.next)
    {
      rt := other.rt;
      ptr := other.ptr;
      new;
      if ptr != Null {
        rt.CallRetain(ptr);
      }
    }

    /** Move construction: the handle moves over, the source is nulled, no
        call is made (util.hpp:49-51). */
    constructor Move(other: SmartPtr)
      requires other.Valid()
      modifies other
      ensures rt == other.rt && ptr == old(other.ptr) && other.ptr == Null
      ensures Valid() && other.Valid() && unchanged(rt)
    {
      rt := other.rt;
      ptr := other.ptr;
      new;
      other.ptr := Null;
    }

    /** reset(p): release the old handle if non-null, then retain p if
        non-null (util.hpp:69-73). */
    method Reset(p: Handle)
      requires Valid() && p < rt.next
      modifies this, rt
      ensures Valid() && ptr == p && rt.next == old(rt.next)
      ensures rt.log == old(rt.log) + ResetCalls(old(ptr), p)
    {
      if ptr != Null {
        rt.CallRelease(ptr);
      }
      ptr := p;
      if p != Null {
        rt.CallRetain(p);
      }
    }

    /** operator=(pointer): the same as reset (util.hpp:53-56). */
    method AssignRaw(p: Handle)
      requires Valid() && p < rt.next
      modifies this, rt
      ensures Valid() && ptr == p && rt.next == old(rt.next)
      ensures rt.log == old(rt.log) + ResetCalls(old(ptr), p)
    {
      Reset(p);
    }

    /** adopt(p): release the old handle and take p without retaining it, so
        p's count is unchanged (util.hpp:76-79). */
    method Adopt(p: Handle)
      requires Valid() && p < rt.next
      modifies this, rt
      ensures Valid() && ptr == p && rt.next == old(rt.next)
      ensures rt.log == old(rt.log) + ReleaseCalls(old(ptr))
    {
      Reset(Null);
      ptr := p;
    }

    /** Move assignment only swaps the two handles: the source ends up with
        the target's previous handle, not null, and no call is made
        (util.hpp:58-61). */
    method MoveAssign(other: SmartPtr)
      requires Valid() && other.Valid() && other.rt == rt
      modifies this, other
      ensures ptr == old(other.ptr) && other.ptr == old(ptr)
      ensures Valid() && other.Valid() && unchanged(rt)
    {
      var t := ptr;
      ptr := other.ptr;
      other.ptr := t;
    }

    /** Copy assignment: copy into a temporary, swap, destroy the temporary
        (util.hpp:63-67); safe for self-assignment. */
    method CopyAssign(other: SmartPtr)
      requires Valid() && other.Valid() && other.rt == rt
      modifies this, rt
      ensures Valid() && ptr == old(other.ptr) && rt.next == old(rt.next)
      ensures rt.log == old(rt.log) + CopyAssignCalls(old(ptr), old(other.ptr))
    {
      var tmp := new SmartPtr.Copy(other);
      var t := ptr;
      ptr := tmp.ptr;
      tmp.ptr := t;
      tmp.Destroy();
    }

    /** ~smart_ptr(): reset() -- releases a held non-null handle once, does
        nothing for null (util.hpp:43). */
    method Destroy()
      requires Valid()
      modifies this, rt
      ensures Valid() && ptr == Null && rt.next == old(rt.next)
      ensures rt.log == old(rt.log) + ReleaseCalls(old(ptr))
    {
      Reset(Null);
    }
  }

  /** Any number of wrappers over one runtime, as values: slot i is the
      m_ptr of wrapper i, `log` the runtime's calls, `next` the handle the
      next creating call returns. Each operation below appends to `log` the
      very call sequence (RetainCalls, ReleaseCalls, ResetCalls,
      CopyAssignCalls) that the matching SmartPtr method's contract appends
      to its runtime's log, and changes the slots as that method changes
      m_ptr; this shared vocabulary is what carries the balance theorems
      about Pool over to the SmartPtr class. */
  datatype Pool = Pool(slots: seq<Handle>, log: seq<Call>, next: Handle)

  /** The operations of `smart_ptr`, applied to wrappers named by slot. */
  datatype Op =
    | Construct(p: Handle)              // smart_ptr(p)
    | CopyConstruct(src: nat)           // smart_ptr(const smart_ptr&)
    | MoveConstruct(src: nat)           // smart_ptr(smart_ptr&&)
    | AssignPtr(dst: nat, p: Handle)    // operator=(pointer)
    | MoveAssignFrom(dst: nat, src: nat)
    | CopyAssignFrom(dst: nat, src: nat)
    | ResetTo(dst: nat, p: Handle)
    | AdoptCreated(dst: nat)            // w.adopt(clCreateX(...))
    | DestroyAt(dst: nat)               // ~smart_ptr()

  /** The effect of one operation; an operation naming a wrapper that does
      not exist or a handle the runtime never issued does nothing. */
  function Step(s: Pool, op: Op): Pool
  {
    var n := |s.slots|;
    match op
    case Construct(p) =>
      if p < s.next then Pool(s.slots + [p], s.log + RetainCalls(p), s.next) else s
    case CopyConstruct(i) =>
      if i < n then Pool(s.slots + [s.slots[i]], s.log + RetainCalls(s.slots[i]), s.next) else s
    case MoveConstruct(i) =>
      if i < n then Pool(s.slots[i := Null] + [s.slots[i]], s.log, s.next) else s
    case AssignPtr(i, p) =>
      if i < n && p < s.next then Pool(s.slots[i := p], s.log + ResetCalls(s.slots[i], p), s.next) else s
    case MoveAssignFrom(i, j) =>
      if i < n && j < n then Pool(s.slots[i := s.slots[j]][j := s.slots[i]], s.log, s.next) else s
    case CopyAssignFrom(i, j) =>
      if i < n && j < n
      then Pool(s.slots[i := s.slots[j]], s.log + CopyAssignCalls(s.slots[i], s.slots[j]), s.next)
      else s
    case ResetTo(i, p) =>
      if i < n && p < s.next then Pool(s.slots[i := p], s.log + ResetCalls(s.slots[i], p), s.next) else s
    case AdoptCreated(i) =>
      if i < n
      then Pool(s.slots[i := s.next], s.log + [Created(s.next)] + ReleaseCalls(s.slots[i]), s.next + 1)
      else s
    case DestroyAt(i) =>
      if i < n then Pool(s.slots[i := Null], s.log + ReleaseCalls(s.slots[i]), s.next) else s
  }

  function RunOps(s: Pool, ops: seq<Op>): Pool
    decreases |ops|
  {
    if ops == [] then s else RunOps(Step(s, ops[0]), ops[1..])
  }

  /** Every handle in the pool or the log was issued by the runtime. */
  ghost predicate Issued(s: Pool)
  {
    && s.next > Null
    && (forall k :: 0 <= k < |s.slots| ==> s.slots[k] < s.next)
    && (forall k :: 0 <= k < |s.log| ==> s.log[k].h < s.next)
  }

  /** The reference count of every non-null handle equals the number of
      wrappers holding it. */
  ghost predicate Balanced(s: Pool)
  {
    && Issued(s)
    && forall h: Handle :: h != Null ==> Net(s.log, h) == multiset(s.slots)[h]
  }

  /** A wrapper's contribution to the count of h. */
  function Holds(p: Handle, h: Handle): int
  {
    if p == h && p != Null then 1 else 0
  }

  lemma RetainCallsEffect(p: Handle, h: Handle)
    ensures Net(RetainCalls(p), h) == Holds(p, h)
  {
  }

  lemma ReleaseCallsEffect(p: Handle, h: Handle)
    ensures Net(ReleaseCalls(p), h) == -Holds(p, h)
  {
  }

  lemma {:induction false} StepIssued(s: Pool, op: Op)
    requires Issued(s)
    ensures Issued(Step(s, op))
  {
    var t := Step(s, op);
    forall k | 0 <= k < |t.log|
      ensures t.log[k].h < t.next
    {
      if k < |s.log| {
        assert t.log[k] == s.log[k];
      }
    }
  }

  /** Replacing wrapper i's handle by p with calls whose net effect is
      exactly that replacement keeps the pool balanced. */
  lemma {:induction false} ReplaceBalanced(s: Pool, i: nat, p: Handle, calls: seq<Call>, next: Handle)
    requires Balanced(s) && i < |s.slots| && s.next <= next && p < next
    requires forall k :: 0 <= k < |calls| ==> calls[k].h < next
    requires forall h: Handle :: h != Null ==> Net(calls, h) == Holds(p, h) - Holds(s.slots[i], h)
    ensures Balanced(Pool(s.slots[i := p], s.log + calls, next))
  {
    var t := Pool(s.slots[i := p], s.log + calls, next);
    assert multiset(t.slots) == multiset(s.slots) - multiset{s.slots[i]} + multiset{p};
    forall h: Handle | h != Null
      ensures Net(t.log, h) == multiset(t.slots)[h]
    {
      NetAppend(s.log, calls, h);
    }
    forall k | 0 <= k < |t.log|
      ensures t.log[k].h < t.next
    {
      if k < |s.log| {
        assert t.log[k] == s.log[k];
      } else {
        assert t.log[k] == calls[k - |s.log|];
      }
    }
  }

  /** Adding a wrapper holding p with calls whose net effect is one more
      reference on p keeps the pool balanced. */
  lemma {:induction false} AppendBalanced(s: Pool, p: Handle, calls: seq<Call>)
    requires Balanced(s) && p < s.next
    requires forall k :: 0 <= k < |calls| ==> calls[k].h < s.next
    requires forall h: Handle :: h != Null ==> Net(calls, h) == Holds(p, h)
    ensures Balanced(Pool(s.slots + [p], s.log + calls, s.next))
  {
    var t := Pool(s.slots + [p], s.log + calls, s.next);
    assert multiset(t.slots) == multiset(s.slots) + multiset{p};
    forall h: Handle | h != Null
      ensures Net(t.log, h) == multiset(t.slots)[h]
    {
      NetAppend(s.log, calls, h);
    }
    forall k | 0 <= k < |t.log|
      ensures t.log[k].h < t.next
    {
      if k < |s.log| {
        assert t.log[k] == s.log[k];
      } else {
        assert t.log[k] == calls[k - |s.log|];
      }
    }
  }

  /** Rearranging who holds what, with no call, keeps the pool balanced. */
  lemma PermuteBalanced(s: Pool, slots: seq<Handle>)
    requires Balanced(s) && multiset(slots) == multiset(s.slots)
    ensures Balanced(Pool(slots, s.log, s.next))
  {
    forall k | 0 <= k < |slots|
      ensures slots[k] < s.next
    {
      assert slots[k] in multiset(s.slots);
    }
  }

  /** Every operation keeps counts equal to the number of holders. */
  lemma {:induction false} StepBalanced(s: Pool, op: Op)
    requires Balanced(s)
    ensures Balanced(Step(s, op))
  {
    match op
    case Construct(p) => ConstructBalanced(s, p);
    case CopyConstruct(i) => CopyConstructBalanced(s, i);
    case MoveConstruct(i) => MoveConstructBalanced(s, i);
    case AssignPtr(i, p) => ResetBalanced(s, i, p);
    case MoveAssignFrom(i, j) => MoveAssignBalanced(s, i, j);
    case CopyAssignFrom(i, j) => CopyAssignBalanced(s, i, j);
    case ResetTo(i, p) => ResetBalanced(s, i, p);
    case AdoptCreated(i) => AdoptBalanced(s, i);
    case DestroyAt(i) => DestroyBalanced(s, i);
  }

  lemma ConstructBalanced(s: Pool, p: Handle)
    requires Balanced(s)
    ensures Balanced(Step(s, Construct(p)))
  {
    if p < s.next {
      forall h: Handle | h != Null ensures Net(RetainCalls(p), h) == Holds(p, h) {
        RetainCallsEffect(p, h);
      }
      AppendBalanced(s, p, RetainCalls(p));
    }
  }

  lemma CopyConstructBalanced(s: Pool, i: nat)
    requires Balanced(s)
    ensures Balanced(Step(s, CopyConstruct(i)))
  {
    if i < |s.slots| {
      var p := s.slots[i];
      forall h: Handle | h != Null ensures Net(RetainCalls(p), h) == Holds(p, h) {
        RetainCallsEffect(p, h);
      }
      AppendBalanced(s, p, RetainCalls(p));
    }
  }

  lemma MoveConstructBalanced(s: Pool, i: nat)
    requires Balanced(s)
    ensures Balanced(Step(s, MoveConstruct(i)))
  {
    if i < |s.slots| {
      var u := s.slots[i := Null] + [s.slots[i]];
      assert multiset(u) == multiset(s.slots) - multiset{s.slots[i]} + multiset{Null} + multiset{s.slots[i]};
      PermuteBalancedExceptNull(s, u);
    }
  }

  lemma ResetBalanced(s: Pool, i: nat, p: Handle)
    requires Balanced(s)
    ensures Balanced(Step(s, ResetTo(i, p)))
    ensures Balanced(Step(s, AssignPtr(i, p)))
  {
    if i < |s.slots| && p < s.next {
      forall h: Handle | h != Null ensures Net(ResetCalls(s.slots[i], p), h) == Holds(p, h) - Holds(s.slots[i], h) {
        ResetEffect(s.slots[i], p, h);
      }
      ReplaceBalanced(s, i, p, ResetCalls(s.slots[i], p), s.next);
    }
  }

  lemma MoveAssignBalanced(s: Pool, i: nat, j: nat)
    requires Balanced(s)
    ensures Balanced(Step(s, MoveAssignFrom(i, j)))
  {
    if i < |s.slots| && j < |s.slots| {
      SwapSameMultiset(s.slots, i, j);
      PermuteBalanced(s, s.slots[i := s.slots[j]][j := s.slots[i]]);
    }
  }

  lemma CopyAssignBalanced(s: Pool, i: nat, j: nat)
    requires Balanced(s)
    ensures Balanced(Step(s, CopyAssignFrom(i, j)))
  {
    if i < |s.slots| && j < |s.slots| {
      var calls := CopyAssignCalls(s.slots[i], s.slots[j]);
      forall h: Handle | h != Null ensures Net(calls, h) == Holds(s.slots[j], h) - Holds(s.slots[i], h) {
        CopyAssignEffect(s.slots[i], s.slots[j], h);
      }
      ReplaceBalanced(s, i, s.slots[j], calls, s.next);
    }
  }

  lemma AdoptBalanced(s: Pool, i: nat)
    requires Balanced(s)
    ensures Balanced(Step(s, AdoptCreated(i)))
  {
    if i < |s.slots| {
      var calls := [Created(s.next)] + ReleaseCalls(s.slots[i]);
      forall h: Handle | h != Null ensures Net(calls, h) == Holds(s.next, h) - Holds(s.slots[i], h) {
        NetAppend([Created(s.next)], ReleaseCalls(s.slots[i]), h);
        ReleaseCallsEffect(s.slots[i], h);
        assert Net([Created(s.next)], h) == Effect(Created(s.next), h);
      }
      assert s.log + [Created(s.next)] + ReleaseCalls(s.slots[i]) == s.log + calls;
      ReplaceBalanced(s, i, s.next, calls, s.next + 1);
    }
  }

  lemma DestroyBalanced(s: Pool, i: nat)
    requires Balanced(s)
    ensures Balanced(Step(s, DestroyAt(i)))
  {
    if i < |s.slots| {
      forall h: Handle | h != Null ensures Net(ReleaseCalls(s.slots[i]), h) == Holds(Null, h) - Holds(s.slots[i], h) {
        ReleaseCallsEffect(s.slots[i], h);
      }
      ReplaceBalanced(s, i, Null, ReleaseCalls(s.slots[i]), s.next);
    }
  }

  lemma SwapSameMultiset(a: seq<Handle>, i: nat, j: nat)
    requires i < |a| && j < |a|
    ensures multiset(a[i := a[j]][j := a[i]]) == multiset(a)
  {
    if i != j {
      var b := a[i := a[j]];
      assert multiset(b) == multiset(a) - multiset{a[i]} + multiset{a[j]};
      assert multiset(b[j := a[i]]) == multiset(b) - multiset{a[j]} + multiset{a[i]};
    } else {
      assert a[i := a[j]][j := a[i]] == a;
    }
  }

  /** Moving a handle into a new wrapper and leaving a null behind keeps the
      pool balanced: null handles carry no count. */
  lemma PermuteBalancedExceptNull(s: Pool, slots: seq<Handle>)
    requires Balanced(s)
    requires forall h: Handle :: h != Null ==> multiset(slots)[h] == multiset(s.slots)[h]
    ensures Balanced(Pool(slots, s.log, s.next))
  {
    forall k | 0 <= k < |slots|
      ensures slots[k] < s.next
    {
      if slots[k] != Null {
        assert multiset(slots)[slots[k]] > 0;
        assert slots[k] in multiset(s.slots);
      }
    }
  }

  /** Whatever the wrappers do, counts equal the number of holders. */
  lemma {:induction false} RunBalanced(s: Pool, ops: seq<Op>)
    requires Balanced(s)
    ensures Balanced(RunOps(s, ops))
    decreases |ops|
  {
    if ops != [] {
      StepBalanced(s, ops[0]);
      RunBalanced(Step(s, ops[0]), ops[1..]);
    }
  }

  /** Starting with no wrappers and a fresh runtime, after any sequence of
      wrapper operations: no count is ever negative (nothing is released
      twice), a handle held by a single wrapper has count exactly 1, and a
      handle no wrapper holds any more has count 0 -- it was released
      exactly once after its last owner let go. */
  lemma ReleasedWhenLastOwnerGoes(ops: seq<Op>, h: Handle)
    requires h != Null
    ensures Net(RunOps(Pool([], [], 1), ops).log, h) >= 0
    ensures var s := RunOps(Pool([], [], 1), ops);
            multiset(s.slots)[h] == 1 ==> Net(s.log, h) == 1
    ensures var s := RunOps(Pool([], [], 1), ops);
            h !in s.slots ==> Net(s.log, h) == 0
  {
    RunBalanced(Pool([], [], 1), ops);
  }
}
