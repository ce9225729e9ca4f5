/** The iteration-budget actors: `multiplier` (opencl_caf.cpp) and
    `copy_guy` (copy_ops_small.cpp), plus copy_ops_small's option check.
    Each actor processes one message at a time; a handler's sends are
    appended to the actor's outbox. */
module Actors {
  import opened Layout
  import opened Budget

  /** Messages an actor receives. `Other` is any message no handler of
      copy_guy matches. */
  datatype Msg = Calc | Reply(data: seq<int>) | Other

  /** Messages an actor sends: a request to the OpenCL worker actor, or a
      message to itself. */
  datatype Send = Request(args: seq<seq<int>>) | ToSelf(msg: Msg)

  /** Number of requests to the worker in an outbox. */
  function RequestCount(sent: seq<Send>): nat
  {
    if sent == [] then 0
    else RequestCount(sent[..|sent| - 1]) + (if sent[|sent| - 1].Request? then 1 else 0)
  }

  /** An outbox in which requests `req` and calcs the actor sends itself
      alternate, starting with a request: each request's reply is handled,
      and so the next request issued, only after the previous one. */
  ghost predicate Alternates(sent: seq<Send>, req: Send)
  {
    forall i :: 0 <= i < |sent| ==> sent[i] == if i % 2 == 0 then req else ToSelf(Calc)
  }

  /** A request may follow an even-length alternating outbox... */
  lemma AlternatesRequest(sent: seq<Send>, req: Send, k: nat)
    requires Alternates(sent, req) && |sent| == 2 * k
    ensures Alternates(sent + [req], req)
  {
  }

  /** ...and a calc to itself an odd-length one. */
  lemma AlternatesCalc(sent: seq<Send>, req: Send, k: nat)
    requires Alternates(sent, req) && |sent| == 2 * k + 1
    ensures Alternates(sent + [ToSelf(Calc)], req)
  {
  }

  /** multiplier's request: two size x size matrices, each filled with
      0, 1, 2, ... by std::iota (opencl_caf.cpp:39-43). */
  function MultRequest(size: nat): Send
  {
    Request([Iota(size * size), Iota(size * size)])
  }

  /** copy_guy's request: one vector of size^3 elements 0, 1, 2, ...
      (copy_ops_small.cpp:30-32). */
  function CopyRequest(size: nat): Send
  {
    Request([Iota(size * size * size)])
  }

  /** The `multiplier` actor (opencl_caf.cpp:23-72). */
  class Multiplier {
    var count: nat
    const iterations: nat
    const size: nat
    var sent: seq<Send>
    var quit: bool

    constructor (iterations: nat, size: nat)
      ensures count == 0 && this.iterations == iterations && this.size == size
      ensures sent == [] && !quit
    {
      count := 0;
      this.iterations := iterations;
      this.size := size;
      sent := [];
      quit := false;
    }

    /** calc: send the worker two vectors of size*size elements, each
        0, 1, ..., n-1, and count the request (opencl_caf.cpp:38-44). */
    method OnCalc()
      modifies this
      ensures count == old(count) + 1 && quit == old(quit)
      ensures sent == old(sent) + [MultRequest(size)]
    {
      var m1 := Iota(size * size);
      var m2 := Iota(size * size);
      sent := sent + [Request([m1, m2])];
      count := count + 1;
    }

    /** A result: quit iff count >= iterations, otherwise send calc to
        itself; the count is not touched (opencl_caf.cpp:46-62). */
    method OnResult(matrix: seq<int>)
      modifies this
      ensures count == old(count)
      ensures quit == (old(quit) || old(count) >= iterations)
      ensures sent == old(sent) + (if old(count) >= iterations then [] else [ToSelf(Calc)])
    {
      if count >= iterations {
        quit := true;
      } else {
        sent := sent + [ToSelf(Calc)];
      }
    }
  }

  /** caf_main's run (opencl_caf.cpp:112-113): one calc, then every message
      the actor sends itself and every reply of the worker is delivered,
      until the actor quits. At most one request is ever outstanding: the
      outbox alternates requests with the calc each reply makes the actor
      send itself, and exactly max(iterations, 1) requests are sent. */
  method RunMultiplier(iterations: nat, size: nat, replies: seq<int>) returns (m: Multiplier)
    ensures m.quit && m.count == Max(iterations, 1)
    ensures RequestCount(m.sent) == m.count
    ensures |m.sent| == 2 * m.count - 1
    ensures Alternates(m.sent, MultRequest(size))
  {
    m := new Multiplier(iterations, size);
    var calcPending, replyPending := true, false;
    while calcPending || replyPending
      invariant !(calcPending && replyPending)
      invariant m.iterations == iterations && m.size == size
      invariant RequestCount(m.sent) == m.count
      invariant m.quit <==> !calcPending && !replyPending
      invariant replyPending ==> 1 <= m.count <= Max(iterations, 1)
      invariant calcPending ==> m.count < Max(iterations, 1)
      invariant !calcPending && !replyPending ==> m.count == Max(iterations, 1)
      invariant |m.sent| == if calcPending then 2 * m.count else 2 * m.count - 1
      invariant Alternates(m.sent, MultRequest(size))
      decreases Max(iterations, 1) - m.count, if replyPending then 2 else if calcPending then 1 else 0
    {
      if calcPending {
        ghost var before := m.sent;
        m.OnCalc();
        AlternatesRequest(before, MultRequest(size), m.count - 1);
        assert m.sent[..|m.sent| - 1] == before && m.sent[|m.sent| - 1].Request?;
        calcPending, replyPending := false, true;
      } else {
        ghost var before := m.sent;
        m.OnResult(replies);
        if !m.quit {
          AlternatesCalc(before, MultRequest(size), m.count - 1);
          assert m.sent[..|m.sent| - 1] == before && !m.sent[|m.sent| - 1].Request?;
        } else {
          assert m.sent == before + [];
          assert m.sent == before;
        }
        replyPending := false;
        calcPending := !m.quit;
      }
    }
  }

  /** The `copy_guy` actor (copy_ops_small.cpp:16-62). */
  class CopyGuy {
    var count: nat
    const iterations: nat
    const size: nat
    var sent: seq<Send>
    var quit: bool

    constructor (iterations: nat, size: nat)
      ensures count == 0 && this.iterations == iterations && this.size == size
      ensures sent == [] && !quit
    {
      count := 0;
      this.iterations := iterations;
      this.size := size;
      sent := [];
      quit := false;
    }

    /** The behaviour: calc sends one vector of size^3 elements 0, 1, ...
        and counts it; a result quits iff count >= iterations, else sends
        calc to itself; any other message only prints "unknown message!"
        (copy_ops_small.cpp:29-53). */
    method OnMessage(msg: Msg)
      modifies this
      ensures msg == Calc ==> count == old(count) + 1 && quit == old(quit)
                              && sent == old(sent) + [CopyRequest(size)]
      ensures msg.Reply? ==> count == old(count) && quit == (old(quit) || old(count) >= iterations)
                             && sent == old(sent) + (if old(count) >= iterations then [] else [ToSelf(Calc)])
      ensures msg == Other ==> count == old(count) && quit == old(quit) && sent == old(sent)
    {
      match msg
      case Calc =>
        var m1 := Iota(size * size * size);
        sent := sent + [Request([m1])];
        count := count + 1;
      case Reply(buffer) =>
        if count >= iterations {
          quit := true;
        } else {
          sent := sent + [ToSelf(Calc)];
        }
      case Other =>
    }
  }

  /** copy_ops_small's main (copy_ops_small.cpp:85-87): one calc, then every
      message until the actor quits; exactly max(iterations, 1) requests,
      each followed by the calc its reply makes the actor send itself, so at
      most one is outstanding at a time. */
  method RunCopyGuy(iterations: nat, size: nat, replies: seq<int>) returns (c: CopyGuy)
    ensures c.quit && c.count == Max(iterations, 1)
    ensures RequestCount(c.sent) == c.count
    ensures |c.sent| == 2 * c.count - 1
    ensures Alternates(c.sent, CopyRequest(size))
  {
    c := new CopyGuy(iterations, size);
    var calcPending, replyPending := true, false;
    while calcPending || replyPending
      invariant !(calcPending && replyPending)
      invariant c.iterations == iterations && c.size == size
      invariant RequestCount(c.sent) == c.count
      invariant c.quit <==> !calcPending && !replyPending
      invariant replyPending ==> 1 <= c.count <= Max(iterations, 1)
      invariant calcPending ==> c.count < Max(iterations, 1)
      invariant !calcPending && !replyPending ==> c.count == Max(iterations, 1)
      invariant |c.sent| == if calcPending then 2 * c.count else 2 * c.count - 1
      invariant Alternates(c.sent, CopyRequest(size))
      decreases Max(iterations, 1) - c.count, if replyPending then 2 else if calcPending then 1 else 0
    {
      ghost var before := c.sent;
      if calcPending {
        c.OnMessage(Calc);
        AlternatesRequest(before, CopyRequest(size), c.count - 1);
        assert c.sent[..|c.sent| - 1] == before && c.sent[|c.sent| - 1].Request?;
        calcPending, replyPending := false, true;
      } else {
        c.OnMessage(Reply(replies));
        if !c.quit {
          AlternatesCalc(before, CopyRequest(size), c.count - 1);
          assert c.sent[..|c.sent| - 1] == before && !c.sent[|c.sent| - 1].Request?;
        } else {
          assert c.sent == before + [];
          assert c.sent == before;
        }
        replyPending := false;
        calcPending := !c.quit;
      }
    }
  }

  /** What copy_ops_small's main does after parsing its options. */
  datatype Launch = Exit(code: int) | Start(size: nat, iterations: nat)

  /** An option-parse error prints it and exits with 1; --help or size 0
      (`size <= 0` on an unsigned value) prints the help text and exits with
      0 before anything is spawned; otherwise the run starts
      (copy_ops_small.cpp:65-79). */
  function CheckOptions(parseError: string, help: bool, size: nat, iterations: nat): (r: Launch)
    ensures r == Exit(1) <==> parseError != []
    ensures r == Exit(0) <==> parseError == [] && (help || size == 0)
    ensures r.Start? <==> parseError == [] && !help && size > 0
    ensures r.Start? ==> r.size == size && r.iterations == iterations
  {
    if parseError != [] then Exit(1)
    else if help || size <= 0 then Exit(0)
    else Start(size, iterations)
  }
}
