/** The "send one request; on its reply stop or ask again" counter machine
    that the command pipeline (cmd::make_decision), the `multiplier` actor
    and the `copy_guy` actor each implement: the counter is incremented once
    per request, and a reply stops the machine iff counter >= budget.
    TotalRequests follows the machine step by step and is proved to send
    Max(budget, count) requests; the runs of the three implementations
    (Pipeline.Run, Actors.RunMultiplier, Actors.RunCopyGuy) are each proved
    against that closed form, Max(budget, 1). */
module Budget {

  function Max(a: nat, b: nat): nat
  {
    if a < b then b else a
  }

  /** Total number of requests the machine sends when `count` requests have
      been sent and the reply to the last one is pending: it stops at the
      first reply that finds count >= budget. */
  function TotalRequests(budget: nat, count: nat): (r: nat)
    requires count >= 1
    ensures r == Max(budget, count)
    decreases budget - count
  {
    if count >= budget then count else TotalRequests(budget, count + 1)
  }
}
