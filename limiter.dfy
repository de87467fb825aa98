/** acquireLabelarySlot and releaseLabelarySlot of src/app/actions.ts: a
    process-wide cap on requests in flight, with a first-in first-out queue of
    waiters. A woken waiter counts itself in only when it resumes, one step after
    the release that woke it. */
module Limiter {
  import opened Wrappers

  class SlotLimiter {
    /** MAX_LABELARY_CONCURRENCY, at least 1. */
    var capacity: nat
    /** inFlightLabelaryRequests. */
    var inFlight: nat
    /** labelaryWaitQueue, each waiter named by an id, oldest first. */
    var waiting: seq<nat>
    /** Waiters a release has woken that have not yet resumed, in waking order. */
    var woken: seq<nat>
    /** Every waiter ever queued, and every waiter ever woken, in order. */
    ghost var queued: seq<nat>
    ghost var served: seq<nat>

    /** The cap is at least one, and waiters are woken in exactly the order they
        queued. */
    ghost predicate Valid()
      reads this
    {
      capacity >= 1 && queued == served + waiting
    }

    /** The cap: requests in flight plus woken waiters about to resume stay
        within capacity. */
    predicate Capped()
      reads this
    {
      inFlight + |woken| <= capacity
    }

    /** The limit comes from configuration; anything below 1 means 1. */
    constructor (configured: int)
      ensures Valid() && Capped()
      ensures capacity == (if configured >= 1 then configured else 1)
      ensures inFlight == 0 && waiting == [] && woken == [] && served == []
    {
      capacity := if configured >= 1 then configured else 1;
      inFlight := 0;
      waiting := [];
      woken := [];
      queued := [];
      served := [];
    }

    /** acquireLabelarySlot: below the cap the caller is admitted and the counter
        goes up by exactly one; at the cap the caller queues at the back. */
    method Acquire(id: nat) returns (admitted: bool)
      requires Valid()
      modifies this
      ensures Valid()
      ensures admitted <==> old(inFlight) < capacity
      ensures admitted ==> inFlight == old(inFlight) + 1 && waiting == old(waiting) && queued == old(queued)
      ensures !admitted ==>
        inFlight == old(inFlight) && waiting == old(waiting) + [id] && queued == old(queued) + [id]
      ensures capacity == old(capacity) && woken == old(woken) && served == old(served)
      ensures old(Capped()) && old(woken) == [] ==> Capped()
    {
      if inFlight < capacity {
        inFlight := inFlight + 1;
        admitted := true;
      } else {
        waiting := waiting + [id];
        queued := queued + [id];
        admitted := false;
      }
    }

    /** releaseLabelarySlot: the counter goes down by one but never below zero,
        and the oldest waiter, if any, is woken. */
    method Release() returns (wakes: Option<nat>)
      requires Valid()
      modifies this
      ensures Valid()
      ensures inFlight == (if old(inFlight) > 0 then old(inFlight) - 1 else 0)
      ensures old(waiting) == [] ==>
        wakes == None && waiting == [] && woken == old(woken) && served == old(served)
      ensures old(waiting) != [] ==>
        wakes == Some(old(waiting)[0]) && waiting == old(waiting)[1..]
        && woken == old(woken) + [old(waiting)[0]] && served == old(served) + [old(waiting)[0]]
      ensures capacity == old(capacity) && queued == old(queued)
      ensures old(Capped()) && old(inFlight) >= 1 ==> Capped()
    {
      inFlight := if inFlight > 0 then inFlight - 1 else 0;
      if waiting == [] {
        wakes := None;
      } else {
        var next := waiting[0];
        assert queued == (served + [next]) + waiting[1..];
        waiting := waiting[1..];
        woken := woken + [next];
        served := served + [next];
        wakes := Some(next);
      }
    }

    /** The oldest woken waiter resumes after its await and counts itself in. */
    method Resume() returns (id: nat)
      requires Valid() && woken != []
      modifies this
      ensures Valid()
      ensures id == old(woken)[0] && woken == old(woken)[1..]
      ensures inFlight == old(inFlight) + 1
      ensures capacity == old(capacity) && waiting == old(waiting)
        && queued == old(queued) && served == old(served)
      ensures old(Capped()) ==> Capped()
    {
      id := woken[0];
      woken := woken[1..];
      inFlight := inFlight + 1;
    }
  }

  /** An example of the wake order that `Release` and `Valid` guarantee in
      general: with a cap of one, callers 10, 11 and 12 queue in that order
      behind caller 1, and three releases wake them in that same order. */
  method FifoWakeOrder() returns (first: Option<nat>, second: Option<nat>, third: Option<nat>)
    ensures first == Some(10) && second == Some(11) && third == Some(12)
  {
    var limiter := new SlotLimiter(1);
    var a := limiter.Acquire(1);
    var b := limiter.Acquire(10);
    var c := limiter.Acquire(11);
    var d := limiter.Acquire(12);
    first := limiter.Release();
    var r1 := limiter.Resume();
    second := limiter.Release();
    var r2 := limiter.Resume();
    third := limiter.Release();
  }
}
