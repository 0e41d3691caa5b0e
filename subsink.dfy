/** The SubSink aggregator of dist/subsink.js and the upstream side whose
    subscriptions its handles cancel. */
module Sink {
  import opened Handles
  import opened Release

  /** The subscriptions' owners outside the sink. A handle's `unsubscribe()` is a
      call into them; all the model keeps of it is that the call was made, for
      which id, and whether it threw. Which calls throw is the upstream side's
      business: `failing` says which ids' cancels throw at present, and code
      outside the sink may change it at any time between two releases. */
  class Upstream {
    /** Ids whose `unsubscribe()` has been invoked, in call order. */
    var cancelled: seq<Id>
    /** Ids whose `unsubscribe()` throws when called now. */
    var failing: set<Id>

    constructor (failing: set<Id>)
      ensures cancelled == [] && this.failing == failing
    {
      cancelled := [];
      this.failing := failing;
    }

    /** Invokes `h.unsubscribe()`; `returned` is false when the call threw. */
    method Cancel(h: Handle) returns (returned: bool)
      requires Callable(h)
      modifies this
      ensures cancelled == old(cancelled) + [h.id] && failing == old(failing)
      ensures returned <==> h.id !in failing
    {
      cancelled := cancelled + [h.id];
      returned := h.id !in failing;
    }
  }

  /** Holds subscription handles until `Unsubscribe` releases them together. */
  class SubSink {
    /** The handles added since construction or since the last completed release,
        in insertion order (`_subs`). */
    var subs: seq<Handle>

    constructor ()
      ensures subs == []
    {
      subs := [];
    }

    /** `add(...subscriptions)`: the arguments are copied in order and appended.
        Only `this` is modified, so no handle is cancelled. */
    method Add(handles: seq<Handle>)
      modifies this
      ensures subs == old(subs) + handles
    {
      var subscriptions: seq<Handle> := [];
      for i := 0 to |handles|
        invariant subscriptions == handles[..i]
      {
        subscriptions := subscriptions + [handles[i]];
      }
      subs := subs + subscriptions;
    }

    /** The `sink` setter: pushes one handle. Only `this` is modified, so no
        handle is cancelled. */
    method SetSink(subscription: Handle)
      modifies this
      ensures subs == old(subs) + [subscription]
    {
      subs := subs + [subscription];
    }

    /** `unsubscribe()`: invokes the cancel of every held handle that passes the
        guard, in insertion order, then empties the list. If a cancel throws, the
        exception leaves the walk at once: the remaining handles are not
        cancelled and the list is kept as it was. */
    method Unsubscribe(upstream: Upstream) returns (outcome: Outcome)
      modifies this, upstream
      ensures upstream.failing == old(upstream.failing)
      ensures upstream.cancelled ==
                old(upstream.cancelled) + Walk(old(subs), upstream.failing).calls
      ensures outcome == Walk(old(subs), upstream.failing).outcome
      ensures subs == if outcome.Completed? then [] else old(subs)
    {
      var i := 0;
      while i < |subs|
        invariant i <= |subs| && subs == old(subs) && upstream.failing == old(upstream.failing)
        invariant Walk(subs[..i], upstream.failing).outcome == Completed
        invariant upstream.cancelled ==
                    old(upstream.cancelled) + Walk(subs[..i], upstream.failing).calls
      {
        var sub := subs[i];
        assert subs[..i + 1] == subs[..i] + [sub];
        WalkAppend(subs[..i], [sub], upstream.failing);
        WalkAppend(subs[..i + 1], subs[i + 1..], upstream.failing);
        assert subs[..i + 1] + subs[i + 1..] == subs;
        if Truthy(sub) && HasCancelFunction(sub) {
          var returned := upstream.Cancel(sub);
          if !returned {
            return Threw(sub.id);
          }
        }
        i := i + 1;
      }
      assert subs[..i] == subs;
      subs := [];
      outcome := Completed;
    }
  }
}
