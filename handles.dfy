/** The values a SubSink holds, classified by what its release guard sees in them. */
module Handles {

  /** Identity of a subscription on the upstream side; the cancel log records these. */
  type Id = nat

  /** A value passed to `add` or assigned to `sink`. The sink never inspects a
      handle beyond its truthiness and its `unsubscribe` property. Whether a
      call of that `unsubscribe` returns or throws is not a property of the
      handle: it is decided upstream, at the time of the call. */
  datatype Handle =
    | Absent              // null, undefined, or any other falsy value (0, "", false)
    | NoCancel            // truthy, but its `unsubscribe` property is not a function
    | Cancellable(id: Id) // its `unsubscribe` property is a function

  /** The `sub &&` part of the guard. */
  predicate Truthy(h: Handle) {
    !h.Absent?
  }

  /** `isFunction(sub.unsubscribe)`: the handle exposes a callable cancel. Only
      an object has properties, so such a handle is never falsy. */
  predicate HasCancelFunction(h: Handle)
    ensures HasCancelFunction(h) ==> Truthy(h)
  {
    h.Cancellable?
  }

  /** The whole guard `sub && isFunction(sub.unsubscribe)` evaluated before
      `sub.unsubscribe()` is invoked. The truthiness test only keeps the
      property access off null and undefined; it never changes the verdict. */
  predicate Callable(h: Handle)
    ensures Callable(h) <==> HasCancelFunction(h)
  {
    Truthy(h) && HasCancelFunction(h)
  }
}
