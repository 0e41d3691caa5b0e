# SubSink, modelled in Dafny

SubSink holds the subscription handles that a component collects and releases
them all at once, typically at teardown. The object has one piece of state:
the ordered list `_subs`. It has three operations:

- `add(...subscriptions)` appends its arguments in order.
- the `sink` setter appends one handle.
- `unsubscribe()` walks the list in insertion order. It calls `unsubscribe()`
  on every handle that is truthy and whose `unsubscribe` property is a
  function, then resets the list to empty.

The model has four modules:

- `Handles` (handles.dfy): a held value as one of three kinds.
  - `Absent`: null, undefined or another falsy value.
  - `NoCancel`: truthy, but with no callable `unsubscribe`.
  - `Cancellable(id)`: its `unsubscribe` is a function.

  Whether a call of that function throws is not a property of the handle.
  The upstream side decides it at the time of the call.

  The helper `isFunction` (dist/subsink.js:3) applied to `unsubscribe` is
  `HasCancelFunction`. The whole guard `sub && isFunction(sub.unsubscribe)` is
  `Callable`.
- `Release` (release.dfy): the walk of `unsubscribe` as the pure function
  `Walk(s, failing)`. `failing` is the set of ids whose cancel throws during
  that walk. `Walk` gives the ids whose cancel is invoked, in call order, and
  whether the walk completed or was ended by a throw. The lemmas about `Walk`
  come after it.
- `Sink` (subsink.dfy): the class `SubSink` with the field `subs` (`_subs`)
  and methods `Add`, `SetSink` and `Unsubscribe`.
  - Cancels are calls out of the sink. They go to an `Upstream` object, passed
    to `Unsubscribe` as a parameter. It records each invoked id in its field
    `cancelled`. Its field `failing` says which ids' cancels throw at present.
    Client code may change `failing` between two releases.
  - `Add` and `SetSink` may modify only the sink, so their frames show that
    they cancel nothing.
  - `Unsubscribe` is a loop over the list, proved against `Walk`.
- `Scenarios` (scenarios.dfy): client code proved from the contracts alone.
  It covers the usual add/release sequences, releasing twice, and the setter
  behaving like `add`.

If a handle's cancel throws, the exception leaves `unsubscribe` straight out of
the `forEach`. The handles after it are not cancelled, and the reset to `[]`
on the next line is never reached. The model keeps exactly this behaviour:
`Unsubscribe` returns `Threw(id)` and leaves `subs` as it was. The next
release therefore walks the old handles again from the start, followed by
any added since. What that walk does depends on which cancels fail at that
time:
- `Scenarios.ThrowOnceThenRecover`: a cancel that throws only once is called
  again, the walk goes on, and the list is cleared.
- `Scenarios.ReleaseCycles`: if the same cancels still fail, the second
  release repeats the first and never reaches the new handles.

A hardened variant would clear the list even when a cancel throws. The code
does not, and the model follows the code.

## Model

| member | source | states |
|---|---|---|
| Handles.HasCancelFunction | dist/subsink.js:3 | `isFunction(sub.unsubscribe)`: only a handle whose `unsubscribe` is a function passes, and such a handle is never falsy |
| Handles.Callable | dist/subsink.js:61 | the guard `sub && isFunction(sub.unsubscribe)`; the truthiness test never changes its verdict, it only protects the property access |
| Release.Walk | dist/subsink.js:61 | the `forEach` walk under a given set of failing cancels; a walk throws only from a cancel that is failing (its other properties are the Release lemmas below) |
| Sink.SubSink.constructor | dist/subsink.js:26-28 | a new sink holds no handles |
| Sink.SubSink.Add | dist/subsink.js:34-40 | the held list becomes the old list followed by the arguments, in argument order (so `add()` changes nothing); the upstream side is not in its frame, so nothing is cancelled |
| Sink.SubSink.SetSink | dist/subsink.js:47-49 | the held list becomes the old list followed by the one assigned handle; nothing is cancelled |
| Sink.SubSink.Unsubscribe | dist/subsink.js:60-63 | the upstream log grows by exactly the calls of `Walk` over the old list under the cancels failing now; the returned outcome is the walk's; the list is empty afterwards if the walk completed, and unchanged if a cancel threw |
| Sink.Upstream.Cancel | dist/subsink.js:61 | invoking a handle's `unsubscribe()` records its id once, and reports whether this call threw |
| Release.WalkAppend | dist/subsink.js:61 | walking a concatenation walks the first part and, only if that completed, continues with the second |
| Release.CompletesIffNoThrowing | dist/subsink.js:61-62 | the walk completes, so the list gets cleared, exactly when no held handle's cancel throws |
| Release.InertHandlesSkipped | dist/subsink.js:61 | falsy handles and handles without a callable `unsubscribe` are skipped without error: a list of only those invokes nothing and completes |
| Release.CallsFollowInsertionOrder | dist/subsink.js:61 | when no cancel throws, the calls are the ids of exactly the handles passing the guard, each held occurrence once, at strictly increasing positions, so in insertion order |
| Release.ThrowStopsWalk | dist/subsink.js:61-62 | a throwing walk stopped at the first handle whose cancel threw: all before it were walked normally, its own call was the last, and nothing after it was called |
| Release.CallsArePrefix | dist/subsink.js:61 | whatever throws, the calls made are an initial part of the calls made when nothing throws: a failure only cuts the walk short |
| Scenarios.AddTwoThenRelease | dist/subsink.js:34-62 | handles with ids 1 and 2 added one at a time are cancelled as `[1, 2]` and the sink is left empty |
| Scenarios.SinkThenReleaseTwice | dist/subsink.js:47-62 | a handle assigned through `sink` is cancelled once by the first release and not again by the second |
| Scenarios.SkipsPlainObject | dist/subsink.js:61 | in `[1, plain object, 3]` the plain object is skipped: calls `[1, 3]`, no error |
| Scenarios.SetterMatchesAdd | dist/subsink.js:34-49 | after the same prefix, `sink = h` and `add(h)` leave the same list: the prefix followed by `h` |
| Scenarios.AddNothing | dist/subsink.js:34-40 | `add()` with no arguments leaves the held list unchanged |
| Scenarios.ReleaseTwice | dist/subsink.js:60-63 | with no throwing cancel, the first release makes the calls of `Walk`, and a second release adds none and completes |
| Scenarios.ReleaseCycles | dist/subsink.js:60-63 | after a completed release, a new add-release cycle cancels only the new handles; after a release that threw, the next release walks the old batch again followed by the new one, under the cancels failing then; if those are the same as before, it repeats the first release and the new handles are not reached |
| Scenarios.ThrowOnceThenRecover | dist/subsink.js:60-63 | a cancel that throws on the first release and returns on the second: the first release throws and keeps the handle, the second calls it again, reaches the handle added since, and clears the sink (calls `[1, 1, 2]`) |

## Left out

- Sink.SubSink.Unsubscribe: which cancels throw is fixed for the duration of
  one release, as the set `failing`. An upstream whose cancels change each
  other's failure during a walk is not modelled. The same holds for a handle
  added twice whose second call behaves differently from its first.
- The exception object a throwing cancel raises. Only the id of the handle
  whose cancel threw is kept, as `Threw(id)`.
- What a handle's `unsubscribe()` does upstream, and its return value, which
  the source discards. The call is a foreign call and is modelled only as an
  append to `Upstream.cancelled`.
- Reentrancy. A cancel that calls back into the same sink during the walk
  (adding handles, or calling `unsubscribe` again) is not modelled.
  `Unsubscribe` assumes the list does not change while it is being walked.
- JavaScript truthiness is folded into `Absent`: null, undefined, 0, "" and
  false are all skipped by the `sub &&` test. Getters on `unsubscribe` with
  side effects are not modelled either.
- `add` builds a new array with `concat` and the setter pushes in place. The
  list is never exposed, so only its contents are modelled.
- The module and export boilerplate, and the property-descriptor flags
  `enumerable` and `configurable` of `sink`.
- The Angular `ngOnDestroy` usage shown in the doc comments. It is the
  caller's lifecycle, not behaviour of the sink.
