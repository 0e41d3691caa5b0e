/** Client code of a SubSink, proved from the contracts of `Sink` and the
    lemmas of `Release` alone. */
module Scenarios {
  import opened Handles
  import opened Release
  import opened Sink

  /** Two cancellable handles added one by one are cancelled in that order and
      the sink is left empty. */
  method AddTwoThenRelease() returns (cancelled: seq<Id>, held: seq<Handle>)
    ensures cancelled == [1, 2] && held == []
  {
    var upstream := new Upstream({});
    var sink := new SubSink();
    sink.Add([Cancellable(1)]);
    sink.Add([Cancellable(2)]);
    assert sink.subs == [Cancellable(1), Cancellable(2)];
    WalkCons(Cancellable(1), [Cancellable(2)], {});
    WalkCons(Cancellable(2), [], {});
    var outcome := sink.Unsubscribe(upstream);
    cancelled, held := upstream.cancelled, sink.subs;
  }

  /** A handle assigned through `sink` is cancelled by the first release only. */
  method SinkThenReleaseTwice() returns (afterFirst: seq<Id>, afterSecond: seq<Id>)
    ensures afterFirst == [3] && afterSecond == [3]
  {
    var upstream := new Upstream({});
    var sink := new SubSink();
    sink.SetSink(Cancellable(3));
    WalkCons(Cancellable(3), [], {});
    var first := sink.Unsubscribe(upstream);
    afterFirst := upstream.cancelled;
    var second := sink.Unsubscribe(upstream);
    afterSecond := upstream.cancelled;
  }

  /** A plain object in the middle is skipped without error. */
  method SkipsPlainObject() returns (cancelled: seq<Id>, outcome: Outcome)
    ensures cancelled == [1, 3] && outcome == Completed
  {
    var upstream := new Upstream({});
    var sink := new SubSink();
    sink.Add([Cancellable(1), NoCancel, Cancellable(3)]);
    assert sink.subs == [Cancellable(1)] + [NoCancel, Cancellable(3)];
    assert [NoCancel, Cancellable(3)] == [NoCancel] + [Cancellable(3)];
    WalkCons(Cancellable(1), [NoCancel, Cancellable(3)], {});
    WalkCons(NoCancel, [Cancellable(3)], {});
    WalkCons(Cancellable(3), [], {});
    outcome := sink.Unsubscribe(upstream);
    cancelled := upstream.cancelled;
  }

  /** Assigning `sink = h` leaves the sink holding what `add(h)` would. */
  method SetterMatchesAdd(start: seq<Handle>, h: Handle)
    returns (viaSetter: seq<Handle>, viaAdd: seq<Handle>)
    ensures viaSetter == viaAdd == start + [h]
  {
    var a := new SubSink();
    a.Add(start);
    a.SetSink(h);
    var b := new SubSink();
    b.Add(start);
    b.Add([h]);
    viaSetter, viaAdd := a.subs, b.subs;
  }

  /** Adding nothing changes nothing. */
  method AddNothing(start: seq<Handle>) returns (held: seq<Handle>)
    ensures held == start
  {
    var sink := new SubSink();
    sink.Add(start);
    sink.Add([]);
    held := sink.subs;
  }

  /** Releasing twice: when no cancel throws, the second release cancels
      nothing and completes. */
  method ReleaseTwice(handles: seq<Handle>, failing: set<Id>)
    returns (first: seq<Id>, second: seq<Id>, secondOutcome: Outcome)
    requires NoThrowing(handles, failing)
    ensures first == Walk(handles, failing).calls && second == first
    ensures secondOutcome == Completed
  {
    var upstream := new Upstream(failing);
    var sink := new SubSink();
    sink.Add(handles);
    assert sink.subs == handles;
    CompletesIffNoThrowing(handles, failing);
    var o1 := sink.Unsubscribe(upstream);
    first := upstream.cancelled;
    assert first == Walk(handles, failing).calls && sink.subs == [];
    secondOutcome := sink.Unsubscribe(upstream);
    second := upstream.cancelled;
  }

  /** Two add-release cycles; the upstream side fails the cancels of
      `failingFirst` during the first release and of `failingSecond` during
      the second. After a completed release only the newly added handles are
      cancelled. After a release that threw, the first batch is still held, so
      the second release walks it again from its start, followed by the new
      handles; if the same cancels still fail, that walk repeats the first one
      and never reaches the new handles. */
  method ReleaseCycles(firstBatch: seq<Handle>, secondBatch: seq<Handle>,
                       failingFirst: set<Id>, failingSecond: set<Id>)
    returns (cancelled: seq<Id>, secondOutcome: Outcome, held: seq<Handle>)
    ensures NoThrowing(firstBatch, failingFirst) ==>
              && cancelled == Walk(firstBatch, failingFirst).calls + Walk(secondBatch, failingSecond).calls
              && secondOutcome == Walk(secondBatch, failingSecond).outcome
              && held == if secondOutcome.Completed? then [] else secondBatch
    ensures !NoThrowing(firstBatch, failingFirst) ==>
              && cancelled == Walk(firstBatch, failingFirst).calls
                              + Walk(firstBatch + secondBatch, failingSecond).calls
              && secondOutcome == Walk(firstBatch + secondBatch, failingSecond).outcome
              && held == if secondOutcome.Completed? then [] else firstBatch + secondBatch
    ensures !NoThrowing(firstBatch, failingFirst) && failingSecond == failingFirst ==>
              && cancelled == Walk(firstBatch, failingFirst).calls + Walk(firstBatch, failingFirst).calls
              && secondOutcome == Walk(firstBatch, failingFirst).outcome
  {
    var upstream := new Upstream(failingFirst);
    var sink := new SubSink();
    sink.Add(firstBatch);
    assert sink.subs == firstBatch;
    CompletesIffNoThrowing(firstBatch, failingFirst);
    var o1 := sink.Unsubscribe(upstream);
    assert upstream.cancelled == Walk(firstBatch, failingFirst).calls;
    upstream.failing := failingSecond;
    sink.Add(secondBatch);
    assert o1.Completed? ==> sink.subs == secondBatch;
    WalkAppend(firstBatch, secondBatch, failingSecond);
    secondOutcome := sink.Unsubscribe(upstream);
    cancelled, held := upstream.cancelled, sink.subs;
  }

  /** A cancel that throws once and returns the next time: the first release
      throws and keeps the handle; once the upstream side stops failing it, the
      next release cancels it again, reaches the handle added since, and
      empties the sink. */
  method ThrowOnceThenRecover() returns (cancelled: seq<Id>, first: Outcome, second: Outcome, held: seq<Handle>)
    ensures first == Threw(1) && second == Completed
    ensures cancelled == [1, 1, 2] && held == []
  {
    var upstream := new Upstream({1});
    var sink := new SubSink();
    sink.SetSink(Cancellable(1));
    WalkCons(Cancellable(1), [], {1});
    first := sink.Unsubscribe(upstream);
    upstream.failing := {};
    sink.SetSink(Cancellable(2));
    assert sink.subs == [Cancellable(1)] + [Cancellable(2)];
    WalkCons(Cancellable(1), [Cancellable(2)], {});
    WalkCons(Cancellable(2), [], {});
    second := sink.Unsubscribe(upstream);
    cancelled, held := upstream.cancelled, sink.subs;
  }
}
