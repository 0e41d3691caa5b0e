/** What one `unsubscribe` walk over a list of held handles does to the upstream
    side: which cancels it invokes, in which order, and whether it finishes.
    `failing` is the set of ids whose `unsubscribe()` throws when called during
    the walk; the upstream side decides it, and it may differ between walks. */
module Release {
  import opened Handles

  /** How the walk ends: after the last handle, or by the exception that the
      cancel of the handle with this id threw out of the walk. */
  datatype Outcome = Completed | Threw(id: Id)

  /** The cancels invoked, in call order, and how the walk ended. */
  datatype Trace = Trace(calls: seq<Id>, outcome: Outcome)

  /** No handle in `s` that passes the guard has a cancel that throws now. */
  predicate NoThrowing(s: seq<Handle>, failing: set<Id>) {
    forall i :: 0 <= i < |s| && Callable(s[i]) ==> s[i].id !in failing
  }

  /** The `forEach` at dist/subsink.js:61: every handle that passes the guard is
      cancelled, in insertion order; the first cancel that throws ends the walk.
      A walk throws only from a cancel that is failing. */
  function Walk(s: seq<Handle>, failing: set<Id>): (r: Trace)
    ensures r.outcome.Threw? ==> r.outcome.id in failing
  {
    if s == [] then Trace([], Completed)
    else
      var h := s[0];
      if !Callable(h) then Walk(s[1..], failing)
      else if h.id in failing then Trace([h.id], Threw(h.id))
      else
        var rest := Walk(s[1..], failing);
        Trace([h.id] + rest.calls, rest.outcome)
  }

  /** Walking a concatenation walks the first part and, unless that threw, the
      second part after it. */
  lemma {:induction false} WalkAppend(a: seq<Handle>, b: seq<Handle>, failing: set<Id>)
    ensures Walk(a + b, failing) ==
              if Walk(a, failing).outcome.Completed?
              then Trace(Walk(a, failing).calls + Walk(b, failing).calls, Walk(b, failing).outcome)
              else Walk(a, failing)
  {
    if a == [] {
      assert a + b == b;
    } else {
      assert (a + b)[0] == a[0];
      assert (a + b)[1..] == a[1..] + b;
      WalkAppend(a[1..], b, failing);
    }
  }

  /** The walk completes exactly when no held handle's cancel throws. */
  lemma {:induction false} CompletesIffNoThrowing(s: seq<Handle>, failing: set<Id>)
    ensures Walk(s, failing).outcome == Completed <==> NoThrowing(s, failing)
  {
    if s != [] {
      var t := s[1..];
      CompletesIffNoThrowing(t, failing);
      if Callable(s[0]) && s[0].id in failing {
        assert !NoThrowing(s, failing);
      } else if NoThrowing(t, failing) {
        forall i | 0 <= i < |s| && Callable(s[i]) ensures s[i].id !in failing {
          if i > 0 { assert s[i] == t[i - 1]; }
        }
      } else {
        var j :| 0 <= j < |t| && Callable(t[j]) && t[j].id in failing;
        assert s[j + 1] == t[j];
      }
    }
  }

  /** Falsy handles and handles without a callable cancel are skipped without
      error: a list of only such handles invokes nothing. */
  lemma {:induction false} InertHandlesSkipped(s: seq<Handle>, failing: set<Id>)
    requires forall i :: 0 <= i < |s| ==> !Callable(s[i])
    ensures Walk(s, failing) == Trace([], Completed)
  {
    if s != [] {
      assert !Callable(s[0]);
      forall i | 0 <= i < |s[1..]| ensures !Callable(s[1..][i]) {
        assert s[1..][i] == s[i + 1];
      }
      InertHandlesSkipped(s[1..], failing);
    }
  }

  /** Each listed position holds a handle that passes the guard, and `calls`
      holds the ids of the listed handles in list order. */
  ghost predicate Matches(s: seq<Handle>, calls: seq<Id>, pos: seq<int>) {
    && |pos| == |calls|
    && forall k :: 0 <= k < |pos| ==>
         0 <= pos[k] < |s| && Callable(s[pos[k]]) && s[pos[k]].id == calls[k]
  }

  /** Positions listed strictly increasing: insertion order, none twice. */
  ghost predicate Increasing(pos: seq<int>) {
    forall k, l :: 0 <= k < l < |pos| ==> pos[k] < pos[l]
  }

  /** Every position whose handle passes the guard is listed. */
  ghost predicate Covers(s: seq<Handle>, pos: seq<int>) {
    forall i :: 0 <= i < |s| && Callable(s[i]) ==> i in pos
  }

  /** When no cancel throws, the walk invokes the cancel of exactly the handles
      that pass the guard, each occurrence once, in insertion order: `pos` lists
      the cancelled positions. */
  lemma CallsFollowInsertionOrder(s: seq<Handle>, failing: set<Id>) returns (pos: seq<int>)
    requires NoThrowing(s, failing)
    ensures Matches(s, Walk(s, failing).calls, pos) && Increasing(pos) && Covers(s, pos)
  {
    pos := SuffixCallOrder(s, 0, failing);
    assert s[0..] == s;
    assert forall j :: 0 <= j < |s| && Callable(s[j]) ==> j in pos;
  }

  /** The walk over the suffix `s[i..]`, with positions counted in `s`. */
  lemma {:induction false} SuffixCallOrder(s: seq<Handle>, i: nat, failing: set<Id>)
    returns (pos: seq<int>)
    requires i <= |s| && NoThrowing(s, failing)
    ensures SuffixOrder(s, i, Walk(s[i..], failing).calls, pos)
    decreases |s| - i
  {
    if i == |s| {
      pos := [];
    } else {
      var q := SuffixCallOrder(s, i + 1, failing);
      assert s[i..] == [s[i]] + s[i + 1..];
      WalkCons(s[i], s[i + 1..], failing);
      if Callable(s[i]) {
        assert s[i].id !in failing;
        pos := [i] + q;
        CallablePosition(s, i, Walk(s[i + 1..], failing).calls, q);
      } else {
        pos := q;
        SkippedPosition(s, i, Walk(s[i + 1..], failing).calls, q);
      }
    }
  }

  /** `pos` is the call order of the walk over `s[i..]`, positions counted in `s`. */
  ghost predicate SuffixOrder(s: seq<Handle>, i: nat, calls: seq<Id>, pos: seq<int>) {
    && Matches(s, calls, pos) && Increasing(pos)
    && (forall k :: 0 <= k < |pos| ==> i <= pos[k])
    && (forall j :: i <= j < |s| && Callable(s[j]) ==> j in pos)
  }

  /** A handle that passes the guard puts its own position in front. */
  lemma CallablePosition(s: seq<Handle>, i: nat, calls: seq<Id>, q: seq<int>)
    requires i < |s| && Callable(s[i]) && SuffixOrder(s, i + 1, calls, q)
    ensures SuffixOrder(s, i, [s[i].id] + calls, [i] + q)
  {
    var pos := [i] + q;
    forall k | 0 < k < |pos| ensures pos[k] == q[k - 1] { }
  }

  /** A handle that fails the guard leaves the list of positions as it was. */
  lemma SkippedPosition(s: seq<Handle>, i: nat, calls: seq<Id>, q: seq<int>)
    requires i < |s| && !Callable(s[i]) && SuffixOrder(s, i + 1, calls, q)
    ensures SuffixOrder(s, i, calls, q)
  { }

  /** A walk that throws stopped at the first handle whose cancel threw: every
      handle before it was walked normally, its own cancel was the last call,
      and no handle after it was cancelled. */
  lemma {:induction false} ThrowStopsWalk(s: seq<Handle>, failing: set<Id>) returns (k: nat)
    requires Walk(s, failing).outcome.Threw?
    ensures k < |s| && Callable(s[k]) && s[k].id == Walk(s, failing).outcome.id
    ensures NoThrowing(s[..k], failing)
    ensures Walk(s, failing).calls == Walk(s[..k], failing).calls + [s[k].id]
  {
    assert s != [];
    if Callable(s[0]) && s[0].id in failing {
      k := 0;
      assert s[..k] == [];
    } else {
      var t := s[1..];
      var j := ThrowStopsWalk(t, failing);
      k := j + 1;
      assert s == [s[0]] + t && s[..k] == [s[0]] + t[..j];
      WalkCons(s[0], t, failing);
      WalkCons(s[0], t[..j], failing);
      NoThrowingCons(s[0], t[..j], failing);
    }
  }

  /** Whatever throws, the calls made are an initial part of the calls a walk
      in which nothing throws makes: failures only cut the walk short. */
  lemma {:induction false} CallsArePrefix(s: seq<Handle>, failing: set<Id>)
    ensures Walk(s, failing).calls <= Walk(s, {}).calls
  {
    if s != [] {
      var t := s[1..];
      assert s == [s[0]] + t;
      WalkCons(s[0], t, failing);
      WalkCons(s[0], t, {});
      CallsArePrefix(t, failing);
    }
  }

  /** One step of the walk, on a list written as its head and its tail. */
  lemma WalkCons(h: Handle, t: seq<Handle>, failing: set<Id>)
    ensures Walk([h] + t, failing) ==
              if !Callable(h) then Walk(t, failing)
              else if h.id in failing then Trace([h.id], Threw(h.id))
              else Trace([h.id] + Walk(t, failing).calls, Walk(t, failing).outcome)
  {
    assert ([h] + t)[0] == h && ([h] + t)[1..] == t;
  }

  /** Prepending a handle whose cancel does not throw keeps a list free of
      throwing cancels. */
  lemma NoThrowingCons(h: Handle, t: seq<Handle>, failing: set<Id>)
    requires (Callable(h) ==> h.id !in failing) && NoThrowing(t, failing)
    ensures NoThrowing([h] + t, failing)
  {
    var s := [h] + t;
    forall i | 0 <= i < |s| && Callable(s[i]) ensures s[i].id !in failing {
      if i > 0 { assert s[i] == t[i - 1]; }
    }
  }
}
