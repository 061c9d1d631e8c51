/**
 What `stop` does in any state of the tracker, whatever domains its requests were started and stopped in:
 which requests it ends, which it traces, what is current afterwards, and what it raises.
 */
module RequestTraces {
  import opened Options
  import opened RequestTree
  import opened RequestStack
  import opened RequestInvariant
  import opened RequestRuns

  // ----- which requests end

  /** From `s` to `t`, `r` has been stopped. */
  ghost predicate Ended<R>(s: State<R>, t: State<R>, r: R) {
    r in s.reqs && r in t.reqs && s.reqs[r].active && !t.reqs[r].active
  }

  /** Nothing has been started, and no child of a request that was stopped is active still. */
  ghost predicate Quieted<R>(s: State<R>, t: State<R>) {
    && SameShape(s, t)
    && (forall r :: r in s.reqs && t.reqs[r].active ==> s.reqs[r].active)
    && forall r :: r in s.reqs && Ended(s, t, r) ==> NoneActive(t, s.reqs[r].children)
  }

  ghost predicate NoneActive<R>(t: State<R>, xs: seq<R>) {
    forall i :: 0 <= i < |xs| ==> xs[i] in t.reqs && !t.reqs[xs[i]].active
  }

  ghost predicate NoneStarted<R>(s: State<R>, t: State<R>) {
    SameShape(s, t) && forall r :: r in s.reqs && t.reqs[r].active ==> s.reqs[r].active
  }

  /** `r` is `x`, or below it, and every request on the way down is active. */
  ghost predicate ActivelyBelow<R>(s: State<R>, x: R, r: R)
    requires Ordered(s) && x in s.reqs
    decreases s.nextEventId - s.reqs[x].birth
  {
    && s.reqs[x].active
    && (x == r || exists i :: 0 <= i < |s.reqs[x].children| && ActivelyBelow(s, s.reqs[x].children[i], r))
  }

  /** What is below in a later state was below before. */
  lemma {:induction false} BelowEarlier<R>(s: State<R>, t: State<R>, x: R, r: R)
    requires Ordered(s) && Ordered(t) && NoneStarted(s, t) && x in s.reqs && ActivelyBelow(t, x, r)
    ensures ActivelyBelow(s, x, r)
    decreases s.nextEventId - s.reqs[x].birth
  {
    assert SameRecordShape(s.reqs[x], t.reqs[x]);
    if x != r {
      var i :| 0 <= i < |t.reqs[x].children| && ActivelyBelow(t, t.reqs[x].children[i], r);
      BelowEarlier(s, t, s.reqs[x].children[i], r);
    }
  }

  /** Once a request has been stopped with everything below quieted, nothing actively below it is left. */
  lemma {:induction false} BelowEnded<R>(s: State<R>, t: State<R>, x: R, r: R)
    requires Ordered(s) && x in s.reqs && Quieted(s, t) && ActivelyBelow(s, x, r) && !t.reqs[x].active
    ensures r in t.reqs && !t.reqs[r].active
    decreases s.nextEventId - s.reqs[x].birth
  {
    if x != r {
      var i :| 0 <= i < |s.reqs[x].children| && ActivelyBelow(s, s.reqs[x].children[i], r);
      assert Ended(s, t, x);
      BelowEnded(s, t, s.reqs[x].children[i], r);
    }
  }

  lemma {:induction false} BelowActive<R>(s: State<R>, x: R, r: R)
    requires Ordered(s) && x in s.reqs && ActivelyBelow(s, x, r)
    ensures r in s.reqs && s.reqs[r].active
    decreases s.nextEventId - s.reqs[x].birth
  {
    if x != r {
      var i :| 0 <= i < |s.reqs[x].children| && ActivelyBelow(s, s.reqs[x].children[i], r);
      BelowActive(s, s.reqs[x].children[i], r);
    }
  }

  // ----- which requests are traced

  ghost predicate AboveEnded<R>(base: State<R>, s: State<R>, t: State<R>, slow: R -> bool, r: R)
    requires Ordered(base)
  {
    exists q :: q in base.reqs && Ended(s, t, q) && slow(q) && r in Chain(base, Some(q))
  }

  /** Exactly the slow requests that have ended are traced to their end, and they and their ancestors, in the tree of
      `base`, from their start. */
  ghost predicate Traced<R>(base: State<R>, s: State<R>, t: State<R>, slow: R -> bool)
    requires Ordered(base)
  {
    && t.reqs.Keys == s.reqs.Keys
    && (forall r :: r in s.reqs ==>
      (t.reqs[r].tracedStart <==> s.reqs[r].tracedStart || AboveEnded(base, s, t, slow, r)))
    && forall r :: r in s.reqs ==>
      (t.reqs[r].traceStopped <==> s.reqs[r].traceStopped || (Ended(s, t, r) && slow(r)))
  }

  /** The same for the one request `x`. */
  ghost predicate TracedOne<R>(base: State<R>, s: State<R>, t: State<R>, x: R, slow: R -> bool)
    requires Ordered(base) && x in base.reqs
  {
    && t.reqs.Keys == s.reqs.Keys
    && forall r :: r in s.reqs ==>
      && t.reqs[r].active == s.reqs[r].active
      && (t.reqs[r].tracedStart <==> s.reqs[r].tracedStart || (slow(x) && r in Chain(base, Some(x))))
      && (t.reqs[r].traceStopped <==> s.reqs[r].traceStopped || (r == x && slow(x)))
  }

  lemma {:induction false} TraceStartLeavesStops<R>(s: State<R>, x: R)
    requires Ordered(s) && x in s.reqs
    ensures forall r :: r in s.reqs ==> TraceStart(s, x).reqs[r].traceStopped == s.reqs[r].traceStopped
    decreases s.reqs[x].birth
  {
    if !s.reqs[x].tracedStart && s.reqs[x].parent.Some? {
      var s1 := MarkTraced(s, x);
      ShapeOrdered(s, s1);
      TraceStartLeavesStops(s1, s.reqs[x].parent.value);
    }
  }

  /** The delayed tracing of one request. */
  lemma {:induction false} TraceExact<R>(base: State<R>, s: State<R>, x: R, slow: R -> bool)
    requires Ordered(base) && SameShape(base, s) && Ordered(s) && Traces(s) && x in s.reqs
    ensures TracedOne(base, s, Trace(s, x, slow), x, slow)
  {
    ChainShape(base, s, Some(x));
    TraceOnlyTraces(s, x, slow);
    if slow(x) { SlowTraced(s, x, slow); }
  }

  lemma {:induction false} SlowTraced<R>(s: State<R>, x: R, slow: R -> bool)
    requires Ordered(s) && Traces(s) && x in s.reqs && slow(x)
    ensures forall r :: r in s.reqs ==>
      (Trace(s, x, slow).reqs[r].tracedStart <==> s.reqs[r].tracedStart || r in Chain(s, Some(x)))
    ensures forall r :: r in s.reqs ==>
      (Trace(s, x, slow).reqs[r].traceStopped <==> s.reqs[r].traceStopped || r == x)
  {
    TraceStartExact(s, x);
    TraceStartLeavesStops(s, x);
  }

  lemma {:induction false} NothingTraced<R>(base: State<R>, s: State<R>, slow: R -> bool)
    requires Ordered(base)
    ensures Traced(base, s, s, slow) && Quieted(s, s)
  {
  }

  lemma {:induction false} EndedTwice<R>(s: State<R>, s1: State<R>, t: State<R>, r: R)
    requires Quieted(s, s1) && Quieted(s1, t)
    ensures Ended(s, t, r) <==> Ended(s, s1, r) || Ended(s1, t, r)
  {
  }

  lemma {:induction false} QuietedTwice<R>(s: State<R>, s1: State<R>, t: State<R>)
    requires Quieted(s, s1) && Quieted(s1, t)
    ensures Quieted(s, t)
  {
    ShapeTrans(s, s1, t);
    forall r | r in s.reqs && Ended(s, t, r)
      ensures NoneActive(t, s.reqs[r].children)
    {
      EndedTwice(s, s1, t, r);
      assert SameRecordShape(s.reqs[r], s1.reqs[r]);
    }
  }

  lemma {:induction false} TracedTwice<R>(base: State<R>, s: State<R>, s1: State<R>, t: State<R>, slow: R -> bool)
    requires Ordered(base) && Quieted(s, s1) && Quieted(s1, t)
    requires Traced(base, s, s1, slow) && Traced(base, s1, t, slow)
    ensures Traced(base, s, t, slow)
  {
    forall r | r in s.reqs
      ensures AboveEnded(base, s, t, slow, r) <==> AboveEnded(base, s, s1, slow, r) || AboveEnded(base, s1, t, slow, r)
      ensures Ended(s, t, r) <==> Ended(s, s1, r) || Ended(s1, t, r)
    {
      EndedTwice(s, s1, t, r);
      forall q | q in base.reqs
        ensures Ended(s, t, q) <==> Ended(s, s1, q) || Ended(s1, t, q)
      {
        EndedTwice(s, s1, t, q);
      }
    }
  }

  // ----- one stop

  /** Everything the recursion promises of a step from `s` to `t`. */
  ghost predicate Stopped<R>(base: State<R>, s: State<R>, t: State<R>, slow: R -> bool)
    requires Ordered(base)
  {
    Quieted(s, t) && Traced(base, s, t, slow) && Ordered(t) && Traces(t)
  }

  lemma {:induction false} StopExact<R>(base: State<R>, s: State<R>, x: R, e: Option<nat>, slow: R -> bool)
    requires Ordered(base) && SameShape(base, s) && Ordered(s) && Traces(s) && x in s.reqs
    ensures Stopped(base, s, Stop(s, x, e, slow), slow) && !Stop(s, x, e, slow).reqs[x].active
    decreases s.nextEventId - s.reqs[x].birth, 1, 0
  {
    if s.reqs[x].active {
      var s1 := SetActive(s, x, false);
      ChildrenToStop(s, x);
      ShapeTrans(base, s, s1);
      DeactivatingKeepsTraces(s, x);
      StopAllExact(base, s1, s.reqs[x].children, s.reqs[x].birth, e, slow);
      StopLast(base, s, x, e, slow);
    } else {
      NothingTraced(base, s, slow);
    }
  }

  lemma {:induction false} StopAllExact<R>(base: State<R>, s: State<R>, xs: seq<R>, low: nat, e: Option<nat>,
      slow: R -> bool)
    requires Ordered(base) && SameShape(base, s) && Ordered(s) && Traces(s)
    requires low < s.nextEventId && BornAfter(s, xs, low)
    ensures Stopped(base, s, StopAll(s, xs, low, e, slow), slow) && NoneActive(StopAll(s, xs, low, e, slow), xs)
    decreases s.nextEventId - low, 0, |xs|
  {
    if xs == [] {
      NothingTraced(base, s, slow);
    } else {
      var s1 := Stop(s, xs[0], e, slow);
      StopExact(base, s, xs[0], e, slow);
      FirstStopped(base, s, s1, xs, low, slow);
      StopAllExact(base, s1, xs[1..], low, e, slow);
      StopAllCompose(base, s, s1, StopAll(s1, xs[1..], low, e, slow), xs, slow);
    }
  }

  lemma {:induction false} FirstStopped<R>(base: State<R>, s: State<R>, s1: State<R>, xs: seq<R>, low: nat,
      slow: R -> bool)
    requires Ordered(base) && SameShape(base, s) && Stopped(base, s, s1, slow)
    requires xs != [] && low < s.nextEventId && BornAfter(s, xs, low)
    ensures SameShape(base, s1) && Ordered(s1) && Traces(s1)
    ensures low < s1.nextEventId && s1.nextEventId == s.nextEventId && BornAfter(s1, xs[1..], low)
  {
    ShapeTrans(base, s, s1);
  }

  lemma {:induction false} StopAllCompose<R>(base: State<R>, s: State<R>, s1: State<R>, t: State<R>, xs: seq<R>,
      slow: R -> bool)
    requires Ordered(base) && Stopped(base, s, s1, slow) && Stopped(base, s1, t, slow)
    requires xs != [] && xs[0] in s1.reqs && !s1.reqs[xs[0]].active && NoneActive(t, xs[1..])
    ensures Stopped(base, s, t, slow) && NoneActive(t, xs)
  {
    StoppedTwice(base, s, s1, t, slow);
    FirstAndRest(s1, t, xs);
  }

  lemma {:induction false} StoppedTwice<R>(base: State<R>, s: State<R>, s1: State<R>, t: State<R>, slow: R -> bool)
    requires Ordered(base) && Stopped(base, s, s1, slow) && Stopped(base, s1, t, slow)
    ensures Stopped(base, s, t, slow)
  {
    QuietedTwice(s, s1, t);
    TracedTwice(base, s, s1, t, slow);
  }

  lemma {:induction false} FirstAndRest<R>(s1: State<R>, t: State<R>, xs: seq<R>)
    requires xs != [] && Quieted(s1, t) && xs[0] in s1.reqs && !s1.reqs[xs[0]].active && NoneActive(t, xs[1..])
    ensures NoneActive(t, xs)
  {
    forall i | 0 <= i < |xs|
      ensures xs[i] in t.reqs && !t.reqs[xs[i]].active
    {
      if i > 0 { assert xs[i] == xs[1..][i - 1]; }
    }
  }

  lemma {:induction false} LeaveKeepsRequests<R>(s: State<R>, x: R, e: Option<nat>)
    requires x in s.reqs
    ensures Leave(s, x, e).reqs == s.reqs
  {
  }

  lemma {:induction false} ChildrenToStop<R>(s: State<R>, x: R)
    requires Ordered(s) && x in s.reqs
    ensures var s1 := SetActive(s, x, false);
      Ordered(s1) && s.reqs[x].birth < s1.nextEventId && BornAfter(s1, s.reqs[x].children, s.reqs[x].birth)
  {
    ShapeOrdered(s, SetActive(s, x, false));
  }

  lemma {:induction false} StopUnfolds<R>(s: State<R>, x: R, e: Option<nat>, slow: R -> bool)
    requires Ordered(s) && x in s.reqs && s.reqs[x].active
    requires var s1 := SetActive(s, x, false);
      Ordered(s1) && s.reqs[x].birth < s1.nextEventId && BornAfter(s1, s.reqs[x].children, s.reqs[x].birth)
    ensures var s2 := StopAll(SetActive(s, x, false), s.reqs[x].children, s.reqs[x].birth, e, slow);
      && Ordered(s2) && Stop(s, x, e, slow) == Leave(Trace(s2, x, slow), x, e)
      && Stop(s, x, e, slow).reqs == Trace(s2, x, slow).reqs
  {
    var s1 := SetActive(s, x, false);
    var s2 := StopAll(s1, s.reqs[x].children, s.reqs[x].birth, e, slow);
    ShapeOrdered(s1, s2);
    LeaveKeepsRequests(Trace(s2, x, slow), x, e);
  }

  /** The end of `stop`, once the children are stopped. */
  lemma {:induction false} StopLast<R>(base: State<R>, s: State<R>, x: R, e: Option<nat>, slow: R -> bool)
    requires Ordered(base) && SameShape(base, s) && Ordered(s) && Traces(s) && x in s.reqs && s.reqs[x].active
    requires var s1 := SetActive(s, x, false);
      && Ordered(s1) && s.reqs[x].birth < s1.nextEventId && BornAfter(s1, s.reqs[x].children, s.reqs[x].birth)
      && var s2 := StopAll(s1, s.reqs[x].children, s.reqs[x].birth, e, slow);
         Stopped(base, s1, s2, slow) && NoneActive(s2, s.reqs[x].children)
    ensures Stopped(base, s, Stop(s, x, e, slow), slow) && !Stop(s, x, e, slow).reqs[x].active
  {
    var s1 := SetActive(s, x, false);
    var s2 := StopAll(s1, s.reqs[x].children, s.reqs[x].birth, e, slow);
    var t := Stop(s, x, e, slow);
    ShapeTrans(base, s, s1);
    ShapeTrans(base, s1, s2);
    TraceExact(base, s2, x, slow);
    StopUnfolds(s, x, e, slow);
    ShapeOrdered(s, t);
    StopKeepsTraces(s, x, e, slow);
    LastEnded(base, s, s1, s2, t, x, slow);
  }

  lemma {:induction false} LastEnded<R>(base: State<R>, s: State<R>, s1: State<R>, s2: State<R>, t: State<R>, x: R,
      slow: R -> bool)
    requires Ordered(base) && x in s.reqs && x in base.reqs && s.reqs[x].active && s1 == SetActive(s, x, false)
    requires Quieted(s1, s2) && Traced(base, s1, s2, slow) && NoneActive(s2, s.reqs[x].children)
    requires SameShape(s, t) && TracedOne(base, s2, t, x, slow)
    ensures Quieted(s, t) && Traced(base, s, t, slow) && !t.reqs[x].active
  {
    LastQuieted(s, s1, s2, t, x);
    LastTraced(base, s, s1, s2, t, x, slow);
  }

  ghost predicate SameActivity<R>(s: State<R>, t: State<R>) {
    s.reqs.Keys == t.reqs.Keys && forall r :: r in s.reqs ==> s.reqs[r].active == t.reqs[r].active
  }

  lemma {:induction false} LastQuieted<R>(s: State<R>, s1: State<R>, s2: State<R>, t: State<R>, x: R)
    requires x in s.reqs && s.reqs[x].active && s1 == SetActive(s, x, false)
    requires Quieted(s1, s2) && NoneActive(s2, s.reqs[x].children) && SameShape(s, t) && SameActivity(s2, t)
    ensures Quieted(s, t) && !t.reqs[x].active
    ensures forall r :: r in s.reqs ==> (Ended(s, t, r) <==> r == x || Ended(s1, s2, r))
  {
    forall r | r in s.reqs && Ended(s, t, r)
      ensures NoneActive(t, s.reqs[r].children)
    {
      if r != x { assert Ended(s1, s2, r) && s1.reqs[r].children == s.reqs[r].children; }
    }
  }

  lemma {:induction false} LastTraced<R>(base: State<R>, s: State<R>, s1: State<R>, s2: State<R>, t: State<R>, x: R,
      slow: R -> bool)
    requires Ordered(base) && x in s.reqs && x in base.reqs && s.reqs[x].active && s1 == SetActive(s, x, false)
    requires Traced(base, s1, s2, slow) && TracedOne(base, s2, t, x, slow)
    requires forall r :: r in s.reqs ==> (Ended(s, t, r) <==> r == x || Ended(s1, s2, r))
    ensures Traced(base, s, t, slow)
  {
    forall r | r in s.reqs
      ensures AboveEnded(base, s, t, slow, r)
        <==> AboveEnded(base, s1, s2, slow, r) || (slow(x) && r in Chain(base, Some(x)))
    {
      LastAbove(base, s, s1, s2, t, x, slow, r);
    }
  }

  lemma {:induction false} LastAbove<R>(base: State<R>, s: State<R>, s1: State<R>, s2: State<R>, t: State<R>, x: R,
      slow: R -> bool, r: R)
    requires Ordered(base) && x in s.reqs && x in base.reqs && s1.reqs.Keys == s.reqs.Keys
    requires forall q :: q in s.reqs ==> (Ended(s, t, q) <==> q == x || Ended(s1, s2, q))
    ensures AboveEnded(base, s, t, slow, r)
      <==> AboveEnded(base, s1, s2, slow, r) || (slow(x) && r in Chain(base, Some(x)))
  {
    if slow(x) && r in Chain(base, Some(x)) { assert Ended(s, t, x); }
  }

  // ----- nothing else ends

  lemma {:induction false} StopStartsNone<R>(s: State<R>, x: R, e: Option<nat>, slow: R -> bool)
    requires Ordered(s) && Traces(s) && x in s.reqs
    ensures var t := Stop(s, x, e, slow);
      NoneStarted(s, t) && Ordered(t) && Traces(t)
  {
    StopExact(s, s, x, e, slow);
  }

  lemma {:induction false} StopEndsBelow<R>(s: State<R>, x: R, e: Option<nat>, slow: R -> bool, r: R)
    requires Ordered(s) && Traces(s) && x in s.reqs && Ended(s, Stop(s, x, e, slow), r)
    ensures ActivelyBelow(s, x, r)
    decreases s.nextEventId - s.reqs[x].birth, 1, 0
  {
    if r != x {
      var s1, xs := SetActive(s, x, false), s.reqs[x].children;
      ChildrenToStop(s, x);
      DeactivatingKeepsTraces(s, x);
      EndedAmongChildren(s, x, e, slow, r);
      var i := StopAllEndsBelow(s1, xs, s.reqs[x].birth, e, slow, r);
      BelowEarlier(s, s1, xs[i], r);
      assert ActivelyBelow(s, s.reqs[x].children[i], r);
    }
  }

  lemma {:induction false} EndedAmongChildren<R>(s: State<R>, x: R, e: Option<nat>, slow: R -> bool, r: R)
    requires Ordered(s) && x in s.reqs && s.reqs[x].active && r != x && Ended(s, Stop(s, x, e, slow), r)
    ensures var s1 := SetActive(s, x, false);
      && NoneStarted(s, s1) && Ordered(s1) && s.reqs[x].birth < s1.nextEventId
      && BornAfter(s1, s.reqs[x].children, s.reqs[x].birth)
      && Ended(s1, StopAll(s1, s.reqs[x].children, s.reqs[x].birth, e, slow), r)
  {
    ChildrenToStop(s, x);
    StopUnfolds(s, x, e, slow);
    var s1 := SetActive(s, x, false);
    TraceOnlyTraces(StopAll(s1, s.reqs[x].children, s.reqs[x].birth, e, slow), x, slow);
  }

  lemma {:induction false} StopAllEndsBelow<R>(s: State<R>, xs: seq<R>, low: nat, e: Option<nat>, slow: R -> bool, r: R)
    returns (i: nat)
    requires Ordered(s) && Traces(s) && low < s.nextEventId && BornAfter(s, xs, low)
    requires Ended(s, StopAll(s, xs, low, e, slow), r)
    ensures i < |xs| && xs[i] in s.reqs && ActivelyBelow(s, xs[i], r)
    decreases s.nextEventId - low, 0, |xs|
  {
    if Ended(s, Stop(s, xs[0], e, slow), r) {
      StopEndsBelow(s, xs[0], e, slow, r);
      i := 0;
    } else {
      StopStartsNone(s, xs[0], e, slow);
      EndedLater(s, xs, low, e, slow, r);
      var j := StopAllEndsBelow(Stop(s, xs[0], e, slow), xs[1..], low, e, slow, r);
      i := j + 1;
      assert xs[i] == xs[1..][j];
      BelowEarlier(s, Stop(s, xs[0], e, slow), xs[i], r);
    }
  }

  lemma {:induction false} EndedLater<R>(s: State<R>, xs: seq<R>, low: nat, e: Option<nat>, slow: R -> bool, r: R)
    requires Ordered(s) && low < s.nextEventId && BornAfter(s, xs, low) && xs != []
    requires NoneStarted(s, Stop(s, xs[0], e, slow)) && Ordered(Stop(s, xs[0], e, slow))
    requires !Ended(s, Stop(s, xs[0], e, slow), r) && Ended(s, StopAll(s, xs, low, e, slow), r)
    ensures var s1 := Stop(s, xs[0], e, slow);
      && low < s1.nextEventId && BornAfter(s1, xs[1..], low)
      && Ended(s1, StopAll(s1, xs[1..], low, e, slow), r)
  {
  }

  // ----- what is current, and what is raised

  /** A child has a parent. */
  ghost predicate Parented<R>(s: State<R>) {
    forall r, i :: r in s.reqs && 0 <= i < |s.reqs[r].children| ==>
      s.reqs[r].children[i] in s.reqs && s.reqs[s.reqs[r].children[i]].parent.Some?
  }

  ghost predicate AllParented<R>(s: State<R>, xs: seq<R>) {
    forall i :: 0 <= i < |xs| ==> xs[i] in s.reqs && s.reqs[xs[i]].parent.Some?
  }

  /** Only the current request of `e` may have changed. */
  ghost predicate OthersKept<R>(s: State<R>, t: State<R>, e: Option<nat>) {
    && (forall d :: e != Some(d) ==> (d in t.current <==> d in s.current))
    && (forall d :: e != Some(d) && d in s.current && d in t.current ==> t.current[d] == s.current[d])
  }

  lemma {:induction false} ShapeParented<R>(s: State<R>, t: State<R>)
    requires SameShape(s, t) && Parented(s)
    ensures Parented(t)
  {
    forall r, i | r in t.reqs && 0 <= i < |t.reqs[r].children|
      ensures t.reqs[r].children[i] in t.reqs && t.reqs[t.reqs[r].children[i]].parent.Some?
    {
      assert SameRecordShape(s.reqs[r], t.reqs[r]);
      var c := s.reqs[r].children[i];
      assert SameRecordShape(s.reqs[c], t.reqs[c]);
    }
  }

  lemma {:induction false} ShapeAllParented<R>(s: State<R>, t: State<R>, xs: seq<R>)
    requires SameShape(s, t) && AllParented(s, xs)
    ensures AllParented(t, xs)
  {
    forall i | 0 <= i < |xs|
      ensures xs[i] in t.reqs && t.reqs[xs[i]].parent.Some?
    {
      assert SameRecordShape(s.reqs[xs[i]], t.reqs[xs[i]]);
    }
  }

  lemma {:induction false} OthersKeptTwice<R>(s: State<R>, s1: State<R>, t: State<R>, e: Option<nat>)
    requires OthersKept(s, s1, e) && OthersKept(s1, t, e)
    ensures OthersKept(s, t, e)
  {
  }

  /** What a stop of `x` in domain `e` leaves current, and raises. */
  ghost predicate Left<R>(s: State<R>, t: State<R>, x: R, e: Option<nat>)
    requires x in s.reqs
  {
    if !s.reqs[x].active then t == s
    else
      && OthersKept(s, t, e)
      && (e.Some? ==> Current(t, e) == s.reqs[x].parent)
      && t.events == s.events + if e.Some? && s.reqs[x].parent.None? then [x] else []
  }

  lemma {:induction false} StopAllKeepsOthers<R>(s: State<R>, xs: seq<R>, low: nat, e: Option<nat>, slow: R -> bool)
    requires Ordered(s) && low < s.nextEventId && BornAfter(s, xs, low) && Parented(s) && AllParented(s, xs)
    ensures var t := StopAll(s, xs, low, e, slow);
      OthersKept(s, t, e) && t.events == s.events
    decreases s.nextEventId - low, 0, |xs|
  {
    if xs != [] {
      var s1 := Stop(s, xs[0], e, slow);
      StopLeaves(s, xs[0], e, slow);
      FirstLeaves(s, s1, xs, e);
      StopAllKeepsOthers(s1, xs[1..], low, e, slow);
      OthersKeptTwice(s, s1, StopAll(s1, xs[1..], low, e, slow), e);
    }
  }

  lemma {:induction false} FirstLeaves<R>(s: State<R>, s1: State<R>, xs: seq<R>, e: Option<nat>)
    requires Ordered(s) && xs != [] && Parented(s) && AllParented(s, xs) && SameShape(s, s1) && Left(s, s1, xs[0], e)
    ensures Ordered(s1) && Parented(s1) && AllParented(s1, xs[1..])
    ensures OthersKept(s, s1, e) && s1.events == s.events
  {
    ShapeOrdered(s, s1);
    ShapeParented(s, s1);
    ShapeAllParented(s, s1, xs[1..]);
  }

  /** A stop of an active request makes its parent current in the domain in force, or nothing if it has none, and
      raises its event if it has none and there is a domain. */
  lemma {:induction false} StopLeaves<R>(s: State<R>, x: R, e: Option<nat>, slow: R -> bool)
    requires Ordered(s) && Parented(s) && x in s.reqs
    ensures Left(s, Stop(s, x, e, slow), x, e)
    decreases s.nextEventId - s.reqs[x].birth, 1, 0
  {
    if s.reqs[x].active {
      var s1 := SetActive(s, x, false);
      ChildrenToStop(s, x);
      ChildrenParented(s, x);
      StopAllKeepsOthers(s1, s.reqs[x].children, s.reqs[x].birth, e, slow);
      StopLeavesLast(s, x, e, slow);
    }
  }

  lemma {:induction false} ChildrenParented<R>(s: State<R>, x: R)
    requires Ordered(s) && Parented(s) && x in s.reqs
    ensures Parented(SetActive(s, x, false)) && AllParented(SetActive(s, x, false), s.reqs[x].children)
  {
    ShapeParented(s, SetActive(s, x, false));
    ShapeAllParented(s, SetActive(s, x, false), s.reqs[x].children);
  }

  lemma {:induction false} StopLeavesLast<R>(s: State<R>, x: R, e: Option<nat>, slow: R -> bool)
    requires Ordered(s) && x in s.reqs && s.reqs[x].active
    requires var s1 := SetActive(s, x, false);
      && Ordered(s1) && s.reqs[x].birth < s1.nextEventId && BornAfter(s1, s.reqs[x].children, s.reqs[x].birth)
      && var s2 := StopAll(s1, s.reqs[x].children, s.reqs[x].birth, e, slow);
         OthersKept(s1, s2, e) && s2.events == s1.events
    ensures Left(s, Stop(s, x, e, slow), x, e)
  {
    var s1 := SetActive(s, x, false);
    var s2 := StopAll(s1, s.reqs[x].children, s.reqs[x].birth, e, slow);
    StopUnfolds(s, x, e, slow);
    TraceOnlyTraces(s2, x, slow);
    ShapeTrans(s, s1, s2);
    LeavesLast(s, s2, Trace(s2, x, slow), x, e);
  }

  lemma {:induction false} LeavesLast<R>(s: State<R>, s2: State<R>, s3: State<R>, x: R, e: Option<nat>)
    requires x in s.reqs && SameShape(s, s2) && SameShape(s2, s3) && OthersKept(s, s2, e) && s2.events == s.events
    requires s3.current == s2.current && s3.events == s2.events
    ensures var t := Leave(s3, x, e);
      && OthersKept(s, t, e)
      && (e.Some? ==> Current(t, e) == s.reqs[x].parent)
      && t.events == s.events + if e.Some? && s.reqs[x].parent.None? then [x] else []
  {
    assert SameRecordShape(s.reqs[x], s2.reqs[x]) && SameRecordShape(s2.reqs[x], s3.reqs[x]);
  }

  // ----- what holds in every state, however the calls are made

  /** The part of the invariant that does not depend on the domains in which requests are stopped. */
  ghost predicate Sane<R>(s: State<R>) {
    Ordered(s) && CurrentsKnown(s) && Tree(s) && Traces(s)
  }

  lemma {:induction false} StartKeepsSane<R>(s: State<R>, x: R, e: Option<nat>, typed: bool)
    requires Sane(s) && x !in s.reqs
    ensures Sane(Start(s, x, e, typed))
  {
    var t := Start(s, x, e, typed);
    StartAdds(s, x, e, typed);
    StartOrdered(s, t, x, e, typed);
    StartTree(s, t, x, e, typed);
    StartCurrents(s, t, x, e, typed);
    AddedTraces(s, t, x, e, typed);
  }

  lemma {:induction false} AddedTraces<R>(s: State<R>, t: State<R>, x: R, e: Option<nat>, typed: bool)
    requires Ordered(s) && CurrentsKnown(s) && Traces(s) && Added(s, t, x, e, typed)
    ensures Traces(t)
  {
    forall r | r in t.reqs && t.reqs[r].tracedStart && t.reqs[r].parent.Some? && t.reqs[r].parent.value in t.reqs
      ensures t.reqs[t.reqs[r].parent.value].tracedStart
    {
      assert r != x && Kept(s.reqs[r], t.reqs[r], x);
      var p := s.reqs[r].parent.value;
      assert Kept(s.reqs[p], t.reqs[p], x);
    }
  }

  lemma {:induction false} TreeParented<R>(s: State<R>)
    requires Tree(s)
    ensures Parented(s)
  {
    forall r, i | r in s.reqs && 0 <= i < |s.reqs[r].children|
      ensures s.reqs[r].children[i] in s.reqs && s.reqs[s.reqs[r].children[i]].parent.Some?
    {
      assert ChildrenOf(s, r) && s.reqs[r].children[i] in s.reqs[r].children;
    }
  }

  lemma {:induction false} StopKeepsSane<R>(s: State<R>, x: R, e: Option<nat>, slow: R -> bool)
    requires Sane(s) && x in s.reqs
    ensures Sane(Stop(s, x, e, slow))
  {
    var t := Stop(s, x, e, slow);
    TreeParented(s);
    StopExact(s, s, x, e, slow);
    ShapeTree(s, t);
    StopLeaves(s, x, e, slow);
    LeftCurrents(s, t, x, e);
  }

  lemma {:induction false} LeftCurrents<R>(s: State<R>, t: State<R>, x: R, e: Option<nat>)
    requires CurrentsKnown(s) && Tree(s) && SameShape(s, t) && x in s.reqs && Left(s, t, x, e)
    ensures CurrentsKnown(t)
  {
    assert ParentOf(s, x);
    forall d | d in t.current
      ensures t.current[d] in t.reqs
    {
      if e == Some(d) { assert Current(t, e) == Some(t.current[d]); }
    }
  }

  // ----- the theorem

  /** In every state, and in whatever domain: an active request that is stopped ends together with exactly the
      requests that are below it through active requests; of these the slow ones, and no others, are traced to their
      end, and they and their ancestors from their start; and its parent becomes current in the domain in force. */
  lemma {:induction false} StopExactly<R>(s: State<R>, x: R, e: Option<nat>, slow: R -> bool)
    requires Sane(s) && x in s.reqs && s.reqs[x].active
    ensures var t := Stop(s, x, e, slow);
      && SameShape(s, t) && Left(s, t, x, e)
      && (forall r :: r in s.reqs ==> (t.reqs[r].active <==> s.reqs[r].active && !ActivelyBelow(s, x, r)))
      && (forall r :: r in s.reqs ==>
        (t.reqs[r].traceStopped <==> s.reqs[r].traceStopped || (ActivelyBelow(s, x, r) && slow(r))))
      && forall r :: r in s.reqs ==>
        (t.reqs[r].tracedStart <==> (s.reqs[r].tracedStart
          || exists q :: q in s.reqs && ActivelyBelow(s, x, q) && slow(q) && r in Chain(s, Some(q))))
  {
    var t := Stop(s, x, e, slow);
    TreeParented(s);
    StopLeaves(s, x, e, slow);
    StopExact(s, s, x, e, slow);
    forall r | r in s.reqs
      ensures Ended(s, t, r) <==> ActivelyBelow(s, x, r)
    {
      if Ended(s, t, r) { StopEndsBelow(s, x, e, slow, r); }
      if ActivelyBelow(s, x, r) {
        BelowActive(s, x, r);
        BelowEnded(s, t, x, r);
      }
    }
  }

  /** In terms of the stack, under the invariant: with `p[k..]` the requests that end, those are traced that are above
      a slow one of them, or are one. */
  lemma {:induction false} StopTracesStack<R>(s: State<R>, x: R, e: Option<nat>, slow: R -> bool)
    returns (p: seq<R>, k: nat)
    requires Inv(s) && x in s.reqs && s.reqs[x].active
    ensures k < |p| && p[k] == x && StackedFrom(s, p, k)
    ensures s.reqs[x].domain.Some? ==> p == StackOf(s, s.reqs[x].domain.value)
    ensures s.reqs[x].domain.None? ==> p == [x]
    ensures var t := Stop(s, x, e, slow);
      forall r :: r in s.reqs ==>
        && (t.reqs[r].traceStopped <==> s.reqs[r].traceStopped || (r in p[k..] && slow(r)))
        && (t.reqs[r].tracedStart <==> (s.reqs[r].tracedStart
             || exists q :: q in s.reqs && q in p[k..] && slow(q) && r in Chain(s, Some(q))))
  {
    p, k := StopOutcome(s, x, e, slow);
    StopExactly(s, x, e, slow);
    var t := Stop(s, x, e, slow);
    forall r | r in s.reqs
      ensures ActivelyBelow(s, x, r) <==> r in p[k..]
    {
      if ActivelyBelow(s, x, r) { BelowActive(s, x, r); }
      if r in p[k..] { OnStackActive(s, p, k, r); }
    }
  }

  lemma {:induction false} OnStackActive<R>(s: State<R>, p: seq<R>, k: nat, r: R)
    requires k <= |p| && StackedFrom(s, p, k) && r in p[k..]
    ensures r in s.reqs && s.reqs[r].active
  {
    var j :| 0 <= j < |p[k..]| && p[k..][j] == r;
    assert s.reqs[p[k + j]].active;
  }
}
