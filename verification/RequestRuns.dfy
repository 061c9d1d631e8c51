/** Every run of starts and stops keeps the invariant of the tracker and refines one stack per domain. */
module RequestRuns {
  import opened Options
  import opened RequestTree
  import opened RequestStack
  import opened RequestInvariant

  // ----- tracing is upward closed

  /** Upward closed, except that the parent `x` of some traced request may still be untraced. */
  ghost predicate TracesBut<R>(s: State<R>, x: R) {
    forall r :: r in s.reqs && s.reqs[r].tracedStart && s.reqs[r].parent.Some? && s.reqs[r].parent.value in s.reqs ==>
      s.reqs[r].parent.value == x || s.reqs[s.reqs[r].parent.value].tracedStart
  }

  lemma {:induction false} TracedChain<R>(s: State<R>, x: R)
    requires Ordered(s) && Traces(s) && x in s.reqs && s.reqs[x].tracedStart
    ensures forall r :: r in Chain(s, Some(x)) ==> s.reqs[r].tracedStart
    decreases s.reqs[x].birth
  {
    if s.reqs[x].parent.Some? { TracedChain(s, s.reqs[x].parent.value); }
  }

  /** Despite its early exit, `traceStart` traces exactly the request and all its ancestors. */
  lemma {:induction false} TraceStartExact<R>(s: State<R>, x: R)
    requires Ordered(s) && TracesBut(s, x) && x in s.reqs
    ensures Traces(TraceStart(s, x))
    ensures forall r :: r in s.reqs ==>
      (TraceStart(s, x).reqs[r].tracedStart <==> s.reqs[r].tracedStart || r in Chain(s, Some(x)))
    decreases s.reqs[x].birth
  {
    if s.reqs[x].tracedStart {
      assert Traces(s);
      TracedChain(s, x);
    } else {
      var s1 := MarkTraced(s, x);
      ShapeOrdered(s, s1);
      if s.reqs[x].parent.Some? {
        var p := s.reqs[x].parent.value;
        assert TracesBut(s1, p);
        TraceStartExact(s1, p);
        ChainShape(s, s1, Some(p));
      }
    }
  }

  lemma {:induction false} TraceKeepsTraces<R>(s: State<R>, x: R, slow: R -> bool)
    requires Ordered(s) && Traces(s) && x in s.reqs
    ensures Traces(Trace(s, x, slow))
  {
    if slow(x) { TraceStartExact(s, x); }
  }

  lemma {:induction false} StopKeepsTraces<R>(s: State<R>, x: R, e: Option<nat>, slow: R -> bool)
    requires Ordered(s) && Traces(s) && x in s.reqs
    ensures Traces(Stop(s, x, e, slow))
    decreases s.nextEventId - s.reqs[x].birth, 1, 0
  {
    if s.reqs[x].active {
      var s1 := SetActive(s, x, false);
      ShapeOrdered(s, s1);
      DeactivatingKeepsTraces(s, x);
      var s2 := StopAll(s1, s.reqs[x].children, s.reqs[x].birth, e, slow);
      StopAllKeepsTraces(s1, s.reqs[x].children, s.reqs[x].birth, e, slow);
      ShapeTrans(s, s1, s2);
      ShapeOrdered(s, s2);
      TraceKeepsTraces(s2, x, slow);
      LeaveKeepsTraces(Trace(s2, x, slow), x, e);
    }
  }

  lemma {:induction false} DeactivatingKeepsTraces<R>(s: State<R>, x: R)
    requires Traces(s) && x in s.reqs
    ensures Traces(SetActive(s, x, false))
  {
  }

  lemma {:induction false} LeaveKeepsTraces<R>(s: State<R>, x: R, e: Option<nat>)
    requires Traces(s) && x in s.reqs
    ensures Traces(Leave(s, x, e))
  {
    assert Leave(s, x, e).reqs == s.reqs;
  }

  lemma {:induction false} StopAllKeepsTraces<R>(s: State<R>, xs: seq<R>, low: nat, e: Option<nat>, slow: R -> bool)
    requires Ordered(s) && low < s.nextEventId && BornAfter(s, xs, low) && Traces(s)
    ensures Traces(StopAll(s, xs, low, e, slow))
    decreases s.nextEventId - low, 0, |xs|
  {
    if xs != [] {
      StopKeepsTraces(s, xs[0], e, slow);
      ShapeOrdered(s, Stop(s, xs[0], e, slow));
      StopAllKeepsTraces(Stop(s, xs[0], e, slow), xs[1..], low, e, slow);
    }
  }

  // ----- one stop

  /** Stopping pops `x` and everything above it off the stack of its domain; an inactive request is left alone. */
  ghost predicate PopsStack<R>(s: State<R>, t: State<R>, x: R, d: nat)
    requires Ordered(s) && Ordered(t) && CurrentsKnown(s) && CurrentsKnown(t) && x in s.reqs
  {
    var p := StackOf(s, d);
    if x in p then exists k :: 0 <= k < |p| && p[k] == x && StackOf(t, d) == p[..k]
    else StackOf(t, d) == p
  }

  lemma {:induction false} StopKeepsEvents<R>(s: State<R>, t: State<R>, p: seq<R>, k: nat)
    requires Ordered(s) && Events(s) && SameShape(s, t) && k < |p| && StackedFrom(s, p, k)
    requires Popped(s, t, p, k, s.reqs[p[k]].domain)
    requires s.reqs[p[k]].parent.Some? ==> s.reqs[p[k]].domain.Some?
    ensures Events(t)
  {
    var x := p[k];
    assert p[k..][0] == x;
    forall r | r in t.reqs
      ensures r in t.events <==> t.reqs[r].parent.None? && t.reqs[r].domain.Some? && !t.reqs[r].active
    {
      assert SameRecordShape(s.reqs[r], t.reqs[r]);
      if r in p[k..] && r != x {
        var j :| 0 <= j < |p[k..]| && p[k..][j] == r;
        assert j > 0 && s.reqs[p[(k + j - 1) + 1]].parent == Some(p[k + j - 1]);
      }
    }
  }

  lemma {:induction false} StopKeepsInv<R>(s: State<R>, x: R, e: Option<nat>, slow: R -> bool)
    requires Inv(s) && x in s.reqs && (s.reqs[x].active ==> e == s.reqs[x].domain)
    ensures Inv(Stop(s, x, e, slow))
    ensures forall d :: PopsStack(s, Stop(s, x, e, slow), x, d)
  {
    var t := Stop(s, x, e, slow);
    if s.reqs[x].active {
      var p, k := StopOutcome(s, x, e, slow);
      ShapeOrdered(s, t);
      ShapeTree(s, t);
      ShapeIds(s, t);
      StopKeepsTraces(s, x, e, slow);
      assert DomainOf(s, x);
      StopKeepsEvents(s, t, p, k);
      if e.Some? {
        StopKeepsStacks(s, t, e.value, k);
      } else {
        LoneStopKeepsStacks(s, t, x);
      }
      forall d: nat
        ensures PopsStack(s, t, x, d)
      {
        StopPopsStack(s, t, x, e, p, k, d);
      }
    } else {
      InactivePopsNothing(s, x);
    }
  }

  lemma {:induction false} InactivePopsNothing<R>(s: State<R>, x: R)
    requires Inv(s) && x in s.reqs && !s.reqs[x].active
    ensures forall d :: PopsStack(s, s, x, d)
  {
    forall d: nat
      ensures PopsStack(s, s, x, d)
    {
      if x in StackOf(s, d) { StackDomain(s, d, x); }
    }
  }

  lemma {:induction false} StopPopsStack<R>(s: State<R>, t: State<R>, x: R, e: Option<nat>, p: seq<R>, k: nat, d: nat)
    requires Inv(s) && x in s.reqs && s.reqs[x].active && e == s.reqs[x].domain
    requires SameShape(s, t) && Ordered(t) && k < |p| && p[k] == x && Popped(s, t, p, k, e)
    requires e.Some? ==> p == StackOf(s, e.value)
    ensures CurrentsKnown(t) && PopsStack(s, t, x, d)
  {
    if x in StackOf(s, d) { StackDomain(s, d, x); }
    if e.Some? {
      StopStackOf(s, t, e.value, k, d);
    } else {
      ChainShape(s, t, Current(s, Some(d)));
    }
  }

  /** Stopping raises exactly one event for an active parentless request in a domain, and none for any other
      request; by then nothing in that domain is active any more. */
  lemma {:induction false} EventComesLast<R>(s: State<R>, x: R, e: Option<nat>, slow: R -> bool)
    requires Inv(s) && x in s.reqs && (s.reqs[x].active ==> e == s.reqs[x].domain)
    ensures var t := Stop(s, x, e, slow);
      if s.reqs[x].active && s.reqs[x].parent.None? && e.Some?
      then t.events == s.events + [x] && forall r :: r in t.reqs && t.reqs[r].domain == e ==> !t.reqs[r].active
      else t.events == s.events
  {
    var t := Stop(s, x, e, slow);
    if s.reqs[x].active {
      var p, k := StopOutcome(s, x, e, slow);
      if s.reqs[x].parent.None? && e.Some? {
        RootEmptiesDomain(s, t, x, e.value, p, k);
      }
    }
  }

  lemma {:induction false} RootEmptiesDomain<R>(s: State<R>, t: State<R>, x: R, d: nat, p: seq<R>, k: nat)
    requires Ordered(s) && Stacks(s) && SameShape(s, t) && p == StackOf(s, d) && k < |p| && p[k] == x
    requires x in s.reqs && s.reqs[x].parent.None? && Deactivated(s, t, p, k)
    ensures forall r :: r in t.reqs && t.reqs[r].domain == Some(d) ==> !t.reqs[r].active
  {
    ChainParent(s, Current(s, Some(d)), k);
    assert p[0..] == p;
    forall r | r in t.reqs && t.reqs[r].domain == Some(d)
      ensures !t.reqs[r].active
    {
      assert SameRecordShape(s.reqs[r], t.reqs[r]);
    }
  }

  lemma {:induction false} OtherDomainKeepsTop<R>(s: State<R>, t: State<R>, d: nat, e: Option<nat>, p: seq<R>, k: nat)
    requires Ordered(s) && Stacks(s) && SameShape(s, t) && p == StackOf(s, d) && k < |p| && e != Some(d)
    requires Popped(s, t, p, k, e)
    ensures !Inv(t)
  {
    var last := p[|p| - 1];
    assert p[k..][|p| - 1 - k] == last && last in p;
    StackDomain(s, d, last);
    assert Current(t, Some(d)) == Current(s, Some(d));
    InactiveOnTop(s, t, d, last);
  }

  /** In another domain, the request's own domain is left pointing at a request that is no longer active. */
  lemma {:induction false} WrongDomainBreaksStack<R>(s: State<R>, x: R, d: nat, e: Option<nat>, slow: R -> bool)
    requires Inv(s) && x in s.reqs && s.reqs[x].active && s.reqs[x].domain == Some(d) && e != Some(d)
    ensures !Inv(Stop(s, x, e, slow))
  {
    var p, k := StopOutcome(s, x, e, slow);
    OtherDomainKeepsTop(s, Stop(s, x, e, slow), d, e, p, k);
  }

  /** A current request that is not active. */
  lemma {:induction false} InactiveOnTop<R>(s: State<R>, t: State<R>, d: nat, last: R)
    requires SameShape(s, t) && last in t.reqs && s.reqs[last].domain == Some(d)
    requires Current(t, Some(d)) == Some(last) && !t.reqs[last].active
    ensures !Inv(t)
  {
    assert SameRecordShape(s.reqs[last], t.reqs[last]);
    if Ordered(t) && CurrentsKnown(t) { assert last in StackOf(t, d); }
  }

  /** A request started outside any domain raises an event it should not, when it is stopped inside one. */
  lemma {:induction false} LoneStopBreaksEvents<R>(s: State<R>, x: R, e: Option<nat>, slow: R -> bool)
    requires Inv(s) && x in s.reqs && s.reqs[x].active && s.reqs[x].domain.None? && e.Some?
    ensures !Inv(Stop(s, x, e, slow))
  {
    var t := Stop(s, x, e, slow);
    var p, k := StopOutcome(s, x, e, slow);
    assert SameRecordShape(s.reqs[x], t.reqs[x]);
    assert t.events[|t.events| - 1] == x;
  }

  /** `stop` keeps the invariant exactly when the request is inactive already or the call runs in the
      domain the request was started in. */
  lemma {:induction false} StopKeepsInvariantExactly<R>(s: State<R>, x: R, e: Option<nat>, slow: R -> bool)
    requires Inv(s) && x in s.reqs
    ensures Inv(Stop(s, x, e, slow)) <==> !s.reqs[x].active || e == s.reqs[x].domain
  {
    if !s.reqs[x].active || e == s.reqs[x].domain {
      StopKeepsInv(s, x, e, slow);
    } else if s.reqs[x].domain.Some? {
      WrongDomainBreaksStack(s, x, s.reqs[x].domain.value, e, slow);
    } else {
      LoneStopBreaksEvents(s, x, e, slow);
    }
  }

  // ----- one start

  /** A request that was there before: only its list of children may have grown, by `x`. */
  ghost predicate Kept<R>(a: Record<R>, b: Record<R>, x: R) {
    b == a.(children := b.children) && (b.children == a.children || b.children == a.children + [x])
  }

  ghost predicate Added<R>(s: State<R>, t: State<R>, x: R, e: Option<nat>, typed: bool)
    requires CurrentsKnown(s)
  {
    && x !in s.reqs && t.reqs.Keys == s.reqs.Keys + {x}
    && (forall r :: r in s.reqs ==> Kept(s.reqs[r], t.reqs[r], x))
    && (forall r :: r in s.reqs ==> (t.reqs[r].children != s.reqs[r].children <==> Current(s, e) == Some(r)))
    && t.reqs[x].parent == Current(s, e) && t.reqs[x].children == [] && t.reqs[x].active
    && !t.reqs[x].tracedStart && !t.reqs[x].traceStopped
    && t.reqs[x].domain == e && t.reqs[x].birth == s.nextEventId && t.reqs[x].typed == typed
    && t.reqs[x].top == (if Current(s, e).Some? then s.reqs[Current(s, e).value].top else x)
    && t.reqs[x].id == (if typed && Current(s, e).None? then s.nextRequestId else s.nextEventId)
    && t.nextEventId == s.nextEventId + 1
    && t.nextRequestId == (if typed && Current(s, e).None? then s.nextRequestId + 1 else s.nextRequestId)
    && t.current == SetCurrent(s, e, Some(x)).current && t.events == s.events
  }

  lemma {:induction false} StartAdds<R>(s: State<R>, x: R, e: Option<nat>, typed: bool)
    requires CurrentsKnown(s) && x !in s.reqs
    ensures Added(s, Start(s, x, e, typed), x, e, typed)
  {
    if Current(s, e).Some? {
      StartAddsChild(s, x, e, typed);
    } else {
      StartAddsRoot(s, x, e, typed);
    }
  }

  lemma {:induction false} StartAddsChild<R>(s: State<R>, x: R, e: Option<nat>, typed: bool)
    requires CurrentsKnown(s) && x !in s.reqs && Current(s, e).Some?
    ensures Added(s, Start(s, x, e, typed), x, e, typed)
  {
    var p := Current(s, e).value;
    var t := Start(s, x, e, typed);
    assert |t.reqs[p].children| == |s.reqs[p].children| + 1;
    assert t.reqs.Keys == s.reqs.Keys + {x};
    forall r | r in s.reqs
      ensures Kept(s.reqs[r], t.reqs[r], x) && (t.reqs[r].children != s.reqs[r].children <==> r == p)
    {
    }
  }

  lemma {:induction false} StartAddsRoot<R>(s: State<R>, x: R, e: Option<nat>, typed: bool)
    requires CurrentsKnown(s) && x !in s.reqs && Current(s, e).None?
    ensures Added(s, Start(s, x, e, typed), x, e, typed)
  {
    assert Start(s, x, e, typed).reqs.Keys == s.reqs.Keys + {x};
  }

  lemma {:induction false} StartOrdered<R>(s: State<R>, t: State<R>, x: R, e: Option<nat>, typed: bool)
    requires Ordered(s) && CurrentsKnown(s) && Added(s, t, x, e, typed)
    ensures Ordered(t)
  {
    forall r, i | r in t.reqs && 0 <= i < |t.reqs[r].children|
      ensures t.reqs[r].children[i] in t.reqs && t.reqs[t.reqs[r].children[i]].birth > t.reqs[r].birth
    {
      assert r != x && Kept(s.reqs[r], t.reqs[r], x);
      if i < |s.reqs[r].children| {
        var c := s.reqs[r].children[i];
        assert c in s.reqs && Kept(s.reqs[c], t.reqs[c], x);
      }
    }
    forall r | r in t.reqs
      ensures t.reqs[r].birth < t.nextEventId
      ensures t.reqs[r].parent.Some? ==>
        t.reqs[r].parent.value in t.reqs && t.reqs[t.reqs[r].parent.value].birth < t.reqs[r].birth
    {
      if r != x {
        assert Kept(s.reqs[r], t.reqs[r], x);
        if s.reqs[r].parent.Some? { assert Kept(s.reqs[s.reqs[r].parent.value], t.reqs[s.reqs[r].parent.value], x); }
      } else if t.reqs[x].parent.Some? {
        assert Kept(s.reqs[t.reqs[x].parent.value], t.reqs[t.reqs[x].parent.value], x);
      }
    }
  }

  lemma {:induction false} StartTree<R>(s: State<R>, t: State<R>, x: R, e: Option<nat>, typed: bool)
    requires Ordered(s) && Tree(s) && CurrentsKnown(s) && Added(s, t, x, e, typed)
    ensures Tree(t)
  {
    forall r | r in t.reqs
      ensures ParentOf(t, r) && ChildrenOf(t, r)
    {
      if r != x {
        assert Kept(s.reqs[r], t.reqs[r], x) && ParentOf(s, r) && ChildrenOf(s, r);
        if s.reqs[r].parent.Some? { assert Kept(s.reqs[s.reqs[r].parent.value], t.reqs[s.reqs[r].parent.value], x); }
        forall c | c in t.reqs[r].children
          ensures c in t.reqs && t.reqs[c].parent == Some(r)
        {
          if c != x { assert c in s.reqs[r].children && Kept(s.reqs[c], t.reqs[c], x); }
        }
        assert x !in s.reqs[r].children;
      } else if t.reqs[x].parent.Some? {
        var p := t.reqs[x].parent.value;
        assert Kept(s.reqs[p], t.reqs[p], x) && t.reqs[p].children[|s.reqs[p].children|] == x;
      }
    }
  }

  lemma {:induction false} StartChain<R>(s: State<R>, t: State<R>, x: R, e: Option<nat>, typed: bool, o: Option<R>)
    requires Ordered(s) && Ordered(t) && CurrentsKnown(s) && Added(s, t, x, e, typed) && (o.Some? ==> o.value in s.reqs)
    ensures Chain(t, o) == Chain(s, o)
    decreases if o.Some? then s.reqs[o.value].birth + 1 else 0
  {
    if o.Some? {
      assert Kept(s.reqs[o.value], t.reqs[o.value], x);
      StartChain(s, t, x, e, typed, s.reqs[o.value].parent);
    }
  }

  lemma {:induction false} StartCurrents<R>(s: State<R>, t: State<R>, x: R, e: Option<nat>, typed: bool)
    requires CurrentsKnown(s) && Added(s, t, x, e, typed)
    ensures CurrentsKnown(t)
    ensures forall d: nat :: Current(t, Some(d)) == if e == Some(d) then Some(x) else Current(s, Some(d))
  {
  }

  /** Starting pushes onto the stack of the domain in force. */
  lemma {:induction false} StartStackOf<R>(s: State<R>, t: State<R>, x: R, e: Option<nat>, typed: bool, d: nat)
    requires Ordered(s) && Ordered(t) && CurrentsKnown(s) && Added(s, t, x, e, typed)
    ensures CurrentsKnown(t)
    ensures StackOf(t, d) == if e == Some(d) then StackOf(s, d) + [x] else StackOf(s, d)
  {
    StartCurrents(s, t, x, e, typed);
    StartChain(s, t, x, e, typed, Current(s, Some(d)));
    if e == Some(d) {
      ChainUnfold(t, x);
    }
  }

  lemma {:induction false} StartStacks<R>(s: State<R>, t: State<R>, x: R, e: Option<nat>, typed: bool)
    requires Ordered(s) && Ordered(t) && Stacks(s) && Added(s, t, x, e, typed)
    ensures Stacks(t)
  {
    StartStackOf(s, t, x, e, typed, 0);
    forall d | d in t.current
      ensures t.reqs[t.current[d]].domain == Some(d)
    {
      if e != Some(d) { assert Kept(s.reqs[s.current[d]], t.reqs[s.current[d]], x); }
    }
    forall r | r in t.reqs
      ensures DomainOf(t, r)
      ensures t.reqs[r].domain.Some? ==> (t.reqs[r].active <==> r in StackOf(t, t.reqs[r].domain.value))
    {
      StartDomain(s, t, x, e, typed, r);
      if t.reqs[r].domain.Some? { StartActive(s, t, x, e, typed, r); }
    }
  }

  lemma {:induction false} StartDomain<R>(s: State<R>, t: State<R>, x: R, e: Option<nat>, typed: bool, r: R)
    requires Ordered(s) && Stacks(s) && Added(s, t, x, e, typed) && r in t.reqs
    ensures DomainOf(t, r)
  {
    if r != x {
      assert Kept(s.reqs[r], t.reqs[r], x) && DomainOf(s, r);
    }
    if t.reqs[r].parent.Some? {
      assert Kept(s.reqs[t.reqs[r].parent.value], t.reqs[t.reqs[r].parent.value], x);
    }
  }

  lemma {:induction false} StartActive<R>(s: State<R>, t: State<R>, x: R, e: Option<nat>, typed: bool, r: R)
    requires Ordered(s) && Ordered(t) && Stacks(s) && Added(s, t, x, e, typed)
    requires r in t.reqs && t.reqs[r].domain.Some?
    ensures CurrentsKnown(t) && (t.reqs[r].active <==> r in StackOf(t, t.reqs[r].domain.value))
  {
    StartStackOf(s, t, x, e, typed, t.reqs[r].domain.value);
    if r != x { assert Kept(s.reqs[r], t.reqs[r], x); }
  }

  lemma {:induction false} StartRest<R>(s: State<R>, t: State<R>, x: R, e: Option<nat>, typed: bool)
    requires Inv(s) && Added(s, t, x, e, typed)
    ensures Traces(t) && Events(t)
  {
    forall r | r in t.reqs && t.reqs[r].tracedStart && t.reqs[r].parent.Some? && t.reqs[r].parent.value in t.reqs
      ensures t.reqs[t.reqs[r].parent.value].tracedStart
    {
      assert Kept(s.reqs[r], t.reqs[r], x) && ParentOf(s, r);
      assert Kept(s.reqs[s.reqs[r].parent.value], t.reqs[s.reqs[r].parent.value], x);
    }
    assert x !in s.events;
    forall r | r in t.reqs
      ensures r in t.events <==> t.reqs[r].parent.None? && t.reqs[r].domain.Some? && !t.reqs[r].active
    {
      if r != x { assert Kept(s.reqs[r], t.reqs[r], x); }
    }
  }

  lemma {:induction false} StartIds<R>(s: State<R>, t: State<R>, x: R, e: Option<nat>, typed: bool)
    requires Ordered(s) && CurrentsKnown(s) && Ids(s) && Added(s, t, x, e, typed)
    ensures Ids(t)
  {
    forall r | r in t.reqs
      ensures IdInRange(t, t.reqs[r])
    {
      if r != x { assert Kept(s.reqs[r], t.reqs[r], x) && IdInRange(s, s.reqs[r]); }
    }
    StartDistinct(s, t, x, e, typed);
    forall n | 1 <= n < t.nextRequestId
      ensures HasTypedRoot(t, n)
    {
      if n < s.nextRequestId {
        assert HasTypedRoot(s, n);
        var r :| r in s.reqs && TypedRoot(s.reqs[r]) && s.reqs[r].id == n;
        assert Kept(s.reqs[r], t.reqs[r], x) && TypedRoot(t.reqs[r]) && t.reqs[r].id == n;
      } else {
        assert TypedRoot(t.reqs[x]) && t.reqs[x].id == n;
      }
    }
  }

  lemma {:induction false} StartDistinct<R>(s: State<R>, t: State<R>, x: R, e: Option<nat>, typed: bool)
    requires Ordered(s) && CurrentsKnown(s) && Ids(s) && Added(s, t, x, e, typed)
    ensures BirthsDistinct(t) && RootIdsDistinct(t)
  {
    StartEarlier(s, t, x, e, typed);
    StaysDistinct(s, t, x);
  }

  lemma {:induction false} StaysDistinct<R>(s: State<R>, t: State<R>, x: R)
    requires BirthsDistinct(s) && RootIdsDistinct(s) && x !in s.reqs && t.reqs.Keys == s.reqs.Keys + {x}
    requires forall r :: r in s.reqs ==> Kept(s.reqs[r], t.reqs[r], x) && s.reqs[r].birth < t.reqs[x].birth
    requires forall r :: r in s.reqs && TypedRoot(t.reqs[r]) && TypedRoot(t.reqs[x]) ==> t.reqs[r].id < t.reqs[x].id
    ensures BirthsDistinct(t) && RootIdsDistinct(t)
  {
    forall r, q | r in t.reqs && q in t.reqs && r != q
      ensures t.reqs[r].birth != t.reqs[q].birth
    {
      if r in s.reqs && q in s.reqs {
        assert s.reqs[r].birth != s.reqs[q].birth;
      }
    }
  }

  /** Everything there was before has an earlier birth, and as a typed root a smaller id, than the new request. */
  lemma {:induction false} StartEarlier<R>(s: State<R>, t: State<R>, x: R, e: Option<nat>, typed: bool)
    requires Ordered(s) && CurrentsKnown(s) && Ids(s) && Added(s, t, x, e, typed)
    ensures forall r :: r in s.reqs ==> Kept(s.reqs[r], t.reqs[r], x) && s.reqs[r].birth < t.reqs[x].birth
    ensures forall r :: r in s.reqs && TypedRoot(t.reqs[r]) && TypedRoot(t.reqs[x]) ==> t.reqs[r].id < t.reqs[x].id
  {
    forall r | r in s.reqs
      ensures TypedRoot(t.reqs[r]) && TypedRoot(t.reqs[x]) ==> t.reqs[r].id < t.reqs[x].id
    {
      assert IdInRange(s, s.reqs[r]) && Kept(s.reqs[r], t.reqs[r], x);
    }
  }

  ghost predicate PushesStack<R>(s: State<R>, t: State<R>, x: R, e: Option<nat>)
    requires Ordered(s) && Ordered(t) && CurrentsKnown(s) && CurrentsKnown(t)
  {
    forall d: nat :: StackOf(t, d) == if e == Some(d) then StackOf(s, d) + [x] else StackOf(s, d)
  }

  lemma {:induction false} AddedKeepsInv<R>(s: State<R>, t: State<R>, x: R, e: Option<nat>, typed: bool)
    requires Inv(s) && Added(s, t, x, e, typed)
    ensures Inv(t) && PushesStack(s, t, x, e)
  {
    StartOrdered(s, t, x, e, typed);
    StartTree(s, t, x, e, typed);
    StartStacks(s, t, x, e, typed);
    StartRest(s, t, x, e, typed);
    StartIds(s, t, x, e, typed);
    forall d: nat
      ensures StackOf(t, d) == if e == Some(d) then StackOf(s, d) + [x] else StackOf(s, d)
    {
      StartStackOf(s, t, x, e, typed, d);
    }
  }

  /** A start keeps the invariant and pushes the new request onto the stack of the domain in force. */
  lemma {:induction false} StartKeepsInv<R>(s: State<R>, x: R, e: Option<nat>, typed: bool)
    requires Inv(s) && x !in s.reqs
    ensures Inv(Start(s, x, e, typed)) && PushesStack(s, Start(s, x, e, typed), x, e)
  {
    StartAdds(s, x, e, typed);
    AddedKeepsInv(s, Start(s, x, e, typed), x, e, typed);
  }

  /** One request, started in domain 0 and stopped in domain 1. */
  lemma {:induction false} StoppedElsewhere(x: nat, typed: bool, slow: nat -> bool)
    ensures var s := Start(Init<nat>(), x, Some(0), typed);
      Inv(s) && x in s.reqs && !Inv(Stop(s, x, Some(1), slow))
  {
    var init := Init<nat>();
    InitKeepsInvariant<nat>();
    StartKeepsInv(init, x, Some(0), typed);
    StartAdds(init, x, Some(0), typed);
    StopKeepsInvariantExactly(Start(init, x, Some(0), typed), x, Some(1), slow);
  }

  // ----- runs

  /** A call, with the domain in force; `slow` decides the delayed tracing. */
  datatype Op<!R> = StartOp(x: R, e: Option<nat>, typed: bool) | StopOp(x: R, e: Option<nat>, slow: R -> bool)

  /** Each request is created once, and stopped in its own domain. */
  ghost predicate Legal<R>(s: State<R>, op: Op<R>) {
    match op
    case StartOp(x, _, _) => x !in s.reqs
    case StopOp(x, e, _) => x in s.reqs && (s.reqs[x].active ==> e == s.reqs[x].domain)
  }

  ghost function Step<R>(s: State<R>, op: Op<R>): (t: State<R>)
    requires Ordered(s) && CurrentsKnown(s) && Legal(s, op)
  {
    match op
    case StartOp(x, e, typed) => Start(s, x, e, typed)
    case StopOp(x, e, slow) => Stop(s, x, e, slow)
  }

  /** `run` starts empty and every state follows from the one before by a legal call. */
  ghost predicate IsRun<R>(run: seq<State<R>>, ops: seq<Op<R>>) {
    && |run| == |ops| + 1 && run[0] == Init()
    && forall i :: 0 <= i < |ops| ==> Follows(run[i], ops[i], run[i + 1])
  }

  ghost predicate Follows<R>(s: State<R>, op: Op<R>, t: State<R>) {
    Ordered(s) && CurrentsKnown(s) ==> Legal(s, op) && t == Step(s, op)
  }

  // ----- plain stacks

  type Stacked<R> = map<nat, seq<R>>

  function Get<R>(m: Stacked<R>, d: nat): (items: seq<R>) {
    if d in m then m[d] else []
  }

  /** What lies below the first `x`. */
  function Below<R(==)>(p: seq<R>, x: R): (items: seq<R>) {
    if p == [] || p[0] == x then [] else [p[0]] + Below(p[1..], x)
  }

  /** A start pushes onto the stack of its domain, a stop pops up to and including its request. */
  function StackStep<R(==)>(m: Stacked<R>, op: Op<R>): (res: Stacked<R>) {
    match op
    case StartOp(x, Some(d), _) => m[d := Get(m, d) + [x]]
    case StopOp(x, Some(d), _) => m[d := Below(Get(m, d), x)]
    case _ => m
  }

  function StackRun<R(==)>(ops: seq<Op<R>>): (res: Stacked<R>) {
    if ops == [] then map[] else StackStep(StackRun(ops[..|ops| - 1]), ops[|ops| - 1])
  }

  lemma {:induction false} BelowPrefix<R>(p: seq<R>, x: R, k: nat)
    requires Distinct(p)
    ensures x !in p ==> Below(p, x) == p
    ensures k < |p| && p[k] == x ==> Below(p, x) == p[..k]
  {
    if p != [] && p[0] != x {
      var rest := p[1..];
      assert Distinct(rest) && [p[0]] + rest == p;
      if 0 < k < |p| {
        BelowPrefix(rest, x, k - 1);
        assert rest[k - 1] == p[k] && [p[0]] + rest[..k - 1] == p[..k];
      } else {
        BelowPrefix(rest, x, 0);
      }
    }
  }

  /** Each domain's parent chain is its stack in `m`. */
  ghost predicate Refines<R>(s: State<R>, m: Stacked<R>) {
    Inv(s) && forall d :: StackOf(s, d) == Get(m, d)
  }

  lemma {:induction false} StartRefines<R>(s: State<R>, t: State<R>, x: R, e: Option<nat>, typed: bool, m: Stacked<R>)
    requires Refines(s, m) && Inv(t) && PushesStack(s, t, x, e)
    ensures Refines(t, StackStep(m, StartOp(x, e, typed)))
  {
  }

  lemma {:induction false} StopRefinesAll<R>(s: State<R>, t: State<R>, x: R, e: Option<nat>, slow: R -> bool,
      m: Stacked<R>)
    requires Refines(s, m) && Inv(t) && x in s.reqs && (s.reqs[x].active ==> e == s.reqs[x].domain)
    requires forall d :: PopsStack(s, t, x, d)
    ensures Refines(t, StackStep(m, StopOp(x, e, slow)))
  {
    forall d: nat
      ensures StackOf(t, d) == Get(StackStep(m, StopOp(x, e, slow)), d)
    {
      StopRefines(s, t, x, e, d);
    }
  }

  lemma {:induction false} StepRefines<R>(s: State<R>, op: Op<R>, m: Stacked<R>)
    requires Refines(s, m) && Legal(s, op)
    ensures Refines(Step(s, op), StackStep(m, op))
  {
    match op
    case StartOp(x, e, typed) =>
      StartKeepsInv(s, x, e, typed);
      StartRefines(s, Start(s, x, e, typed), x, e, typed, m);
    case StopOp(x, e, slow) =>
      StopKeepsInv(s, x, e, slow);
      StopRefinesAll(s, Stop(s, x, e, slow), x, e, slow, m);
  }

  lemma {:induction false} StopRefines<R>(s: State<R>, t: State<R>, x: R, e: Option<nat>, d: nat)
    requires Inv(s) && Inv(t) && x in s.reqs && (s.reqs[x].active ==> e == s.reqs[x].domain) && PopsStack(s, t, x, d)
    ensures StackOf(t, d) == if e == Some(d) then Below(StackOf(s, d), x) else StackOf(s, d)
  {
    var p := StackOf(s, d);
    ChainBirths(s, Current(s, Some(d)));
    if x in p {
      StackDomain(s, d, x);
      var k :| 0 <= k < |p| && p[k] == x && StackOf(t, d) == p[..k];
      BelowPrefix(p, x, k);
    } else {
      BelowPrefix(p, x, 0);
    }
  }

  /** In every state of every run the invariant holds and each domain's parent chain is the stack that
      pushing on start and popping on stop would have built. */
  lemma {:induction false} RunRefinesStacks<R>(run: seq<State<R>>, ops: seq<Op<R>>, i: nat)
    requires IsRun(run, ops) && i < |run|
    ensures Refines(run[i], StackRun(ops[..i]))
  {
    if i == 0 {
      InitRefines<R>();
    } else {
      RunRefinesStacks(run, ops, i - 1);
      var s, op, t := run[i - 1], ops[i - 1], run[i];
      assert Follows(s, op, run[(i - 1) + 1]);
      FollowsRefines(s, op, t, StackRun(ops[..i - 1]));
      StackRunStep(ops, i);
    }
  }

  lemma {:induction false} StackRunStep<R>(ops: seq<Op<R>>, i: nat)
    requires 0 < i <= |ops|
    ensures StackRun(ops[..i]) == StackStep(StackRun(ops[..i - 1]), ops[i - 1])
  {
    assert ops[..i][..i - 1] == ops[..i - 1];
  }

  lemma {:induction false} InitRefines<R>()
    ensures Refines(Init<R>(), map[])
  {
    InitKeepsInvariant<R>();
  }

  lemma {:induction false} FollowsRefines<R>(s: State<R>, op: Op<R>, t: State<R>, m: Stacked<R>)
    requires Refines(s, m) && Follows(s, op, t)
    ensures Refines(t, StackStep(m, op))
  {
    StepRefines(s, op, m);
  }
}
