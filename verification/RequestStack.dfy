/** What `stop` does to the active requests of a domain: it pops the request and everything above it. */
module RequestStack {
  import opened Options
  import opened RequestTree

  // ----- the chain of parents

  /** From the root of the tree down to `o`. */
  ghost function Chain<R>(s: State<R>, o: Option<R>): (c: seq<R>)
    requires Ordered(s) && (o.Some? ==> o.value in s.reqs)
    ensures forall i :: 0 <= i < |c| ==> c[i] in s.reqs
    ensures o.Some? ==> |c| > 0 && c[|c| - 1] == o.value
    ensures o.None? ==> c == []
    decreases if o.Some? then s.reqs[o.value].birth + 1 else 0
  {
    match o
    case None => []
    case Some(x) => Chain(s, s.reqs[x].parent) + [x]
  }

  lemma {:induction false} ChainUnfold<R>(s: State<R>, x: R)
    requires Ordered(s) && x in s.reqs
    ensures Chain(s, Some(x)) == Chain(s, s.reqs[x].parent) + [x]
  {
  }

  lemma {:induction false} ChainLinks<R>(s: State<R>, o: Option<R>)
    requires Ordered(s) && (o.Some? ==> o.value in s.reqs)
    ensures var c := Chain(s, o);
      && (o.Some? ==> s.reqs[c[0]].parent.None?)
      && forall i :: 0 <= i < |c| - 1 ==> s.reqs[c[i + 1]].parent == Some(c[i])
    decreases if o.Some? then s.reqs[o.value].birth + 1 else 0
  {
    if o.Some? { ChainLinks(s, s.reqs[o.value].parent); }
  }

  lemma {:induction false} ChainParent<R>(s: State<R>, o: Option<R>, k: nat)
    requires Ordered(s) && (o.Some? ==> o.value in s.reqs) && k < |Chain(s, o)|
    ensures s.reqs[Chain(s, o)[k]].parent == if k == 0 then None else Some(Chain(s, o)[k - 1])
  {
    ChainLinks(s, o);
    if k > 0 { assert Chain(s, o)[(k - 1) + 1] == Chain(s, o)[k]; }
  }

  ghost predicate Rising<R>(s: State<R>, c: seq<R>) {
    && (forall i :: 0 <= i < |c| ==> c[i] in s.reqs)
    && (forall i, j :: 0 <= i < j < |c| ==> s.reqs[c[i]].birth < s.reqs[c[j]].birth)
  }

  /** Births increase along a chain; so no request is on it twice. */
  lemma {:induction false} ChainBirths<R>(s: State<R>, o: Option<R>)
    requires Ordered(s) && (o.Some? ==> o.value in s.reqs)
    ensures Rising(s, Chain(s, o)) && Distinct(Chain(s, o))
    decreases if o.Some? then s.reqs[o.value].birth + 1 else 0
  {
    if o.Some? {
      var p := s.reqs[o.value].parent;
      ChainBirths(s, p);
      RisingPush(s, Chain(s, p), o.value);
    }
  }

  lemma {:induction false} RisingPush<R>(s: State<R>, c: seq<R>, x: R)
    requires Rising(s, c) && x in s.reqs
    requires |c| > 0 ==> s.reqs[c[|c| - 1]].birth < s.reqs[x].birth
    ensures Rising(s, c + [x]) && Distinct(c + [x])
  {
    forall i | 0 <= i < |c|
      ensures s.reqs[c[i]].birth < s.reqs[x].birth
    {
      if i < |c| - 1 { assert s.reqs[c[i]].birth < s.reqs[c[|c| - 1]].birth; }
    }
  }

  /** A prefix of a chain is the chain of its last request. */
  lemma {:induction false} ChainPrefix<R>(s: State<R>, o: Option<R>, k: nat)
    requires Ordered(s) && (o.Some? ==> o.value in s.reqs) && k < |Chain(s, o)|
    ensures Chain(s, Some(Chain(s, o)[k])) == Chain(s, o)[..k + 1]
    ensures Chain(s, s.reqs[Chain(s, o)[k]].parent) == Chain(s, o)[..k]
    decreases if o.Some? then s.reqs[o.value].birth + 1 else 0
  {
    var c := Chain(s, o);
    var d := Chain(s, s.reqs[o.value].parent);
    assert c == d + [o.value];
    if k < |d| {
      ChainPrefix(s, s.reqs[o.value].parent, k);
      assert c[..k + 1] == d[..k + 1] && c[..k] == d[..k];
    } else {
      assert c[..k] == d && c[..k + 1] == c;
    }
  }

  /** Chains depend on the shape of the tree alone. */
  lemma {:induction false} ChainShape<R>(s: State<R>, t: State<R>, o: Option<R>)
    requires Ordered(s) && Ordered(t) && SameShape(s, t) && (o.Some? ==> o.value in s.reqs)
    ensures Chain(s, o) == Chain(t, o)
    decreases if o.Some? then s.reqs[o.value].birth + 1 else 0
  {
    if o.Some? {
      assert SameRecordShape(s.reqs[o.value], t.reqs[o.value]);
      ChainShape(s, t, s.reqs[o.value].parent);
    }
  }

  // ----- stopping

  ghost predicate Distinct<R>(p: seq<R>) {
    forall i, j :: 0 <= i < j < |p| ==> p[i] != p[j]
  }

  /** From position `k` on, `p` is a stack of active requests, each the only active child of the one below. */
  ghost predicate StackedFrom<R>(s: State<R>, p: seq<R>, k: nat) {
    && Distinct(p)
    && (forall i :: k <= i < |p| ==> p[i] in s.reqs && s.reqs[p[i]].active)
    && (forall i :: k <= i < |p| - 1 ==> s.reqs[p[i + 1]].parent == Some(p[i]))
    && (forall i :: k <= i < |p| - 1 ==> p[i + 1] in s.reqs[p[i]].children)
    && (forall i :: k <= i < |p| ==> OnlyActiveChild(s, p, i))
  }

  ghost predicate OnlyActiveChild<R>(s: State<R>, p: seq<R>, i: nat)
    requires i < |p| && p[i] in s.reqs
  {
    forall j :: 0 <= j < |s.reqs[p[i]].children| ==>
      var c := s.reqs[p[i]].children[j];
      c in s.reqs && (s.reqs[c].active ==> i + 1 < |p| && c == p[i + 1])
  }

  /** Exactly `p[k..]` has been deactivated. */
  ghost predicate Deactivated<R>(s: State<R>, t: State<R>, p: seq<R>, k: nat)
    requires k <= |p|
  {
    t.reqs.Keys == s.reqs.Keys
    && forall r :: r in s.reqs ==> (t.reqs[r].active <==> s.reqs[r].active && r !in p[k..])
  }

  /** The outcome of stopping `p[k]` in domain `e`. */
  ghost predicate Popped<R>(s: State<R>, t: State<R>, p: seq<R>, k: nat, e: Option<nat>)
    requires k < |p| && p[k] in s.reqs
  {
    && Deactivated(s, t, p, k)
    && t.current == SetCurrent(s, e, s.reqs[p[k]].parent).current
    && t.events == if e.Some? && s.reqs[p[k]].parent.None? then s.events + [p[k]] else s.events
  }

  /** Tracing touches neither activity nor current requests nor events. */
  ghost predicate OnlyTraced<R>(s: State<R>, t: State<R>) {
    && t.current == s.current && t.events == s.events && t.reqs.Keys == s.reqs.Keys
    && forall r :: r in s.reqs ==> t.reqs[r].active == s.reqs[r].active
  }

  lemma {:induction false} TraceStartOnlyTraces<R>(s: State<R>, x: R)
    requires Ordered(s) && x in s.reqs
    ensures OnlyTraced(s, TraceStart(s, x))
    decreases s.reqs[x].birth
  {
    if !s.reqs[x].tracedStart && s.reqs[x].parent.Some? {
      var s1 := MarkTraced(s, x);
      ShapeOrdered(s, s1);
      TraceStartOnlyTraces(s1, s.reqs[x].parent.value);
    }
  }

  lemma {:induction false} TraceOnlyTraces<R>(s: State<R>, x: R, slow: R -> bool)
    requires Ordered(s) && x in s.reqs
    ensures OnlyTraced(s, Trace(s, x, slow))
  {
    if slow(x) { TraceStartOnlyTraces(s, x); }
  }

  /** Once `p[k]` is inactive, the stack above it is as before. */
  lemma {:induction false} StackedAbove<R>(s: State<R>, p: seq<R>, k: nat)
    requires Ordered(s) && k < |p| && StackedFrom(s, p, k)
    ensures StackedFrom(SetActive(s, p[k], false), p, k + 1)
  {
    var s1 := SetActive(s, p[k], false);
    forall i | k + 1 <= i < |p|
      ensures OnlyActiveChild(s1, p, i)
    {
      assert OnlyActiveChild(s, p, i);
    }
  }

  /** Stopping some children of an inactive `p[k]`: the one above it, if among them, takes the whole stack along. */
  lemma {:induction false} StopAllPops<R>(s: State<R>, xs: seq<R>, low: nat, p: seq<R>, k: nat, e: Option<nat>,
      slow: R -> bool)
    requires Ordered(s) && low < s.nextEventId && BornAfter(s, xs, low)
    requires k < |p| && p[k] in s.reqs
    requires k + 1 < |p| && p[k + 1] in xs ==> StackedFrom(s, p, k + 1) && s.reqs[p[k + 1]].parent == Some(p[k])
    requires forall i :: 0 <= i < |xs| ==> (s.reqs[xs[i]].active ==> k + 1 < |p| && xs[i] == p[k + 1])
    ensures var t := StopAll(s, xs, low, e, slow);
      if k + 1 < |p| && p[k + 1] in xs then Popped(s, t, p, k + 1, e) else t == s
    decreases |p| - k, 0, |xs|
  {
    if xs != [] {
      var s1 := Stop(s, xs[0], e, slow);
      if s.reqs[xs[0]].active {
        StopPops(s, p, k + 1, e, slow);
        RestInactive(s, s1, xs, low, p, k + 1, e, slow);
      } else {
        StopAllPops(s, xs[1..], low, p, k, e, slow);
      }
    }
  }

  /** Once the stack from `p[k]` on is popped, the other children are inactive. */
  lemma {:induction false} RestInactive<R>(s: State<R>, s1: State<R>, xs: seq<R>, low: nat, p: seq<R>, k: nat,
      e: Option<nat>, slow: R -> bool)
    requires Ordered(s) && low < s.nextEventId && BornAfter(s, xs, low) && SameShape(s, s1)
    requires k < |p| && p[k] in s.reqs && xs != [] && Popped(s, s1, p, k, e)
    requires forall i :: 0 <= i < |xs| ==> (s.reqs[xs[i]].active ==> xs[i] == p[k])
    ensures Ordered(s1) && low < s1.nextEventId && BornAfter(s1, xs[1..], low)
    ensures StopAll(s1, xs[1..], low, e, slow) == s1
  {
    ShapeOrdered(s, s1);
    assert p[k] in p[k..];
    StopAllInactive(s1, xs[1..], low, e, slow);
  }

  lemma {:induction false} StopAllInactive<R>(s: State<R>, xs: seq<R>, low: nat, e: Option<nat>, slow: R -> bool)
    requires Ordered(s) && low < s.nextEventId && BornAfter(s, xs, low)
    requires forall i :: 0 <= i < |xs| ==> !s.reqs[xs[i]].active
    ensures StopAll(s, xs, low, e, slow) == s
    decreases |xs|
  {
    if xs != [] { StopAllInactive(s, xs[1..], low, e, slow); }
  }

  lemma {:induction false} DeactivatedBelow<R>(s: State<R>, s1: State<R>, t: State<R>, p: seq<R>, k: nat)
    requires k < |p| && p[k] in s.reqs && s1 == SetActive(s, p[k], false) && Deactivated(s1, t, p, k + 1)
    ensures Deactivated(s, t, p, k)
  {
    assert p[k..] == [p[k]] + p[k + 1..];
  }

  /** Of the children of `p[k]`, none is active but the one above it. */
  lemma {:induction false} ChildrenOnStack<R>(s: State<R>, p: seq<R>, k: nat)
    requires Ordered(s) && k < |p| && StackedFrom(s, p, k)
    ensures var s1 := SetActive(s, p[k], false);
      var xs := s.reqs[p[k]].children;
      && BornAfter(s1, xs, s.reqs[p[k]].birth)
      && forall i :: 0 <= i < |xs| ==> (s1.reqs[xs[i]].active ==> k + 1 < |p| && xs[i] == p[k + 1])
  {
    assert OnlyActiveChild(s, p, k);
  }

  /** The children are stopped: everything from `p[k]` up is inactive. */
  lemma {:induction false} StopAbove<R>(s: State<R>, p: seq<R>, k: nat, e: Option<nat>, slow: R -> bool)
    requires Ordered(s) && k < |p| && StackedFrom(s, p, k)
    ensures var s1 := SetActive(s, p[k], false);
      && Ordered(s1)
      && var s2 := StopAll(s1, s.reqs[p[k]].children, s.reqs[p[k]].birth, e, slow);
         && Deactivated(s, s2, p, k) && s2.events == s.events
         && s2.current == if k + 1 < |p| then SetCurrent(s, e, Some(p[k])).current else s.current
    decreases |p| - k, 1, 0
  {
    var x := p[k];
    var s1 := SetActive(s, x, false);
    ShapeOrdered(s, s1);
    var xs := s.reqs[x].children;
    ChildrenOnStack(s, p, k);
    StackedAbove(s, p, k);
    StopAllPops(s1, xs, s.reqs[x].birth, p, k, e, slow);
    var s2 := StopAll(s1, xs, s.reqs[x].birth, e, slow);
    assert Deactivated(s1, s2, p, k + 1);
    DeactivatedBelow(s, s1, s2, p, k);
  }

  /** `stop` of `p[k]` pops it and everything above it, and nothing else. */
  lemma {:induction false} StopPops<R>(s: State<R>, p: seq<R>, k: nat, e: Option<nat>, slow: R -> bool)
    requires Ordered(s) && k < |p| && StackedFrom(s, p, k)
    ensures Popped(s, Stop(s, p[k], e, slow), p, k, e)
    decreases |p| - k, 2, 0
  {
    var x := p[k];
    var s1 := SetActive(s, x, false);
    StopAbove(s, p, k, e, slow);
    var s2 := StopAll(s1, s.reqs[x].children, s.reqs[x].birth, e, slow);
    ShapeTrans(s, s1, s2);
    ShapeOrdered(s, s2);
    TraceOnlyTraces(s2, x, slow);
    ShapeTrans(s, s2, Trace(s2, x, slow));
    assert SameRecordShape(s.reqs[x], Trace(s2, x, slow).reqs[x]);
    LeavePops(s, s2, Trace(s2, x, slow), p, k, e);
  }

  lemma {:induction false} LeavePops<R>(s: State<R>, s2: State<R>, s3: State<R>, p: seq<R>, k: nat, e: Option<nat>)
    requires k < |p| && p[k] in s.reqs && Deactivated(s, s2, p, k) && OnlyTraced(s2, s3) && s2.events == s.events
    requires s3.reqs[p[k]].parent == s.reqs[p[k]].parent
    requires s2.current == if k + 1 < |p| then SetCurrent(s, e, Some(p[k])).current else s.current
    ensures Popped(s, Leave(s3, p[k], e), p, k, e)
  {
    var t := Leave(s3, p[k], e);
    assert Deactivated(s, t, p, k);
  }
}
