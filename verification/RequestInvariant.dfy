/**
 The request tree refines one stack per domain.

 `Inv` holds of the empty tracker and is kept by every start, and by every `stop` that runs in the
 domain its request was started in; `StopKeepsInvariantExactly` shows that no other `stop` of an
 active request keeps it.
 */
module RequestInvariant {
  import opened Options
  import opened RequestTree
  import opened RequestStack

  // ----- the invariant

  /** Children and parents are each other's inverse, and `top` is passed down from the root. */
  ghost predicate Tree<R>(s: State<R>) {
    forall r :: r in s.reqs ==> ParentOf(s, r) && ChildrenOf(s, r)
  }

  ghost predicate ParentOf<R>(s: State<R>, r: R)
    requires r in s.reqs
  {
    match s.reqs[r].parent
    case None => s.reqs[r].top == r
    case Some(p) => p in s.reqs && r in s.reqs[p].children && s.reqs[r].top == s.reqs[p].top
  }

  ghost predicate ChildrenOf<R>(s: State<R>, r: R)
    requires r in s.reqs
  {
    && Distinct(s.reqs[r].children)
    && forall c :: c in s.reqs[r].children ==> c in s.reqs && s.reqs[c].parent == Some(r)
  }

  /** The stack of a domain: the parent chain from the root to `currentRequest`. */
  ghost function StackOf<R>(s: State<R>, d: nat): (items: seq<R>)
    requires Ordered(s) && CurrentsKnown(s)
  {
    Chain(s, Current(s, Some(d)))
  }

  ghost predicate CurrentsKnown<R>(s: State<R>) {
    forall d :: d in s.current ==> s.current[d] in s.reqs
  }

  /** A request is active exactly while it is on the stack of its domain. */
  ghost predicate Stacks<R>(s: State<R>)
    requires Ordered(s)
  {
    && CurrentsKnown(s)
    && (forall d :: d in s.current ==> s.reqs[s.current[d]].domain == Some(d))
    && (forall r :: r in s.reqs ==> DomainOf(s, r))
    && (forall r :: r in s.reqs && s.reqs[r].domain.Some? ==>
        (s.reqs[r].active <==> r in StackOf(s, s.reqs[r].domain.value)))
  }

  /** A child is in a domain, and in the domain of its parent. */
  ghost predicate DomainOf<R>(s: State<R>, r: R)
    requires r in s.reqs
  {
    match s.reqs[r].parent
    case None => true
    case Some(p) => p in s.reqs && s.reqs[r].domain.Some? && s.reqs[p].domain == s.reqs[r].domain
  }

  /** `tracedStart` is upward closed. */
  ghost predicate Traces<R>(s: State<R>) {
    forall r :: r in s.reqs && s.reqs[r].tracedStart && s.reqs[r].parent.Some? && s.reqs[r].parent.value in s.reqs ==>
      s.reqs[s.reqs[r].parent.value].tracedStart
  }

  /** One event for each parentless request that was started in a domain and stopped; none for any other. */
  ghost predicate Events<R>(s: State<R>) {
    && Distinct(s.events)
    && (forall i :: 0 <= i < |s.events| ==> s.events[i] in s.reqs)
    && forall r :: r in s.reqs ==>
      (r in s.events <==> s.reqs[r].parent.None? && s.reqs[r].domain.Some? && !s.reqs[r].active)
  }

  predicate TypedRoot<R>(a: Record<R>) {
    a.parent.None? && a.typed
  }

  ghost predicate Ids<R>(s: State<R>) {
    && 1 <= s.nextRequestId <= s.nextEventId
    && (forall r :: r in s.reqs ==> IdInRange(s, s.reqs[r]))
    && BirthsDistinct(s) && RootIdsDistinct(s)
    && (forall n :: 1 <= n < s.nextRequestId ==> HasTypedRoot(s, n))
  }

  /** A typed root has a request number; every other request has the number of the event that created it. */
  ghost predicate IdInRange<R>(s: State<R>, a: Record<R>) {
    1 <= a.id <= a.birth < s.nextEventId && if TypedRoot(a) then a.id < s.nextRequestId else a.id == a.birth
  }

  ghost predicate BirthsDistinct<R>(s: State<R>) {
    forall r, q :: r in s.reqs && q in s.reqs && r != q ==> s.reqs[r].birth != s.reqs[q].birth
  }

  ghost predicate RootIdsDistinct<R>(s: State<R>) {
    forall r, q :: r in s.reqs && q in s.reqs && r != q && TypedRoot(s.reqs[r]) && TypedRoot(s.reqs[q]) ==>
      s.reqs[r].id != s.reqs[q].id
  }

  ghost predicate HasTypedRoot<R>(s: State<R>, n: nat) {
    exists r :: r in s.reqs && TypedRoot(s.reqs[r]) && s.reqs[r].id == n
  }

  ghost predicate Inv<R>(s: State<R>) {
    Ordered(s) && Tree(s) && Stacks(s) && Traces(s) && Events(s) && Ids(s)
  }

  function Init<R>(): (t: State<R>) {
    State(map[], 1, 1, map[], [])
  }

  lemma {:induction false} InitKeepsInvariant<R>()
    ensures Inv(Init<R>())
  {
  }

  // ----- consequences

  /** `top` is the end of the parent chain. */
  lemma {:induction false} TopEndsChain<R>(s: State<R>, r: R)
    requires Inv(s) && r in s.reqs
    ensures Chain(s, Some(r))[0] == s.reqs[r].top && s.reqs[r].top in s.reqs && s.reqs[s.reqs[r].top].parent.None?
    decreases s.reqs[r].birth
  {
    if s.reqs[r].parent.Some? { TopEndsChain(s, s.reqs[r].parent.value); }
  }

  lemma {:induction false} ChildIdLarger<R>(s: State<R>, r: R)
    requires Inv(s) && r in s.reqs && s.reqs[r].parent.Some?
    ensures s.reqs[s.reqs[r].parent.value].id < s.reqs[r].id
  {
    assert IdInRange(s, s.reqs[r]) && IdInRange(s, s.reqs[s.reqs[r].parent.value]);
  }

  /** No two requests of one tree have the same id, although roots and children draw from different counters. */
  lemma {:induction false} IdsUniqueInTree<R>(s: State<R>, r: R, q: R)
    requires Inv(s) && r in s.reqs && q in s.reqs && r != q && s.reqs[r].top == s.reqs[q].top
    ensures s.reqs[r].id != s.reqs[q].id
  {
    TopEarliest(s, r);
    TopEarliest(s, q);
    assert IdInRange(s, s.reqs[r]) && IdInRange(s, s.reqs[q]);
  }

  /** The root of a tree is its earliest request. */
  lemma {:induction false} TopEarliest<R>(s: State<R>, r: R)
    requires Inv(s) && r in s.reqs
    ensures s.reqs[r].top in s.reqs && s.reqs[s.reqs[r].top].birth <= s.reqs[r].birth
    ensures s.reqs[r].parent.None? ==> s.reqs[r].top == r
    ensures s.reqs[r].parent.Some? ==> s.reqs[s.reqs[r].top].birth < s.reqs[r].birth
    decreases s.reqs[r].birth
  {
    if s.reqs[r].parent.Some? { TopEarliest(s, s.reqs[r].parent.value); }
  }

  /** Everything on a chain is in the domain of its last request. */
  lemma {:induction false} ChainDomain<R>(s: State<R>, r: R, i: nat)
    requires Ordered(s) && Stacks(s) && r in s.reqs && i < |Chain(s, Some(r))|
    ensures s.reqs[Chain(s, Some(r))[i]].domain == s.reqs[r].domain
    decreases s.reqs[r].birth
  {
    if s.reqs[r].parent.Some? {
      if i < |Chain(s, Some(r))| - 1 { ChainDomain(s, s.reqs[r].parent.value, i); }
    }
  }

  /** In a stack, each request is the only active child of the one below. */
  lemma {:induction false} StackIsStacked<R>(s: State<R>, d: nat, k: nat)
    requires Ordered(s) && Tree(s) && Stacks(s) && k <= |StackOf(s, d)|
    ensures StackedFrom(s, StackOf(s, d), k)
  {
    var o := Current(s, Some(d));
    var p := StackOf(s, d);
    ChainBirths(s, o);
    ChainLinks(s, o);
    forall i | 0 <= i < |p|
      ensures s.reqs[p[i]].active && s.reqs[p[i]].domain == Some(d) && OnlyActiveChild(s, p, i)
    {
      ChainDomain(s, o.value, i);
      StackChild(s, d, i);
    }
    forall i | k <= i < |p| - 1
      ensures p[i + 1] in s.reqs[p[i]].children
    {
      assert s.reqs[p[i + 1]].parent == Some(p[i]);
    }
  }

  lemma {:induction false} StackChild<R>(s: State<R>, d: nat, i: nat)
    requires Ordered(s) && Tree(s) && Stacks(s) && i < |StackOf(s, d)|
    requires s.reqs[StackOf(s, d)[i]].domain == Some(d)
    ensures OnlyActiveChild(s, StackOf(s, d), i)
  {
    var p := StackOf(s, d);
    ChainLinks(s, Current(s, Some(d)));
    ChainBirths(s, Current(s, Some(d)));
    forall j | 0 <= j < |s.reqs[p[i]].children|
      ensures var c := s.reqs[p[i]].children[j];
        c in s.reqs && (s.reqs[c].active ==> i + 1 < |p| && c == p[i + 1])
    {
      var c := s.reqs[p[i]].children[j];
      assert ChildrenOf(s, p[i]) && c in s.reqs[p[i]].children;
      if s.reqs[c].active {
        assert c in StackOf(s, d);
        var m :| 0 <= m < |p| && p[m] == c;
        assert m > 0;
        assert s.reqs[p[(m - 1) + 1]].parent == Some(p[m - 1]);
      }
    }
  }

  // ----- stop

  lemma {:induction false} ParentsHaveDomains<R>(s: State<R>, x: R)
    requires Ordered(s) && Tree(s) && Stacks(s) && x in s.reqs && s.reqs[x].children != []
    ensures s.reqs[x].domain.Some?
  {
    var c := s.reqs[x].children[0];
    assert ChildrenOf(s, x) && c in s.reqs[x].children;
    assert DomainOf(s, c);
  }

  lemma {:induction false} LoneIsStacked<R>(s: State<R>, x: R)
    requires x in s.reqs && s.reqs[x].active && s.reqs[x].children == []
    ensures StackedFrom(s, [x], 0)
  {
    assert OnlyActiveChild(s, [x], 0);
  }

  /** The outcome of stopping an active request, in whatever domain: with a domain of its own, it is on
      that domain's stack; without one, it stands alone. */
  lemma {:induction false} StopOutcome<R>(s: State<R>, x: R, e: Option<nat>, slow: R -> bool)
    returns (p: seq<R>, k: nat)
    requires Inv(s) && x in s.reqs && s.reqs[x].active
    ensures k < |p| && p[k] == x && StackedFrom(s, p, k) && Popped(s, Stop(s, x, e, slow), p, k, e)
    ensures s.reqs[x].domain.Some? ==> p == StackOf(s, s.reqs[x].domain.value)
    ensures s.reqs[x].domain.None? ==> p == [x] && s.reqs[x].parent.None?
  {
    if s.reqs[x].domain.Some? {
      var d := s.reqs[x].domain.value;
      p := StackOf(s, d);
      k :| 0 <= k < |p| && p[k] == x;
      StackIsStacked(s, d, k);
    } else {
      p, k := [x], 0;
      assert DomainOf(s, x);
      if s.reqs[x].children != [] { ParentsHaveDomains(s, x); }
      LoneIsStacked(s, x);
    }
    StopPops(s, p, k, e, slow);
  }

  lemma {:induction false} ShapeTree<R>(s: State<R>, t: State<R>)
    requires SameShape(s, t) && Tree(s)
    ensures Tree(t)
  {
    forall r | r in t.reqs
      ensures ParentOf(t, r) && ChildrenOf(t, r)
    {
      assert SameRecordShape(s.reqs[r], t.reqs[r]) && ParentOf(s, r) && ChildrenOf(s, r);
      if s.reqs[r].parent.Some? {
        var p := s.reqs[r].parent.value;
        assert SameRecordShape(s.reqs[p], t.reqs[p]);
      }
      forall c | c in t.reqs[r].children
        ensures c in t.reqs && t.reqs[c].parent == Some(r)
      {
        assert SameRecordShape(s.reqs[c], t.reqs[c]);
      }
    }
  }

  lemma {:induction false} ShapeIds<R>(s: State<R>, t: State<R>)
    requires SameShape(s, t) && Ids(s)
    ensures Ids(t)
  {
    forall r | r in t.reqs
      ensures SameRecordShape(s.reqs[r], t.reqs[r]) && IdInRange(t, t.reqs[r])
    {
      assert IdInRange(s, s.reqs[r]);
    }
    forall n | 1 <= n < t.nextRequestId
      ensures HasTypedRoot(t, n)
    {
      assert HasTypedRoot(s, n);
      var r :| r in s.reqs && TypedRoot(s.reqs[r]) && s.reqs[r].id == n;
      assert r in t.reqs && TypedRoot(t.reqs[r]) && t.reqs[r].id == n;
    }
  }

  /** The current requests once domain `d` has gone back to `o`. */
  ghost predicate Returned<R>(s: State<R>, t: State<R>, d: nat, o: Option<R>) {
    t.current == SetCurrent(s, Some(d), o).current
  }

  lemma {:induction false} ReturnedCurrents<R>(s: State<R>, t: State<R>, d: nat, o: Option<R>)
    requires CurrentsKnown(s) && Returned(s, t, d, o) && s.reqs.Keys == t.reqs.Keys && (o.Some? ==> o.value in s.reqs)
    ensures CurrentsKnown(t) && Current(t, Some(d)) == o
    ensures forall d' :: d' != d ==> Current(t, Some(d')) == Current(s, Some(d'))
  {
  }

  lemma {:induction false} ReturnedStack<R>(s: State<R>, t: State<R>, d: nat, o: Option<R>, d': nat)
    requires Ordered(s) && Ordered(t) && SameShape(s, t) && CurrentsKnown(s)
    requires Returned(s, t, d, o) && (o.Some? ==> o.value in s.reqs)
    ensures CurrentsKnown(t)
    ensures StackOf(t, d') == if d' == d then Chain(s, o) else StackOf(s, d')
  {
    ReturnedCurrents(s, t, d, o);
    ChainShape(s, t, Current(t, Some(d')));
  }

  /** The stacks after stopping `p[k]`, the position of `x` on the stack of its domain. */
  lemma {:induction false} StopStackOf<R>(s: State<R>, t: State<R>, d: nat, k: nat, d': nat)
    requires Ordered(s) && Ordered(t) && Tree(s) && Stacks(s) && SameShape(s, t)
    requires k < |StackOf(s, d)| && Returned(s, t, d, s.reqs[StackOf(s, d)[k]].parent)
    ensures CurrentsKnown(t)
    ensures StackOf(t, d') == if d' == d then StackOf(s, d)[..k] else StackOf(s, d')
  {
    var x := StackOf(s, d)[k];
    assert ParentOf(s, x);
    ChainPrefix(s, Current(s, Some(d)), k);
    ReturnedStack(s, t, d, s.reqs[x].parent, d');
  }

  lemma {:induction false} InPrefix<R>(p: seq<R>, k: nat, r: R)
    requires Distinct(p) && k <= |p|
    ensures r in p[..k] <==> r in p && r !in p[k..]
  {
    assert p == p[..k] + p[k..];
    if r in p[..k] {
      var i :| 0 <= i < k && p[..k][i] == r;
      forall j | 0 <= j < |p[k..]|
        ensures p[k..][j] != r
      {
        assert p[i] != p[k + j];
      }
    }
  }

  /** A request on the stack of `d` is in `d`. */
  lemma {:induction false} StackDomain<R>(s: State<R>, d: nat, r: R)
    requires Ordered(s) && Stacks(s) && r in StackOf(s, d)
    ensures r in s.reqs && s.reqs[r].domain == Some(d)
  {
    var p := StackOf(s, d);
    var i :| 0 <= i < |p| && p[i] == r;
    ChainDomain(s, Current(s, Some(d)).value, i);
  }

  lemma {:induction false} StopKeepsActive<R>(s: State<R>, t: State<R>, d: nat, k: nat, r: R)
    requires Ordered(s) && Ordered(t) && Tree(s) && Stacks(s) && SameShape(s, t)
    requires k < |StackOf(s, d)| && Popped(s, t, StackOf(s, d), k, Some(d))
    requires r in s.reqs && s.reqs[r].domain.Some?
    ensures CurrentsKnown(t)
    ensures t.reqs[r].active <==> r in StackOf(t, s.reqs[r].domain.value)
  {
    var p := StackOf(s, d);
    ChainBirths(s, Current(s, Some(d)));
    StopStackOf(s, t, d, k, s.reqs[r].domain.value);
    InPrefix(p, k, r);
    if r in p { StackDomain(s, d, r); }
    if r in p[k..] { assert r in p; }
  }

  lemma {:induction false} ShapeDomains<R>(s: State<R>, t: State<R>, r: R)
    requires SameShape(s, t) && r in s.reqs && DomainOf(s, r)
    ensures DomainOf(t, r)
  {
    assert SameRecordShape(s.reqs[r], t.reqs[r]);
    if s.reqs[r].parent.Some? {
      var p := s.reqs[r].parent.value;
      assert SameRecordShape(s.reqs[p], t.reqs[p]);
    }
  }

  lemma {:induction false} StopKeepsStacks<R>(s: State<R>, t: State<R>, d: nat, k: nat)
    requires Ordered(s) && Ordered(t) && Tree(s) && Stacks(s) && SameShape(s, t)
    requires k < |StackOf(s, d)| && Popped(s, t, StackOf(s, d), k, Some(d))
    ensures Stacks(t)
  {
    var x := StackOf(s, d)[k];
    StackDomain(s, d, x);
    assert ParentOf(s, x) && DomainOf(s, x);
    ReturnedCurrents(s, t, d, s.reqs[x].parent);
    forall r | r in t.reqs
      ensures DomainOf(t, r)
      ensures t.reqs[r].domain.Some? ==> (t.reqs[r].active <==> r in StackOf(t, t.reqs[r].domain.value))
    {
      ShapeDomains(s, t, r);
      assert SameRecordShape(s.reqs[r], t.reqs[r]);
      if s.reqs[r].domain.Some? { StopKeepsActive(s, t, d, k, r); }
    }
    forall d' | d' in t.current
      ensures t.reqs[t.current[d']].domain == Some(d')
    {
      assert SameRecordShape(s.reqs[t.current[d']], t.reqs[t.current[d']]);
    }
  }

  /** A request outside any domain has no stack to pop. */
  lemma {:induction false} LoneStopKeepsStacks<R>(s: State<R>, t: State<R>, x: R)
    requires Ordered(s) && Ordered(t) && Stacks(s) && SameShape(s, t) && x in s.reqs && s.reqs[x].domain.None?
    requires Deactivated(s, t, [x], 0) && t.current == s.current
    ensures Stacks(t)
  {
    forall r | r in t.reqs
      ensures DomainOf(t, r)
      ensures t.reqs[r].domain.Some? ==> (t.reqs[r].active <==> r in StackOf(t, t.reqs[r].domain.value))
    {
      ShapeDomains(s, t, r);
      assert SameRecordShape(s.reqs[r], t.reqs[r]);
      if s.reqs[r].domain.Some? {
        ChainShape(s, t, Current(s, s.reqs[r].domain));
        assert [x][0..] == [x];
      }
    }
    forall d | d in t.current
      ensures t.reqs[t.current[d]].domain == Some(d)
    {
      assert SameRecordShape(s.reqs[t.current[d]], t.reqs[t.current[d]]);
    }
  }
}
