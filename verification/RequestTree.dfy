/**
 Request tracking in lib/request.js, as functions on a snapshot of all requests.

 `R` is the identity of a request object.  A record holds its fields; `domain` and `birth` are not
 fields of the source: they remember in which domain, and as which event, the request was created.
 */
module RequestTree {
  import opened Options

  datatype Record<R> = Record(
    parent: Option<R>, children: seq<R>, top: R, active: bool, tracedStart: bool, traceStopped: bool,
    typed: bool, id: nat, domain: Option<nat>, birth: nat)

  /** `current` holds each domain's `currentRequest` (absent when undefined); `events` is what has been emitted. */
  datatype State<R> = State(
    reqs: map<R, Record<R>>, nextRequestId: nat, nextEventId: nat, current: map<nat, R>, events: seq<R>)

  // ----- the shape of the tree

  /** A parent is an earlier event than its children. */
  ghost predicate Ordered<R>(s: State<R>) {
    forall r :: r in s.reqs ==>
      && s.reqs[r].birth < s.nextEventId
      && (s.reqs[r].parent.Some? ==>
        s.reqs[r].parent.value in s.reqs && s.reqs[s.reqs[r].parent.value].birth < s.reqs[r].birth)
      && (forall i :: 0 <= i < |s.reqs[r].children| ==>
        s.reqs[r].children[i] in s.reqs && s.reqs[s.reqs[r].children[i]].birth > s.reqs[r].birth)
  }

  ghost predicate SameRecordShape<R>(a: Record<R>, b: Record<R>) {
    && a.parent == b.parent && a.children == b.children && a.top == b.top && a.typed == b.typed
    && a.id == b.id && a.domain == b.domain && a.birth == b.birth
  }

  /** Nothing but activity, tracing, current requests and emitted events may differ. */
  ghost predicate SameShape<R>(s: State<R>, t: State<R>) {
    && s.reqs.Keys == t.reqs.Keys
    && s.nextRequestId == t.nextRequestId && s.nextEventId == t.nextEventId
    && forall r :: r in s.reqs ==> SameRecordShape(s.reqs[r], t.reqs[r])
  }

  lemma {:induction false} ShapeOrdered<R>(s: State<R>, t: State<R>)
    requires SameShape(s, t) && Ordered(s)
    ensures Ordered(t)
  {
    forall r | r in t.reqs
      ensures SameRecordShape(s.reqs[r], t.reqs[r])
      ensures t.reqs[r].parent.Some? ==>
        t.reqs[r].parent.value in t.reqs && t.reqs[t.reqs[r].parent.value].birth < t.reqs[r].birth
      ensures forall i :: 0 <= i < |t.reqs[r].children| ==>
        t.reqs[r].children[i] in t.reqs && t.reqs[t.reqs[r].children[i]].birth > t.reqs[r].birth
    {
    }
  }

  lemma {:induction false} ShapeTrans<R>(s: State<R>, t: State<R>, u: State<R>)
    requires SameShape(s, t) && SameShape(t, u)
    ensures SameShape(s, u)
  {
    forall r | r in s.reqs
      ensures SameRecordShape(s.reqs[r], u.reqs[r])
    {
      assert SameRecordShape(s.reqs[r], t.reqs[r]);
    }
  }

  // ----- process.domain.currentRequest, for the domain in force (none outside any domain)

  function Current<R>(s: State<R>, e: Option<nat>): (o: Option<R>) {
    if e.Some? && e.value in s.current then Some(s.current[e.value]) else None
  }

  function SetCurrent<R>(s: State<R>, e: Option<nat>, r: Option<R>): (t: State<R>) {
    match e
    case None => s
    case Some(d) => s.(current := if r.Some? then s.current[d := r.value] else s.current - {d})
  }

  // ----- starting

  /** The constructor of a request, in the domain in force once a root request has entered its own. */
  function Create<R>(s: State<R>, x: R, e: Option<nat>, typed: bool): (t: State<R>)
    requires x !in s.reqs && (Current(s, e).Some? ==> Current(s, e).value in s.reqs)
  {
    var parent := Current(s, e);
    var event := s.nextEventId;
    match parent
    case Some(p) =>
      var rec := Record(parent, [], s.reqs[p].top, false, false, false, typed, event, e, event);
      var adopted := s.reqs[p].(children := s.reqs[p].children + [x]);
      s.(reqs := s.reqs[p := adopted][x := rec], nextEventId := event + 1)
    case None =>
      var id := if typed then s.nextRequestId else event;
      var rec := Record(parent, [], x, false, false, false, typed, id, e, event);
      s.(reqs := s.reqs[x := rec], nextEventId := event + 1,
         nextRequestId := if typed then s.nextRequestId + 1 else s.nextRequestId)
  }

  function SetActive<R>(s: State<R>, x: R, active: bool): (t: State<R>)
    requires x in s.reqs
    ensures SameShape(s, t)
  {
    s.(reqs := s.reqs[x := s.reqs[x].(active := active)])
  }

  /** `startRequest` and `startMethod`: create a request and start it. */
  function Start<R>(s: State<R>, x: R, e: Option<nat>, typed: bool): (t: State<R>)
    requires x !in s.reqs && (Current(s, e).Some? ==> Current(s, e).value in s.reqs)
  {
    SetCurrent(SetActive(Create(s, x, e, typed), x, true), e, Some(x))
  }

  // ----- tracing

  function TraceStart<R>(s: State<R>, x: R): (t: State<R>)
    requires Ordered(s) && x in s.reqs
    ensures SameShape(s, t)
    decreases s.reqs[x].birth
  {
    if s.reqs[x].tracedStart then s
    else
      var s1 := MarkTraced(s, x);
      match s.reqs[x].parent
      case None => s1
      case Some(p) =>
        ShapeOrdered(s, s1);
        ShapeTrans(s, s1, TraceStart(s1, p));
        TraceStart(s1, p)
  }

  function MarkTraced<R>(s: State<R>, x: R): (t: State<R>)
    requires x in s.reqs
    ensures SameShape(s, t)
  {
    s.(reqs := s.reqs[x := s.reqs[x].(tracedStart := true)])
  }

  function TraceStop<R>(s: State<R>, x: R): (t: State<R>)
    requires x in s.reqs
    ensures SameShape(s, t)
  {
    s.(reqs := s.reqs[x := s.reqs[x].(traceStopped := true)])
  }

  /** The delayed tracing in `stop`: `slow` says which requests took at least `minClockTrace`. */
  function Trace<R>(s: State<R>, x: R, slow: R -> bool): (t: State<R>)
    requires Ordered(s) && x in s.reqs
    ensures SameShape(s, t)
  {
    if slow(x) then
      ShapeTrans(s, TraceStart(s, x), TraceStop(TraceStart(s, x), x));
      TraceStop(TraceStart(s, x), x)
    else s
  }

  // ----- stopping

  /** The current request becomes the parent; with no parent left, a `request` event is emitted. */
  function Leave<R>(s: State<R>, x: R, e: Option<nat>): (t: State<R>)
    requires x in s.reqs
    ensures SameShape(s, t)
  {
    var s1 := SetCurrent(s, e, s.reqs[x].parent);
    if e.Some? && s.reqs[x].parent.None? then s1.(events := s1.events + [x]) else s1
  }

  function Stop<R>(s: State<R>, x: R, e: Option<nat>, slow: R -> bool): (t: State<R>)
    requires Ordered(s) && x in s.reqs
    ensures SameShape(s, t)
    decreases s.nextEventId - s.reqs[x].birth, 1, 0
  {
    if !s.reqs[x].active then s
    else
      var s1 := SetActive(s, x, false);
      ShapeOrdered(s, s1);
      var s2 := StopAll(s1, s.reqs[x].children, s.reqs[x].birth, e, slow);
      ShapeTrans(s, s1, s2);
      ShapeOrdered(s, s2);
      var s3 := Trace(s2, x, slow);
      ShapeTrans(s, s2, s3);
      ShapeTrans(s, s3, Leave(s3, x, e));
      Leave(s3, x, e)
  }

  /** `children.forEach(c => c.stop())`; they were all born after `low`. */
  function StopAll<R>(s: State<R>, xs: seq<R>, low: nat, e: Option<nat>, slow: R -> bool): (t: State<R>)
    requires Ordered(s) && low < s.nextEventId && BornAfter(s, xs, low)
    ensures SameShape(s, t)
    decreases s.nextEventId - low, 0, |xs|
  {
    if xs == [] then s
    else
      var s1 := Stop(s, xs[0], e, slow);
      ShapeOrdered(s, s1);
      var t := StopAll(s1, xs[1..], low, e, slow);
      ShapeTrans(s, s1, t);
      t
  }

  ghost predicate BornAfter<R>(s: State<R>, xs: seq<R>, low: nat) {
    forall i :: 0 <= i < |xs| ==> xs[i] in s.reqs && s.reqs[xs[i]].birth > low
  }
}
