/** lib/request.js in its own form: request objects that point at each other, updated in place. */
module RequestTracker {
  import opened Options
  import opened RequestTree
  import opened RequestInvariant
  import opened RequestRuns

  class Request {
    var parent: Request?
    var children: seq<Request>
    var top: Request
    var active: bool
    var tracedStart: bool
    var traceStopped: bool
    var id: nat
    const typed: bool
    ghost const domain: Option<nat>
    ghost const birth: nat

    constructor (typed: bool, parent: Request?, id: nat, ghost domain: Option<nat>, ghost birth: nat)
      ensures var p: Option<Request> := if parent == null then None else Some(parent);
        var t: Request := if parent == null then this else parent.top;
        Snapshot() == Record(p, [], t, false, false, false, typed, id, domain, birth)
    {
      this.typed, this.parent, this.id, this.domain, this.birth := typed, parent, id, domain, birth;
      children, active, tracedStart, traceStopped := [], false, false, false;
      if parent == null {
        top := this;
      } else {
        top := parent.top;
      }
    }

    ghost function Snapshot(): (res: Record<Request>)
      reads this
    {
      var p: Option<Request> := if parent == null then None else Some(parent);
      Record(p, children, top, active, tracedStart, traceStopped,
             typed, id, domain, birth)
    }
  }

  ghost function Records(all: set<Request>): (res: map<Request, Record<Request>>)
    reads all
  {
    map r | r in all :: r.Snapshot()
  }

  lemma {:induction false} OneMore(all: set<Request>, req: Request)
    requires req !in all
    ensures Records(all + {req}) == Records(all)[req := req.Snapshot()]
  {
  }

  lemma {:induction false} ChildrenBornAfter<R>(s: State<R>, r: R)
    requires Ordered(s) && r in s.reqs
    ensures s.reqs[r].birth < s.nextEventId && BornAfter(s, s.reqs[r].children, s.reqs[r].birth)
  {
  }

  /** Halfway through the children: `xs` are still to be stopped, and doing so leads to `done`. */
  ghost predicate Pending<R>(s: State<R>, xs: seq<R>, low: nat, e: Option<nat>, slow: R -> bool, done: State<R>) {
    && Ordered(s) && low < s.nextEventId && BornAfter(s, xs, low)
    && StopAll(s, xs, low, e, slow) == done
  }

  lemma {:induction false} PendingStep<R>(s: State<R>, xs: seq<R>, i: nat, low: nat, e: Option<nat>,
      slow: R -> bool, done: State<R>)
    requires i < |xs| && Pending(s, xs[i..], low, e, slow, done)
    ensures xs[i] in s.reqs && s.reqs[xs[i]].birth > low
    ensures var t := Stop(s, xs[i], e, slow);
      t.nextEventId == s.nextEventId && Pending(t, xs[i + 1..], low, e, slow, done)
  {
    assert xs[i..][0] == xs[i] && xs[i..][1..] == xs[i + 1..];
    ShapeOrdered(s, Stop(s, xs[i], e, slow));
  }

  /** The module's counters, the `currentRequest` of each domain, and the events emitted. */
  class Tracker {
    var nextRequestId: nat
    var nextEventId: nat
    var current: map<nat, Request>
    var events: seq<Request>
    var nextDomain: nat
    ghost var all: set<Request>

    constructor ()
      ensures View() == Init() && all == {}
    {
      nextRequestId, nextEventId, current, events, nextDomain, all := 1, 1, map[], [], 0, {};
    }

    ghost function View(): (t: State<Request>)
      reads this, all
    {
      State(Records(all), nextRequestId, nextEventId, current, events)
    }

    /** `this.parent.children.push(this)`. */
    method Adopt(parent: Request, req: Request)
      requires parent in all
      modifies parent`children
      ensures parent.children == old(parent.children) + [req] && parent.top == old(parent.top)
      ensures Records(all)
        == old(Records(all))[parent := old(parent.Snapshot()).(children := old(parent.children) + [req])]
    {
      parent.children := parent.children + [req];
      assert Records(all) == old(Records(all))[parent := parent.Snapshot()];
    }

    /** The constructor function, from where the domain in force is known. */
    method NewRequest(typed: bool, e: Option<nat>) returns (req: Request)
      requires CurrentsKnown(View())
      modifies this, all
      ensures fresh(req) && all == old(all) + {req} && nextDomain == old(nextDomain)
      ensures req !in old(View()).reqs && View() == Create(old(View()), req, e, typed)
    {
      if e.Some? && e.value in current {
        req := NewChild(typed, e, current[e.value]);
      } else {
        req := NewRoot(typed, e);
      }
    }

    /** A new request becomes known. */
    method Register(req: Request)
      requires req !in all
      modifies this`all
      ensures all == old(all) + {req} && Records(all) == old(Records(all))[req := req.Snapshot()]
    {
      OneMore(all, req);
      all := all + {req};
    }

    /** The constructor's branch for a request below a current one. */
    method NewChild(typed: bool, e: Option<nat>, parent: Request) returns (req: Request)
      requires parent in all && Current(View(), e) == Some(parent)
      modifies this`nextEventId, this`all, parent`children
      ensures fresh(req) && all == old(all) + {req}
      ensures req !in old(View()).reqs && View() == Create(old(View()), req, e, typed)
    {
      ghost var s := View();
      req := new Request(typed, parent, nextEventId, e, nextEventId);
      assert Records(all) == s.reqs;
      ghost var rec := req.Snapshot();
      nextEventId := nextEventId + 1;
      Adopt(parent, req);
      assert req.Snapshot() == rec;
      Register(req);
    }

    /** The constructor's branch for a root, which numbers typed requests on their own. */
    method NewRoot(typed: bool, e: Option<nat>) returns (req: Request)
      requires Current(View(), e) == None
      modifies this`nextRequestId, this`nextEventId, this`all
      ensures fresh(req) && all == old(all) + {req}
      ensures req !in old(View()).reqs && View() == Create(old(View()), req, e, typed)
    {
      ghost var s := View();
      var id := nextEventId;
      if typed {
        id := nextRequestId;
        nextRequestId := nextRequestId + 1;
      }
      req := new Request(typed, null, id, e, nextEventId);
      nextEventId := nextEventId + 1;
      assert Records(all) == s.reqs;
      Register(req);
    }

    /** `Request.prototype.start`. */
    method Activate(req: Request, e: Option<nat>)
      requires req in all
      modifies this`current, req`active
      ensures View() == SetCurrent(SetActive(old(View()), req, true), e, Some(req))
    {
      if e.Some? {
        current := current[e.value := req];
      }
      req.active := true;
      assert Records(all) == old(Records(all))[req := req.Snapshot()];
    }

    /** `startRequest` and `startMethod`: with `root`, in a new domain that is entered first. */
    method StartRequest(typed: bool, root: bool, ambient: Option<nat>) returns (req: Request, e: Option<nat>)
      requires CurrentsKnown(View()) && (forall d :: d in current ==> d < nextDomain)
      requires ambient.Some? ==> ambient.value < nextDomain
      modifies this, all
      ensures fresh(req) && all == old(all) + {req}
      ensures if root then e == Some(old(nextDomain)) && nextDomain == old(nextDomain) + 1
              else e == ambient && nextDomain == old(nextDomain)
      ensures root ==> old(nextDomain) !in old(current)
      ensures req !in old(View()).reqs && View() == Start(old(View()), req, e, typed)
      ensures forall d :: d in current ==> d < nextDomain
    {
      e := ambient;
      if root {
        e := Some(nextDomain);
        nextDomain := nextDomain + 1;
      }
      assert View() == old(View());
      req := NewRequest(typed, e);
      Activate(req, e);
    }

    /** `Request.prototype.traceStart`, upwards until a request that is traced already. */
    method TraceRequest(req: Request)
      requires Ordered(View()) && req in all
      modifies all
      ensures View() == TraceStart(old(View()), req)
      decreases req.birth
    {
      if !req.tracedStart {
        req.tracedStart := true;
        assert Records(all) == old(Records(all))[req := req.Snapshot()];
        assert View() == MarkTraced(old(View()), req);
        ShapeOrdered(old(View()), View());
        if req.parent != null {
          TraceRequest(req.parent);
        }
      }
    }

    /** `Request.prototype.stop`, running in domain `e`; `slow` stands for the timers and the configured threshold. */
    method StopRequest(req: Request, e: Option<nat>, slow: Request -> bool)
      requires Ordered(View()) && req in all
      modifies this`current, this`events, all
      ensures View() == Stop(old(View()), req, e, slow)
      decreases nextEventId - req.birth, 1
    {
      if req.active {
        ghost var s := View();
        Deactivate(req);
        ghost var s1 := View();
        ShapeOrdered(s, s1);
        ChildrenBornAfter(s1, req);
        StopChildren(req, e, slow);
        ghost var s2 := StopAll(s1, s.reqs[req].children, s.reqs[req].birth, e, slow);
        ShapeOrdered(s1, s2);
        if slow(req) {
          TraceLate(req, slow);
        }
        LeaveRequest(req, e);
      }
    }

    /** The first assignment of `stop`. */
    method Deactivate(req: Request)
      requires req in all
      modifies req`active
      ensures View() == SetActive(old(View()), req, false)
    {
      req.active := false;
      assert Records(all) == old(Records(all))[req := req.Snapshot()];
    }

    /** Tracing that was delayed until a request turned out to be slow. */
    method TraceLate(req: Request, slow: Request -> bool)
      requires Ordered(View()) && req in all && slow(req)
      modifies all
      ensures View() == Trace(old(View()), req, slow)
    {
      TraceRequest(req);
      Finish(req);
    }

    /** `traceStop`, without the stack it fetches. */
    method Finish(req: Request)
      requires req in all
      modifies req`traceStopped
      ensures View() == TraceStop(old(View()), req)
    {
      req.traceStopped := true;
      assert Records(all) == old(Records(all))[req := req.Snapshot()];
    }

    /** The end of `stop`: the parent becomes current; without one, a `request` event is raised. */
    method LeaveRequest(req: Request, e: Option<nat>)
      requires req in all
      modifies this`current, this`events
      ensures View() == Leave(old(View()), req, e)
    {
      if e.Some? {
        if req.parent != null {
          current := current[e.value := req.parent];
        } else {
          current := current - {e.value};
          events := events + [req];
        }
      }
    }

    /** `this.children.forEach(c => c.stop())`. */
    method StopChildren(req: Request, e: Option<nat>, slow: Request -> bool)
      requires Ordered(View()) && req in all
      requires req.birth < nextEventId && BornAfter(View(), req.children, req.birth)
      modifies this`current, this`events, all
      ensures View() == StopAll(old(View()), old(req.children), req.birth, e, slow)
      decreases nextEventId - req.birth, 0
    {
      var children := req.children;
      ghost var done := StopAll(View(), children, req.birth, e, slow);
      assert children[0..] == children;
      var i := 0;
      while i < |children|
        invariant 0 <= i <= |children| && nextEventId == old(nextEventId)
        invariant Pending(View(), children[i..], req.birth, e, slow, done)
      {
        PendingStep(View(), children, i, req.birth, e, slow, done);
        StopRequest(children[i], e, slow);
        i := i + 1;
      }
      assert children[i..] == [];
    }
  }
}
