/**
 sendData and emitMessage of src/appmetrics.cpp as a protocol, one step for each action another
 thread can observe: any number of producers, the event loop, one mutex and one coalescing wakeup.
 */
module MessageProtocol {
  import opened Options
  import opened Transitions

  datatype Message<M> = Message(from: nat, body: M)

  /** Where a producer is in `sendData`: before the lock, in it before and after linking, past it. */
  datatype Producer<M> = Ready | Waiting(m: Message<M>) | Locked(m: Message<M>) | Linked | Unlocked

  /** Where the event loop is in `emitMessage`; `rest` is what is left of the detached list. */
  datatype Consumer<M> =
    | Idle
    | Begun
    | Holding
    | Detached(rest: seq<Message<M>>)
    | Draining(rest: seq<Message<M>>)

  datatype Holder = Nobody | Sender(p: nat) | Loop

  /** `calls`, `enqueued` and `delivered` record what has been sent, linked and handed to the listener. */
  datatype State<M> = State(
    producers: seq<Producer<M>>, consumer: Consumer<M>, holder: Holder,
    messageList: seq<Message<M>>, pending: bool,
    calls: seq<Message<M>>, enqueued: seq<Message<M>>, delivered: seq<Message<M>>)

  datatype Step<M> =
    | Call(p: nat, body: M)
    | Lock(p: nat)
    | Append(p: nat)
    | Unlock(p: nat)
    | AsyncSend(p: nat)
    | Begin
    | LoopLock
    | Detach
    | LoopUnlock
    | Deliver
    | Return

  function Init<M>(producers: nat): (t: State<M>) {
    State(seq(producers, _ => Ready), Idle, Nobody, [], false, [], [], [])
  }

  predicate Enabled<M>(s: State<M>, step: Step<M>) {
    match step
    case Call(p, _) => p < |s.producers| && s.producers[p].Ready?
    case Lock(p) => p < |s.producers| && s.producers[p].Waiting? && s.holder.Nobody?
    case Append(p) => p < |s.producers| && s.producers[p].Locked?
    case Unlock(p) => p < |s.producers| && s.producers[p].Linked?
    case AsyncSend(p) => p < |s.producers| && s.producers[p].Unlocked?
    case Begin => s.consumer.Idle? && s.pending
    case LoopLock => s.consumer.Begun? && s.holder.Nobody?
    case Detach => s.consumer.Holding?
    case LoopUnlock => s.consumer.Detached?
    case Deliver => s.consumer.Draining? && s.consumer.rest != []
    case Return => s.consumer.Draining? && s.consumer.rest == []
  }

  /** The wakeup is a flag: it is set however often it is sent, and cleared before the callback runs. */
  function Take<M>(s: State<M>, step: Step<M>): (t: State<M>)
    requires Enabled(s, step)
  {
    match step
    case Call(p, body) =>
      var m := Message(p, body);
      s.(producers := s.producers[p := Waiting(m)], calls := s.calls + [m])
    case Lock(p) => s.(producers := s.producers[p := Locked(s.producers[p].m)], holder := Sender(p))
    case Append(p) =>
      var m := s.producers[p].m;
      s.(producers := s.producers[p := Linked],
         messageList := s.messageList + [m], enqueued := s.enqueued + [m])
    case Unlock(p) => s.(producers := s.producers[p := Unlocked], holder := Nobody)
    case AsyncSend(p) => s.(producers := s.producers[p := Ready], pending := true)
    case Begin => s.(consumer := Begun, pending := false)
    case LoopLock => s.(consumer := Holding, holder := Loop)
    case Detach => s.(consumer := Detached(s.messageList), messageList := [])
    case LoopUnlock => s.(consumer := Draining(s.consumer.rest), holder := Nobody)
    case Deliver =>
      s.(consumer := Draining(s.consumer.rest[1..]), delivered := s.delivered + [s.consumer.rest[0]])
    case Return => s.(consumer := Idle)
  }

  // ----- the invariant

  predicate InSection<M>(pc: Producer<M>) {
    pc.Locked? || pc.Linked?
  }

  /** Whoever is between lock and unlock holds the mutex, so never two at a time. */
  ghost predicate Mutex<M>(s: State<M>) {
    && (forall p :: 0 <= p < |s.producers| ==> (InSection(s.producers[p]) <==> s.holder == Sender(p)))
    && (s.holder.Sender? ==> s.holder.p < |s.producers|)
    && (s.consumer.Holding? || s.consumer.Detached? <==> s.holder.Loop?)
  }

  function Rest<M>(c: Consumer<M>): (items: seq<Message<M>>) {
    if c.Detached? || c.Draining? then c.rest else []
  }

  /** Nothing lost, repeated or reordered. */
  predicate Conserved<M(==)>(s: State<M>) {
    s.delivered + Rest(s.consumer) + s.messageList == s.enqueued
  }

  /** Producer `p` has linked a message and its wakeup is still to come. */
  predicate AboutToWake<M>(s: State<M>, p: nat) {
    p < |s.producers| && (s.producers[p].Linked? || s.producers[p].Unlocked?)
  }

  /** A message in the list will be noticed. */
  ghost predicate Awake<M>(s: State<M>) {
    s.messageList != [] ==>
      s.pending || s.consumer.Begun? || s.consumer.Holding? || exists p: nat :: AboutToWake(s, p)
  }

  function From<M>(ms: seq<Message<M>>, p: nat): (items: seq<Message<M>>) {
    if ms == [] then []
    else
      var init := From(ms[..|ms| - 1], p);
      if ms[|ms| - 1].from == p then init + [ms[|ms| - 1]] else init
  }

  function InFlight<M>(pc: Producer<M>): (items: seq<Message<M>>) {
    if pc.Waiting? || pc.Locked? then [pc.m] else []
  }

  /** What a producer has sent is what was linked for it, in its own order, and what it still carries. */
  ghost predicate ProgramOrder<M>(s: State<M>) {
    forall p :: 0 <= p < |s.producers| ==>
      && From(s.enqueued, p) + InFlight(s.producers[p]) == From(s.calls, p)
      && (forall m :: m in InFlight(s.producers[p]) ==> m.from == p)
  }

  ghost predicate Inv<M>(s: State<M>) {
    Mutex(s) && Conserved(s) && Awake(s) && ProgramOrder(s)
  }

  // ----- every step keeps it

  lemma {:induction false} FromExtended<M>(ms: seq<Message<M>>, m: Message<M>, p: nat)
    ensures From(ms + [m], p) == From(ms, p) + if m.from == p then [m] else []
  {
    assert (ms + [m])[..|ms|] == ms;
  }

  lemma {:induction false} StepKeepsMutex<M>(s: State<M>, step: Step<M>)
    requires Mutex(s) && Enabled(s, step)
    ensures Mutex(Take(s, step))
  {
  }

  lemma {:induction false} StepConserves<M>(s: State<M>, step: Step<M>)
    requires Mutex(s) && Conserved(s) && Enabled(s, step)
    ensures Conserved(Take(s, step))
  {
    match step
    case Append(p) =>
      var m := s.producers[p].m;
      assert s.delivered + Rest(s.consumer) + (s.messageList + [m])
          == s.delivered + Rest(s.consumer) + s.messageList + [m];
    case Detach =>
      assert s.delivered + [] + s.messageList == s.delivered + s.messageList + [];
    case Deliver =>
      var rest := s.consumer.rest;
      assert s.delivered + [rest[0]] + rest[1..] == s.delivered + rest;
    case _ =>
  }

  lemma {:induction false} StepKeepsAwake<M>(s: State<M>, step: Step<M>)
    requires Mutex(s) && Awake(s) && Enabled(s, step)
    ensures Awake(Take(s, step))
  {
    var t := Take(s, step);
    if step.Append? || step.Unlock? {
      assert AboutToWake(t, step.p);
    } else if p: nat :| AboutToWake(s, p) && t.messageList != [] && !t.pending {
      assert AboutToWake(t, p);
    }
  }

  lemma {:induction false} StepKeepsProgramOrder<M>(s: State<M>, step: Step<M>)
    requires ProgramOrder(s) && Enabled(s, step)
    ensures ProgramOrder(Take(s, step))
  {
    var t := Take(s, step);
    forall p | 0 <= p < |t.producers|
      ensures From(t.enqueued, p) + InFlight(t.producers[p]) == From(t.calls, p)
      ensures forall m :: m in InFlight(t.producers[p]) ==> m.from == p
    {
      if step.Call? {
        FromExtended(s.calls, Message(step.p, step.body), p);
      } else if step.Append? {
        FromExtended(s.enqueued, s.producers[step.p].m, p);
        assert s.producers[step.p].m in InFlight(s.producers[step.p]);
      }
    }
  }

  lemma {:induction false} StepKeepsInv<M>(s: State<M>, step: Step<M>)
    requires Inv(s) && Enabled(s, step)
    ensures Inv(Take(s, step))
  {
    StepKeepsMutex(s, step);
    StepConserves(s, step);
    StepKeepsAwake(s, step);
    StepKeepsProgramOrder(s, step);
  }

  // ----- runs

  function System<M>(): (res: (State<M>, Step<M>) -> Option<State<M>>) {
    (s: State<M>, step: Step<M>) => if Enabled(s, step) then Some(Take(s, step)) else None
  }

  predicate AnyStep<M>(step: Step<M>) {
    true
  }

  lemma {:induction false} InvClosed<M(!new)>()
    ensures Closed(System<M>(), (step: Step<M>) => AnyStep(step), (s: State<M>) => Inv(s))
  {
    forall s: State<M>, step: Step<M> | Inv(s) && System<M>()(s, step).Some?
      ensures Inv(System<M>()(s, step).value)
    {
      StepKeepsInv(s, step);
    }
  }

  /** Safety of every interleaving, from start-up. */
  lemma {:induction false} EveryRunIsSafe<M(!new)>(producers: nat, steps: seq<Step<M>>)
    requires Runs(System<M>(), Init<M>(producers), steps)
    ensures var s := After(System<M>(), Init<M>(producers), steps);
      Mutex(s) && Conserved(s) && Awake(s) && ProgramOrder(s)
  {
    InvClosed<M>();
    RunsKeep(System<M>(), (step: Step<M>) => AnyStep(step), (s: State<M>) => Inv(s), Init<M>(producers), steps);
  }

  /** The messages of the calls among the steps of a run, in order. */
  function Calls<M>(steps: seq<Step<M>>): (ms: seq<Message<M>>) {
    if steps == [] then []
    else (if steps[0].Call? then [Message(steps[0].p, steps[0].body)] else []) + Calls(steps[1..])
  }

  /** The record of calls is that of the run. */
  lemma {:induction false} CallsRecorded<M(!new)>(s: State<M>, steps: seq<Step<M>>)
    requires Runs(System<M>(), s, steps)
    ensures After(System<M>(), s, steps).calls == s.calls + Calls(steps)
    ensures |After(System<M>(), s, steps).producers| == |s.producers|
    decreases |steps|
  {
    if steps != [] {
      CallsRecorded(Take(s, steps[0]), steps[1..]);
    }
  }

  // ----- progress: all steps but new calls

  predicate Internal<M>(step: Step<M>) {
    !step.Call?
  }

  function ProducerWork<M>(pc: Producer<M>): (n: nat) {
    match pc
    case Ready => 0
    case Unlocked => 6
    case Linked => 7
    case Locked(_) => 9
    case Waiting(_) => 10
  }

  function Work<M>(pcs: seq<Producer<M>>): (n: nat) {
    if pcs == [] then 0 else ProducerWork(pcs[0]) + Work(pcs[1..])
  }

  function LoopWork<M>(c: Consumer<M>): (n: nat) {
    match c
    case Idle => 0
    case Draining(rest) => 1 + |rest|
    case Detached(rest) => 2 + |rest|
    case Holding => 3
    case Begun => 4
  }

  function Measure<M>(s: State<M>): (n: nat) {
    Work(s.producers) + LoopWork(s.consumer) + |s.messageList| + if s.pending then 5 else 0
  }

  lemma {:induction false} WorkUpdated<M>(pcs: seq<Producer<M>>, p: nat, pc: Producer<M>)
    requires p < |pcs|
    ensures Work(pcs[p := pc]) + ProducerWork(pcs[p]) == Work(pcs) + ProducerWork(pc)
  {
    if p == 0 {
      assert pcs[0 := pc][1..] == pcs[1..];
    } else {
      WorkUpdated(pcs[1..], p - 1, pc);
      assert pcs[p := pc][1..] == pcs[1..][p - 1 := pc];
    }
  }

  lemma {:induction false} StepDecreases<M>(s: State<M>, step: Step<M>)
    requires Enabled(s, step) && Internal(step)
    ensures Measure(Take(s, step)) < Measure(s)
  {
    var t := Take(s, step);
    if step.Lock? || step.Append? || step.Unlock? || step.AsyncSend? {
      WorkUpdated(s.producers, step.p, t.producers[step.p]);
    }
  }

  /** Once no new calls come in, the threads cannot keep busy for ever. */
  lemma {:induction false} QuietRunsEnd<M(!new)>(s: State<M>, steps: seq<Step<M>>)
    requires Runs(System<M>(), s, steps) && forall i :: 0 <= i < |steps| ==> Internal(steps[i])
    ensures Measure(After(System<M>(), s, steps)) + |steps| <= Measure(s)
  {
    forall s: State<M>, step: Step<M> | Internal(step) && System<M>()(s, step).Some?
      ensures Measure(System<M>()(s, step).value) < Measure(s)
    {
      StepDecreases(s, step);
    }
    RunsEnd(System<M>(), (step: Step<M>) => Internal(step), (s: State<M>) => Measure(s), s, steps);
  }

  ghost predicate Stuck<M(!new)>(s: State<M>) {
    forall step: Step<M> :: Internal(step) ==> !Enabled(s, step)
  }

  lemma {:induction false} StuckMeansReady<M(!new)>(s: State<M>)
    requires Inv(s) && Stuck(s)
    ensures s.holder.Nobody? && s.consumer.Idle? && !s.pending
    ensures forall p :: 0 <= p < |s.producers| ==> s.producers[p].Ready?
  {
    var begin: Step<M>, loopLock: Step<M>, detach: Step<M> := Begin, LoopLock, Detach;
    var loopUnlock: Step<M>, deliver: Step<M>, ret: Step<M> := LoopUnlock, Deliver, Return;
    assert !Enabled(s, begin) && !Enabled(s, loopLock) && !Enabled(s, detach);
    assert !Enabled(s, loopUnlock) && !Enabled(s, deliver) && !Enabled(s, ret);
    forall p | 0 <= p < |s.producers|
      ensures !InSection(s.producers[p]) && !s.producers[p].Unlocked?
    {
      var append: Step<M>, unlock: Step<M>, send: Step<M> := Append(p), Unlock(p), AsyncSend(p);
      assert !Enabled(s, append) && !Enabled(s, unlock) && !Enabled(s, send);
    }
    forall p | 0 <= p < |s.producers|
      ensures s.producers[p].Ready?
    {
      var lock: Step<M> := Lock(p);
      assert !Enabled(s, lock);
    }
  }

  /**
   When nothing but new calls can happen, every message of every call has been delivered, each
   producer's in the order of its calls: no deadlock and no lost wakeup, whatever was coalesced.
   */
  lemma {:induction false} NothingIsStranded<M(!new)>(producers: nat, steps: seq<Step<M>>)
    requires Runs(System<M>(), Init<M>(producers), steps) && Stuck(After(System<M>(), Init<M>(producers), steps))
    ensures var s := After(System<M>(), Init<M>(producers), steps);
      && s.messageList == [] && s.delivered == s.enqueued
      && (forall p :: 0 <= p < producers ==> From(s.delivered, p) == From(Calls(steps), p))
      && forall p, body {:trigger Call(p, body)} :: 0 <= p < producers ==> Enabled(s, Call(p, body))
  {
    var s := After(System<M>(), Init<M>(producers), steps);
    CallsRecorded(Init<M>(producers), steps);
    assert [] + Calls(steps) == Calls(steps);
    EveryRunIsSafe(producers, steps);
    StuckMeansReady(s);
    assert forall p: nat :: !AboutToWake(s, p);
    assert s.delivered + [] + [] == s.delivered;
    forall p | 0 <= p < |s.producers|
      ensures From(s.delivered, p) == From(s.calls, p)
    {
      assert From(s.enqueued, p) + [] == From(s.enqueued, p) && s.calls == Calls(steps);
    }
  }
}
